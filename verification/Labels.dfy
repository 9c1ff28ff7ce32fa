/** The recorded labels of a stage's standard streams against the wiring it really gets. */
module Labels {
  import opened Basics
  import opened Pipeline
  import opened Wiring

  // The stage's redirections with the descriptors they were opened at.
  function OpenAll(rs: seq<Redirection>, fds: seq<nat>): seq<OpenRedir>
    requires |fds| == |rs|
  {
    seq(|rs|, i requires 0 <= i < |rs| => OpenRedir(fds[i], rs[i].targetFd))
  }

  predicate ByKind(rs: seq<Redirection>) {
    forall i {:trigger rs[i]} :: 0 <= i < |rs| ==> rs[i].targetFd == TargetFd(rs[i].kind)
  }

  lemma {:induction false} NamedStreams(rs: seq<Redirection>, fds: seq<nat>)
    requires |fds| == |rs| && ByKind(rs)
    ensures LastNaming(OpenAll(rs, fds), 0).Some? <==> Reads(rs)
    ensures LastNaming(OpenAll(rs, fds), 1).Some? <==> Writes(rs)
    decreases |rs|
  {
    if rs != [] {
      var n := |rs| - 1;
      var init, last := rs[..n], rs[n];
      assert rs == init + [last];
      assert OpenAll(rs, fds)[..n] == OpenAll(init, fds[..n]);
      assert forall i {:trigger init[i]} :: 0 <= i < n ==> init[i] == rs[i];
      NamedStreams(init, fds[..n]);
      ReadsLast(init, last);
    }
  }

  lemma ReadsLast(init: seq<Redirection>, last: Redirection)
    ensures Reads(init + [last]) <==> Reads(init) || last.kind == In
    ensures Writes(init + [last]) <==> Writes(init) || last.kind == Out || last.kind == Append
  {
    assert forall r :: r in init + [last] <==> r in init || r == last;
  }

  // What a reader of the record takes a label to mean.
  function WordFor(f: File): string {
    match f
    case Target(_) => "file"
    case PipeEnd(_) => "pipe"
    case Inherited(_) => "inherit"
  }

  // The child's table as the launch leaves it: streams inherited, pipe ends and files above.
  predicate Launched(t: Table, inFd: Option<nat>, outFd: Option<nat>, rs: seq<OpenRedir>) {
    && Ready(t, inFd, outFd, rs)
    && t[0].Inherited? && t[1].Inherited?
    && (inFd.Some? ==> t[inFd.value].PipeEnd?) && (outFd.Some? ==> t[outFd.value].PipeEnd?)
    && forall i {:trigger rs[i]} :: 0 <= i < |rs| ==> t[rs[i].fd].Target?
  }

  lemma LastIsFile(t: Table, rs: seq<OpenRedir>, std: nat)
    requires Pending(t, rs) && forall i {:trigger rs[i]} :: 0 <= i < |rs| ==> t[rs[i].fd].Target?
    ensures LastNaming(rs, std).Some? ==> LastNaming(rs, std).value in t && t[LastNaming(rs, std).value].Target?
  {
    LastNamingIsOpen(t, rs, std);
    if LastNaming(rs, std).Some? {
      var i := LastNamingMember(rs, std);
      assert t[rs[i].fd].Target?;
    }
  }

  /**
   * A label tells where the stream really goes except where a redirection replaces a pipe:
   * then the stream is a file and the label still says pipe.
   */
  lemma LabelTellsTheWiringIff(stage: Stage, s: nat, n: nat, t: Table, inFd: Option<nat>, outFd: Option<nat>, fds: seq<nat>)
    requires |fds| == |stage.redirs| && ByKind(stage.redirs) && s < n
    requires (inFd.Some? <==> s > 0) && (outFd.Some? <==> s + 1 < n)
    requires Launched(t, inFd, outFd, OpenAll(stage.redirs, fds))
    ensures var rs := OpenAll(stage.redirs, fds);
      && Pending(PipedOver(t, inFd, outFd), rs)
      && var u := ApplyAll(PipedOver(t, inFd, outFd), rs);
      && 0 in u && 1 in u
      && (Labelled(stage, s, n).stdinSource == WordFor(u[0]) <==> !(s > 0 && Reads(stage.redirs)))
      && (Labelled(stage, s, n).stdoutDest == WordFor(u[1]) <==> !(s + 1 < n && Writes(stage.redirs)))
  {
    var rs := OpenAll(stage.redirs, fds);
    NamedStreams(stage.redirs, fds);
    StandardDescriptors(t, inFd, outFd, rs, 0);
    StandardDescriptors(t, inFd, outFd, rs, 1);
    LastIsFile(t, rs, 0);
    LastIsFile(t, rs, 1);
    assert "file" != "pipe" && "file" != "inherit" && "pipe" != "inherit" by {
      assert |"inherit"| == 7 && |"pipe"| == 4 && "pipe"[0] != "file"[0];
    }
  }

  // The first stage of a > f | b: labelled pipe, writing to the file.
  lemma PipeLabelOnAFile(argv: seq<string>, f: string)
    ensures var stage := Stage(argv, [Redirection(Out, f, 1)], "", "");
      var t := map[0 := Inherited(0), 1 := Inherited(1), 2 := Inherited(2), 3 := PipeEnd(false), 4 := Target(0)];
      var rs := OpenAll(stage.redirs, [4]);
      && Pending(PipedOver(t, None, Some(3)), rs)
      && Labelled(stage, 0, 2).stdoutDest == "pipe"
      && var u := ApplyAll(PipedOver(t, None, Some(3)), rs); 1 in u && u[1] == Target(0)
  {
    var t := map[0 := Inherited(0), 1 := Inherited(1), 2 := Inherited(2), 3 := PipeEnd(false), 4 := Target(0)];
    var rs := OpenAll([Redirection(Out, f, 1)], [4]);
    assert rs == [OpenRedir(4, 1)];
    StandardDescriptors(t, None, Some(3), rs, 1);
  }
}
