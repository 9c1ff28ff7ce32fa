/** How a child's standard descriptors are wired just before it becomes the program. */
module Wiring {
  import opened Basics

  // What a descriptor refers to.
  datatype File = Inherited(fd: nat) | PipeEnd(isRead: bool) | Target(index: nat)

  type Table = map<nat, File>

  // An opened redirection: its descriptor and the standard descriptor it names.
  datatype OpenRedir = OpenRedir(fd: nat, target: nat)

  function Dup2(t: Table, fd: nat, target: nat): Table
    requires fd in t
  {
    t[target := t[fd]]
  }

  // One turn of the redirection loop.
  function Applied(t: Table, r: OpenRedir): Table
    requires r.fd in t
  {
    if r.fd == r.target then t else Dup2(t, r.fd, r.target) - {r.fd}
  }

  // A redirection's descriptor lies above the standard ones, or already is its target: a file
  // opened where a standard descriptor was closed.
  predicate Pending(t: Table, rs: seq<OpenRedir>) {
    && (forall i {:trigger rs[i]} :: 0 <= i < |rs| ==> rs[i].fd in t && rs[i].target <= 2 && (rs[i].fd > 2 || rs[i].fd == rs[i].target))
    && (forall i, j {:trigger rs[i], rs[j]} :: 0 <= i < j < |rs| ==> rs[i].fd != rs[j].fd && rs[j].fd != rs[i].target)
  }

  function ApplyAll(t: Table, rs: seq<OpenRedir>): Table
    requires Pending(t, rs)
    decreases |rs|
  {
    if rs == [] then t
    else
      (PendingTail(t, rs);
       ApplyAll(Applied(t, rs[0]), rs[1..]))
  }

  lemma PendingTail(t: Table, rs: seq<OpenRedir>)
    requires Pending(t, rs) && rs != []
    ensures Pending(Applied(t, rs[0]), rs[1..])
  {
    var rest := rs[1..];
    forall i {:trigger rest[i]} | 0 <= i < |rest|
      ensures rest[i].fd in Applied(t, rs[0]) && rest[i].target <= 2 && (rest[i].fd > 2 || rest[i].fd == rest[i].target)
    {
      assert rest[i] == rs[i + 1] && rs[0].fd != rs[i + 1].fd;
    }
    forall i, j {:trigger rest[i], rest[j]} | 0 <= i < j < |rest| ensures rest[i].fd != rest[j].fd && rest[j].fd != rest[i].target {
      assert rest[i] == rs[i + 1] && rest[j] == rs[j + 1];
    }
  }

  // ------------------------------------------------------------------ what it means

  // The last redirection that names this descriptor.
  function LastNaming(rs: seq<OpenRedir>, target: nat): Option<nat> {
    if rs == [] then None
    else if rs[|rs| - 1].target == target then Some(rs[|rs| - 1].fd)
    else LastNaming(rs[..|rs| - 1], target)
  }

  function PipedOver(t: Table, inFd: Option<nat>, outFd: Option<nat>): Table
    requires (inFd.Some? ==> inFd.value in t) && (outFd.Some? ==> outFd.value in t && outFd.value > 2)
  {
    var u := if inFd.Some? then Dup2(t, inFd.value, 0) else t;
    if outFd.Some? then Dup2(u, outFd.value, 1) else u
  }

  // What a standard descriptor should refer to: the last redirection naming it, else its end
  // of a pipe, else what was inherited.
  function Wanted(t: Table, inFd: Option<nat>, outFd: Option<nat>, rs: seq<OpenRedir>, std: nat): File
    requires (inFd.Some? ==> inFd.value in t) && (outFd.Some? ==> outFd.value in t) && std in t
    requires forall i {:trigger rs[i]} :: 0 <= i < |rs| ==> rs[i].fd in t
  {
    var last := LastNaming(rs, std);
    if last.Some? then (LastNamingIsOpen(t, rs, std); t[last.value])
    else if std == 0 && inFd.Some? then t[inFd.value]
    else if std == 1 && outFd.Some? then t[outFd.value]
    else t[std]
  }

  lemma {:induction false} LastNamingIsOpen(t: Table, rs: seq<OpenRedir>, std: nat)
    requires forall i {:trigger rs[i]} :: 0 <= i < |rs| ==> rs[i].fd in t
    ensures LastNaming(rs, std).Some? ==> LastNaming(rs, std).value in t
  {
    if rs != [] && rs[|rs| - 1].target != std {
      LastNamingIsOpen(t, rs[..|rs| - 1], std);
    }
  }

  lemma {:induction false} LastNamingCons(rs: seq<OpenRedir>, std: nat)
    requires rs != []
    ensures LastNaming(rs, std) == if LastNaming(rs[1..], std).Some? then LastNaming(rs[1..], std)
      else if rs[0].target == std then Some(rs[0].fd) else None
  {
    if |rs| > 1 {
      var init := rs[..|rs| - 1];
      assert rs[1..][..|rs| - 2] == init[1..] && rs[1..][|rs| - 2] == rs[|rs| - 1];
      if rs[|rs| - 1].target != std {
        LastNamingCons(init, std);
      }
    }
  }

  // Redirections that are still to come keep what their descriptors refer to.
  lemma {:induction false} ApplyAllWires(t: Table, rs: seq<OpenRedir>, std: nat)
    requires Pending(t, rs) && std <= 2 && std in t
    ensures var last, u := LastNaming(rs, std), ApplyAll(t, rs);
      && (last.Some? ==> last.value in t)
      && std in u && u[std] == if last.Some? then t[last.value] else t[std]
    decreases |rs|
  {
    LastNamingIsOpen(t, rs, std);
    if rs != [] {
      PendingTail(t, rs);
      LastNamingCons(rs, std);
      ApplyAllWires(Applied(t, rs[0]), rs[1..], std);
      LastIsLater(rs, std);
      FirstMoves(t, rs[0], std);
    }
  }

  lemma {:induction false} LastNamingMember(rs: seq<OpenRedir>, std: nat) returns (i: nat)
    requires LastNaming(rs, std).Some?
    ensures i < |rs| && rs[i].fd == LastNaming(rs, std).value
  {
    if rs[|rs| - 1].target == std {
      i := |rs| - 1;
    } else {
      i := LastNamingMember(rs[..|rs| - 1], std);
    }
  }

  lemma LastIsLater(rs: seq<OpenRedir>, std: nat)
    requires rs != []
    requires forall i, j {:trigger rs[i], rs[j]} :: 0 <= i < j < |rs| ==> rs[i].fd != rs[j].fd && rs[j].fd != rs[i].target
    ensures LastNaming(rs[1..], std).Some? ==>
      LastNaming(rs[1..], std).value != rs[0].fd && LastNaming(rs[1..], std).value != rs[0].target
  {
    if LastNaming(rs[1..], std).Some? {
      var i := LastNamingMember(rs[1..], std);
      assert rs[1..][i] == rs[i + 1];
    }
  }

  // One turn sets its target, closes what it no longer needs, and leaves the rest.
  lemma FirstMoves(t: Table, r: OpenRedir, std: nat)
    requires r.fd in t && r.target <= 2 && (r.fd > 2 || r.fd == r.target) && std <= 2 && std in t
    ensures std in Applied(t, r) && Applied(t, r)[std] == t[if r.target == std then r.fd else std]
    ensures forall fd :: fd in t && fd != r.fd && fd != r.target ==> fd in Applied(t, r) && Applied(t, r)[fd] == t[fd]
  {}

  lemma {:induction false} LaterDescriptorsClosed(t: Table, rs: seq<OpenRedir>, fd: nat)
    requires Pending(t, rs) && fd > 2
    ensures fd in ApplyAll(t, rs) <==> fd in t && forall i {:trigger rs[i]} :: 0 <= i < |rs| ==> rs[i].fd != fd
    ensures fd in ApplyAll(t, rs) ==> ApplyAll(t, rs)[fd] == t[fd]
    decreases |rs|
  {
    if rs != [] {
      PendingTail(t, rs);
      LaterDescriptorsClosed(Applied(t, rs[0]), rs[1..], fd);
      assert forall i {:trigger rs[i]} :: 1 <= i < |rs| ==> rs[i] == rs[1..][i - 1];
    }
  }

  // The child's descriptors when it starts: 0 to 2 are open, the pipe ends lie above, and no
  // file was opened where a pipe end is about to go.
  predicate Ready(t: Table, inFd: Option<nat>, outFd: Option<nat>, rs: seq<OpenRedir>) {
    && 0 in t && 1 in t && 2 in t
    && (inFd.Some? ==> inFd.value in t && inFd.value > 2)
    && (outFd.Some? ==> outFd.value in t && outFd.value > 2)
    && Pending(t, rs)
    && (forall i {:trigger rs[i]} :: 0 <= i < |rs| ==> (inFd.Some? ==> rs[i].fd != 0) && (outFd.Some? ==> rs[i].fd != 1))
  }

  lemma PipesKeepPending(t: Table, inFd: Option<nat>, outFd: Option<nat>, rs: seq<OpenRedir>)
    requires Ready(t, inFd, outFd, rs)
    ensures var u := PipedOver(t, inFd, outFd);
      && Pending(u, rs) && (forall fd :: fd in t ==> fd in u)
      && forall i {:trigger rs[i]} :: 0 <= i < |rs| ==> u[rs[i].fd] == t[rs[i].fd]
  {}

  /**
   * Each standard descriptor ends up at the last redirection that names it, else at its end
   * of a pipe, else where it was.
   */
  lemma StandardDescriptors(t: Table, inFd: Option<nat>, outFd: Option<nat>, rs: seq<OpenRedir>, std: nat)
    requires Ready(t, inFd, outFd, rs) && std <= 2
    ensures Pending(PipedOver(t, inFd, outFd), rs)
    ensures var u := ApplyAll(PipedOver(t, inFd, outFd), rs); std in u && u[std] == Wanted(t, inFd, outFd, rs, std)
  {
    PipesKeepPending(t, inFd, outFd, rs);
    ApplyAllWires(PipedOver(t, inFd, outFd), rs, std);
    if LastNaming(rs, std).Some? {
      var i := LastNamingMember(rs, std);
    }
  }

  ghost predicate Wired(u: Table, t: Table, inFd: Option<nat>, outFd: Option<nat>, rs: seq<OpenRedir>, std: nat)
    requires Ready(t, inFd, outFd, rs) && std <= 2
  {
    std in u && u[std] == Wanted(t, inFd, outFd, rs, std)
  }

  // The descriptors of the redirections are closed again; those of the pipes are not.
  lemma OpenedDescriptors(t: Table, inFd: Option<nat>, outFd: Option<nat>, rs: seq<OpenRedir>, fd: nat)
    requires Ready(t, inFd, outFd, rs) && fd > 2 && fd in t
    ensures Pending(PipedOver(t, inFd, outFd), rs)
    ensures fd in ApplyAll(PipedOver(t, inFd, outFd), rs) <==> forall i {:trigger rs[i]} :: 0 <= i < |rs| ==> rs[i].fd != fd
  {
    PipesKeepPending(t, inFd, outFd, rs);
    LaterDescriptorsClosed(PipedOver(t, inFd, outFd), rs, fd);
  }

  // -------------------------------------------------------------- the child's calls

  class Child {
    var table: Table

    constructor (t: Table)
      ensures table == t
    {
      table := t;
    }

    method DupTo(fd: nat, target: nat)
      requires fd in table
      modifies this
      ensures table == Dup2(old(table), fd, target)
    {
      table := table[target := table[fd]];
    }

    method Close(fd: nat)
      modifies this
      ensures table == old(table) - {fd}
    {
      table := table - {fd};
    }

    method ApplyRedirections(rs: seq<OpenRedir>)
      requires Pending(table, rs)
      modifies this
      ensures table == ApplyAll(old(table), rs)
    {
      ghost var goal := ApplyAll(table, rs);
      assert rs[0..] == rs;
      for i := 0 to |rs|
        invariant Pending(table, rs[i..]) && ApplyAll(table, rs[i..]) == goal
      {
        var r := rs[i];
        assert rs[i..][0] == r && rs[i..][1..] == rs[i + 1..];
        PendingTail(table, rs[i..]);
        if r.fd == r.target {
          continue;
        }
        DupTo(r.fd, r.target);
        Close(r.fd);
      }
    }

    method StageApply(inFd: Option<nat>, outFd: Option<nat>, rs: seq<OpenRedir>)
      requires Ready(table, inFd, outFd, rs)
      modifies this
      ensures Pending(PipedOver(old(table), inFd, outFd), rs) && table == ApplyAll(PipedOver(old(table), inFd, outFd), rs)
      ensures forall std :: 0 <= std <= 2 ==> Wired(table, old(table), inFd, outFd, rs, std)
    {
      ghost var t := table;
      PipesKeepPending(table, inFd, outFd, rs);
      if inFd.Some? {
        DupTo(inFd.value, 0);
      }
      if outFd.Some? {
        DupTo(outFd.value, 1);
      }
      assert table == PipedOver(t, inFd, outFd);
      ApplyRedirections(rs);
      assert table == ApplyAll(PipedOver(t, inFd, outFd), rs);
      forall std | 0 <= std <= 2 ensures Wired(table, t, inFd, outFd, rs, std) {
        StandardDescriptors(t, inFd, outFd, rs, std);
      }
    }
  }
}
