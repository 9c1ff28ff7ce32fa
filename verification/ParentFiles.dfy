/**
 * The descriptors the parent opens for the stages of a pipeline, the pipes between them
 * aside: the files of their redirections and the two ends of each exec-status pipe.
 */
module ParentFiles {
  import opened Basics
  import opened Engine

  datatype Fd = File(stage: nat, index: nat) | StatusRead(stage: nat) | StatusWrite(stage: nat)

  // One stage: how many files it redirects, which of them cannot be opened if one cannot, and
  // what becomes of its launch.
  datatype Attempt = Attempt(files: nat, failing: nat, launch: Launch)

  predicate ValidAttempts(plan: seq<Attempt>) {
    forall i {:trigger plan[i]} :: 0 <= i < |plan| && plan[i].launch.RedirectionRefused? ==> plan[i].failing < plan[i].files
  }

  // The stages before the first one that could not be launched.
  function Started(plan: seq<Attempt>): (k: nat)
    ensures k <= |plan|
    ensures k < |plan| ==> !plan[k].launch.Forked?
    ensures forall i :: 0 <= i < k ==> plan[i].launch.Forked?
  {
    if plan == [] || !plan[0].launch.Forked? then 0 else 1 + Started(plan[1..])
  }

  function Files(stage: nat, count: nat): set<Fd> {
    set j | 0 <= j < count :: File(stage, j)
  }

  // What the parent has open for a stage after its turn of the launch loop.
  function OpenedFor(a: Attempt, stage: nat): set<Fd> {
    match a.launch
    case RedirectionRefused => {}
    case StatusPipeRefused => Files(stage, a.files)
    case ForkRefused => Files(stage, a.files) + {StatusRead(stage), StatusWrite(stage)}
    case Forked(_) => Files(stage, a.files) + {StatusRead(stage), StatusWrite(stage)}
  }

  // The stage that could not be launched is left out of every closing loop.
  function LeftOpen(plan: seq<Attempt>): set<Fd> {
    if Started(plan) == |plan| then {} else OpenedFor(plan[Started(plan)], Started(plan))
  }

  /**
   * Nothing stays open in the parent exactly when every stage was launched, or the first one
   * that was not had its own files refused, or had none and no status pipe.
   */
  lemma NothingLeftOpenIff(plan: seq<Attempt>)
    ensures LeftOpen(plan) == {} <==>
      Started(plan) < |plan| ==>
        var a := plan[Started(plan)]; a.launch.RedirectionRefused? || (a.launch.StatusPipeRefused? && a.files == 0)
  {
    if Started(plan) < |plan| {
      var k, a := Started(plan), plan[Started(plan)];
      if a.launch.StatusPipeRefused? && a.files > 0 {
        assert File(k, 0) in Files(k, a.files);
      } else if a.launch.ForkRefused? {
        assert StatusRead(k) in OpenedFor(a, k);
      }
    }
  }

  // Two stages with one file each, the second of which cannot be forked.
  lemma FailedForkLeaks()
    ensures LeftOpen([Attempt(1, 0, Forked(7)), Attempt(1, 0, ForkRefused)]) == {File(1, 0), StatusRead(1), StatusWrite(1)}
  {
    var plan := [Attempt(1, 0, Forked(7)), Attempt(1, 0, ForkRefused)];
    assert plan[1..] == [Attempt(1, 0, ForkRefused)];
    assert Started(plan[1..]) == 0 && Started(plan) == 1;
    assert Files(1, 1) == {File(1, 0)};
  }

  // An earlier stage's descriptor.
  predicate Earlier(plan: seq<Attempt>, fd: Fd, i: nat)
    requires i <= |plan|
  {
    fd.stage < i && fd in OpenedFor(plan[fd.stage], fd.stage)
  }

  class Parent {
    var open: set<Fd>

    constructor ()
      ensures open == {}
    {
      open := {};
    }

    // The files are opened one by one; when one fails, those before it are closed again.
    method OpenRedirections(stage: nat, a: Attempt) returns (ok: bool)
      requires a.launch.RedirectionRefused? ==> a.failing < a.files
      requires forall fd :: fd in open ==> fd.stage < stage
      modifies this
      ensures ok <==> !a.launch.RedirectionRefused?
      ensures open == if ok then old(open) + Files(stage, a.files) else old(open)
    {
      ghost var before := open;
      for j := 0 to a.files
        invariant open == before + Files(stage, j)
        invariant a.launch.RedirectionRefused? ==> j <= a.failing
      {
        if a.launch.RedirectionRefused? && j == a.failing {
          for m := 0 to j
            invariant forall fd :: fd in open <==> fd in before || (fd.File? && fd.stage == stage && m <= fd.index < j)
          {
            open := open - {File(stage, m)};
          }
          assert open == before;
          return false;
        }
        open := open + {File(stage, j)};
        assert Files(stage, j + 1) == Files(stage, j) + {File(stage, j)};
      }
      return true;
    }

    // The launch loop, which stops at the first stage that fails.
    method LaunchAll(plan: seq<Attempt>) returns (started: nat)
      requires ValidAttempts(plan) && open == {}
      modifies this
      ensures started == Started(plan)
      ensures forall fd :: fd in open <==> Earlier(plan, fd, started) || fd in LeftOpen(plan)
    {
      var i := 0;
      while i < |plan|
        invariant 0 <= i <= Started(plan)
        invariant forall fd :: fd in open <==> Earlier(plan, fd, i)
        decreases |plan| - i
      {
        var a := plan[i];
        var ok := OpenRedirections(i, a);
        if !ok || a.launch.StatusPipeRefused? {
          return i;
        }
        open := open + {StatusRead(i), StatusWrite(i)};
        if !a.launch.Forked? {
          return i;
        }
        i := i + 1;
      }
      return i;
    }

    // After the launch loop: the files of the stages that have a process, then their status
    // pipes.
    method CloseAfterLaunch(plan: seq<Attempt>, started: nat)
      requires started == Started(plan)
      requires forall fd :: fd in open <==> Earlier(plan, fd, started) || fd in LeftOpen(plan)
      modifies this
      ensures open == LeftOpen(plan)
    {
      ghost var before := open;
      for i := 0 to |plan|
        invariant forall fd :: fd in open <==> fd in before && !(fd.File? && fd.stage < i && fd.stage < started)
      {
        if i < started {
          CloseRedirections(i, plan[i].files);
        }
      }
      for i := 0 to |plan|
        invariant forall fd :: fd in open <==> fd in before && !(fd.stage < started && (fd.File? || fd.stage < i))
      {
        if i < started {
          open := open - {StatusWrite(i)};
          open := open - {StatusRead(i)};
        }
      }
    }

    method CloseRedirections(stage: nat, files: nat)
      modifies this
      ensures open == old(open) - Files(stage, files)
    {
      for j := 0 to files
        invariant open == old(open) - Files(stage, j)
      {
        open := open - {File(stage, j)};
        assert Files(stage, j + 1) == Files(stage, j) + {File(stage, j)};
      }
    }

    /** A whole pipeline: what the parent has open when every stage has been dealt with. */
    method RunPipeline(plan: seq<Attempt>)
      requires ValidAttempts(plan) && open == {}
      modifies this
      ensures open == LeftOpen(plan)
    {
      var started := LaunchAll(plan);
      CloseAfterLaunch(plan, started);
    }
  }
}
