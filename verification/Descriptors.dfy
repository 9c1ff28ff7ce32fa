/**
 * Who holds which end of which pipe while a pipeline is being launched.  Every pipe exists
 * before the first fork; each child copies the parent's descriptors and closes what it does
 * not own, at its own pace; the parent closes its copies after the last fork.
 */
module Descriptors {
  import opened Basics

  datatype End = ReadEnd(pipe: nat) | WriteEnd(pipe: nat)

  // `pos` is the pipe the close loop has come to; `half` says its read end is dealt with.
  datatype Child = Child(held: set<End>, pos: nat, half: bool, alive: bool)

  datatype State = State(n: nat, parent: set<End>, parentPos: nat, launched: bool, children: seq<Child>)

  datatype Step = Fork | LaunchDone | CloseInChild(i: nat) | CloseInParent | Exit(i: nat)

  function AllEnds(n: nat): set<End>
    requires n >= 1
  {
    (set k | 0 <= k < n - 1 :: ReadEnd(k)) + (set k | 0 <= k < n - 1 :: WriteEnd(k))
  }

  function Initial(n: nat): State
    requires n >= 1
  {
    State(n, AllEnds(n), 0, false, [])
  }

  // The ends stage i keeps: it reads the pipe before it and writes the one after it.
  predicate Owns(n: nat, i: nat, e: End) {
    match e
    case ReadEnd(k) => i > 0 && k == i - 1
    case WriteEnd(k) => i + 1 < n && k == i
  }

  predicate Enabled(s: State, step: Step) {
    match step
    case Fork => !s.launched && |s.children| < s.n
    case LaunchDone => true
    case CloseInChild(i) => i < |s.children| && s.children[i].alive && s.children[i].pos + 1 < s.n
    case CloseInParent => s.launched && s.parentPos + 1 < s.n
    case Exit(i) => i < |s.children|
  }

  // One close of the child's loop: the read end of its current pipe, then the write end.
  function ChildCloses(n: nat, i: nat, c: Child): Child {
    if !c.half then c.(held := c.held - (if Owns(n, i, ReadEnd(c.pos)) then {} else {ReadEnd(c.pos)}), half := true)
    else c.(held := c.held - (if Owns(n, i, WriteEnd(c.pos)) then {} else {WriteEnd(c.pos)}), half := false, pos := c.pos + 1)
  }

  function Next(s: State, step: Step): State
    requires Enabled(s, step)
  {
    match step
    case Fork => s.(children := s.children + [Child(s.parent, 0, false, true)])
    case LaunchDone => s.(launched := true)
    case CloseInChild(i) => s.(children := s.children[i := ChildCloses(s.n, i, s.children[i])])
    case CloseInParent =>
      s.(parent := s.parent - {ReadEnd(s.parentPos), WriteEnd(s.parentPos)}, parentPos := s.parentPos + 1)
    case Exit(i) => s.(children := s.children[i := s.children[i].(held := {}, alive := false)])
  }

  // ------------------------------------------------------------------- the invariant

  predicate InPipeline(n: nat, e: End) {
    e.pipe + 1 < n
  }

  // The loop has not come to this end yet.
  predicate Ahead(c: Child, e: End) {
    e.pipe > c.pos || (e.pipe == c.pos && (e.WriteEnd? || !c.half))
  }

  ghost predicate ChildOk(n: nat, i: nat, c: Child) {
    if c.alive then forall e :: e in c.held <==> InPipeline(n, e) && (Owns(n, i, e) || Ahead(c, e))
    else c.held == {}
  }

  ghost predicate Inv(s: State) {
    && s.n >= 1 && |s.children| <= s.n
    && (s.parentPos > 0 ==> s.launched)
    && (forall e :: e in s.parent <==> InPipeline(s.n, e) && e.pipe >= s.parentPos)
    && (forall i {:trigger ChildOk(s.n, i, s.children[i])} :: 0 <= i < |s.children| ==> ChildOk(s.n, i, s.children[i]))
  }

  lemma AllEndsAre(n: nat, e: End)
    requires n >= 1
    ensures e in AllEnds(n) <==> InPipeline(n, e)
  {}

  lemma InitialOk(n: nat)
    requires n >= 1
    ensures Inv(Initial(n))
  {
    forall e ensures e in AllEnds(n) <==> InPipeline(n, e) {
      AllEndsAre(n, e);
    }
  }

  lemma ChildKeeps(n: nat, i: nat, c: Child)
    requires ChildOk(n, i, c) && c.alive && c.pos + 1 < n
    ensures ChildOk(n, i, ChildCloses(n, i, c))
  {}

  lemma StepKeeps(s: State, step: Step)
    requires Inv(s) && Enabled(s, step)
    ensures Inv(Next(s, step))
  {
    var t := Next(s, step);
    forall k {:trigger ChildOk(t.n, k, t.children[k])} | 0 <= k < |t.children| ensures ChildOk(t.n, k, t.children[k]) {
      if k < |s.children| {
        assert ChildOk(s.n, k, s.children[k]);
        if step == CloseInChild(k) {
          ChildKeeps(s.n, k, s.children[k]);
        }
      }
    }
  }

  function Run(s: State, steps: seq<Step>): Option<State>
    decreases |steps|
  {
    if steps == [] then Some(s)
    else if !Enabled(s, steps[0]) then None
    else Run(Next(s, steps[0]), steps[1..])
  }

  lemma {:induction false} RunKeeps(s: State, steps: seq<Step>)
    requires Inv(s) && Run(s, steps).Some?
    ensures Inv(Run(s, steps).value) && Run(s, steps).value.n == s.n
    decreases |steps|
  {
    if steps != [] {
      StepKeeps(s, steps[0]);
      RunKeeps(Next(s, steps[0]), steps[1..]);
    }
  }

  // ------------------------------------------------------------------- the theorem

  // Every child is past its close loop, or gone, and the parent has closed its copies.
  predicate Settled(s: State) {
    && s.parentPos + 1 >= s.n
    && forall i :: 0 <= i < |s.children| ==> !s.children[i].alive || s.children[i].pos + 1 >= s.n
  }

  predicate Holds(s: State, i: nat, e: End) {
    i < |s.children| && e in s.children[i].held
  }

  predicate Running(s: State, i: nat) {
    i < |s.children| && s.children[i].alive
  }

  /**
   * Whatever the order of the closes: once they are done, the write end of pipe k is held by
   * stage k alone and the read end by stage k + 1 alone, for as long as they run, and the
   * parent holds neither.
   */
  lemma EachEndHasOneHolder(n: nat, steps: seq<Step>, k: nat, i: nat)
    requires n >= 1 && Run(Initial(n), steps).Some? && Settled(Run(Initial(n), steps).value) && k + 1 < n
    ensures var s := Run(Initial(n), steps).value;
      && ReadEnd(k) !in s.parent && WriteEnd(k) !in s.parent
      && (Holds(s, i, WriteEnd(k)) <==> i == k && Running(s, i))
      && (Holds(s, i, ReadEnd(k)) <==> i == k + 1 && Running(s, i))
  {
    InitialOk(n);
    RunKeeps(Initial(n), steps);
    var s := Run(Initial(n), steps).value;
    if i < |s.children| {
      assert ChildOk(s.n, i, s.children[i]);
    }
  }

  // The reader of pipe k is at its end of file exactly when stage k is gone, and a writer to
  // it is signalled exactly when stage k + 1 is gone.
  lemma ExitIsSeenByNeighbours(n: nat, steps: seq<Step>, k: nat)
    requires n >= 1 && Run(Initial(n), steps).Some? && Settled(Run(Initial(n), steps).value) && k + 1 < n
    ensures var s := Run(Initial(n), steps).value;
      && ((forall i: nat :: !Holds(s, i, WriteEnd(k))) <==> !Running(s, k))
      && ((forall i: nat :: !Holds(s, i, ReadEnd(k))) <==> !Running(s, k + 1))
  {
    var s := Run(Initial(n), steps).value;
    forall i: nat ensures (Holds(s, i, WriteEnd(k)) <==> i == k && Running(s, i)) && (Holds(s, i, ReadEnd(k)) <==> i == k + 1 && Running(s, i)) {
      EachEndHasOneHolder(n, steps, k, i);
    }
    EachEndHasOneHolder(n, steps, k, k);
    EachEndHasOneHolder(n, steps, k, k + 1);
  }
}
