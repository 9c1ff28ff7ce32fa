/**
 * Signalling a process that may have exited, against a kernel that may hand its number to
 * someone else between any two steps.  A process is known by its number and start ticks.
 */
module PidSignal {
  import opened Basics

  datatype Process = Process(pid: nat, ticks: nat)

  // Who holds each number now, and every process that ever ran.
  datatype Kernel = Kernel(holders: map<nat, Process>, ever: set<Process>)

  predicate ValidKernel(k: Kernel) {
    forall pid :: pid in k.holders ==> k.holders[pid].pid == pid && k.holders[pid] in k.ever
  }

  predicate Alive(k: Kernel, p: Process) {
    p.pid in k.holders && k.holders[p.pid] == p
  }

  // How the kernel changes by itself: a number is released, or given to a process that never
  // ran before.
  datatype Change = Release(pid: nat) | Spawn(p: Process)

  predicate Possible(k: Kernel, c: Change) {
    match c
    case Release(pid) => pid in k.holders
    case Spawn(p) => p.pid !in k.holders && p !in k.ever
  }

  function Changed(k: Kernel, c: Change): Kernel {
    match c
    case Release(pid) => k.(holders := k.holders - {pid})
    case Spawn(p) => Kernel(k.holders[p.pid := p], k.ever + {p})
  }

  // ---------------------------------------------------------------- the escalation

  // Where the escalation stands.  A handle is the process a descriptor is bound to.
  datatype Stage =
    | Start
    | PreChecked(seen: Process)
    | Bound(handle: Process)
    | Verified(handle: Process)
    | Fallback(seen: Process)
    | Done

  datatype Mechanism = Pidfd | Kill

  datatype Delivery = Delivery(to: Process, via: Mechanism)

  // `expected` is the identity captured when the process was first reported.
  datatype World = World(kernel: Kernel, stage: Stage, expected: Process, sent: seq<Delivery>)

  datatype Step =
    | Kernel_(c: Change)
    | PreCheck
    | Open(supported: bool)
    | ReadTicks
    | SendThroughHandle
    | CheckedKill

  predicate Enabled(w: World, s: Step) {
    match s
    case Kernel_(c) => Possible(w.kernel, c)
    case PreCheck => w.stage == Start
    case Open(_) => w.stage.PreChecked?
    case ReadTicks => w.stage.Bound?
    case SendThroughHandle => w.stage.Verified?
    case CheckedKill => w.stage.Fallback?
  }

  function Holder(k: Kernel, pid: nat): Option<Process> {
    if pid in k.holders then Some(k.holders[pid]) else None
  }

  function Next(w: World, s: Step): World
    requires Enabled(w, s)
  {
    var now := Holder(w.kernel, w.expected.pid);
    match s
    case Kernel_(c) => w.(kernel := Changed(w.kernel, c))
    case PreCheck => w.(stage := if now.None? then Done else PreChecked(now.value))
    // Without kernel support the validated kill takes over; a refusal never falls back.
    case Open(supported) =>
      if !supported then w.(stage := Fallback(w.stage.seen))
      else w.(stage := if now.None? then Done else Bound(now.value))
    case ReadTicks =>
      w.(stage := if now.Some? && now.value.ticks == w.expected.ticks then Verified(w.stage.handle) else Done)
    case SendThroughHandle =>
      if Alive(w.kernel, w.stage.handle) then w.(stage := Done, sent := w.sent + [Delivery(w.stage.handle, Pidfd)])
      else w.(stage := Done)
    case CheckedKill =>
      if w.stage.seen.ticks == w.expected.ticks && now.Some?
      then w.(stage := Done, sent := w.sent + [Delivery(now.value, Kill)])
      else w.(stage := Done)
  }

  function Run(w: World, steps: seq<Step>): Option<World>
    decreases |steps|
  {
    if steps == [] then Some(w)
    else if !Enabled(w, steps[0]) then None
    else Run(Next(w, steps[0]), steps[1..])
  }

  // ------------------------------------------------------------------ what is kept

  // While the captured process still holds its number, the descriptor is bound to it.
  predicate Inv(w: World) {
    && ValidKernel(w.kernel) && w.expected in w.kernel.ever
    && (w.stage.Bound? && Alive(w.kernel, w.expected) ==> w.stage.handle == w.expected)
    && (w.stage.Verified? ==> w.stage.handle == w.expected)
    && (forall i {:trigger w.sent[i]} :: 0 <= i < |w.sent| && w.sent[i].via == Pidfd ==> w.sent[i].to == w.expected)
  }

  lemma ChangeKeeps(k: Kernel, c: Change, p: Process)
    requires ValidKernel(k) && Possible(k, c) && p in k.ever
    ensures ValidKernel(Changed(k, c)) && p in Changed(k, c).ever
    ensures Alive(Changed(k, c), p) ==> Alive(k, p)
  {}

  lemma StepKeeps(w: World, s: Step)
    requires Inv(w) && Enabled(w, s)
    ensures Inv(Next(w, s))
  {
    if s.Kernel_? {
      ChangeKeeps(w.kernel, s.c, w.expected);
    }
  }

  lemma {:induction false} RunKeeps(w: World, steps: seq<Step>)
    requires Inv(w) && Run(w, steps).Some?
    ensures Inv(Run(w, steps).value) && Run(w, steps).value.expected == w.expected
    decreases |steps|
  {
    if steps != [] {
      StepKeeps(w, steps[0]);
      RunKeeps(Next(w, steps[0]), steps[1..]);
    }
  }

  /**
   * A signal sent through the handle reaches the process whose identity was captured, or
   * nobody, whatever the kernel does in between.
   */
  lemma HandleReachesTheCaptured(k: Kernel, expected: Process, steps: seq<Step>)
    requires ValidKernel(k) && expected in k.ever && Run(World(k, Start, expected, []), steps).Some?
    ensures var w := Run(World(k, Start, expected, []), steps).value;
      forall i {:trigger w.sent[i]} :: 0 <= i < |w.sent| && w.sent[i].via == Pidfd ==> w.sent[i].to == expected
  {
    RunKeeps(World(k, Start, expected, []), steps);
  }

  // A signal is the last thing the escalation does, so at most one is sent.
  predicate OnceInv(w: World) {
    |w.sent| <= if w.stage == Done then 1 else 0
  }

  // ------------------------------------------------------ the path without a handle

  predicate HitsStranger(w: World) {
    exists i {:trigger w.sent[i]} :: 0 <= i < |w.sent| && w.sent[i].to != w.expected
  }

  // The kernel as the steps so far have left it.
  function KernelAfter(k: Kernel, steps: seq<Step>): Kernel {
    if steps == [] then k
    else
      var before, last := KernelAfter(k, steps[..|steps| - 1]), steps[|steps| - 1];
      if last.Kernel_? then Changed(before, last.c) else before
  }

  predicate Released(steps: seq<Step>, from: nat, to: nat, pid: nat)
    requires to <= |steps|
  {
    exists r {:trigger steps[r]} :: from < r < to && steps[r] == Kernel_(Release(pid))
  }

  // The look at p matched the captured ticks, the number was released before the kill at q,
  // and at the kill somebody holds it.
  predicate Recycled(k: Kernel, expected: Process, steps: seq<Step>, p: nat, q: nat) {
    && p < q < |steps| && steps[p] == PreCheck && steps[q] == CheckedKill
    && (var seen := Holder(KernelAfter(k, steps[..p]), expected.pid); seen.Some? && seen.value.ticks == expected.ticks)
    && Released(steps, p, q, expected.pid)
    && Holder(KernelAfter(k, steps[..q]), expected.pid).Some?
  }

  ghost predicate EverRecycled(k: Kernel, expected: Process, steps: seq<Step>) {
    exists p: nat, q: nat {:trigger Recycled(k, expected, steps, p, q)} :: Recycled(k, expected, steps, p, q)
  }

  predicate NoKill(steps: seq<Step>) {
    forall i {:trigger steps[i]} :: 0 <= i < |steps| ==> steps[i] != CheckedKill
  }

  predicate NoLook(steps: seq<Step>) {
    forall i {:trigger steps[i]} :: 0 <= i < |steps| ==> steps[i] != PreCheck
  }

  predicate LookedOnlyAt(steps: seq<Step>, p: nat) {
    && p < |steps| && steps[p] == PreCheck
    && forall i {:trigger steps[i]} :: 0 <= i < |steps| && steps[i] == PreCheck ==> i == p
  }

  // What was seen at p, and whether it still holds its number.
  predicate SeenAt(k: Kernel, w: World, steps: seq<Step>, p: nat, seen: Process) {
    && LookedOnlyAt(steps, p) && NoKill(steps) && seen.pid == w.expected.pid && seen in w.kernel.ever
    && Holder(KernelAfter(k, steps[..p]), w.expected.pid) == Some(seen)
    && (Released(steps, p, |steps|, w.expected.pid) <==> !Alive(w.kernel, seen))
  }

  ghost predicate SeenOnce(k: Kernel, w: World, steps: seq<Step>, seen: Process) {
    exists p: nat {:trigger SeenAt(k, w, steps, p, seen)} :: SeenAt(k, w, steps, p, seen)
  }

  // Where the escalation stands, told from the steps it took.
  ghost predicate Tracked(k: Kernel, w: World, steps: seq<Step>) {
    && Inv(w) && OnceInv(w) && w.kernel == KernelAfter(k, steps)
    && match w.stage
       case Start => NoKill(steps) && NoLook(steps)
       case PreChecked(seen) => SeenOnce(k, w, steps, seen)
       case Fallback(seen) => SeenOnce(k, w, steps, seen)
       case Bound(_) => NoKill(steps)
       case Verified(_) => NoKill(steps)
       case Done => HitsStranger(w) <==> EverRecycled(k, w.expected, steps)
  }

  lemma ReleasedMore(steps: seq<Step>, s: Step, from: nat, to: nat, pid: nat)
    requires to <= |steps|
    ensures Released(steps + [s], from, to, pid) <==> Released(steps, from, to, pid)
    ensures from < |steps| ==>
      (Released(steps + [s], from, |steps| + 1, pid) <==> Released(steps, from, |steps|, pid) || s == Kernel_(Release(pid)))
  {
    var more := steps + [s];
    assert forall r {:trigger more[r]} :: 0 <= r < |steps| ==> more[r] == steps[r];
    assert more[|steps|] == s;
    if Released(steps, from, to, pid) {
      var r :| from < r < to && steps[r] == Kernel_(Release(pid));
      assert more[r] == steps[r];
    }
    if Released(steps, from, |steps|, pid) {
      var r :| from < r < |steps| && steps[r] == Kernel_(Release(pid));
      assert more[r] == steps[r];
    }
  }

  lemma KernelNext(k: Kernel, steps: seq<Step>, s: Step)
    ensures KernelAfter(k, steps + [s]) == if s.Kernel_? then Changed(KernelAfter(k, steps), s.c) else KernelAfter(k, steps)
  {
    assert (steps + [s])[..|steps|] == steps;
  }

  lemma RecycledMore(k: Kernel, expected: Process, steps: seq<Step>, s: Step, p: nat, q: nat)
    requires q < |steps|
    ensures Recycled(k, expected, steps + [s], p, q) <==> Recycled(k, expected, steps, p, q)
  {
    if p < q {
      assert (steps + [s])[..p] == steps[..p] && (steps + [s])[..q] == steps[..q];
      ReleasedMore(steps, s, p, q, expected.pid);
    }
  }

  // Only another checked kill can add to what was recycled.
  lemma RecycledStays(k: Kernel, expected: Process, steps: seq<Step>, s: Step)
    requires s != CheckedKill
    ensures EverRecycled(k, expected, steps + [s]) <==> EverRecycled(k, expected, steps)
  {
    if EverRecycled(k, expected, steps) {
      var p: nat, q: nat :| Recycled(k, expected, steps, p, q);
      RecycledMore(k, expected, steps, s, p, q);
    }
    if EverRecycled(k, expected, steps + [s]) {
      var p: nat, q: nat :| Recycled(k, expected, steps + [s], p, q);
      RecycledMore(k, expected, steps, s, p, q);
    }
  }

  lemma NoKillNoRecycling(k: Kernel, expected: Process, steps: seq<Step>)
    requires NoKill(steps)
    ensures !EverRecycled(k, expected, steps)
  {}

  // A process that holds its number keeps it until the number is released.
  lemma SeenStays(k: Kernel, w: World, steps: seq<Step>, s: Step, seen: Process)
    requires Inv(w) && Enabled(w, s) && s != PreCheck && s != CheckedKill && SeenOnce(k, w, steps, seen)
    ensures SeenOnce(k, Next(w, s), steps + [s], seen)
  {
    var p: nat :| SeenAt(k, w, steps, p, seen);
    var more := steps + [s];
    assert more[..p] == steps[..p];
    assert forall i {:trigger more[i]} :: 0 <= i < |more| ==> more[i] == if i < |steps| then steps[i] else s;
    ReleasedMore(steps, s, p, |steps|, w.expected.pid);
    assert SeenAt(k, Next(w, s), more, p, seen);
  }

  lemma LookSees(k: Kernel, w: World, steps: seq<Step>)
    requires Tracked(k, w, steps) && w.stage == Start && Holder(w.kernel, w.expected.pid).Some?
    ensures SeenOnce(k, Next(w, PreCheck), steps + [PreCheck], Holder(w.kernel, w.expected.pid).value)
  {
    var more, p := steps + [PreCheck], |steps|;
    assert more[..p] == steps;
    assert forall i {:trigger more[i]} :: 0 <= i < p ==> more[i] == steps[i];
    assert SeenAt(k, Next(w, PreCheck), more, p, Holder(w.kernel, w.expected.pid).value);
  }

  lemma KillHitsIff(k: Kernel, w: World, steps: seq<Step>)
    requires Tracked(k, w, steps) && w.stage.Fallback?
    ensures HitsStranger(Next(w, CheckedKill)) <==> EverRecycled(k, w.expected, steps + [CheckedKill])
  {
    var seen, more, q, v := w.stage.seen, steps + [CheckedKill], |steps|, Next(w, CheckedKill);
    var p: nat :| SeenAt(k, w, steps, p, seen);
    assert more[..p] == steps[..p] && more[..q] == steps;
    assert forall i {:trigger more[i]} :: 0 <= i < q ==> more[i] == steps[i];
    ReleasedMore(steps, CheckedKill, p, q, w.expected.pid);
    if EverRecycled(k, w.expected, more) {
      var p1: nat, q1: nat :| Recycled(k, w.expected, more, p1, q1);
      assert q1 == q && p1 == p;
      assert v.sent[0].to != w.expected;
    }
    if HitsStranger(v) {
      assert Recycled(k, w.expected, more, p, q);
    }
  }

  lemma TrackedStep(k: Kernel, w: World, steps: seq<Step>, s: Step)
    requires Tracked(k, w, steps) && Enabled(w, s)
    ensures Tracked(k, Next(w, s), steps + [s])
  {
    var more := steps + [s];
    StepKeeps(w, s);
    KernelNext(k, steps, s);
    assert forall i {:trigger more[i]} :: 0 <= i < |more| ==> more[i] == if i < |steps| then steps[i] else s;
    if s == CheckedKill {
      KillHitsIff(k, w, steps);
    } else if s == PreCheck {
      if Holder(w.kernel, w.expected.pid).Some? {
        LookSees(k, w, steps);
      } else {
        NoKillNoRecycling(k, w.expected, more);
      }
    } else if w.stage.PreChecked? || w.stage.Fallback? {
      SeenStays(k, w, steps, s, w.stage.seen);
      SeenMeansNoKill(k, w, steps, w.stage.seen);
      NoKillNoRecycling(k, w.expected, more);
    } else if w.stage == Done {
      RecycledStays(k, w.expected, steps, s);
    } else {
      NoKillNoRecycling(k, w.expected, more);
    }
  }

  lemma SeenMeansNoKill(k: Kernel, w: World, steps: seq<Step>, seen: Process)
    requires SeenOnce(k, w, steps, seen)
    ensures NoKill(steps)
  {}

  lemma {:induction false} RunLast(w: World, steps: seq<Step>, s: Step)
    requires Run(w, steps + [s]).Some?
    ensures Run(w, steps).Some? && Enabled(Run(w, steps).value, s)
    ensures Run(w, steps + [s]).value == Next(Run(w, steps).value, s)
    decreases |steps|
  {
    assert (steps + [s])[1..] == if steps == [] then [] else steps[1..] + [s];
    if steps != [] {
      RunLast(Next(w, steps[0]), steps[1..], s);
    }
  }

  lemma {:induction false} RunIsTracked(k: Kernel, w: World, steps: seq<Step>)
    requires Tracked(k, w, []) && Run(w, steps).Some?
    ensures Tracked(k, Run(w, steps).value, steps) && Run(w, steps).value.expected == w.expected
    decreases |steps|
  {
    if steps != [] {
      var init, last := steps[..|steps| - 1], steps[|steps| - 1];
      assert init + [last] == steps;
      RunLast(w, init, last);
      RunIsTracked(k, w, init);
      TrackedStep(k, Run(w, init).value, init, last);
    }
  }

  /**
   * Over every run at most one signal is sent, and it reaches another process than the
   * captured one if and only if it is a checked kill, the look before it matched the captured
   * ticks, and in between the number was released and is held again.
   */
  lemma StrangerHitIff(k: Kernel, expected: Process, steps: seq<Step>)
    requires ValidKernel(k) && expected in k.ever && Run(World(k, Start, expected, []), steps).Some?
    ensures var w := Run(World(k, Start, expected, []), steps).value;
      |w.sent| <= 1 && (HitsStranger(w) <==> EverRecycled(k, expected, steps))
  {
    var w0 := World(k, Start, expected, []);
    assert Tracked(k, w0, []);
    RunIsTracked(k, w0, steps);
    var w := Run(w0, steps).value;
    if w.stage.PreChecked? || w.stage.Fallback? {
      SeenMeansNoKill(k, w, steps, w.stage.seen);
    }
    if w.stage != Done {
      NoKillNoRecycling(k, expected, steps);
    }
  }

  // ---------------------------------------------------- that a signal is really sent

  // The captured process lives, and whatever was learned of its number was learned of it.
  predicate OnItsWay(w: World) {
    && Alive(w.kernel, w.expected) && w.sent == []
    && match w.stage
       case Start => true
       case PreChecked(seen) => seen == w.expected
       case Bound(handle) => handle == w.expected
       case Verified(handle) => handle == w.expected
       case Fallback(seen) => seen == w.expected
       case Done => false
  }

  predicate Sends(s: Step) {
    s == SendThroughHandle || s == CheckedKill
  }

  lemma StepOnItsWay(w: World, s: Step)
    requires OnItsWay(w) && Enabled(w, s) && s != Kernel_(Release(w.expected.pid))
    ensures Next(w, s).expected == w.expected
    ensures if Sends(s) then Next(w, s).stage == Done && Next(w, s).sent == [Delivery(w.expected, if s == CheckedKill then Kill else Pidfd)]
            else OnItsWay(Next(w, s))
  {}

  lemma {:induction false} DoneStays(w: World, steps: seq<Step>)
    requires w.stage == Done && Run(w, steps).Some?
    ensures Run(w, steps).value.sent == w.sent
    ensures forall s <- steps :: !Sends(s)
    decreases |steps|
  {
    if steps != [] {
      DoneStays(Next(w, steps[0]), steps[1..]);
      assert steps == [steps[0]] + steps[1..];
    }
  }

  lemma {:induction false} SentOnTheWay(w: World, steps: seq<Step>)
    requires OnItsWay(w) && Run(w, steps).Some? && Kernel_(Release(w.expected.pid)) !in steps
    ensures var v := Run(w, steps).value;
      && (SendThroughHandle in steps ==> v.sent == [Delivery(w.expected, Pidfd)])
      && (CheckedKill in steps ==> v.sent == [Delivery(w.expected, Kill)])
      && (SendThroughHandle !in steps && CheckedKill !in steps ==> OnItsWay(v))
    decreases |steps|
  {
    if steps != [] {
      var s, rest := steps[0], steps[1..];
      assert steps == [s] + rest;
      StepOnItsWay(w, s);
      if Sends(s) {
        DoneStays(Next(w, s), rest);
      } else {
        SentOnTheWay(Next(w, s), rest);
      }
    }
  }

  /**
   * Where the captured process holds its number at the start and does not release it, a run
   * that comes to its last step has sent exactly one signal, to that process, through the
   * descriptor where there is one; and until then it can always go on.
   */
  lemma LiveProcessIsSignalled(k: Kernel, expected: Process, steps: seq<Step>)
    requires ValidKernel(k) && Alive(k, expected) && Kernel_(Release(expected.pid)) !in steps
    requires Run(World(k, Start, expected, []), steps).Some?
    ensures var w := Run(World(k, Start, expected, []), steps).value;
      && (SendThroughHandle in steps ==> w.sent == [Delivery(expected, Pidfd)])
      && (CheckedKill in steps ==> w.sent == [Delivery(expected, Kill)])
      && (SendThroughHandle !in steps && CheckedKill !in steps ==>
            w.sent == [] && exists s :: Enabled(w, s) && !s.Kernel_?)
  {
    var w0 := World(k, Start, expected, []);
    SentOnTheWay(w0, steps);
    var w := Run(w0, steps).value;
    if SendThroughHandle !in steps && CheckedKill !in steps {
      var s := match w.stage
        case Start => PreCheck
        case PreChecked(_) => Open(true)
        case Bound(_) => ReadTicks
        case Verified(_) => SendThroughHandle
        case Fallback(_) => CheckedKill
        case Done => PreCheck;
      assert Enabled(w, s) && !s.Kernel_?;
    }
  }

  // The shortest runs of the two paths.
  lemma BothPathsDeliver(k: Kernel, expected: Process)
    requires ValidKernel(k) && Alive(k, expected)
    ensures var w0 := World(k, Start, expected, []);
      && Run(w0, [PreCheck, Open(true), ReadTicks, SendThroughHandle]).Some?
      && Run(w0, [PreCheck, Open(true), ReadTicks, SendThroughHandle]).value.sent == [Delivery(expected, Pidfd)]
      && Run(w0, [PreCheck, Open(false), CheckedKill]).Some?
      && Run(w0, [PreCheck, Open(false), CheckedKill]).value.sent == [Delivery(expected, Kill)]
  {
    var w0 := World(k, Start, expected, []);
    var w1 := Next(w0, PreCheck);
    var w2, u2 := Next(w1, Open(true)), Next(w1, Open(false));
    var w3 := Next(w2, ReadTicks);
    LastRun(w3, SendThroughHandle);
    FirstRun(w2, ReadTicks, [SendThroughHandle]);
    FirstRun(w1, Open(true), [ReadTicks] + [SendThroughHandle]);
    FirstRun(w0, PreCheck, [Open(true)] + ([ReadTicks] + [SendThroughHandle]));
    assert [PreCheck, Open(true), ReadTicks, SendThroughHandle] == [PreCheck] + ([Open(true)] + ([ReadTicks] + [SendThroughHandle]));
    LastRun(u2, CheckedKill);
    FirstRun(w1, Open(false), [CheckedKill]);
    FirstRun(w0, PreCheck, [Open(false)] + [CheckedKill]);
    assert [PreCheck, Open(false), CheckedKill] == [PreCheck] + ([Open(false)] + [CheckedKill]);
  }

  // As long as the number is not released, no run signals anyone but the captured process.
  lemma QuietNumberIsSafe(k: Kernel, expected: Process, steps: seq<Step>)
    requires ValidKernel(k) && expected in k.ever && Run(World(k, Start, expected, []), steps).Some?
    requires Kernel_(Release(expected.pid)) !in steps
    ensures !HitsStranger(Run(World(k, Start, expected, []), steps).value)
  {
    StrangerHitIff(k, expected, steps);
  }

  // Between the check and the kill the number can change hands, and then a stranger is hit.
  lemma StrangerCanBeKilled(expected: Process, stranger: Process)
    requires stranger.pid == expected.pid && stranger != expected
    ensures var k := Kernel(map[expected.pid := expected], {expected});
      var steps := [PreCheck, Open(false), Kernel_(Release(expected.pid)), Kernel_(Spawn(stranger)), CheckedKill];
      Run(World(k, Start, expected, []), steps).Some?
      && Run(World(k, Start, expected, []), steps).value.sent == [Delivery(stranger, Kill)]
  {
    var k := Kernel(map[expected.pid := expected], {expected});
    var w0 := World(k, Start, expected, []);
    var w1 := Next(w0, PreCheck);
    var w2 := Next(w1, Open(false));
    var w3 := Next(w2, Kernel_(Release(expected.pid)));
    var w4 := Next(w3, Kernel_(Spawn(stranger)));
    var w5 := Next(w4, CheckedKill);
    LastRun(w4, CheckedKill);
    FirstRun(w3, Kernel_(Spawn(stranger)), [CheckedKill]);
    FirstRun(w2, Kernel_(Release(expected.pid)), [Kernel_(Spawn(stranger)), CheckedKill]);
    FirstRun(w1, Open(false), [Kernel_(Release(expected.pid)), Kernel_(Spawn(stranger)), CheckedKill]);
    FirstRun(w0, PreCheck, [Open(false), Kernel_(Release(expected.pid)), Kernel_(Spawn(stranger)), CheckedKill]);
    assert w5.sent == [Delivery(stranger, Kill)];
  }

  lemma LastRun(w: World, s: Step)
    requires Enabled(w, s)
    ensures Run(w, [s]) == Some(Next(w, s))
  {
    assert [s][1..] == [];
  }

  lemma FirstRun(w: World, s: Step, rest: seq<Step>)
    requires Enabled(w, s)
    ensures Run(w, [s] + rest) == Run(Next(w, s), rest)
  {
    assert ([s] + rest)[1..] == rest;
  }

  // ----------------------------------------------------------- the calls themselves

  function Elapsed(k: Kernel, changes: seq<Change>): Kernel
    decreases |changes|
  {
    if changes == [] then k
    else Elapsed(if Possible(k, changes[0]) then Changed(k, changes[0]) else k, changes[1..])
  }

  // A process that is alive now was alive before, if it had ever run by then.
  lemma {:induction false} AliveBefore(k: Kernel, changes: seq<Change>, p: Process)
    requires ValidKernel(k) && p in k.ever
    ensures ValidKernel(Elapsed(k, changes)) && p in Elapsed(k, changes).ever
    ensures Alive(Elapsed(k, changes), p) ==> Alive(k, p)
    decreases |changes|
  {
    if changes != [] {
      var next := if Possible(k, changes[0]) then Changed(k, changes[0]) else k;
      if Possible(k, changes[0]) {
        ChangeKeeps(k, changes[0], p);
      }
      AliveBefore(next, changes[1..], p);
    }
  }

  // Who holds a number holds it as long as the number is not released.
  lemma {:induction false} HeldUntilReleased(k: Kernel, changes: seq<Change>, p: Process)
    requires ValidKernel(k) && p in k.ever
    ensures Alive(k, p) ==> (Alive(Elapsed(k, changes), p) <==> Release(p.pid) !in changes)
    decreases |changes|
  {
    if changes != [] && Alive(k, p) {
      var next := if Possible(k, changes[0]) then Changed(k, changes[0]) else k;
      assert changes == [changes[0]] + changes[1..];
      AliveBefore(next, changes[1..], p);
      HeldUntilReleased(next, changes[1..], p);
    }
  }

  class Host {
    var kernel: Kernel
    var sent: seq<Delivery>

    constructor (k: Kernel)
      ensures kernel == k && sent == []
    {
      kernel, sent := k, [];
    }

    // Time passes between two calls.
    method Elapse(changes: seq<Change>)
      modifies this`kernel
      ensures kernel == Elapsed(old(kernel), changes)
    {
      var left := changes;
      while left != []
        invariant Elapsed(kernel, left) == Elapsed(old(kernel), changes)
        decreases |left|
      {
        if Possible(kernel, left[0]) {
          kernel := Changed(kernel, left[0]);
        }
        left := left[1..];
      }
    }

    method SendSignal(handle: Process) returns (ok: bool)
      modifies this`sent
      ensures ok == Alive(kernel, handle)
      ensures sent == if ok then old(sent) + [Delivery(handle, Pidfd)] else old(sent)
    {
      ok := handle.pid in kernel.holders && kernel.holders[handle.pid] == handle;
      if ok {
        sent := sent + [Delivery(handle, Pidfd)];
      }
    }

    method KillNumber(pid: nat) returns (ok: bool)
      modifies this`sent
      ensures ok == (pid in kernel.holders)
      ensures sent == if ok then old(sent) + [Delivery(kernel.holders[pid], Kill)] else old(sent)
    {
      ok := pid in kernel.holders;
      if ok {
        sent := sent + [Delivery(kernel.holders[pid], Kill)];
      }
    }

    /** The descriptor path: bind, then verify, then send, with time passing in between. */
    method SignalThroughHandle(expected: Process, whileOpening: seq<Change>, whileReading: seq<Change>) returns (delivered: bool)
      requires ValidKernel(kernel) && expected in kernel.ever
      modifies this
      ensures sent == if delivered then old(sent) + [Delivery(expected, Pidfd)] else old(sent)
      ensures delivered <==> Alive(kernel, expected)
      ensures delivered <==> Alive(old(kernel), expected) && Release(expected.pid) !in whileOpening + whileReading
    {
      AliveBefore(kernel, whileOpening, expected);
      HeldUntilReleased(kernel, whileOpening, expected);
      var holder := Holder(kernel, expected.pid);
      if holder.None? {
        return false;
      }
      var handle := holder.value;
      Elapse(whileOpening);
      var now := Holder(kernel, expected.pid);
      if now.None? || now.value.ticks != expected.ticks {
        return false;
      }
      AliveBefore(kernel, whileReading, expected);
      HeldUntilReleased(kernel, whileReading, expected);
      Elapse(whileReading);
      delivered := SendSignal(handle);
    }

    /** Escalation: a cheap look, then the handle, or the checked kill where there is none. */
    method EscalateTo(expected: Process, supported: bool, gap: seq<Change>, whileOpening: seq<Change>, whileReading: seq<Change>)
      returns (delivered: bool)
      requires ValidKernel(kernel) && expected in kernel.ever
      modifies this
      ensures !delivered ==> sent == old(sent)
      ensures delivered && supported ==> sent == old(sent) + [Delivery(expected, Pidfd)]
      ensures supported ==> (delivered <==> Alive(kernel, expected))
      ensures supported ==>
        (delivered <==> Alive(old(kernel), expected) && Release(expected.pid) !in gap + (whileOpening + whileReading))
      ensures !supported ==> (delivered <==> Alive(old(kernel), expected) && expected.pid in kernel.holders)
      ensures delivered && !supported ==>
        (|sent| == |old(sent)| + 1 && sent[|old(sent)|].via == Kill
         && (sent[|old(sent)|].to == expected <==> Release(expected.pid) !in gap))
    {
      var current := Holder(kernel, expected.pid);
      if current.None? {
        return false;
      }
      AliveBefore(kernel, gap, expected);
      HeldUntilReleased(kernel, gap, expected);
      Elapse(gap);
      if supported {
        delivered := SignalThroughHandle(expected, whileOpening, whileReading);
        return;
      }
      if current.value.ticks != expected.ticks {
        return false;
      }
      delivered := KillNumber(expected.pid);
    }
  }
}
