/** Sampling one process: its identity is proven at every tick, and rates come from two samples. */
module Sampler {
  import opened Basics

  // One reading of procfs.  `startNear` says whether the start time agrees with the start
  // event within the tolerance; `counter` is one cumulative counter of the snapshot.
  datatype Reading = Reading(ticks: Option<nat>, parent: Option<nat>, startNear: bool, counter: Option<nat>, clock: real)

  // undefined, null, or the ticks of the accepted process.
  datatype Identity = Unset | Lost | Proven(ticks: nat)

  datatype Rejection = EngineUnknown | ForeignParent | StartTimeMismatch | IdentityChanged

  // What one tick reports: the sample, why it was rejected, and its rate over an interval.
  datatype Report = Report(reading: Reading, rejection: Option<Rejection>, rate: Option<real>, seconds: real)

  datatype Sampling = Sampling(identity: Identity, last: Option<Reading>, stopped: bool, reports: seq<Report>)

  const FRESH := Sampling(Unset, None, false, [])

  // The verdict on a reading, and the identity held afterwards.
  function Verify(identity: Identity, engine: Option<nat>, r: Reading): (Identity, Option<Rejection>) {
    if r.ticks.None? then (Lost, None)
    else if engine.None? then (Lost, Some(EngineUnknown))
    else if r.parent != engine then (Lost, Some(ForeignParent))
    else match identity
      case Unset => if r.startNear then (Proven(r.ticks.value), None) else (Lost, Some(StartTimeMismatch))
      case Proven(prior) => if prior == r.ticks.value then (identity, None) else (Lost, Some(IdentityChanged))
      case Lost => (Lost, Some(IdentityChanged))
  }

  // The rate between two readings; a missing or decreasing counter has none.
  function RateOf(last: Option<Reading>, r: Reading): (Option<real>, real) {
    if last.None? || r.clock <= last.value.clock then (None, 0.0)
    else
      var seconds := (r.clock - last.value.clock) / 1000.0;
      var before := last.value.counter;
      if before.None? || r.counter.None? || r.counter.value < before.value then (None, seconds)
      else (Some((r.counter.value - before.value) as real / seconds), seconds)
  }

  function Tick(s: Sampling, engine: Option<nat>, isFinal: bool, r: Reading): Sampling {
    if s.stopped then s
    else if isFinal then s.(stopped := true)
    else
      var (identity, rejection) := Verify(s.identity, engine, r);
      var (rate, seconds) := if rejection.Some? then (None, 0.0) else RateOf(s.last, r);
      var told := s.(identity := identity, reports := s.reports + [Report(r, rejection, rate, seconds)]);
      if rejection.Some? || r.ticks.None? then told.(stopped := true) else told.(last := Some(r))
  }

  datatype Turn = Turn(isFinal: bool, reading: Reading)

  function Run(s: Sampling, engine: Option<nat>, turns: seq<Turn>): Sampling
    decreases |turns|
  {
    if turns == [] then s else Run(Tick(s, engine, turns[0].isFinal, turns[0].reading), engine, turns[1..])
  }

  class SessionSampling {
    const engine: Option<nat>
    var identity: Identity
    var lastSnapshot: Option<Reading>
    var stopped: bool
    var emitted: seq<Report>

    function Abstract(): Sampling
      reads this
    {
      Sampling(identity, lastSnapshot, stopped, emitted)
    }

    constructor (engine: Option<nat>)
      ensures Abstract() == FRESH && this.engine == engine
    {
      this.engine := engine;
      identity, lastSnapshot, stopped, emitted := Unset, None, false, [];
    }

    method VerifyIdentity(r: Reading) returns (rejection: Option<Rejection>)
      modifies this`identity
      ensures (identity, rejection) == Verify(old(identity), engine, r)
    {
      if r.ticks.None? {
        identity := Lost;
        return None;
      }
      if engine.None? {
        identity := Lost;
        return Some(EngineUnknown);
      }
      if r.parent != engine {
        identity := Lost;
        return Some(ForeignParent);
      }
      if identity.Unset? {
        if !r.startNear {
          identity := Lost;
          return Some(StartTimeMismatch);
        }
        identity := Proven(r.ticks.value);
        return None;
      }
      if identity != Proven(r.ticks.value) {
        identity := Lost;
        return Some(IdentityChanged);
      }
      return None;
    }

    method Sample(isFinal: bool, r: Reading)
      modifies this
      ensures Abstract() == Tick(old(Abstract()), engine, isFinal, r)
    {
      if stopped {
        return;
      }
      if isFinal {
        stopped := true;
        return;
      }
      var rejection := VerifyIdentity(r);
      var rate, seconds := None, 0.0;
      if rejection.None? {
        var derived := RateOf(lastSnapshot, r);
        rate, seconds := derived.0, derived.1;
      }
      emitted := emitted + [Report(r, rejection, rate, seconds)];
      if rejection.Some? || r.ticks.None? {
        stopped := true;
        return;
      }
      lastSnapshot := Some(r);
    }
  }

  // ------------------------------------------------------------ identity over a run

  predicate Accepted(p: Report) {
    p.rejection.None? && p.reading.ticks.Some?
  }

  // All reports but the last are accepted, with one identity and the engine as parent.
  predicate Consistent(s: Sampling, engine: Option<nat>) {
    var n := |s.reports|;
    && (n > 0 && !Accepted(s.reports[n - 1]) ==> s.stopped)
    && (forall i {:trigger Accepted(s.reports[i])} :: 0 <= i < n - 1 ==> Accepted(s.reports[i]))
    && (!s.stopped ==> s.identity == if n == 0 then Unset else Proven(s.reports[n - 1].reading.ticks.GetOr(0)))
    && (forall i {:trigger Accepted(s.reports[i])} :: 0 <= i < n && Accepted(s.reports[i]) ==>
          s.reports[i].reading.parent == engine && s.reports[i].reading.ticks == s.reports[0].reading.ticks)
    && (forall i {:trigger s.reports[i].rate} :: 0 <= i < n && s.reports[i].rate.Some? ==> s.reports[i].rate.value >= 0.0)
  }

  lemma RateIsNonNegative(last: Option<Reading>, r: Reading)
    ensures var rate := RateOf(last, r).0; rate.Some? ==> rate.value >= 0.0
  {}

  lemma TickKeeps(s: Sampling, engine: Option<nat>, isFinal: bool, r: Reading)
    requires Consistent(s, engine)
    ensures Consistent(Tick(s, engine, isFinal, r), engine)
  {
    if !s.stopped && !isFinal {
      var t, n := Tick(s, engine, isFinal, r), |s.reports|;
      RateIsNonNegative(s.last, r);
      if n > 0 {
        assert Accepted(s.reports[n - 1]);
      }
      forall i {:trigger Accepted(t.reports[i])} | 0 <= i < n ensures Accepted(t.reports[i]) && t.reports[i] == s.reports[i] {
        assert i < n - 1 ==> Accepted(s.reports[i]);
      }
      assert t.reports[0] == if n == 0 then t.reports[n] else s.reports[0];
      forall i {:trigger t.reports[i].rate} | 0 <= i <= n && t.reports[i].rate.Some? ensures t.reports[i].rate.value >= 0.0 {
        assert i < n ==> s.reports[i].rate == t.reports[i].rate;
      }
    }
  }

  /**
   * Over any run: every accepted sample has the same start ticks and the engine as parent,
   * a rejected or unreadable sample is the last one, and no rate is negative.
   */
  lemma {:induction false} RunKeeps(s: Sampling, engine: Option<nat>, turns: seq<Turn>)
    requires Consistent(s, engine)
    ensures Consistent(Run(s, engine, turns), engine)
    decreases |turns|
  {
    if turns != [] {
      TickKeeps(s, engine, turns[0].isFinal, turns[0].reading);
      RunKeeps(Tick(s, engine, turns[0].isFinal, turns[0].reading), engine, turns[1..]);
    }
  }

  // The same for a sampler as it is started.
  lemma EveryRunKeeps(engine: Option<nat>, turns: seq<Turn>)
    ensures Consistent(Run(FRESH, engine, turns), engine)
  {
    RunKeeps(FRESH, engine, turns);
  }

  // A stopped sampler reports nothing more.
  lemma {:induction false} StoppedIsSilent(s: Sampling, engine: Option<nat>, turns: seq<Turn>)
    requires s.stopped
    ensures Run(s, engine, turns) == s
    decreases |turns|
  {
    if turns != [] {
      StoppedIsSilent(s, engine, turns[1..]);
    }
  }

  // ------------------------------------------------------- which readings are accepted

  // The readings a sampler gets to see: those before the session is final.
  function Readings(turns: seq<Turn>): seq<Reading> {
    if turns == [] || turns[0].isFinal then [] else [turns[0].reading] + Readings(turns[1..])
  }

  // The process is there, it is the engine's child, and it is the one the first reading saw
  // start near the start event.
  predicate Healthy(engine: Option<nat>, rs: seq<Reading>, i: nat)
    requires i < |rs|
  {
    && rs[i].ticks.Some? && engine.Some? && rs[i].parent == engine
    && rs[0].startNear && rs[i].ticks == rs[0].ticks
  }

  predicate HealthyUpTo(engine: Option<nat>, rs: seq<Reading>, n: nat)
    requires n <= |rs|
  {
    forall i: nat {:trigger Healthy(engine, rs, i)} :: i < n ==> Healthy(engine, rs, i)
  }

  // Why reading i, behind healthy ones, is rejected.
  predicate RejectedFor(rejection: Option<Rejection>, engine: Option<nat>, rs: seq<Reading>, i: nat)
    requires i < |rs|
  {
    var there := rs[i].ticks.Some?;
    var child := there && engine.Some? && rs[i].parent == engine;
    && (rejection == Some(EngineUnknown) <==> there && engine.None?)
    && (rejection == Some(ForeignParent) <==> there && engine.Some? && rs[i].parent != engine)
    && (rejection == Some(StartTimeMismatch) <==> child && !rs[0].startNear)
    && (rejection == Some(IdentityChanged) <==> child && rs[0].startNear && rs[i].ticks != rs[0].ticks)
  }

  predicate Falls(before: Reading, now: Reading) {
    before.counter.None? || now.counter.None? || now.counter.value < before.counter.value
  }

  // What is derived from the reading before: nothing for a rejected one, or behind none, or
  // when the clock stood; no rate over a counter that is missing or fell.
  predicate DerivedAs(p: Report, rs: seq<Reading>, i: nat)
    requires i < |rs|
  {
    if p.rejection.Some? || i == 0 || rs[i].clock <= rs[i - 1].clock then p.rate == None && p.seconds == 0.0
    else
      && p.seconds == (rs[i].clock - rs[i - 1].clock) / 1000.0 && p.seconds > 0.0
      && if Falls(rs[i - 1], rs[i]) then p.rate == None
         else p.rate == Some((rs[i].counter.value - rs[i - 1].counter.value) as real / p.seconds)
  }

  predicate ToldOf(p: Report, engine: Option<nat>, rs: seq<Reading>, i: nat)
    requires i < |rs|
  {
    p.reading == rs[i] && RejectedFor(p.rejection, engine, rs, i) && DerivedAs(p, rs, i)
  }

  predicate ReportsTell(reports: seq<Report>, engine: Option<nat>, rs: seq<Reading>) {
    |reports| <= |rs| && forall i {:trigger ToldOf(reports[i], engine, rs, i)} :: 0 <= i < |reports| ==> ToldOf(reports[i], engine, rs, i)
  }

  // A sampler that has accepted the first n readings.
  predicate After(s: Sampling, engine: Option<nat>, rs: seq<Reading>, n: nat) {
    && n <= |rs| && !s.stopped && |s.reports| == n && HealthyUpTo(engine, rs, n) && ReportsTell(s.reports, engine, rs)
    && (if n == 0 then s.identity == Unset && s.last == None
        else s.identity == Proven(rs[0].ticks.GetOr(0)) && s.last == Some(rs[n - 1]))
  }

  // Every reading is told of up to the first that is not healthy.
  predicate TellsAll(reports: seq<Report>, engine: Option<nat>, rs: seq<Reading>) {
    && ReportsTell(reports, engine, rs)
    && (reports != [] ==> HealthyUpTo(engine, rs, |reports| - 1))
    && (|reports| < |rs| ==> reports != [] && !Healthy(engine, rs, |reports| - 1))
  }

  lemma TickTells(s: Sampling, engine: Option<nat>, rs: seq<Reading>, n: nat)
    requires After(s, engine, rs, n) && n < |rs|
    ensures var t := Tick(s, engine, false, rs[n]);
      && |t.reports| == n + 1 && ReportsTell(t.reports, engine, rs)
      && if Healthy(engine, rs, n) then After(t, engine, rs, n + 1) else t.stopped
  {
    var t := Tick(s, engine, false, rs[n]);
    if n > 0 {
      assert Healthy(engine, rs, n - 1);
      assert Healthy(engine, rs, 0);
    }
    assert ToldOf(t.reports[n], engine, rs, n);
    forall i {:trigger ToldOf(t.reports[i], engine, rs, i)} | 0 <= i < |t.reports| ensures ToldOf(t.reports[i], engine, rs, i) {
      if i < n {
        assert t.reports[i] == s.reports[i] && ToldOf(s.reports[i], engine, rs, i);
      }
    }
  }

  lemma {:induction false} RunTellsFrom(s: Sampling, engine: Option<nat>, rs: seq<Reading>, n: nat, turns: seq<Turn>)
    requires After(s, engine, rs, n) && rs[n..] == Readings(turns)
    ensures TellsAll(Run(s, engine, turns).reports, engine, rs)
    decreases |turns|
  {
    if turns != [] {
      var t := Tick(s, engine, turns[0].isFinal, turns[0].reading);
      if turns[0].isFinal {
        StoppedIsSilent(t, engine, turns[1..]);
      } else {
        assert rs[n] == rs[n..][0] == turns[0].reading && rs[n + 1..] == rs[n..][1..] == Readings(turns[1..]);
        TickTells(s, engine, rs, n);
        if Healthy(engine, rs, n) {
          RunTellsFrom(t, engine, rs, n + 1, turns[1..]);
        } else {
          StoppedIsSilent(t, engine, turns[1..]);
        }
      }
    }
  }

  lemma AcceptedIs(p: Report, engine: Option<nat>, rs: seq<Reading>, i: nat)
    requires i < |rs| && ToldOf(p, engine, rs, i)
    ensures Accepted(p) <==> Healthy(engine, rs, i)
  {
    if p.rejection.Some? {
      match p.rejection.value {
        case EngineUnknown =>
        case ForeignParent =>
        case StartTimeMismatch =>
        case IdentityChanged =>
      }
    }
  }

  /**
   * Over any run a reading is accepted if and only if it and all before it are healthy: there
   * is a process, the engine is known and is its parent, the first reading's start was near,
   * and the start ticks never changed.  The first reading that is not is told of with its
   * reason and ends the sampling, and every report derives its rate from the reading before.
   */
  lemma AcceptedIffHealthy(engine: Option<nat>, turns: seq<Turn>, i: nat)
    requires i < |Readings(turns)|
    ensures var rs, reports := Readings(turns), Run(FRESH, engine, turns).reports;
      && (i < |reports| && Accepted(reports[i]) <==> HealthyUpTo(engine, rs, i + 1))
      && (i < |reports| <==> HealthyUpTo(engine, rs, i))
      && |reports| <= |rs| && (i < |reports| ==> ToldOf(reports[i], engine, rs, i))
  {
    var rs, reports := Readings(turns), Run(FRESH, engine, turns).reports;
    assert rs[0..] == rs;
    RunTellsFrom(FRESH, engine, rs, 0, turns);
    if i < |reports| {
      assert ToldOf(reports[i], engine, rs, i);
      assert HealthyUpTo(engine, rs, i);
      assert HealthyUpTo(engine, rs, i + 1) <==> Healthy(engine, rs, i);
      AcceptedIs(reports[i], engine, rs, i);
    } else {
      assert !Healthy(engine, rs, |reports| - 1);
    }
  }

  // ---------------------------------------------------------------- rates add up

  function Weighted(reports: seq<Report>): real {
    if reports == [] then 0.0
    else Weighted(reports[..|reports| - 1]) + reports[|reports| - 1].rate.GetOr(0.0) * reports[|reports| - 1].seconds
  }

  predicate Rises(before: Reading, now: Reading) {
    && before.counter.Some? && now.counter.Some?
    && before.clock < now.clock && before.counter.value <= now.counter.value
  }

  // A counter that is always there and never falls, read at strictly later times.
  predicate Steady(reports: seq<Report>)
    decreases |reports|
  {
    if |reports| <= 1 then true
    else
      var n := |reports| - 1;
      Rises(reports[n - 1].reading, reports[n].reading) && Steady(reports[..n])
  }

  function CounterOf(p: Report): nat {
    p.reading.counter.GetOr(0)
  }

  predicate DerivedFrom(last: Option<Reading>, p: Report) {
    (p.rate, p.seconds) == RateOf(last, p.reading)
  }

  // Reports as the sampler makes them while every sample is accepted.
  predicate Derived(reports: seq<Report>)
    decreases |reports|
  {
    reports == [] ||
    var n := |reports| - 1;
    DerivedFrom(if n == 0 then None else Some(reports[n - 1].reading), reports[n]) && Derived(reports[..n])
  }

  lemma Quotient(delta: real, seconds: real)
    requires seconds > 0.0
    ensures delta / seconds * seconds == delta
  {}

  lemma OneInterval(before: Reading, p: Report)
    requires Rises(before, p.reading) && DerivedFrom(Some(before), p)
    ensures p.rate.GetOr(0.0) * p.seconds == (CounterOf(p) - before.counter.value) as real
  {
    var seconds := (p.reading.clock - before.clock) / 1000.0;
    Quotient((p.reading.counter.value - before.counter.value) as real, seconds);
  }

  predicate AddsUp(reports: seq<Report>)
    requires reports != []
  {
    Weighted(reports) == (CounterOf(reports[|reports| - 1]) - CounterOf(reports[0])) as real
  }

  /** Each rate times its interval, summed over a run, is the last counter minus the first. */
  lemma {:induction false} RatesTelescope(reports: seq<Report>)
    requires reports != [] && Derived(reports) && Steady(reports)
    ensures AddsUp(reports)
    decreases |reports|
  {
    var n := |reports| - 1;
    var init := reports[..n];
    if n > 0 {
      RatesTelescope(init);
      OneInterval(reports[n - 1].reading, reports[n]);
    } else {
      assert init == [];
    }
  }

  // The accepted samples of a run: all reports, without a last one that was not accepted.
  function Kept(reports: seq<Report>): seq<Report> {
    if reports != [] && !Accepted(reports[|reports| - 1]) then reports[..|reports| - 1] else reports
  }

  function LastOf(reports: seq<Report>): Option<Reading> {
    if reports == [] then None else Some(reports[|reports| - 1].reading)
  }

  // The accepted samples are derived from one another, and the next one will be too.
  predicate InStep(s: Sampling) {
    && Derived(Kept(s.reports))
    && (!s.stopped ==>
          Kept(s.reports) == s.reports
          && s.last == LastOf(s.reports))
  }

  lemma KeptAppend(reports: seq<Report>, p: Report)
    ensures Kept(reports + [p]) == if Accepted(p) then reports + [p] else reports
    ensures LastOf(reports + [p]) == Some(p.reading)
  {}

  lemma DerivedAppend(reports: seq<Report>, p: Report)
    requires Derived(reports) && DerivedFrom(LastOf(reports), p)
    ensures Derived(reports + [p])
  {
    var more := reports + [p];
    assert more[..|reports|] == reports && more[|reports|] == p;
    assert LastOf(reports) == if |reports| == 0 then None else Some(more[|reports| - 1].reading);
  }

  // One more report, and what is kept of them.
  lemma OneMoreReport(reports: seq<Report>, p: Report)
    requires Derived(reports) && (Accepted(p) ==> DerivedFrom(LastOf(reports), p))
    ensures Derived(Kept(reports + [p]))
  {
    KeptAppend(reports, p);
    if Accepted(p) {
      DerivedAppend(reports, p);
    }
  }

  lemma TickReports(s: Sampling, engine: Option<nat>, r: Reading)
    requires !s.stopped
    ensures var t := Tick(s, engine, false, r);
      && |t.reports| == |s.reports| + 1 && t.reports == s.reports + [t.reports[|s.reports|]]
      && var p := t.reports[|s.reports|];
      p.reading == r && (Accepted(p) ==> DerivedFrom(s.last, p)) && (t.stopped <==> !Accepted(p)) && (!t.stopped ==> t.last == Some(r))
  {}

  lemma TickStaysInStep(s: Sampling, engine: Option<nat>, isFinal: bool, r: Reading)
    requires InStep(s)
    ensures InStep(Tick(s, engine, isFinal, r))
  {
    if !s.stopped && !isFinal {
      var t := Tick(s, engine, false, r);
      TickReports(s, engine, r);
      OneMoreReport(s.reports, t.reports[|s.reports|]);
      KeptAppend(s.reports, t.reports[|s.reports|]);
    }
  }

  lemma {:induction false} RunStaysInStep(s: Sampling, engine: Option<nat>, turns: seq<Turn>)
    requires InStep(s)
    ensures InStep(Run(s, engine, turns))
    decreases |turns|
  {
    if turns != [] {
      TickStaysInStep(s, engine, turns[0].isFinal, turns[0].reading);
      RunStaysInStep(Tick(s, engine, turns[0].isFinal, turns[0].reading), engine, turns[1..]);
    }
  }

  // For every run, however it ended: what its accepted samples report adds up.
  lemma RunTelescopes(engine: Option<nat>, turns: seq<Turn>)
    requires var kept := Kept(Run(FRESH, engine, turns).reports); kept != [] && Steady(kept)
    ensures AddsUp(Kept(Run(FRESH, engine, turns).reports))
  {
    RunStaysInStep(FRESH, engine, turns);
    RatesTelescope(Kept(Run(FRESH, engine, turns).reports));
  }
}
