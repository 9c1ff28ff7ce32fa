/** What a client collects over one connection after the other. */
module StreamResume {
  import opened Basics
  import opened Events
  import opened Stream
  import opened StreamExact

  function ResumeFrom(received: seq<Event>): int {
    if received == [] then -1 else received[|received| - 1].sequence
  }

  // One connection: the session when the client attached, and the steps until it went.
  datatype Visit = Visit(store: seq<Event>, pub: nat, isFinal: bool, steps: seq<Step>)

  function EndOf(received: seq<Event>, v: Visit): Option<World> {
    Run(JustAttached(v.store, v.pub, v.isFinal, ResumeFrom(received)), v.steps)
  }

  // Connections one after the other; between them the session went on without the client.
  ghost predicate Possible(store: seq<Event>, pub: nat, received: seq<Event>, visits: seq<Visit>)
    decreases |visits|
  {
    visits == [] ||
    (var v, end := visits[0], EndOf(received, visits[0]);
     && store <= v.store && pub <= v.pub <= |v.store| && Ascending(v.store) && NonNegative(v.store)
     && end.Some?
     && Possible(end.value.store, end.value.pub, received + end.value.conn.delivered, visits[1..]))
  }

  function Collected(received: seq<Event>, visits: seq<Visit>): seq<Event>
    decreases |visits|
  {
    if visits == [] || EndOf(received, visits[0]).None? then received
    else Collected(received + EndOf(received, visits[0]).value.conn.delivered, visits[1..])
  }

  function StoredAtEnd(store: seq<Event>, received: seq<Event>, visits: seq<Visit>): seq<Event>
    decreases |visits|
  {
    if visits == [] || EndOf(received, visits[0]).None? then store
    else
      var end := EndOf(received, visits[0]).value;
      StoredAtEnd(end.store, received + end.conn.delivered, visits[1..])
  }

  // Each time it comes back, what the client holds was published, or the rest has an end.
  predicate ComesBackInTime(received: seq<Event>, visits: seq<Visit>)
    decreases |visits|
  {
    visits == [] || EndOf(received, visits[0]).None? ||
    (InTime(received, visits[0])
     && ComesBackInTime(received + EndOf(received, visits[0]).value.conn.delivered, visits[1..]))
  }

  predicate InTime(received: seq<Event>, v: Visit) {
    |received| <= v.pub || v.isFinal || (|received| <= |v.store| && HasTerminal(v.store[|received|..]))
  }

  lemma HeadIsOld(store: seq<Event>, n: nat)
    requires 0 < n <= |store| && Ascending(store)
    ensures forall e <- store[..n] :: e.sequence <= store[n - 1].sequence
  {
    forall e | e in store[..n] ensures e.sequence <= store[n - 1].sequence {
      var i :| 0 <= i < n && store[..n][i] == e;
      assert store[i] == e;
    }
  }

  lemma TailIsNew(store: seq<Event>, n: nat)
    requires 0 < n <= |store| && Ascending(store)
    ensures forall e <- store[n..] :: e.sequence > store[n - 1].sequence
  {
    forall e | e in store[n..] ensures e.sequence > store[n - 1].sequence {
      var i :| 0 <= i < |store[n..]| && store[n..][i] == e;
      assert store[n + i] == e;
    }
  }

  lemma ResumesWhereItLeft(received: seq<Event>, store: seq<Event>)
    requires received <= store && Ascending(store) && forall e <- store :: e.sequence >= 0
    ensures AfterSeq(store, ResumeFrom(received)) == store[|received|..]
  {
    var n := |received|;
    if n == 0 {
      AfterSeqAll(store, -1);
    } else {
      var last := store[n - 1].sequence;
      assert ResumeFrom(received) == last && store == store[..n] + store[n..];
      HeadIsOld(store, n);
      TailIsNew(store, n);
      AfterSeqAppend(store[..n], store[n..], last);
      AfterSeqNone(store[..n], last);
      AfterSeqAll(store[n..], last);
    }
  }

  // For a client that holds a beginning of the store, fitting is a matter of counting.
  lemma FitsIffInTime(received: seq<Event>, v: Visit)
    requires received <= v.store && v.pub <= |v.store| && Ascending(v.store) && NonNegative(v.store)
    ensures AttachFits(v.store, v.pub, v.isFinal, ResumeFrom(received)) <==> InTime(received, v)
  {
    var store, n := v.store, |received|;
    ResumesWhereItLeft(received, store);
    if n == 0 {
      HonestClientFits(store, v.pub, v.isFinal, -1);
    } else {
      assert received[n - 1] == store[n - 1];
      if v.pub < |store| {
        assert store[n - 1].sequence < store[v.pub].sequence <==> n - 1 < v.pub;
      }
    }
  }

  lemma VisitExtends(received: seq<Event>, v: Visit)
    requires received <= v.store && v.pub <= |v.store| && Ascending(v.store) && NonNegative(v.store)
    requires EndOf(received, v).Some? && InTime(received, v)
    ensures received + EndOf(received, v).value.conn.delivered <= EndOf(received, v).value.store
  {
    var end, lastSeq := EndOf(received, v).value, ResumeFrom(received);
    FitsIffInTime(received, v);
    StreamIsExact(v.store, v.pub, v.isFinal, lastSeq, v.steps);
    RunGrows(JustAttached(v.store, v.pub, v.isFinal, lastSeq), v.steps);
    StoredStaysNonNegative(JustAttached(v.store, v.pub, v.isFinal, lastSeq), v.steps);
    ResumesWhereItLeft(received, end.store);
    var tail := end.store[|received|..];
    UpToTerminalPrefix(tail, []);
    assert end.store == received + tail;
  }

  lemma {:induction false} StoredStaysNonNegative(w: World, steps: seq<Step>)
    requires Run(w, steps).Some? && NonNegative(w.store)
    ensures NonNegative(Run(w, steps).value.store)
    decreases |steps|
  {
    if steps != [] {
      if steps[0].Insert? && w.store != [] {
        assert w.store[|w.store| - 1] in w.store;
      }
      StoredStaysNonNegative(Next(w, steps[0]), steps[1..]);
    }
  }

  /**
   * Over any number of connections, each resuming where the last one left off and each with
   * its own interleaving, what the client collected is a prefix of the store.
   */
  lemma {:induction false} ReconnectsGivePrefix(store: seq<Event>, pub: nat, received: seq<Event>, visits: seq<Visit>)
    requires received <= store && Possible(store, pub, received, visits) && ComesBackInTime(received, visits)
    ensures Collected(received, visits) <= StoredAtEnd(store, received, visits)
    decreases |visits|
  {
    if visits != [] {
      var end := EndOf(received, visits[0]).value;
      VisitExtends(received, visits[0]);
      ReconnectsGivePrefix(end.store, end.pub, received + end.conn.delivered, visits[1..]);
    }
  }

  // An event is published in the step that stores it, so a client finds all of it published.
  predicate AllPublished(visits: seq<Visit>) {
    forall i {:trigger visits[i]} :: 0 <= i < |visits| ==> visits[i].pub == |visits[i].store|
  }

  lemma {:induction false} PublishedAtOnceIsInTime(store: seq<Event>, pub: nat, received: seq<Event>, visits: seq<Visit>)
    requires received <= store && Possible(store, pub, received, visits) && AllPublished(visits)
    ensures ComesBackInTime(received, visits)
    decreases |visits|
  {
    if visits != [] {
      var v, end := visits[0], EndOf(received, visits[0]).value;
      VisitExtends(received, v);
      assert forall i {:trigger visits[1..][i]} :: 0 <= i < |visits| - 1 ==> visits[1..][i] == visits[i + 1];
      PublishedAtOnceIsInTime(end.store, end.pub, received + end.conn.delivered, visits[1..]);
    }
  }

  /** As the gateway publishes: from the first connection on, only a prefix of the store is collected. */
  lemma ReconnectsOfTheGateway(visits: seq<Visit>)
    requires Possible([], 0, [], visits) && AllPublished(visits)
    ensures ComesBackInTime([], visits) && Collected([], visits) <= StoredAtEnd([], [], visits)
  {
    PublishedAtOnceIsInTime([], 0, [], visits);
    ReconnectsGivePrefix([], 0, [], visits);
  }

  ghost predicate ExtendsAfter(received: seq<Event>, v: Visit, steps: seq<Step>) {
    var end := EndOf(received, v.(steps := steps));
    end.Some? ==> received + end.value.conn.delivered <= end.value.store
  }

  /**
   * A client that holds a beginning of the store keeps holding one, whatever happens while it
   * is connected, if and only if it comes back in time.
   */
  lemma ReconnectIsSafeIff(received: seq<Event>, v: Visit)
    requires received <= v.store && v.pub <= |v.store| && Ascending(v.store) && NonNegative(v.store)
    ensures (forall steps {:trigger ExtendsAfter(received, v, steps)} :: ExtendsAfter(received, v, steps)) <==> InTime(received, v)
  {
    if InTime(received, v) {
      forall steps {:trigger ExtendsAfter(received, v, steps)} ensures ExtendsAfter(received, v, steps) {
        if EndOf(received, v.(steps := steps)).Some? {
          VisitExtends(received, v.(steps := steps));
        }
      }
    } else {
      FitsIffInTime(received, v);
      var steps, stale := MisfitRun(v.store, v.pub, v.isFinal, ResumeFrom(received));
      var end := EndOf(received, v.(steps := steps)).value;
      if received + end.conn.delivered <= end.store {
        ExtensionIsNewer(received, end.conn.delivered, end.store, stale);
      }
      assert !ExtendsAfter(received, v, steps);
    }
  }

  lemma ExtensionIsNewer(received: seq<Event>, delivered: seq<Event>, store: seq<Event>, e: Event)
    requires received != [] && received + delivered <= store && Ascending(store) && e in delivered
    ensures e.sequence > ResumeFrom(received)
  {
    var n := |received|;
    var i :| 0 <= i < |delivered| && delivered[i] == e;
    assert store[n - 1] == (received + delivered)[n - 1] == received[n - 1];
    assert store[n + i] == (received + delivered)[n + i] == e;
  }

  // Stored but not yet published when the client comes back: it is received twice.
  lemma RepeatedAfterReconnect(e: Event)
    requires e.sequence == 0 && !IsTerminal(e)
    ensures var first, second := Visit([e], 0, false, [Read, Send]), Visit([e], 0, false, [Read, Flush, Publish]);
      Possible([], 0, [], [first, second]) && Collected([], [first, second]) == [e, e]
  {
    var first, second := Visit([e], 0, false, [Read, Send]), Visit([e], 0, false, [Read, Flush, Publish]);
    FirstVisit(e);
    SecondVisit(e);
    assert [first, second][1..] == [second] && [second][1..] == [] && [] + [e] == [e] && [e] + [e] == [e, e];
    assert Possible([e], 1, [e, e], []);
    assert Possible([e], 0, [e], [second]);
    assert Collected([e], [second]) == Collected([e, e], []);
  }

  lemma FirstVisit(e: Event)
    requires e.sequence == 0 && !IsTerminal(e)
    ensures var end := EndOf([], Visit([e], 0, false, [Read, Send]));
      end.Some? && end.value.store == [e] && end.value.pub == 0 && end.value.conn.delivered == [e]
  {
    var w0 := JustAttached([e], 0, false, -1);
    AfterSeqAll([e], -1);
    var w1 := Next(w0, Read);
    RunFirst(w1, Send, []);
    RunFirst(w0, Read, [Send] + []);
    assert [Read, Send] == [Read] + ([Send] + []);
  }

  lemma SecondVisit(e: Event)
    requires e.sequence == 0 && !IsTerminal(e)
    ensures var end := EndOf([e], Visit([e], 0, false, [Read, Flush, Publish]));
      end.Some? && end.value.store == [e] && end.value.pub == 1 && end.value.conn.delivered == [e]
  {
    var w0 := JustAttached([e], 0, false, 0);
    AfterSeqNone([e], 0);
    var w1 := Next(w0, Read);
    var w2 := Next(w1, Flush);
    RunFirst(w2, Publish, []);
    RunFirst(w1, Flush, [Publish] + []);
    RunFirst(w0, Read, [Flush] + ([Publish] + []));
    assert [Read, Flush, Publish] == [Read] + ([Flush] + ([Publish] + []));
  }
}
