/** What a client of the live stream receives, over every interleaving of the steps. */
module StreamExact {
  import opened Basics
  import opened Events
  import opened Stream

  predicate Ascending(es: seq<Event>) {
    forall i, j {:trigger es[i], es[j]} :: 0 <= i < j < |es| ==> es[i].sequence < es[j].sequence
  }

  function Seqs(es: seq<Event>): set<int> {
    set e <- es :: e.sequence
  }

  predicate HasTerminal(es: seq<Event>) {
    exists i {:trigger IsTerminal(es[i])} :: 0 <= i < |es| && IsTerminal(es[i])
  }

  // ------------------------------------------------------------- the two filters

  lemma Regroup(now: seq<Event>, a: seq<Event>, b: seq<Event>, both: seq<Event>)
    requires both == a + b
    ensures now + both == now + a + b
  {}

  lemma {:induction false} AfterSeqAppend(a: seq<Event>, b: seq<Event>, lastSeq: int)
    ensures AfterSeq(a + b, lastSeq) == AfterSeq(a, lastSeq) + AfterSeq(b, lastSeq)
  {
    if a == [] {
      assert a + b == b;
    } else {
      AfterSeqAppend(a[1..], b, lastSeq);
      assert (a + b)[0] == a[0] && (a + b)[1..] == a[1..] + b;
      Regroup(if a[0].sequence > lastSeq then [a[0]] else [], AfterSeq(a[1..], lastSeq), AfterSeq(b, lastSeq),
              AfterSeq(a[1..] + b, lastSeq));
    }
  }

  lemma AfterSeqNext(store: seq<Event>, n: nat, lastSeq: int)
    requires n < |store| && store[n].sequence > lastSeq
    ensures AfterSeq(store[..n + 1], lastSeq) == AfterSeq(store[..n], lastSeq) + [store[n]]
  {
    assert store[..n + 1] == store[..n] + [store[n]];
    AfterSeqAppend(store[..n], [store[n]], lastSeq);
    assert [store[n]][1..] == [];
  }

  lemma {:induction false} AfterSeqMembers(es: seq<Event>, lastSeq: int, e: Event)
    ensures e in AfterSeq(es, lastSeq) <==> e in es && e.sequence > lastSeq
  {
    if es != [] {
      AfterSeqMembers(es[1..], lastSeq, e);
      assert es == [es[0]] + es[1..];
    }
  }

  lemma UpToTerminalCons(e: Event, rest: seq<Event>)
    ensures UpToTerminal([e] + rest) == if IsTerminal(e) then [e] else [e] + UpToTerminal(rest)
    ensures HasTerminal([e] + rest) <==> IsTerminal(e) || HasTerminal(rest)
  {
    assert ([e] + rest)[1..] == rest;
    TerminalHead([e] + rest);
  }

  lemma {:induction false} CutInFirst(a: seq<Event>, b: seq<Event>)
    requires HasTerminal(a)
    ensures UpToTerminal(a + b) == UpToTerminal(a)
  {
    var rest := a[1..];
    assert a == [a[0]] + rest && a + b == [a[0]] + (rest + b);
    UpToTerminalCons(a[0], rest);
    UpToTerminalCons(a[0], rest + b);
    if !IsTerminal(a[0]) {
      CutInFirst(rest, b);
    }
  }

  lemma {:induction false} CutInSecond(a: seq<Event>, b: seq<Event>)
    requires !HasTerminal(a)
    ensures UpToTerminal(a + b) == a + UpToTerminal(b)
  {
    if a == [] {
      assert a + b == b;
    } else {
      var rest := a[1..];
      assert a == [a[0]] + rest && a + b == [a[0]] + (rest + b);
      UpToTerminalCons(a[0], rest);
      UpToTerminalCons(a[0], rest + b);
      CutInSecond(rest, b);
      Regroup([a[0]], rest, UpToTerminal(b), UpToTerminal(rest + b));
    }
  }

  lemma UpToTerminalAppend(a: seq<Event>, b: seq<Event>)
    ensures UpToTerminal(a + b) == if HasTerminal(a) then UpToTerminal(a) else a + UpToTerminal(b)
  {
    if HasTerminal(a) {
      CutInFirst(a, b);
    } else {
      CutInSecond(a, b);
    }
  }

  lemma {:induction false} UpToTerminalIs(a: seq<Event>)
    ensures HasTerminal(a) <==> HasTerminal(UpToTerminal(a))
    ensures !HasTerminal(a) ==> UpToTerminal(a) == a
  {
    if a != [] {
      UpToTerminalIs(a[1..]);
      TerminalHead(a);
      TerminalHead(UpToTerminal(a));
      assert UpToTerminal(a)[1..] == if IsTerminal(a[0]) then [] else UpToTerminal(a[1..]);
      assert [a[0]] + a[1..] == a;
    }
  }

  lemma TerminalHead(es: seq<Event>)
    requires es != []
    ensures HasTerminal(es) <==> IsTerminal(es[0]) || HasTerminal(es[1..])
  {
    if HasTerminal(es) {
      var i :| 0 <= i < |es| && IsTerminal(es[i]);
      assert i > 0 ==> IsTerminal(es[1..][i - 1]);
    }
    if HasTerminal(es[1..]) {
      var i :| 0 <= i < |es[1..]| && IsTerminal(es[1..][i]);
      assert IsTerminal(es[i + 1]);
    }
  }

  // ------------------------------------------------------------ exact deliveries

  // The client holds exactly the wanted events among the first n stored ones.
  predicate Exact(c: Conn, store: seq<Event>, n: nat)
    requires n <= |store|
  {
    && c.delivered == UpToTerminal(AfterSeq(store[..n], c.lastSeq))
    && (c.closed <==> HasTerminal(c.delivered))
    && c.sent == Seqs(c.delivered)
  }

  function Max(a: nat, b: nat): nat {
    if a < b then b else a
  }

  lemma SentAlready(c: Conn, store: seq<Event>, n: nat, i: nat)
    requires n <= |store| && Exact(c, store, n) && !c.closed && i < n && store[i].sequence > c.lastSeq
    ensures store[i].sequence in c.sent
  {
    var wanted := AfterSeq(store[..n], c.lastSeq);
    UpToTerminalIs(wanted);
    AfterSeqMembers(store[..n], c.lastSeq, store[i]);
    assert store[..n][i] == store[i];
    assert store[i] in c.delivered;
  }

  lemma NotYetSent(c: Conn, store: seq<Event>, n: nat)
    requires n < |store| && Ascending(store) && Exact(c, store, n) && !c.closed
    ensures store[n].sequence !in c.sent
  {
    var wanted := AfterSeq(store[..n], c.lastSeq);
    UpToTerminalIs(wanted);
    forall e | e in c.delivered ensures e.sequence < store[n].sequence {
      AfterSeqMembers(store[..n], c.lastSeq, e);
      var i :| 0 <= i < n && store[..n][i] == e;
      assert store[i] == e;
    }
  }

  lemma ClosedStays(c: Conn, store: seq<Event>, n: nat, m: nat)
    requires n <= m <= |store| && Exact(c, store, n) && c.closed
    ensures Exact(c, store, m)
  {
    var a, b := AfterSeq(store[..n], c.lastSeq), AfterSeq(store[n..m], c.lastSeq);
    assert store[..m] == store[..n] + store[n..m];
    AfterSeqAppend(store[..n], store[n..m], c.lastSeq);
    UpToTerminalIs(a);
    UpToTerminalAppend(a, b);
  }

  lemma ExactAppend(c: Conn, store: seq<Event>, n: nat)
    requires n < |store| && Exact(c, store, n) && !c.closed && store[n].sequence > c.lastSeq && store[n].sequence !in c.sent
    ensures Exact(Deliver(c, store[n]), store, n + 1)
  {
    var e, wanted := store[n], AfterSeq(store[..n], c.lastSeq);
    AfterSeqNext(store, n, c.lastSeq);
    UpToTerminalIs(wanted);
    UpToTerminalAppend(wanted, [e]);
    assert UpToTerminal([e]) == [e];
    TerminalLast(c.delivered, e);
    SeqsAppend(c.delivered, e);
  }

  lemma TerminalLast(es: seq<Event>, e: Event)
    ensures HasTerminal(es + [e]) <==> HasTerminal(es) || IsTerminal(e)
  {
    var more := es + [e];
    if HasTerminal(es) {
      var i :| 0 <= i < |es| && IsTerminal(es[i]);
      assert IsTerminal(more[i]);
    }
    if IsTerminal(e) {
      assert IsTerminal(more[|es|]);
    }
    if HasTerminal(more) && !IsTerminal(e) {
      var i :| 0 <= i < |more| && IsTerminal(more[i]);
      assert IsTerminal(es[i]);
    }
  }

  lemma SeqsAppend(es: seq<Event>, e: Event)
    ensures Seqs(es + [e]) == Seqs(es) + {e.sequence}
  {}

  // Whatever was already delivered is skipped, and the next event is appended.
  lemma DeliverNext(c: Conn, store: seq<Event>, n: nat, i: nat)
    requires i <= n <= |store| && i < |store| && Ascending(store) && Exact(c, store, n) && store[i].sequence > c.lastSeq
    ensures Exact(Deliver(c, store[i]), store, Max(n, i + 1))
  {
    if c.closed {
      ClosedStays(c, store, n, Max(n, i + 1));
    } else if i < n {
      SentAlready(c, store, n, i);
    } else {
      NotYetSent(c, store, n);
      ExactAppend(c, store, n);
    }
  }

  lemma {:induction false} DeliverRange(c: Conn, store: seq<Event>, n: nat, i: nat, p: nat)
    requires i <= p <= |store| && i <= n <= |store| && Ascending(store) && Exact(c, store, n)
    requires forall k {:trigger store[k]} :: i <= k < p ==> store[k].sequence > c.lastSeq
    ensures var d := DeliverAll(c, store[i..p]); Exact(d, store, Max(n, p)) && d.lastSeq == c.lastSeq
    decreases p - i
  {
    if i < p {
      var rest := store[i..p][1..];
      assert store[i..p][0] == store[i] && rest == store[i + 1..p];
      DeliverNext(c, store, n, i);
      DeliverRange(Deliver(c, store[i]), store, Max(n, i + 1), i + 1, p);
    } else {
      assert store[i..p] == [];
    }
  }

  // ------------------------------------------------------- what every step keeps

  // `from` is how much was published when the client attached, `read` how much was stored
  // when the backlog was read, or when the client attached as long as it was not.
  datatype Start = Start(from: nat, read: nat)

  // The least number an event published from now on can have.
  function FirstToCome(store: seq<Event>, pub: nat): int
    requires pub <= |store|
  {
    if pub < |store| then store[pub].sequence else NextNumber(store)
  }

  /**
   * What can be checked when a client attaches: the stream ends with its backlog, or nothing
   * published later can lie at or below the resume position.
   */
  predicate AttachFits(store: seq<Event>, pub: nat, isFinal: bool, lastSeq: int)
    requires pub <= |store|
  {
    isFinal || HasTerminal(AfterSeq(store, lastSeq)) || lastSeq < FirstToCome(store, pub)
  }

  // Half way through the backlog.
  predicate SendingPart(c: Conn, store: seq<Event>, read: nat)
    requires read <= |store|
  {
    var wanted := AfterSeq(store[..read], c.lastSeq);
    && c.sent == Seqs(c.delivered) && (c.closed <==> HasTerminal(c.delivered))
    && if c.closed then c.delivered == UpToTerminal(wanted) else c.delivered + c.backlog == wanted
  }

  predicate Inv(w: World, s: Start) {
    var c := w.conn;
    && Ascending(w.store) && s.from <= w.pub <= |w.store| && s.from <= s.read <= |w.store|
    && (c.wasFinal || HasTerminal(AfterSeq(w.store[..s.read], c.lastSeq)) || c.lastSeq < FirstToCome(w.store, s.from))
    && match c.phase
       case Attached => !c.closed && c.delivered == [] && c.sent == {} && c.buffer == w.store[s.from..w.pub]
       case Sending => SendingPart(c, w.store, s.read) && (!c.closed ==> c.buffer == w.store[s.from..w.pub])
       case Live => Exact(c, w.store, Max(s.read, w.pub)) && c.lastSeq < FirstToCome(w.store, s.from)
       case Over => c.closed && c.delivered <= UpToTerminal(AfterSeq(w.store, c.lastSeq))
  }

  // In an ascending store, all that is published after attaching is as new as the first of it.
  lemma LaterIsNewer(store: seq<Event>, from: nat, k: nat, lastSeq: int)
    requires Ascending(store) && from <= k < |store| && lastSeq < FirstToCome(store, from)
    ensures store[k].sequence > lastSeq
  {}

  lemma {:induction false} UpToTerminalPrefix(a: seq<Event>, b: seq<Event>)
    ensures UpToTerminal(a) <= UpToTerminal(a + b)
    ensures UpToTerminal(a) <= a
  {
    UpToTerminalAppend(a, b);
    UpToTerminalIs(a);
    if a != [] && !IsTerminal(a[0]) {
      UpToTerminalPrefix(a[1..], b);
    }
  }

  // What was delivered out of the first n events is the beginning of all that is wanted.
  lemma DeliveredIsPrefix(delivered: seq<Event>, store: seq<Event>, n: nat, lastSeq: int)
    requires n <= |store| && delivered <= UpToTerminal(AfterSeq(store[..n], lastSeq))
    ensures delivered <= UpToTerminal(AfterSeq(store, lastSeq))
  {
    assert store == store[..n] + store[n..];
    AfterSeqAppend(store[..n], store[n..], lastSeq);
    UpToTerminalPrefix(AfterSeq(store[..n], lastSeq), AfterSeq(store[n..], lastSeq));
  }

  lemma InsertKeeps(w: World, s: Start, ev: Event)
    requires Inv(w, s) && Enabled(w, Insert(ev))
    ensures Inv(Next(w, Insert(ev)), s)
  {
    var store, more := w.store, w.store + [ev];
    InsertAscends(store, ev);
    assert more[s.from..w.pub] == store[s.from..w.pub];
    assert more[..s.read] == store[..s.read] && more[..Max(s.read, w.pub)] == store[..Max(s.read, w.pub)];
    if w.conn.phase == Over {
      assert more[..|store|] == store;
      DeliveredIsPrefix(w.conn.delivered, more, |store|, w.conn.lastSeq);
    }
  }

  lemma InsertAscends(store: seq<Event>, ev: Event)
    requires Ascending(store) && NextNumber(store) <= ev.sequence
    ensures Ascending(store + [ev])
    ensures forall from: nat {:trigger FirstToCome(store, from)} ::
      from <= |store| ==> FirstToCome(store, from) <= FirstToCome(store + [ev], from)
  {
    var more := store + [ev];
    forall i, j {:trigger more[i], more[j]} | 0 <= i < j < |more| ensures more[i].sequence < more[j].sequence {
      assert more[i] == store[i];
      assert j < |store| ==> more[j] == store[j];
      assert store[i].sequence <= store[|store| - 1].sequence;
    }
  }

  lemma PublishKeeps(w: World, s: Start)
    requires Inv(w, s) && Enabled(w, Publish)
    ensures Inv(Next(w, Publish), s)
  {
    var c, p := w.conn, w.pub;
    assert w.store[s.from..p] + [w.store[p]] == w.store[s.from..p + 1];
    if c.phase == Live {
      var n := Max(s.read, p);
      LaterIsNewer(w.store, s.from, p, c.lastSeq);
      if p < s.read || n == p {
        DeliverNext(c, w.store, n, p);
      }
    }
  }

  lemma TerminalMore(a: seq<Event>, b: seq<Event>)
    requires HasTerminal(a)
    ensures HasTerminal(a + b)
  {
    var i :| 0 <= i < |a| && IsTerminal(a[i]);
    assert IsTerminal((a + b)[i]);
  }

  lemma ReadKeeps(w: World, s: Start)
    requires Inv(w, s) && Enabled(w, Read)
    ensures Inv(Next(w, Read), s.(read := |w.store|))
  {
    var store, lastSeq := w.store, w.conn.lastSeq;
    assert store[..|store|] == store && store[..s.read] + store[s.read..] == store;
    assert [] + AfterSeq(store, lastSeq) == AfterSeq(store, lastSeq);
    AfterSeqAppend(store[..s.read], store[s.read..], lastSeq);
    if HasTerminal(AfterSeq(store[..s.read], lastSeq)) {
      TerminalMore(AfterSeq(store[..s.read], lastSeq), AfterSeq(store[s.read..], lastSeq));
    }
  }

  lemma {:induction false} AfterSeqAscending(es: seq<Event>, lastSeq: int)
    requires Ascending(es)
    ensures Ascending(AfterSeq(es, lastSeq))
  {
    if es != [] {
      var rest := es[1..];
      assert forall i, j {:trigger rest[i], rest[j]} :: 0 <= i < j < |rest| ==> rest[i] == es[i + 1] && rest[j] == es[j + 1];
      AfterSeqAscending(rest, lastSeq);
      if es[0].sequence > lastSeq {
        var tail := AfterSeq(rest, lastSeq);
        forall j | 0 <= j < |tail| ensures es[0].sequence < tail[j].sequence {
          AfterSeqMembers(rest, lastSeq, tail[j]);
          var k :| 0 <= k < |rest| && rest[k] == tail[j];
          assert es[k + 1] == tail[j];
        }
      }
    }
  }

  // The next event of an ascending backlog was not sent yet.
  lemma NextIsNew(delivered: seq<Event>, backlog: seq<Event>)
    requires backlog != [] && Ascending(delivered + backlog)
    ensures backlog[0].sequence !in Seqs(delivered)
  {
    var all := delivered + backlog;
    assert all[|delivered|] == backlog[0];
    forall x | x in delivered ensures x.sequence < backlog[0].sequence {
      var i :| 0 <= i < |delivered| && delivered[i] == x;
      assert all[i] == x;
    }
  }

  lemma MoveOne(delivered: seq<Event>, backlog: seq<Event>)
    requires backlog != []
    ensures delivered + backlog == (delivered + [backlog[0]]) + backlog[1..]
  {}

  lemma SendingKeeps(c: Conn, store: seq<Event>, read: nat)
    requires read <= |store| && Ascending(store) && SendingPart(c, store, read) && c.backlog != [] && !c.closed
    ensures SendingPart(SendNext(c), store, read)
  {
    var e := c.backlog[0];
    AfterSeqAscending(store[..read], c.lastSeq);
    NextIsNew(c.delivered, c.backlog);
    SeqsAppend(c.delivered, e);
    TerminalLast(c.delivered, e);
    MoveOne(c.delivered, c.backlog);
    if IsTerminal(e) {
      EndedHere(c.delivered, e, c.backlog[1..]);
    }
  }

  lemma SendKeeps(w: World, s: Start)
    requires Inv(w, s) && Enabled(w, Send)
    ensures Inv(Next(w, Send), s)
  {
    SendingKeeps(w.conn, w.store, s.read);
  }

  lemma EndedHere(delivered: seq<Event>, e: Event, rest: seq<Event>)
    requires !HasTerminal(delivered) && IsTerminal(e)
    ensures UpToTerminal((delivered + [e]) + rest) == delivered + [e]
  {
    TerminalLast(delivered, e);
    UpToTerminalAppend(delivered + [e], rest);
    UpToTerminalAppend(delivered, [e]);
    assert UpToTerminal([e]) == [e];
  }

  lemma FlushKeeps(w: World, s: Start)
    requires Inv(w, s) && Enabled(w, Flush)
    ensures Inv(Next(w, Flush), s)
  {
    var c := w.conn;
    var wanted := AfterSeq(w.store[..s.read], c.lastSeq);
    UpToTerminalIs(wanted);
    assert c.delivered + [] == c.delivered;
    if c.closed || c.wasFinal {
      DeliveredIsPrefix(c.delivered, w.store, s.read, c.lastSeq);
    } else {
      forall k {:trigger w.store[k]} | s.from <= k < w.pub ensures w.store[k].sequence > c.lastSeq {
        LaterIsNewer(w.store, s.from, k, c.lastSeq);
      }
      DeliverRange(c, w.store, s.read, s.from, w.pub);
    }
  }

  lemma DisconnectKeeps(w: World, s: Start)
    requires Inv(w, s) && Enabled(w, Disconnect)
    ensures Inv(Next(w, Disconnect), s)
  {
    var c := w.conn;
    if c.phase == Sending {
      var wanted := AfterSeq(w.store[..s.read], c.lastSeq);
      UpToTerminalIs(wanted);
      if !c.closed {
        UpToTerminalAppend(c.delivered, c.backlog);
      }
      DeliveredIsPrefix(c.delivered, w.store, s.read, c.lastSeq);
    } else if c.phase == Live {
      DeliveredIsPrefix(c.delivered, w.store, Max(s.read, w.pub), c.lastSeq);
    }
  }

  // ----------------------------------------------------------------- whole runs

  function Run(w: World, steps: seq<Step>): Option<World>
    decreases |steps|
  {
    if steps == [] then Some(w)
    else if !Enabled(w, steps[0]) then None
    else Run(Next(w, steps[0]), steps[1..])
  }

  lemma {:induction false} RunGrows(w: World, steps: seq<Step>)
    requires Run(w, steps).Some?
    ensures var v := Run(w, steps).value; w.store <= v.store && w.pub <= v.pub && v.conn.lastSeq == w.conn.lastSeq
    decreases |steps|
  {
    if steps != [] {
      var n := Next(w, steps[0]);
      LastSeqStays(w.conn, w.conn.buffer);
      RunGrows(n, steps[1..]);
    }
  }

  lemma {:induction false} LastSeqStays(c: Conn, es: seq<Event>)
    ensures DeliverAll(c, es).lastSeq == c.lastSeq
    decreases |es|
  {
    if es != [] {
      LastSeqStays(Deliver(c, es[0]), es[1..]);
    }
  }

  // Reading the store fixes what the backlog is.
  function Moved(w: World, s: Start, step: Step): Start {
    if step == Read then s.(read := |w.store|) else s
  }

  lemma StepKeeps(w: World, s: Start, step: Step)
    requires Inv(w, s) && Enabled(w, step)
    ensures Inv(Next(w, step), Moved(w, s, step))
  {
    match step {
      case Insert(ev) => InsertKeeps(w, s, ev);
      case Publish => PublishKeeps(w, s);
      case Read => ReadKeeps(w, s);
      case Send => SendKeeps(w, s);
      case Flush => FlushKeeps(w, s);
      case Disconnect => DisconnectKeeps(w, s);
    }
  }

  lemma {:induction false} RunKeeps(w: World, s: Start, steps: seq<Step>) returns (t: Start)
    requires Inv(w, s) && Run(w, steps).Some?
    ensures t.from == s.from && t.read >= s.read && Inv(Run(w, steps).value, t)
    ensures EndedWell(w, s) && Disconnect !in steps ==> EndedWell(Run(w, steps).value, t)
    decreases |steps|
  {
    t := s;
    if steps != [] {
      StepKeeps(w, s, steps[0]);
      if EndedWell(w, s) && steps[0] != Disconnect {
        StepEndsWell(w, s, steps[0]);
      }
      t := RunKeeps(Next(w, steps[0]), Moved(w, s, steps[0]), steps[1..]);
    }
  }

  // A stream that is over has sent its whole backlog, up to the first terminal event.
  predicate EndedWell(w: World, s: Start) {
    w.conn.phase == Over ==>
      s.read <= |w.store| && w.conn.delivered == UpToTerminal(AfterSeq(w.store[..s.read], w.conn.lastSeq))
  }

  lemma StepEndsWell(w: World, s: Start, step: Step)
    requires Inv(w, s) && EndedWell(w, s) && Enabled(w, step) && step != Disconnect
    ensures EndedWell(Next(w, step), Moved(w, s, step))
  {
    if step.Insert? {
      assert (w.store + [step.ev])[..s.read] == w.store[..s.read];
    } else if step == Flush {
      var c := w.conn;
      UpToTerminalIs(AfterSeq(w.store[..s.read], c.lastSeq));
      assert c.delivered + [] == c.delivered;
    }
  }

  function JustAttached(store: seq<Event>, pub: nat, isFinal: bool, lastSeq: int): World {
    World(store, pub, Attach(lastSeq, isFinal))
  }

  // The client has received, in order and once each, the beginning of what it wants; once
  // it is live and everything is published it has all of it.
  predicate Faithful(w: World) {
    var wanted := UpToTerminal(AfterSeq(w.store, w.conn.lastSeq));
    && w.conn.delivered <= wanted
    && Ascending(w.conn.delivered)
    && (w.conn.phase == Live && w.pub == |w.store| ==> w.conn.delivered == wanted)
  }

  lemma AttachedRun(store: seq<Event>, pub: nat, isFinal: bool, lastSeq: int, steps: seq<Step>) returns (t: Start)
    requires Ascending(store) && pub <= |store| && AttachFits(store, pub, isFinal, lastSeq)
    requires Run(JustAttached(store, pub, isFinal, lastSeq), steps).Some?
    ensures var w := Run(JustAttached(store, pub, isFinal, lastSeq), steps).value;
      && Inv(w, t) && w.conn.lastSeq == lastSeq && store <= w.store && |store| <= t.read
      && (Disconnect !in steps ==> EndedWell(w, t))
  {
    var w0 := JustAttached(store, pub, isFinal, lastSeq);
    RunGrows(w0, steps);
    assert store[..|store|] == store;
    assert Inv(w0, Start(pub, |store|));
    t := RunKeeps(w0, Start(pub, |store|), steps);
  }

  /**
   * In every interleaving, a client that attached where it fits has received the beginning
   * of the stored events after its resume position, in order and without repetition, up to
   * the first terminal event; once it is live it has all of them that were published.
   */
  lemma StreamIsExact(store: seq<Event>, pub: nat, isFinal: bool, lastSeq: int, steps: seq<Step>)
    requires Ascending(store) && pub <= |store| && AttachFits(store, pub, isFinal, lastSeq)
    requires Run(JustAttached(store, pub, isFinal, lastSeq), steps).Some?
    ensures var w := Run(JustAttached(store, pub, isFinal, lastSeq), steps).value;
      Faithful(w) && w.conn.lastSeq == lastSeq && Ascending(w.store) && w.pub <= |w.store|
  {
    var w := Run(JustAttached(store, pub, isFinal, lastSeq), steps).value;
    var t := AttachedRun(store, pub, isFinal, lastSeq, steps);
    InvIsPrefix(w, t);
    PrefixAscends(w.conn.delivered, w.store, lastSeq);
    if w.conn.phase == Live && w.pub == |w.store| {
      assert w.store[..|w.store|] == w.store;
    }
  }

  // What a stream holds that has ended by itself, in whichever phase.
  lemma ClosedHolds(w: World, t: Start) returns (n: nat)
    requires Inv(w, t) && EndedWell(w, t) && w.conn.closed
    ensures t.read <= n <= |w.store| && w.conn.delivered == UpToTerminal(AfterSeq(w.store[..n], w.conn.lastSeq))
    ensures w.conn.phase != Over ==> HasTerminal(w.conn.delivered)
  {
    n := if w.conn.phase == Live then Max(t.read, w.pub) else t.read;
  }

  predicate CompleteTo(w: World, n: nat)
    requires n <= |w.store|
  {
    w.conn.delivered == UpToTerminal(AfterSeq(w.store[..n], w.conn.lastSeq))
  }

  lemma TerminalIsEnough(w: World, n: nat)
    requires n <= |w.store| && CompleteTo(w, n) && HasTerminal(w.conn.delivered)
    ensures CompleteTo(w, |w.store|)
  {
    var lastSeq, head := w.conn.lastSeq, AfterSeq(w.store[..n], w.conn.lastSeq);
    UpToTerminalIs(head);
    assert w.store[..n] + w.store[n..] == w.store == w.store[..|w.store|];
    AfterSeqAppend(w.store[..n], w.store[n..], lastSeq);
    CutInFirst(head, AfterSeq(w.store[n..], lastSeq));
  }

  /**
   * A stream that ended by itself, without the client leaving, is complete: the client holds
   * all that was stored after its position when it attached, up to the first terminal event,
   * and all that is stored now if there is a terminal event or nothing was stored since.
   */
  lemma EndedStreamIsComplete(store: seq<Event>, pub: nat, isFinal: bool, lastSeq: int, steps: seq<Step>)
    requires Ascending(store) && pub <= |store| && AttachFits(store, pub, isFinal, lastSeq)
    requires Run(JustAttached(store, pub, isFinal, lastSeq), steps).Some? && Disconnect !in steps
    requires Run(JustAttached(store, pub, isFinal, lastSeq), steps).value.conn.closed
    ensures var w := Run(JustAttached(store, pub, isFinal, lastSeq), steps).value;
      && (exists n {:trigger CompleteTo(w, n)} :: |store| <= n <= |w.store| && CompleteTo(w, n))
      && (HasTerminal(w.conn.delivered) || w.store == store ==> w.conn.delivered == UpToTerminal(AfterSeq(w.store, lastSeq)))
  {
    var w := Run(JustAttached(store, pub, isFinal, lastSeq), steps).value;
    var t := AttachedRun(store, pub, isFinal, lastSeq, steps);
    var n := ClosedHolds(w, t);
    assert CompleteTo(w, n);
    if HasTerminal(w.conn.delivered) {
      TerminalIsEnough(w, n);
    }
    assert w.store[..|w.store|] == w.store;
  }

  lemma InvIsPrefix(w: World, t: Start)
    requires Inv(w, t)
    ensures w.conn.delivered <= UpToTerminal(AfterSeq(w.store, w.conn.lastSeq))
  {
    var c := w.conn;
    match c.phase {
      case Sending =>
        var wanted := AfterSeq(w.store[..t.read], c.lastSeq);
        UpToTerminalIs(wanted);
        if !c.closed {
          UpToTerminalAppend(c.delivered, c.backlog);
        }
        DeliveredIsPrefix(c.delivered, w.store, t.read, c.lastSeq);
      case Live => DeliveredIsPrefix(c.delivered, w.store, Max(t.read, w.pub), c.lastSeq);
      case _ =>
    }
  }

  lemma PrefixAscends(delivered: seq<Event>, store: seq<Event>, lastSeq: int)
    requires Ascending(store) && delivered <= UpToTerminal(AfterSeq(store, lastSeq))
    ensures Ascending(delivered)
  {
    var wanted := AfterSeq(store, lastSeq);
    AfterSeqAscending(store, lastSeq);
    UpToTerminalPrefix(wanted, []);
    assert forall i {:trigger delivered[i]} :: 0 <= i < |delivered| ==> delivered[i] == wanted[i];
  }

  // ------------------------------------------------------- when a stream is not exact

  function Sends(n: nat): seq<Step> {
    if n == 0 then [] else [Send] + Sends(n - 1)
  }

  lemma RunFirst(w: World, step: Step, rest: seq<Step>)
    requires Enabled(w, step)
    ensures Run(w, [step] + rest) == Run(Next(w, step), rest)
  {
    assert ([step] + rest)[1..] == rest;
  }

  // Half way through a backlog that ends no stream.
  predicate Draining(c: Conn) {
    && c.phase == Sending && !c.closed && !c.wasFinal && c.buffer == []
    && !HasTerminal(c.backlog) && Ascending(c.delivered + c.backlog) && c.sent == Seqs(c.delivered)
  }

  function GoneLive(c: Conn): Conn {
    var all := c.delivered + c.backlog;
    Conn(Live, c.lastSeq, false, [], [], Seqs(all), all, false)
  }

  lemma SendDrains(c: Conn)
    requires Draining(c) && c.backlog != []
    ensures Draining(SendNext(c)) && |SendNext(c).backlog| == |c.backlog| - 1 && GoneLive(SendNext(c)) == GoneLive(c)
  {
    TerminalHead(c.backlog);
    NextIsNew(c.delivered, c.backlog);
    SeqsAppend(c.delivered, c.backlog[0]);
    MoveOne(c.delivered, c.backlog);
  }

  lemma DrainedFlushes(c: Conn)
    requires Draining(c) && c.backlog == []
    ensures GoLive(c) == GoneLive(c)
  {
    assert c.delivered + [] == c.delivered;
  }

  lemma SendsFirst(n: nat, rest: seq<Step>)
    requires n > 0
    ensures Sends(n) + rest == [Send] + (Sends(n - 1) + rest)
  {}

  // The whole backlog can be sent, and then the client goes live.
  lemma {:induction false} DrainedGoesLive(store: seq<Event>, pub: nat, c: Conn, n: nat, rest: seq<Step>)
    requires Draining(c) && n == |c.backlog|
    ensures Run(World(store, pub, c), Sends(n) + ([Flush] + rest)) == Run(World(store, pub, GoneLive(c)), rest)
    decreases n
  {
    var w, flushed := World(store, pub, c), [Flush] + rest;
    if n == 0 {
      DrainedFlushes(c);
      RunFirst(w, Flush, rest);
      assert Sends(0) + flushed == flushed;
    } else {
      SendDrains(c);
      DrainedGoesLive(store, pub, SendNext(c), n - 1, rest);
      SendsFirst(n, flushed);
      RunFirst(w, Send, Sends(n - 1) + flushed);
    }
  }

  // A live client takes the next published event, however old, unless it was sent already.
  lemma LiveTakes(w: World)
    requires w.conn.phase == Live && !w.conn.closed && w.pub < |w.store| && w.store[w.pub].sequence !in w.conn.sent
    ensures Run(w, [Publish]).Some? && w.store[w.pub] in Run(w, [Publish]).value.conn.delivered
    ensures Run(w, [Publish]).value.store == w.store
  {
    RunFirst(w, Publish, []);
    assert [Publish] + [] == [Publish];
    var d := w.conn.delivered + [w.store[w.pub]];
    assert d[|w.conn.delivered|] == w.store[w.pub];
  }

  /** Where an attachment does not fit, some run delivers an event at or below the resume position. */
  lemma MisfitRun(store: seq<Event>, pub: nat, isFinal: bool, lastSeq: int) returns (steps: seq<Step>, stale: Event)
    requires Ascending(store) && pub <= |store| && !AttachFits(store, pub, isFinal, lastSeq)
    ensures Run(JustAttached(store, pub, isFinal, lastSeq), steps).Some?
    ensures var w := Run(JustAttached(store, pub, isFinal, lastSeq), steps).value;
      stale in w.conn.delivered && stale.sequence <= lastSeq && Ascending(w.store) && store <= w.store
  {
    var backlog := AfterSeq(store, lastSeq);
    var w0 := JustAttached(store, pub, isFinal, lastSeq);
    var w1 := Next(w0, Read);
    AfterSeqAscending(store, lastSeq);
    assert [] + backlog == backlog;
    var live := World(store, pub, GoneLive(w1.conn));
    forall e | e in backlog ensures e.sequence > lastSeq {
      AfterSeqMembers(store, lastSeq, e);
    }
    var rest := [Publish];
    if pub < |store| {
      stale := store[pub];
      LiveTakes(live);
    } else {
      stale := Event(0, 0, NextNumber(store), CommandReceived, None, Payload(None, None, None, None, None, false));
      InsertAscends(store, stale);
      rest := [Insert(stale), Publish];
      assert rest == [Insert(stale)] + [Publish];
      RunFirst(live, Insert(stale), [Publish]);
      LiveTakes(Next(live, Insert(stale)));
    }
    var sends := Sends(|backlog|) + ([Flush] + rest);
    steps := [Read] + sends;
    RunFirst(w0, Read, sends);
    DrainedGoesLive(store, pub, w1.conn, |backlog|, rest);
  }

  lemma StaleIsUnwanted(store: seq<Event>, lastSeq: int, e: Event)
    requires e.sequence <= lastSeq
    ensures e !in UpToTerminal(AfterSeq(store, lastSeq))
  {
    AfterSeqMembers(store, lastSeq, e);
    UpToTerminalPrefix(AfterSeq(store, lastSeq), []);
  }

  ghost predicate FaithfulAfter(store: seq<Event>, pub: nat, isFinal: bool, lastSeq: int, steps: seq<Step>) {
    var r := Run(JustAttached(store, pub, isFinal, lastSeq), steps);
    r.Some? ==> Faithful(r.value)
  }

  /**
   * Every run of a client that attaches is exact if and only if the attachment fits, which
   * is known when it attaches: live events are not compared with the resume position.
   */
  lemma ExactIffFits(store: seq<Event>, pub: nat, isFinal: bool, lastSeq: int)
    requires Ascending(store) && pub <= |store|
    ensures (forall steps {:trigger FaithfulAfter(store, pub, isFinal, lastSeq, steps)} ::
               FaithfulAfter(store, pub, isFinal, lastSeq, steps))
      <==> AttachFits(store, pub, isFinal, lastSeq)
  {
    if AttachFits(store, pub, isFinal, lastSeq) {
      forall steps {:trigger FaithfulAfter(store, pub, isFinal, lastSeq, steps)}
        ensures FaithfulAfter(store, pub, isFinal, lastSeq, steps)
      {
        if Run(JustAttached(store, pub, isFinal, lastSeq), steps).Some? {
          StreamIsExact(store, pub, isFinal, lastSeq, steps);
        }
      }
    } else {
      var steps, stale := MisfitRun(store, pub, isFinal, lastSeq);
      var w0 := JustAttached(store, pub, isFinal, lastSeq);
      RunGrows(w0, steps);
      StaleIsUnwanted(Run(w0, steps).value.store, lastSeq, stale);
      assert !FaithfulAfter(store, pub, isFinal, lastSeq, steps);
    }
  }

  predicate NonNegative(store: seq<Event>) {
    forall e <- store :: e.sequence >= 0
  }

  // A client that names no position, or the number of an event already published, fits.
  lemma HonestClientFits(store: seq<Event>, pub: nat, isFinal: bool, lastSeq: int)
    requires Ascending(store) && NonNegative(store) && pub <= |store|
    requires lastSeq == -1 || exists i :: 0 <= i < pub && store[i].sequence == lastSeq
    ensures AttachFits(store, pub, isFinal, lastSeq)
  {
    if pub < |store| {
      assert store[pub] in store;
    }
  }

  lemma {:induction false} AfterSeqNone(es: seq<Event>, lastSeq: int)
    requires forall e <- es :: e.sequence <= lastSeq
    ensures AfterSeq(es, lastSeq) == []
  {
    if es != [] {
      AfterSeqNone(es[1..], lastSeq);
    }
  }

  lemma {:induction false} AfterSeqAll(es: seq<Event>, lastSeq: int)
    requires forall e <- es :: e.sequence > lastSeq
    ensures AfterSeq(es, lastSeq) == es
  {
    if es != [] {
      AfterSeqAll(es[1..], lastSeq);
      assert [es[0]] + es[1..] == es;
    }
  }

  // A position beyond the end of a live session: the next event is delivered all the same.
  lemma ResumeBeyondTheEnd(first: Event, next: Event)
    requires first.sequence == 0 && next.sequence == 1 && !IsTerminal(first)
    ensures var r := Run(JustAttached([first], 1, false, 5), [Read, Flush, Insert(next), Publish]);
      r.Some? && r.value.conn.delivered == [next] && AfterSeq(r.value.store, 5) == []
  {
    var w0 := JustAttached([first], 1, false, 5);
    assert AfterSeq([first], 5) == [] by {
      AfterSeqNone([first], 5);
    }
    AfterSeqNone([first, next], 5);
    assert [first] + [next] == [first, next];
    var w1 := Next(w0, Read);
    var w2 := Next(w1, Flush);
    var w3 := Next(w2, Insert(next));
    var w4 := Next(w3, Publish);
    RunFirst(w3, Publish, []);
    RunFirst(w2, Insert(next), [Publish] + []);
    RunFirst(w1, Flush, [Insert(next)] + ([Publish] + []));
    RunFirst(w0, Read, [Flush] + ([Insert(next)] + ([Publish] + [])));
    assert [Read, Flush, Insert(next), Publish] == [Read] + ([Flush] + ([Insert(next)] + ([Publish] + [])));
  }
}
