/** The bus and the stream handler as objects, tied to the steps of one connection. */
module StreamRun {
  import opened Basics
  import opened Events
  import opened Stream
  import StreamExact

  class Connection {
    var phase: ConnPhase
    const lastSeq: int
    const wasFinal: bool
    var buffer: seq<Event>
    var backlog: seq<Event>
    var sentSequences: set<int>
    var wire: seq<Event>
    var closed: bool

    function Abstract(): Conn
      reads this
    {
      Conn(phase, lastSeq, wasFinal, buffer, backlog, sentSequences, wire, closed)
    }

    constructor (lastSeq: int, isFinal: bool)
      ensures Abstract() == Attach(lastSeq, isFinal)
    {
      this.lastSeq, this.wasFinal := lastSeq, isFinal;
      phase, buffer, backlog, sentSequences, wire, closed := Attached, [], [], {}, [], false;
    }

    method DeliverEvent(ev: Event)
      modifies this`sentSequences, this`wire, this`closed
      ensures Abstract() == Deliver(old(Abstract()), ev)
    {
      if closed {
        return;
      }
      if ev.sequence in sentSequences {
        return;
      }
      sentSequences := sentSequences + {ev.sequence};
      wire := wire + [ev];
      if IsTerminal(ev) {
        closed := true;
      }
    }

    // The listener: paused into the buffer until the flush, then straight to the client.
    method OnEvent(ev: Event)
      modifies this
      ensures Abstract() == Receive(old(Abstract()), ev)
    {
      if closed {
        return;
      }
      if phase == Live {
        DeliverEvent(ev);
      } else {
        buffer := buffer + [ev];
      }
    }

    method ReadBacklog(store: seq<Event>)
      modifies this`phase, this`backlog
      ensures Abstract() == ReadStore(old(Abstract()), store)
    {
      phase, backlog := Sending, AfterSeq(store, lastSeq);
    }

    method SendBacklogEvent()
      requires backlog != []
      modifies this
      ensures Abstract() == SendNext(old(Abstract()))
    {
      DeliverEvent(backlog[0]);
      backlog := backlog[1..];
    }

    lemma DeliverAllSplit(c: Conn, es: seq<Event>, i: nat)
      requires i < |es|
      ensures DeliverAll(c, es[i..]) == DeliverAll(Deliver(c, es[i]), es[i + 1..])
    {
      assert es[i..][0] == es[i] && es[i..][1..] == es[i + 1..];
    }

    lemma ClosedTakesNothing(c: Conn, es: seq<Event>)
      requires c.closed
      ensures DeliverAll(c, es) == c
      decreases |es|
    {
      if es != [] {
        ClosedTakesNothing(c, es[1..]);
      }
    }

    // Drain the buffer, skipping what was sent already, and switch to live delivery.
    method FlushBuffer()
      modifies this
      ensures Abstract() == GoLive(old(Abstract()))
    {
      if closed || wasFinal {
        phase, closed, buffer := Over, true, [];
        return;
      }
      ghost var goal := DeliverAll(Abstract(), buffer);
      var pending := buffer;
      var i := 0;
      assert pending[0..] == pending;
      while i < |pending|
        invariant 0 <= i <= |pending| && buffer == pending
        invariant phase == old(phase) && backlog == old(backlog)
        invariant DeliverAll(Abstract(), pending[i..]) == goal
      {
        if closed {
          ClosedTakesNothing(Abstract(), pending[i..]);
          break;
        }
        DeliverAllSplit(Abstract(), pending, i);
        if pending[i].sequence !in sentSequences {
          DeliverEvent(pending[i]);
        }
        i := i + 1;
      }
      assert Abstract() == goal;
      buffer := [];
      phase := Live;
    }

    // The handler as the gateway runs it, without a pause: the stored backlog is all there is
    // to flush.
    method Serve(store: seq<Event>)
      requires Abstract() == Attach(lastSeq, wasFinal) && StreamExact.Ascending(store)
      modifies this
      ensures var wanted := AfterSeq(store, lastSeq);
        && wire == UpToTerminal(wanted) && sentSequences == StreamExact.Seqs(wire) && buffer == []
        && phase == (if wasFinal || StreamExact.HasTerminal(wanted) then Over else Live)
        && (closed <==> phase == Over)
    {
      ghost var n, wanted := |store|, AfterSeq(store, lastSeq);
      assert store[..n] == store && [] + wanted == wanted;
      ReadBacklog(store);
      while backlog != [] && !closed
        invariant phase == Sending && buffer == []
        invariant StreamExact.SendingPart(Abstract(), store, n)
        decreases |backlog|
      {
        StreamExact.SendingKeeps(Abstract(), store, n);
        SendBacklogEvent();
      }
      StreamExact.UpToTerminalIs(wanted);
      assert wire + [] == wire;
      FlushBuffer();
    }

    method Disconnect()
      modifies this
      ensures Abstract() == Drop(old(Abstract()))
    {
      phase, closed, buffer, backlog := Over, true, [], [];
    }
  }

  class EventBus {
    var channels: map<Token, set<Connection>>

    constructor ()
      ensures channels == map[]
    {
      channels := map[];
    }

    function Listeners(channel: Token): set<Connection>
      reads this
    {
      if channel in channels then channels[channel] else {}
    }

    method Subscribe(channel: Token, c: Connection)
      modifies this
      ensures channels == old(channels)[channel := old(Listeners(channel)) + {c}]
    {
      var listeners := if channel in channels then channels[channel] else {};
      channels := channels[channel := listeners + {c}];
    }

    // The last listener takes its channel with it.
    method Unsubscribe(channel: Token, c: Connection)
      modifies this
      ensures Listeners(channel) == old(Listeners(channel)) - {c}
      ensures forall k :: k != channel ==> Listeners(k) == old(Listeners(k))
      ensures channel in channels ==> channels[channel] != {} || channel !in old(channels)
    {
      if channel in channels {
        var rest := channels[channel] - {c};
        channels := if rest == {} then channels - {channel} else channels[channel := rest];
      }
    }

    // Every listener of the session receives the event once; the listeners of other sessions
    // are not touched.
    method Publish(ev: Event)
      modifies Listeners(ev.sessionId)
      ensures forall c :: c in Listeners(ev.sessionId) ==> c.Abstract() == Receive(old(c.Abstract()), ev)
    {
      var copy := if ev.sessionId in channels then channels[ev.sessionId] else {};
      var left := copy;
      while left != {}
        invariant left <= copy && copy == Listeners(ev.sessionId)
        invariant forall c :: c in left ==> c.Abstract() == old(c.Abstract())
        invariant forall c :: c in copy && c !in left ==> c.Abstract() == Receive(old(c.Abstract()), ev)
        decreases left
      {
        var c :| c in left;
        left := left - {c};
        c.OnEvent(ev);
      }
    }
  }
}
