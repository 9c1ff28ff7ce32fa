/**
 * One client's live stream of a session: subscribe, read the store, send the backlog, then
 * flush what was published meanwhile and go live.
 */
module Stream {
  import opened Basics
  import opened Events

  datatype ConnPhase = Attached | Sending | Live | Over

  // `closed` covers the transport and the subscription, which always close together.
  datatype Conn = Conn(phase: ConnPhase, lastSeq: int, wasFinal: bool, buffer: seq<Event>, backlog: seq<Event>,
                       sent: set<int>, delivered: seq<Event>, closed: bool)

  // What is stored for the session, in order, and how many of those events were published.
  // The creating event is never published; it counts as published here.
  datatype World = World(store: seq<Event>, pub: nat, conn: Conn)

  function AfterSeq(es: seq<Event>, lastSeq: int): seq<Event> {
    if es == [] then []
    else (if es[0].sequence > lastSeq then [es[0]] else []) + AfterSeq(es[1..], lastSeq)
  }

  // Everything up to and including the first terminal event.
  function UpToTerminal(es: seq<Event>): seq<Event> {
    if es == [] then [] else [es[0]] + (if IsTerminal(es[0]) then [] else UpToTerminal(es[1..]))
  }

  // ---------------------------------------------------------------- connection steps

  function Attach(lastSeq: int, isFinal: bool): Conn {
    Conn(Attached, lastSeq, isFinal, [], [], {}, [], false)
  }

  // A terminal event also ends the stream.
  function Deliver(c: Conn, ev: Event): Conn {
    if c.closed || ev.sequence in c.sent then c
    else c.(sent := c.sent + {ev.sequence}, delivered := c.delivered + [ev], closed := IsTerminal(ev))
  }

  function DeliverAll(c: Conn, es: seq<Event>): Conn
    decreases |es|
  {
    if es == [] then c else DeliverAll(Deliver(c, es[0]), es[1..])
  }

  function ReadStore(c: Conn, store: seq<Event>): Conn {
    c.(phase := Sending, backlog := AfterSeq(store, c.lastSeq))
  }

  function SendNext(c: Conn): Conn
    requires c.backlog != []
  {
    Deliver(c, c.backlog[0]).(backlog := c.backlog[1..])
  }

  // After the backlog: a stream that is over ends here, the others drain the buffer.
  function GoLive(c: Conn): Conn {
    if c.closed || c.wasFinal then c.(phase := Over, closed := true, buffer := [])
    else DeliverAll(c, c.buffer).(phase := Live, buffer := [])
  }

  // What a published event does to the subscription.
  function Receive(c: Conn, ev: Event): Conn {
    if c.closed then c
    else if c.phase == Live then Deliver(c, ev)
    else c.(buffer := c.buffer + [ev])
  }

  function Drop(c: Conn): Conn {
    c.(phase := Over, closed := true, buffer := [], backlog := [])
  }

  // ------------------------------------------------------------------- all the steps

  datatype Step = Insert(ev: Event) | Publish | Read | Send | Flush | Disconnect

  // The least number the next stored event can have.
  function NextNumber(store: seq<Event>): int {
    if store == [] then 0 else store[|store| - 1].sequence + 1
  }

  predicate Enabled(w: World, s: Step) {
    match s
    case Insert(ev) => NextNumber(w.store) <= ev.sequence
    case Publish => w.pub < |w.store|
    case Read => w.conn.phase == Attached
    case Send => w.conn.phase == Sending && w.conn.backlog != [] && !w.conn.closed
    case Flush => w.conn.phase == Sending && (w.conn.backlog == [] || w.conn.closed)
    case Disconnect => w.conn.phase != Over
  }

  function Next(w: World, s: Step): World
    requires Enabled(w, s)
  {
    match s
    case Insert(ev) => w.(store := w.store + [ev])
    case Publish => w.(pub := w.pub + 1, conn := Receive(w.conn, w.store[w.pub]))
    case Read => w.(conn := ReadStore(w.conn, w.store))
    case Send => w.(conn := SendNext(w.conn))
    case Flush => w.(conn := GoLive(w.conn))
    case Disconnect => w.(conn := Drop(w.conn))
  }
}
