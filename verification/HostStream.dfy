/** The bounded buffer between the host sampler and one subscriber of its stream. */
module HostStream {
  import opened Basics

  const BUFFER_LIMIT: nat := 32

  // The two frames of one tick share their sequence, so frames may be equal in it.
  datatype Frame = Frame(sequence: nat, isSnapshot: bool)

  datatype Sub = Sub(buffer: seq<Frame>, dropped: nat, attached: bool, delivered: seq<Frame>)

  const NEW_SUB := Sub([], 0, false, [])

  function Emitted(s: Sub, f: Frame): Sub {
    var queue := s.buffer + [f];
    if |queue| > BUFFER_LIMIT then s.(buffer := queue[1..], dropped := s.dropped + 1)
    else if s.attached then s.(delivered := s.delivered + [f])
    else s.(buffer := queue)
  }

  // Attaching hands over whatever waited; detaching pauses delivery.
  function DeliverySet(s: Sub, attach: bool): Sub {
    if attach then s.(attached := true, buffer := [], delivered := s.delivered + s.buffer) else s.(attached := false)
  }

  datatype Event = Emit(f: Frame) | SetDelivery(attach: bool)

  function Next(s: Sub, e: Event): Sub {
    match e
    case Emit(f) => Emitted(s, f)
    case SetDelivery(attach) => DeliverySet(s, attach)
  }

  function After(s: Sub, events: seq<Event>): Sub
    decreases |events|
  {
    if events == [] then s else After(Next(s, events[0]), events[1..])
  }

  function FramesOf(events: seq<Event>): seq<Frame> {
    if events == [] then [] else FrameOf(events[0]) + FramesOf(events[1..])
  }

  // ---------------------------------------------------------- where each frame went

  // The frames at the positions marked `wanted`.
  function Marked(fs: seq<Frame>, marks: seq<bool>, wanted: bool): seq<Frame>
    requires |marks| <= |fs|
  {
    if marks == [] then []
    else Marked(fs, marks[..|marks| - 1], wanted) + (if marks[|marks| - 1] == wanted then [fs[|marks| - 1]] else [])
  }

  // The frames so far are those handed over and those lost, in order, then the buffer.
  predicate Accounted(s: Sub, emitted: seq<Frame>, marks: seq<bool>) {
    && |marks| + |s.buffer| == |emitted|
    && s.buffer == emitted[|marks|..]
    && s.delivered == Marked(emitted, marks, true)
    && |Marked(emitted, marks, false)| == s.dropped
    && |s.buffer| <= BUFFER_LIMIT && (s.attached ==> s.buffer == [])
  }

  lemma {:induction false} MarkedPrefix(fs: seq<Frame>, more: seq<Frame>, marks: seq<bool>, wanted: bool)
    requires |marks| <= |fs| && fs <= more
    ensures Marked(fs, marks, wanted) == Marked(more, marks, wanted)
  {
    if marks != [] {
      MarkedPrefix(fs, more, marks[..|marks| - 1], wanted);
    }
  }

  lemma MarkedNext(fs: seq<Frame>, marks: seq<bool>, mark: bool, wanted: bool)
    requires |marks| < |fs|
    ensures Marked(fs, marks + [mark], wanted) == Marked(fs, marks, wanted) + (if mark == wanted then [fs[|marks|]] else [])
  {
    assert (marks + [mark])[..|marks|] == marks;
  }

  function Repeat(mark: bool, n: nat): seq<bool> {
    seq(n, _ => mark)
  }

  lemma {:induction false} MarkedRun(fs: seq<Frame>, marks: seq<bool>, n: nat)
    requires |marks| + n <= |fs|
    ensures Marked(fs, marks + Repeat(true, n), true) == Marked(fs, marks, true) + fs[|marks|..|marks| + n]
    ensures Marked(fs, marks + Repeat(true, n), false) == Marked(fs, marks, false)
  {
    if n == 0 {
      assert marks + Repeat(true, 0) == marks;
    } else {
      var shorter := marks + Repeat(true, n - 1);
      MarkedRun(fs, marks, n - 1);
      assert marks + Repeat(true, n) == shorter + [true];
      MarkedNext(fs, shorter, true, true);
      MarkedNext(fs, shorter, true, false);
      assert fs[|marks|..|marks| + n] == fs[|marks|..|marks| + n - 1] + [fs[|marks| + n - 1]];
    }
  }

  lemma EmitKeeps(s: Sub, emitted: seq<Frame>, marks: seq<bool>, f: Frame) returns (next: seq<bool>)
    requires Accounted(s, emitted, marks)
    ensures Accounted(Emitted(s, f), emitted + [f], next)
  {
    var all, queue := emitted + [f], s.buffer + [f];
    MarkedPrefix(emitted, all, marks, true);
    MarkedPrefix(emitted, all, marks, false);
    assert queue == all[|marks|..];
    if |queue| > BUFFER_LIMIT {
      next := marks + [false];
      MarkedNext(all, marks, false, true);
      MarkedNext(all, marks, false, false);
      assert queue[1..] == all[|next|..];
    } else if s.attached {
      next := marks + [true];
      MarkedNext(all, marks, true, true);
      MarkedNext(all, marks, true, false);
      assert all[|marks|] == f;
    } else {
      next := marks;
    }
  }

  lemma SetDeliveryKeeps(s: Sub, emitted: seq<Frame>, marks: seq<bool>, attach: bool) returns (next: seq<bool>)
    requires Accounted(s, emitted, marks)
    ensures Accounted(DeliverySet(s, attach), emitted, next)
  {
    next := marks;
    if attach {
      next := marks + Repeat(true, |s.buffer|);
      MarkedRun(emitted, marks, |s.buffer|);
      assert emitted[|marks|..|emitted|] == emitted[|marks|..];
    }
  }

  function FrameOf(e: Event): seq<Frame> {
    if e.Emit? then [e.f] else []
  }

  lemma StepKeeps(s: Sub, emitted: seq<Frame>, marks: seq<bool>, e: Event) returns (next: seq<bool>)
    requires Accounted(s, emitted, marks)
    ensures Accounted(Next(s, e), emitted + FrameOf(e), next)
  {
    match e {
      case Emit(f) => next := EmitKeeps(s, emitted, marks, f);
      case SetDelivery(attach) =>
        next := SetDeliveryKeeps(s, emitted, marks, attach);
        assert emitted + [] == emitted;
    }
  }

  lemma Join(a: seq<Frame>, b: seq<Frame>, c: seq<Frame>)
    ensures a + b + c == a + (b + c)
  {}

  lemma {:induction false} RunKeeps(s: Sub, emitted: seq<Frame>, marks: seq<bool>, events: seq<Event>) returns (last: seq<bool>)
    requires Accounted(s, emitted, marks)
    ensures Accounted(After(s, events), emitted + FramesOf(events), last)
    decreases |events|
  {
    if events == [] {
      assert emitted + [] == emitted;
      last := marks;
    } else {
      var e, rest := events[0], events[1..];
      var next := StepKeeps(s, emitted, marks, e);
      last := RunKeeps(Next(s, e), emitted + FrameOf(e), next, rest);
      Join(emitted, FrameOf(e), FramesOf(rest));
    }
  }

  lemma {:induction false} MarkedCount(fs: seq<Frame>, marks: seq<bool>)
    requires |marks| <= |fs|
    ensures |Marked(fs, marks, true)| + |Marked(fs, marks, false)| == |marks|
  {
    if marks != [] {
      MarkedCount(fs, marks[..|marks| - 1]);
    }
  }

  /**
   * Over any run, every frame was delivered, waits, or is counted as dropped; the buffer never
   * exceeds its bound, is empty while a delivery is attached, and holds the latest frames.
   */
  lemma FramesAreAccounted(events: seq<Event>)
    ensures var s, all := After(NEW_SUB, events), FramesOf(events);
      && |s.delivered| + |s.buffer| + s.dropped == |all|
      && |s.buffer| <= 32 && (s.attached ==> s.buffer == [])
      && exists marks :: Accounted(s, all, marks)
  {
    var marks := RunKeeps(NEW_SUB, [], [], events);
    assert [] + FramesOf(events) == FramesOf(events);
    MarkedCount(FramesOf(events), marks);
  }

  // -------------------------------------------------------------- one paused period

  function EmitsOf(fs: seq<Frame>): seq<Event> {
    seq(|fs|, i requires 0 <= i < |fs| => Emit(fs[i]))
  }

  function LastOf(fs: seq<Frame>, n: nat): seq<Frame> {
    if |fs| <= n then fs else fs[|fs| - n..]
  }

  // While paused, the buffer is the last frames of the period and the others are counted.
  lemma {:induction false} PausedPeriod(s: Sub, before: seq<Frame>, fs: seq<Frame>)
    requires !s.attached && s.buffer == LastOf(before, BUFFER_LIMIT)
    ensures var t := After(s, EmitsOf(fs));
      && t.buffer == LastOf(before + fs, BUFFER_LIMIT) && t.delivered == s.delivered && !t.attached
      && t.dropped == s.dropped + (|before + fs| - |t.buffer|) - (|before| - |s.buffer|)
    decreases |fs|
  {
    if fs == [] {
      assert before + fs == before;
    } else {
      var f, rest := fs[0], fs[1..];
      assert EmitsOf(fs)[1..] == EmitsOf(rest) && EmitsOf(fs)[0] == Emit(f);
      assert before + [f] + rest == before + fs;
      assert Emitted(s, f).buffer == LastOf(before + [f], BUFFER_LIMIT);
      PausedPeriod(Emitted(s, f), before + [f], rest);
    }
  }

  // A subscriber that was paused for a whole period gets the last 32 of its frames, or all of fewer.
  lemma ResumeGetsTheLatest(s: Sub, fs: seq<Frame>)
    requires !s.attached && s.buffer == []
    ensures var t := DeliverySet(After(s, EmitsOf(fs)), true);
      && t.delivered == s.delivered + LastOf(fs, 32)
      && t.dropped == s.dropped + (if |fs| > 32 then |fs| - 32 else 0)
  {
    PausedPeriod(s, [], fs);
    assert [] + fs == fs;
  }

  // ------------------------------------------------------------------- the service

  class Subscription {
    var buffer: seq<Frame>
    var dropped: nat
    var attached: bool
    var delivered: seq<Frame>

    function Abstract(): Sub
      reads this
    {
      Sub(buffer, dropped, attached, delivered)
    }

    constructor ()
      ensures Abstract() == NEW_SUB
    {
      buffer, dropped, attached, delivered := [], 0, false, [];
    }

    method Push(f: Frame)
      modifies this
      requires |buffer| <= BUFFER_LIMIT && (attached ==> buffer == [])
      ensures Abstract() == Emitted(old(Abstract()), f)
      ensures |buffer| <= BUFFER_LIMIT && (attached ==> buffer == [])
    {
      buffer := buffer + [f];
      if |buffer| > BUFFER_LIMIT {
        buffer := buffer[1..];
        dropped := dropped + 1;
        return;
      }
      if attached {
        delivered := delivered + [f];
        buffer := buffer[..|buffer| - 1];
      }
    }

    method SetDelivery(attach: bool)
      modifies this
      requires |buffer| <= BUFFER_LIMIT && (attached ==> buffer == [])
      ensures Abstract() == DeliverySet(old(Abstract()), attach)
      ensures |buffer| <= BUFFER_LIMIT && (attached ==> buffer == [])
    {
      attached := attach;
      if attach {
        var pending := buffer;
        buffer := [];
        ghost var was := delivered;
        for i := 0 to |pending|
          invariant delivered == was + pending[..i] && attached && buffer == [] && dropped == old(dropped)
        {
          delivered := delivered + [pending[i]];
          assert pending[..i + 1] == pending[..i] + [pending[i]];
        }
        assert pending[..|pending|] == pending;
      }
    }
  }
}
