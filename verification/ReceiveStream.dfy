/** The receiving half of a stream (quic-go/receive_stream.go), without blocking and deadlines. */
module ReceiveStream {
  import opened Protocol
  import opened StreamFrames
  import FrameSorter
  import FinalSize

  datatype Receiver = Receiver(
    sorter: FrameSorter.Sorter,
    highest: FinalSize.Highest,
    finalOffset: nat,
    current: Option<Bytes>,
    isLast: bool,
    readPosInFrame: nat,
    readOffset: nat,
    finRead: bool)

  const NEW := Receiver(FrameSorter.EMPTY, FinalSize.Highest(0, false), MAX_BYTE_COUNT, None, false, 0, 0, false)

  datatype FrameResult = Accepted | FinalSizeError | FlowControlError | SorterError

  /**
   * Handles a STREAM frame (lines 242-258); `allowed` says whether the flow control windows admit a new
   * highest offset.
   */
  function HandleFrame(r: Receiver, f: StreamFrame, allowed: bool): (FrameResult, Receiver)
    requires FrameSorter.Gaps.WellFormed(r.sorter.gaps)
  {
    var (v, h) := FinalSize.Update(r.highest, f.End(), f.fin);
    if v.FinalSizeError? then (FinalSizeError, r.(highest := h))
    else if v.Raised? && !allowed then (FlowControlError, r.(highest := h))
    else
      var (verdict, sorter) := FrameSorter.Push(r.sorter, f.offset, f.data);
      (if verdict.Stored? || verdict.Duplicate? then Accepted else SorterError,
       r.(highest := h, finalOffset := if f.fin then f.End() else r.finalOffset, sorter := sorter))
  }

  function CurrentData(r: Receiver): Bytes {
    if r.current.Some? then r.current.value else []
  }

  /** Takes the next frame from the sorter (lines 195-204). */
  function Dequeue(r: Receiver): Receiver {
    var pos := r.sorter.readPos;
    var frame := if pos in r.sorter.queue then Some(r.sorter.queue[pos]) else None;
    r.(sorter := FrameSorter.Pop(r.sorter),
       current := frame,
       isLast := pos + (if frame.Some? then |frame.value| else 0) >= r.finalOffset,
       readPosInFrame := 0)
  }

  predicate NeedsFrame(r: Receiver) {
    r.current.None? || r.readPosInFrame >= |r.current.value|
  }

  function Ready(r: Receiver): Receiver {
    if NeedsFrame(r) then Dequeue(r) else r
  }

  /** Copies up to n bytes out of the current frame (lines 175-179). */
  function CopyLen(r: Receiver, n: nat): nat
    requires r.readPosInFrame <= |CurrentData(r)|
  {
    Min(n, |CurrentData(r)| - r.readPosInFrame)
  }

  function Copied(r: Receiver, n: nat): Bytes
    requires r.readPosInFrame <= |CurrentData(r)|
  {
    CurrentData(r)[r.readPosInFrame..r.readPosInFrame + CopyLen(r, n)]
  }

  function Advance(r: Receiver, n: nat): Receiver
    requires r.readPosInFrame <= |CurrentData(r)|
  {
    r.(readPosInFrame := r.readPosInFrame + CopyLen(r, n), readOffset := r.readOffset + CopyLen(r, n))
  }

  predicate AtEnd(r: Receiver) {
    r.readPosInFrame >= |CurrentData(r)| && r.isLast
  }

  datatype Outcome = Done | Blocked | EOF

  /** The read cursor lies within the current frame. */
  predicate CursorOk(r: Receiver) {
    r.current.Some? ==> r.readPosInFrame <= |r.current.value|
  }

  datatype Step = Step(receiver: Receiver, chunk: Bytes, stop: bool, outcome: Outcome)

  /**
   * One round of the read loop (lines 112-191) with room for n bytes; `got` says whether any byte
   * has been read already. Blocked stands for waiting until the next frame arrives.
   */
  function Round(r: Receiver, n: nat, got: bool): (s: Step)
    requires CursorOk(r)
    ensures CursorOk(s.receiver) && |s.chunk| <= n
  {
    var r1 := Ready(r);
    if r1.current.None? && got then Step(r1, [], true, Done)
    else if r1.current.None? && !r1.isLast then Step(r1, [], true, Blocked)
    else
      var r2 := Advance(r1, n);
      if AtEnd(r2) then Step(r2.(finRead := true), Copied(r1, n), true, EOF)
      else Step(r2, Copied(r1, n), false, Done)
  }

  /** What a read leaves behind and hands out. */
  datatype Reading = Reading(receiver: Receiver, bytes: Bytes, outcome: Outcome)

  /** The read loop (lines 112-192). */
  function ReadLoop(r: Receiver, n: nat, got: bool): Reading
    requires CursorOk(r)
    decreases n, |r.sorter.queue|
  {
    if n == 0 then Reading(r, [], Done)
    else
      var Step(r', chunk, stop, outcome) := Round(r, n, got);
      if stop then Reading(r', chunk, outcome)
      else
        RoundShrinks(r, n, got);
        Prepend(chunk, ReadLoop(r', n - |chunk|, got || |chunk| > 0))
  }

  /** A round that reads nothing and does not stop has taken an empty frame off the queue. */
  lemma {:induction false} RoundShrinks(r: Receiver, n: nat, got: bool)
    requires CursorOk(r) && n > 0
    ensures var s := Round(r, n, got);
            !s.stop && |s.chunk| == 0 ==> |s.receiver.sorter.queue| < |r.sorter.queue|
  {
    PopShrinks(r);
  }

  lemma {:induction false} PopShrinks(r: Receiver)
    ensures r.sorter.readPos in r.sorter.queue ==> |FrameSorter.Pop(r.sorter).queue| < |r.sorter.queue|
  {
    if r.sorter.readPos in r.sorter.queue {
      var q := r.sorter.queue;
      assert FrameSorter.Pop(r.sorter).queue.Keys == q.Keys - {r.sorter.readPos};
      assert |q.Keys - {r.sorter.readPos}| == |q.Keys| - 1;
    }
  }

  /** A Read call with a buffer of n bytes. */
  function Read(r: Receiver, n: nat): Reading
    requires CursorOk(r)
  {
    if r.finRead then Reading(r, [], EOF) else ReadLoop(r, n, false)
  }

  class ReceiveStream {
    const frameQueue: FrameSorter.FrameSorter
    var highest: FinalSize.Highest
    var finalOffset: nat
    var currentFrame: Option<Bytes>
    var currentFrameIsLast: bool
    var readPosInFrame: nat
    var readOffset: nat
    var finRead: bool

    ghost function State(): Receiver
      reads this, frameQueue
    {
      Receiver(frameQueue.State(), highest, finalOffset, currentFrame, currentFrameIsLast,
               readPosInFrame, readOffset, finRead)
    }

    ghost predicate Valid()
      reads this, frameQueue
    {
      frameQueue.Valid() && (currentFrame.Some? ==> readPosInFrame <= |currentFrame.value|)
    }

    constructor ()
      ensures Valid() && State() == NEW && fresh(frameQueue)
    {
      frameQueue := new FrameSorter.FrameSorter();
      highest := FinalSize.Highest(0, false);
      finalOffset := MAX_BYTE_COUNT;
      currentFrame, currentFrameIsLast, readPosInFrame, readOffset, finRead := None, false, 0, 0, false;
    }

    method HandleStreamFrame(f: StreamFrame, allowed: bool) returns (r: FrameResult)
      requires Valid()
      modifies this, frameQueue
      ensures r == HandleFrame(old(State()), f, allowed).0
      ensures r == Accepted ==> Valid() && State() == HandleFrame(old(State()), f, allowed).1
    {
      var (v, h) := FinalSize.Update(highest, f.End(), f.fin);
      highest := h;
      if v.FinalSizeError? {
        return FinalSizeError;
      }
      if v.Raised? && !allowed {
        return FlowControlError;
      }
      if f.fin {
        finalOffset := f.End();
      }
      var verdict := frameQueue.PushFrame(f.data, f.offset);
      r := if verdict.Stored? || verdict.Duplicate? then Accepted else SorterError;
    }

    method DequeueNextFrame()
      requires Valid()
      modifies this, frameQueue
      ensures Valid() && State() == Dequeue(old(State()))
    {
      var offset, data, ok := frameQueue.PopFrame();
      currentFrame := if ok then Some(data) else None;
      currentFrameIsLast := offset + |data| >= finalOffset;
      readPosInFrame := 0;
    }

    /** Copies from the current frame, an absent one counting as empty (lines 173-181). */
    method CopyChunk(n: nat) returns (chunk: Bytes, atEnd: bool)
      requires Valid() && readPosInFrame <= |CurrentData(State())|
      modifies this`readPosInFrame, this`readOffset
      ensures Valid() && State() == Advance(old(State()), n) && chunk == Copied(old(State()), n)
      ensures atEnd == AtEnd(State())
    {
      var data := if currentFrame.Some? then currentFrame.value else [];
      var m := if n < |data| - readPosInFrame then n else |data| - readPosInFrame;
      chunk := data[readPosInFrame..readPosInFrame + m];
      readPosInFrame := readPosInFrame + m;
      readOffset := readOffset + m;
      atEnd := readPosInFrame >= |data| && currentFrameIsLast;
    }

    /** One round of the read loop: at most one frame is dequeued and copied from. */
    method ReadOnce(n: nat, got: bool, ghost r: Receiver)
      returns (chunk: Bytes, stop: bool, outcome: Outcome, ghost s: Step)
      requires Valid() && n > 0 && r == State()
      modifies this, frameQueue
      ensures Valid() && s == Round(r, n, got)
      ensures s.receiver == State() && s.chunk == chunk && s.stop == stop && s.outcome == outcome
    {
      s := Round(r, n, got);
      outcome := Done;
      if currentFrame.None? || readPosInFrame >= |currentFrame.value| {
        DequeueNextFrame();
      }
      assert State() == Ready(r);
      if currentFrame.None? && got {
        return [], true, Done, s;
      }
      if currentFrame.None? && !currentFrameIsLast {
        return [], true, Blocked, s;
      }
      chunk, stop := CopyChunk(n);
      if stop {
        finRead := true;
        outcome := EOF;
      }
    }

    /** A round that appends to what has been read so far. */
    method ReadRound(m: nat, p: Bytes, ghost r: Receiver, ghost t: Reading, ghost all: Reading)
      returns (m': nat, q: Bytes, stop: bool, outcome: Outcome, ghost s: Step, ghost t': Reading)
      requires Valid() && m > 0 && r == State() && Pending(r, m, p, t, all)
      modifies this, frameQueue
      ensures Valid() && s.receiver == State() && m' + |q| == m + |p| && m' <= m
      ensures if stop then all == Reading(s.receiver, q, outcome) else Pending(s.receiver, m', q, t', all)
      ensures !stop && m' == m ==> |s.receiver.sorter.queue| < |r.sorter.queue|
    {
      var chunk;
      chunk, stop, outcome, s := ReadOnce(m, |p| > 0, r);
      m', q := m - |chunk|, p + chunk;
      t' := PendingRound(r, m, p, t, all, s, m', q);
    }

    method ReadUntil(n: nat) returns (p: Bytes, outcome: Outcome)
      requires Valid()
      modifies this, frameQueue
      ensures Valid() && Reading(State(), p, outcome) == ReadLoop(old(State()), n, false)
    {
      p := [];
      ghost var all, r := ReadLoop(State(), n, false), State();
      ghost var t := all;
      var m: nat := n;
      assert [] + all.bytes == all.bytes;
      while m > 0
        invariant Valid() && m + |p| == n && r == State() && Pending(r, m, p, t, all)
        decreases m, |r.sorter.queue|
      {
        var stop;
        ghost var s;
        m, p, stop, outcome, s, t := ReadRound(m, p, r, t, all);
        r := s.receiver;
        if stop {
          return;
        }
      }
      assert p + [] == p;
      outcome := Done;
    }

    method ReadBytes(n: nat) returns (p: Bytes, outcome: Outcome)
      requires Valid()
      modifies this, frameQueue
      ensures Valid() && Reading(State(), p, outcome) == Read(old(State()), n)
    {
      if finRead {
        return [], EOF;
      }
      p, outcome := ReadUntil(n);
    }
  }

  function Prepend(p: Bytes, t: Reading): Reading {
    Reading(t.receiver, p + t.bytes, t.outcome)
  }

  /** With p read so far and room for n more bytes, the rest of the loop computes t, and `all` with p. */
  ghost predicate Pending(r: Receiver, n: nat, p: Bytes, t: Reading, all: Reading) {
    CursorOk(r) && t == ReadLoop(r, n, |p| > 0) && all == Prepend(p, t)
  }

  lemma {:induction false} PendingRound(r: Receiver, n: nat, p: Bytes, t: Reading, all: Reading, s: Step, k: nat,
                                        q: Bytes)
    returns (t': Reading)
    requires Pending(r, n, p, t, all) && n > 0 && s == Round(r, n, |p| > 0) && q == p + s.chunk && k == n - |s.chunk|
    ensures if s.stop then all == Reading(s.receiver, q, s.outcome) else Pending(s.receiver, k, q, t', all)
    ensures !s.stop && |s.chunk| == 0 ==> |s.receiver.sorter.queue| < |r.sorter.queue|
  {
    t' := ReadLoop(s.receiver, k, |q| > 0);
    RoundShrinks(r, n, |p| > 0);
    if s.stop {
      ReadStops(r, n, |p| > 0, s, t);
    } else {
      ReadGoesOn(r, n, |p| > 0, s, k, |q| > 0, t, t');
      PrependTwice(p, s.chunk, t');
    }
  }

  lemma {:induction false} ReadStops(r: Receiver, n: nat, got: bool, s: Step, t: Reading)
    requires CursorOk(r) && n > 0 && Round(r, n, got) == s && s.stop && t == ReadLoop(r, n, got)
    ensures t == Reading(s.receiver, s.chunk, s.outcome)
  {
  }

  lemma {:induction false} ReadGoesOn(r: Receiver, n: nat, got: bool, s: Step, m: nat, got': bool, t: Reading,
                                      t': Reading)
    requires CursorOk(r) && n > 0 && Round(r, n, got) == s && !s.stop && t == ReadLoop(r, n, got)
    requires m == n - |s.chunk| && got' == (got || |s.chunk| > 0) && CursorOk(s.receiver)
             && t' == ReadLoop(s.receiver, m, got')
    ensures t == Prepend(s.chunk, t')
  {
  }

  lemma {:induction false} PrependTwice(p: Bytes, c: Bytes, t: Reading)
    ensures Prepend(p, Prepend(c, t)) == Prepend(p + c, t)
  {
    assert p + (c + t.bytes) == p + c + t.bytes;
  }
}
