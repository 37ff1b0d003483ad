/** A stream that stalls for good although every byte has arrived: the sorter's replacement rule at work. */
module StalledStream {
  // Ten bytes are written and sent as [0,5), [5,8), [8,10). The second frame is lost and sent again in two
  // parts, [5,6) and [6,8). All five frames arrive, the lost one late, and [0,5) last.

  import opened Protocol
  import opened VarInt
  import opened StreamFrames
  import opened StreamTransfer
  import opened Gaps
  import SendStream
  import RS = ReceiveStream
  import FS = FrameSorter
  import SX = SorterExactness
  import SD = SorterDelivery
  import Seqs

  /** The bytes [a, b) of the stream as a frame; the stream ID takes one byte. */
  function Piece(id: nat, d: Bytes, a: nat, b: nat): StreamFrame
    requires a <= b <= |d|
  {
    StreamFrame(id, a, d[a..b], false, true)
  }

  /** A run of the stream and the system it leads to. */
  ghost predicate At(id: nat, steps: seq<Step>, y: System) {
    id <= MAX_VARINT1 && Run(id, steps) == Reached(y) && Safe(y)
  }

  lemma {:induction false} GoOn(id: nat, steps: seq<Step>, y: System, step: Step, all: seq<Step>) returns (y': System)
    requires At(id, steps, y) && Enabled(y, step) && all == steps + [step]
    ensures y' == Next(y, step) && At(id, all, y')
  {
    assert all[..|all| - 1] == steps;
    NextSafe(y, step);
    y' := Next(y, step);
  }

  // The sender.

  /** d[off..] is still to be sent, `queue` waits for retransmission, `sent` is on the network, `flying` in flight. */
  ghost predicate Sending(y: System, id: nat, d: Bytes, off: nat, queue: seq<StreamFrame>, sent: set<StreamFrame>,
                          flying: set<StreamFrame>)
    requires off <= |d|
  {
    && y.written == d && y.receiver == RS.NEW && y.read == []
    && y.sender.streamID == id && y.sender.dataForWriting == d[off..] && y.sender.writeOffset == off
    && y.sender.retransmissions == queue
    && !y.sender.finishedWriting && !y.sender.canceledWrite && !y.sender.finSent
    && sent <= y.network && (forall f | f in flying :: f in y.inflight)
  }

  lemma {:induction false} Begins(id: nat, d: Bytes, none: seq<Step>, steps: seq<Step>) returns (y: System)
    requires id <= MAX_VARINT1 && |d| == 10 && none == [] && steps == none + [Write(d)]
    ensures At(id, steps, y) && Sending(y, id, d, 0, [], {}, {})
  {
    InitGood(id);
    var y0 := Init(id);
    assert At(id, none, y0);
    Writes(y0, id, d);
    y := GoOn(id, none, y0, Write(d), steps);
  }

  lemma {:induction false} Writes(y: System, id: nat, d: Bytes)
    requires Safe(y) && |d| == 10 && y == Init(id)
    ensures Enabled(y, Write(d)) && Sending(Next(y, Write(d)), id, d, 0, [], {}, {})
  {
    var none: Bytes := [];
    assert none + d == d && d[0..] == d;
  }

  lemma {:induction false} RoomForAll(id: nat, off: nat)
    requires id <= MAX_VARINT1 && off <= 10
    ensures MaxDataLen(StreamFrame(id, off, [], false, true), 1000) >= 10
  {
  }

  lemma {:induction false} PopsNew(s: SendStream.Sender, id: nat, d: Bytes, off: nat, n: nat)
    requires SendStream.Bounded(s) && id <= MAX_VARINT1 && |d| == 10 && 0 < n && off + n <= 10
    requires s.streamID == id && s.dataForWriting == d[off..] && s.writeOffset == off && s.retransmissions == []
    requires !s.finishedWriting && !s.canceledWrite && !s.finSent
    ensures SendStream.Pop(s, 1000, n).1 == Some(Piece(id, d, off, off + n))
    ensures SendStream.Pop(s, 1000, n).0
            == s.(dataForWriting := d[off + n..], writeOffset := off + n, numOutstanding := s.numOutstanding + 1)
  {
    RoomForAll(id, off);
    assert d[off..][n..] == d[off + n..] && d[off..][..n] == d[off..off + n];
  }

  lemma {:induction false} PopsNewNext(y: System, id: nat, d: Bytes, off: nat, n: nat, f: StreamFrame,
                                       fs: set<StreamFrame>)
    requires Safe(y) && id <= MAX_VARINT1 && |d| == 10 && 0 < n && off + n <= 10 && Sending(y, id, d, off, [], fs, fs)
    requires f == Piece(id, d, off, off + n)
    ensures Enabled(y, Pop(1000, n, false))
    ensures Sending(Next(y, Pop(1000, n, false)), id, d, off + n, [], fs + {f}, fs + {f})
  {
    PopsNew(y.sender, id, d, off, n);
  }

  /** One pop of new data. */
  lemma {:induction false} SendsNew(id: nat, steps: seq<Step>, y: System, d: Bytes, off: nat, end: nat, all: seq<Step>,
                                    f: StreamFrame, fs: set<StreamFrame>, fs': set<StreamFrame>)
    returns (y': System)
    requires At(id, steps, y) && |d| == 10 && off < end <= 10 && Sending(y, id, d, off, [], fs, fs)
    requires all == steps + [Pop(1000, end - off, false)] && f == Piece(id, d, off, end) && fs' == fs + {f}
    ensures At(id, all, y') && Sending(y', id, d, end, [], fs', fs')
  {
    PopsNewNext(y, id, d, off, end - off, f, fs);
    y' := GoOn(id, steps, y, Pop(1000, end - off, false), all);
  }

  lemma {:induction false} LosesNext(y: System, id: nat, d: Bytes, off: nat, f: StreamFrame, fs: set<StreamFrame>)
    requires Safe(y) && off <= |d| && Sending(y, id, d, off, [], fs, fs) && f in fs && f.dataLenPresent
    ensures Enabled(y, Lose(f)) && Sending(Next(y, Lose(f)), id, d, off, [f], fs, {})
  {
    assert f.(dataLenPresent := true) == f;
  }

  lemma {:induction false} Loses(id: nat, steps: seq<Step>, y: System, d: Bytes, off: nat, all: seq<Step>,
                                 f: StreamFrame, fs: set<StreamFrame>)
    returns (y': System)
    requires At(id, steps, y) && off <= |d| && Sending(y, id, d, off, [], fs, fs) && f in fs && f.dataLenPresent
    requires all == steps + [Lose(f)]
    ensures At(id, all, y') && Sending(y', id, d, off, [f], fs, {})
  {
    LosesNext(y, id, d, off, f, fs);
    y' := GoOn(id, steps, y, Lose(f), all);
  }

  lemma {:induction false} SplitsTheLost(id: nat, d: Bytes)
    requires id <= MAX_VARINT1 && |d| == 10
    ensures MaybeSplitOff(Piece(id, d, 5, 8), 5) == Parts(Piece(id, d, 5, 6), Piece(id, d, 6, 8))
    ensures MaybeSplitOff(Piece(id, d, 6, 8), 1000) == Whole
  {
    assert d[5..8][..1] == d[5..6] && d[5..8][1..] == d[6..8];
  }

  /** One pop of a retransmission, as a whole or in part. */
  lemma {:induction false} ResendsNext(y: System, id: nat, d: Bytes, f: StreamFrame, max: nat, head: StreamFrame,
                                       left: seq<StreamFrame>, fs: set<StreamFrame>)
    requires Safe(y) && |d| == 10 && Sending(y, id, d, 10, [f], fs, {}) && Encodable(f) && max <= MAX_VARINT2
    requires head.dataLenPresent
    requires || (MaybeSplitOff(f, max) == Whole && head == f && left == [])
             || (|left| == 1 && MaybeSplitOff(f, max) == Parts(head, left[0]))
    ensures Enabled(y, Pop(max, 0, false))
    ensures Sending(Next(y, Pop(max, 0, false)), id, d, 10, left, fs + {head}, {})
  {
    assert |left| == 1 ==> [left[0]] + [f][1..] == left;
    assert head.(dataLenPresent := true) == head;
  }

  lemma {:induction false} Resends(id: nat, steps: seq<Step>, y: System, d: Bytes, all: seq<Step>, f: StreamFrame,
                                   max: nat, head: StreamFrame, left: seq<StreamFrame>, fs: set<StreamFrame>)
    returns (y': System)
    requires At(id, steps, y) && |d| == 10 && Sending(y, id, d, 10, [f], fs, {}) && Encodable(f) && max <= MAX_VARINT2
    requires head.dataLenPresent && all == steps + [Pop(max, 0, false)]
    requires || (MaybeSplitOff(f, max) == Whole && head == f && left == [])
             || (|left| == 1 && MaybeSplitOff(f, max) == Parts(head, left[0]))
    ensures At(id, all, y') && Sending(y', id, d, 10, left, fs + {head}, {})
  {
    ResendsNext(y, id, d, f, max, head, left, fs);
    y' := GoOn(id, steps, y, Pop(max, 0, false), all);
  }

  function FirstSteps(d: Bytes): seq<Step> {
    [] + [Write(d)] + [Pop(1000, 5, false)] + [Pop(1000, 3, false)] + [Pop(1000, 2, false)]
  }

  function FirstFrames(id: nat, d: Bytes): set<StreamFrame>
    requires |d| == 10
  {
    {} + {Piece(id, d, 0, 5)} + {Piece(id, d, 5, 8)} + {Piece(id, d, 8, 10)}
  }

  /** Three pops of new data, up to p, q and r. */
  lemma {:induction false} PopsThree(id: nat, s1: seq<Step>, y: System, d: Bytes, fs: set<StreamFrame>, f1: StreamFrame,
                                     f2: StreamFrame, f3: StreamFrame, p: nat, q: nat, r: nat, all: seq<Step>)
    returns (y': System)
    requires At(id, s1, y) && |d| == 10 && Sending(y, id, d, 0, [], fs, fs) && 0 < p < q < r <= 10
    requires f1 == Piece(id, d, 0, p) && f2 == Piece(id, d, p, q) && f3 == Piece(id, d, q, r)
    requires all == s1 + [Pop(1000, p, false)] + [Pop(1000, q - p, false)] + [Pop(1000, r - q, false)]
    ensures At(id, all, y') && Sending(y', id, d, r, [], fs + {f1} + {f2} + {f3}, fs + {f1} + {f2} + {f3})
  {
    var s2 := s1 + [Pop(1000, p, false)];
    var s3 := s2 + [Pop(1000, q - p, false)];
    var fs1 := fs + {f1};
    var fs2 := fs1 + {f2};
    y' := SendsNew(id, s1, y, d, 0, p, s2, f1, fs, fs1);
    y' := SendsNew(id, s2, y', d, p, q, s3, f2, fs1, fs2);
    y' := SendsNew(id, s3, y', d, q, r, all, f3, fs2, fs2 + {f3});
  }

  lemma {:induction false} SendsThree(id: nat, d: Bytes) returns (y: System)
    requires id <= MAX_VARINT1 && |d| == 10
    ensures At(id, FirstSteps(d), y) && Sending(y, id, d, 10, [], FirstFrames(id, d), FirstFrames(id, d))
  {
    var none: seq<Step> := [];
    y := Begins(id, d, none, none + [Write(d)]);
    y := PopsThree(id, none + [Write(d)], y, d, {}, Piece(id, d, 0, 5), Piece(id, d, 5, 8), Piece(id, d, 8, 10),
                   5, 8, 10, FirstSteps(d));
  }

  function SendSteps(id: nat, d: Bytes): seq<Step>
    requires |d| == 10
  {
    FirstSteps(d) + [Lose(Piece(id, d, 5, 8))] + [Pop(5, 0, false)] + [Pop(1000, 0, false)]
  }

  function AllFrames(id: nat, d: Bytes): set<StreamFrame>
    requires |d| == 10
  {
    FirstFrames(id, d) + {Piece(id, d, 5, 6)} + {Piece(id, d, 6, 8)}
  }

  lemma {:induction false} SendsAll(id: nat, d: Bytes) returns (y: System)
    requires id <= MAX_VARINT1 && |d| == 10
    ensures At(id, SendSteps(id, d), y) && Sending(y, id, d, 10, [], AllFrames(id, d), {})
  {
    y := SendsThree(id, d);
    y := SendsAgain(id, FirstSteps(d), y, d, FirstFrames(id, d), SendSteps(id, d), Piece(id, d, 5, 8),
                    Piece(id, d, 5, 6), Piece(id, d, 6, 8));
  }

  lemma {:induction false} SendsAgain(id: nat, steps: seq<Step>, y: System, d: Bytes, fs: set<StreamFrame>,
                                      all: seq<Step>, f: StreamFrame, g: StreamFrame, h: StreamFrame)
    returns (y': System)
    requires At(id, steps, y) && |d| == 10 && Sending(y, id, d, 10, [], fs, fs) && f in fs
    requires f == Piece(id, d, 5, 8) && g == Piece(id, d, 5, 6) && h == Piece(id, d, 6, 8)
    requires all == steps + [Lose(f)] + [Pop(5, 0, false)] + [Pop(1000, 0, false)]
    ensures At(id, all, y') && Sending(y', id, d, 10, [], fs + {g} + {h}, {})
  {
    SplitsTheLost(id, d);
    var s1 := steps + [Lose(f)];
    var s2 := s1 + [Pop(5, 0, false)];
    y' := Loses(id, steps, y, d, 10, s1, f, fs);
    y' := Resends(id, s1, y', d, s2, f, 5, g, [h], fs);
    y' := Resends(id, s2, y', d, all, h, 1000, h, [], fs + {g});
  }

  // The receiver.

  lemma {:induction false} PushAddsGap(s: FS.Sorter, offset: nat, data: Bytes)
    requires SX.Inv(s) && offset + |data| < MAX_BYTE_COUNT
    ensures |FS.Push(s, offset, data).1.gaps| <= |s.gaps| + 1
  {
    SX.FirstTouchingExists(s.gaps, offset);
    var first := FS.FirstTouching(s.gaps, offset, 0);
    if FS.Shadowed(s, offset, data) || offset + |data| <= s.gaps[first].start {
      SX.PushKeepsGaps(s, offset, data, first);
    } else {
      SX.PushSplices(s, offset, data, first, FS.LastTouching(s.gaps, offset + |data|, first));
    }
  }

  /** Every push adds at most one gap. */
  lemma {:induction false} FewGaps(ops: seq<SX.Op>)
    requires SX.Bounded(ops)
    ensures |SX.Run(ops).gaps| <= |ops| + 1
  {
    var n := |ops| - 1;
    if n >= 0 {
      FewGaps(ops[..n]);
      if ops[n].PushOp? {
        PushAddsGap(SX.Run(ops[..n]), ops[n].offset, ops[n].data);
      }
    }
  }

  /** With few gaps no push of a run is refused. */
  lemma {:induction false} PushAccepted(s: FS.Sorter, offset: nat, data: Bytes)
    requires SX.Inv(s) && offset + |data| < MAX_BYTE_COUNT && |s.gaps| < FS.MAX_SORTER_GAPS
    ensures FS.Push(s, offset, data).0 in {FS.Stored, FS.Duplicate}
  {
    PushAddsGap(s, offset, data);
    SX.PushExact(s, offset, data);
    SX.FirstTouchingExists(s.gaps, offset);
    var first := FS.FirstTouching(s.gaps, offset, 0);
    if !FS.Shadowed(s, offset, data) && s.gaps[first].start < offset + |data| {
      var last := FS.LastTouching(s.gaps, offset + |data|, first);
      FS.InsertStores(s.(queue := FS.Replaced(s.queue, offset, data)), offset, data, first, last);
    } else {
      SX.PushKeepsGaps(s, offset, data, first);
    }
  }

  /** The frames in `sent` have been sent, those of `ops` delivered, and nothing read. */
  ghost predicate Receiving(y: System, d: Bytes, sent: set<StreamFrame>, ops: seq<SX.Op>) {
    && y.written == d && y.read == [] && sent <= y.network && SX.Bounded(ops)
    && y.receiver == RS.NEW.(sorter := SX.Run(ops), highest := y.receiver.highest) && !y.receiver.highest.final
  }

  lemma {:induction false} Unopened(y: System, d: Bytes, sent: set<StreamFrame>, none: seq<SX.Op>)
    requires y.written == d && y.read == [] && y.receiver == RS.NEW && sent <= y.network && none == []
    ensures Receiving(y, d, sent, none)
  {
  }

  lemma {:induction false} HandlesNext(y: System, d: Bytes, sent: set<StreamFrame>, ops: seq<SX.Op>, f: StreamFrame,
                                       ops': seq<SX.Op>)
    requires Safe(y) && Receiving(y, d, sent, ops) && f in sent && !f.fin && |ops| < 900
    requires ops' == ops + [SX.PushOp(f.offset, f.data)]
    ensures Enabled(y, Deliver(f, true)) && Receiving(Next(y, Deliver(f, true)), d, sent, ops')
  {
    assert Genuine(y, f);
    FewGaps(ops);
    PushAccepted(y.receiver.sorter, f.offset, f.data);
    SD.RunPush(ops, f.offset, f.data);
  }

  lemma {:induction false} Delivers(id: nat, steps: seq<Step>, y: System, d: Bytes, sent: set<StreamFrame>,
                                    ops: seq<SX.Op>, f: StreamFrame, ops': seq<SX.Op>, all: seq<Step>)
    returns (y': System)
    requires At(id, steps, y) && Receiving(y, d, sent, ops) && f in sent && !f.fin && |ops| < 900
    requires ops' == ops + [SX.PushOp(f.offset, f.data)] && all == steps + [Deliver(f, true)]
    ensures At(id, all, y') && Receiving(y', d, sent, ops')
  {
    HandlesNext(y, d, sent, ops, f, ops');
    y' := GoOn(id, steps, y, Deliver(f, true), all);
  }

  /** The split parts, the end, the unsplit frame, the beginning. */
  lemma {:induction false} DeliversFive(id: nat, steps: seq<Step>, y: System, d: Bytes, sent: set<StreamFrame>,
                                        none: seq<SX.Op>, a: StreamFrame, b: StreamFrame, c: StreamFrame,
                                        e: StreamFrame, g: StreamFrame, ops: seq<SX.Op>, all: seq<Step>)
    returns (y': System)
    requires At(id, steps, y) && Receiving(y, d, sent, none) && none == [] && {a, b, c, e, g} <= sent
    requires !a.fin && !b.fin && !c.fin && !e.fin && !g.fin
    requires ops == none + [SX.PushOp(a.offset, a.data)] + [SX.PushOp(b.offset, b.data)] + [SX.PushOp(c.offset, c.data)]
                    + [SX.PushOp(e.offset, e.data)] + [SX.PushOp(g.offset, g.data)]
    requires all == steps + [Deliver(a, true)] + [Deliver(b, true)] + [Deliver(c, true)] + [Deliver(e, true)]
             + [Deliver(g, true)]
    ensures At(id, all, y') && Receiving(y', d, sent, ops)
  {
    var o1 := none + [SX.PushOp(a.offset, a.data)];
    var o2 := o1 + [SX.PushOp(b.offset, b.data)];
    var o3 := o2 + [SX.PushOp(c.offset, c.data)];
    var o4 := o3 + [SX.PushOp(e.offset, e.data)];
    var s1 := steps + [Deliver(a, true)];
    var s2 := s1 + [Deliver(b, true)];
    var s3 := s2 + [Deliver(c, true)];
    var s4 := s3 + [Deliver(e, true)];
    y' := Delivers(id, steps, y, d, sent, none, a, o1, s1);
    y' := Delivers(id, s1, y', d, sent, o1, b, o2, s2);
    y' := Delivers(id, s2, y', d, sent, o2, c, o3, s3);
    y' := Delivers(id, s3, y', d, sent, o3, e, o4, s4);
    y' := Delivers(id, s4, y', d, sent, o4, g, ops, all);
  }

  // Stuck for good.

  /** The byte at the read position has been received, and no entry holds it. */
  ghost predicate Stuck(s: FS.Sorter) {
    SX.Inv(s) && s.readPos !in s.queue && !Missing(s.gaps, s.readPos)
  }

  lemma {:induction false} FirstGapAbove(s: FS.Sorter, i: nat)
    requires Stuck(s) && i < |s.gaps|
    ensures s.readPos < s.gaps[i].start
  {
    assert Missing(s.gaps, s.gaps[i].start);
  }

  lemma {:induction false} PushStuck(s: FS.Sorter, offset: nat, data: Bytes, s': FS.Sorter)
    requires Stuck(s) && offset + |data| < MAX_BYTE_COUNT && s' == FS.Push(s, offset, data).1
    ensures Stuck(s') && s'.readPos == s.readPos
  {
    SX.PushInv(s, offset, data);
    SX.PushExact(s, offset, data);
    SX.FirstTouchingExists(s.gaps, offset);
    var first := FS.FirstTouching(s.gaps, offset, 0);
    if !FS.Shadowed(s, offset, data) {
      if s.gaps[first].start < offset + |data| {
        var last := FS.LastTouching(s.gaps, offset + |data|, first);
        SX.PushStores(s, offset, data, first, last);
        FirstGapAbove(s, first);
        NotStoredThere(s.(queue := FS.Replaced(s.queue, offset, data)), offset, data, first, last);
      } else {
        SX.PushOnlyReplaces(s, offset, data, first);
      }
    }
  }

  lemma {:induction false} NotStoredThere(s: FS.Sorter, offset: nat, data: Bytes, first: nat, last: nat)
    requires |data| > 0 && FS.Touches(s.gaps, offset, offset + |data|, first, last)
    requires s.readPos !in s.queue && s.readPos < s.gaps[first].start
    ensures s.readPos !in FS.Stores(s, offset, data, first, last).queue
  {
    var lo := Max(offset, s.gaps[first].start);
    if s.readPos in FS.Drop(s.queue, s.gaps, first, last, lo) {
      SX.DropSubset(s.queue, s.gaps, first, last, lo, s.readPos);
    }
  }

  /** The reader waits at a byte that it will not get. */
  ghost predicate StuckReader(y: System) {
    && Safe(y) && Stuck(y.receiver.sorter) && RS.NeedsFrame(y.receiver) && !y.receiver.finRead
    && y.receiver.sorter.readPos < y.sender.writeOffset
  }

  lemma {:induction false} ReadsNothing(r: RS.Receiver, n: nat)
    requires r.sorter.readPos !in r.sorter.queue && RS.NeedsFrame(r) && !r.finRead && RS.CursorOk(r)
    requires r.sorter.readPos < r.finalOffset
    ensures var t := RS.Read(r, n);
            && t.bytes == [] && t.receiver.sorter == r.sorter && RS.NeedsFrame(t.receiver) && !t.receiver.finRead
  {
  }

  lemma {:induction false} SenderStuck(y: System, step: Step, y': System)
    requires StuckReader(y) && Enabled(y, step) && y' == Next(y, step) && !step.Deliver? && !step.Read? && Safe(y')
    ensures StuckReader(y') && y'.read == y.read
  {
    if step.Pop? {
      PopFrames(y, step.maxBytes, step.window, step.omitLen, y');
    }
  }

  lemma {:induction false} DeliverStuck(y: System, step: Step, y': System)
    requires StuckReader(y) && Enabled(y, step) && y' == Next(y, step) && step.Deliver? && Safe(y')
    ensures StuckReader(y') && y'.read == y.read
  {
    assert Genuine(y, step.f);
    PushStuck(y.receiver.sorter, step.f.offset, step.f.data, y'.receiver.sorter);
  }

  lemma {:induction false} ReadStuck(y: System, step: Step, y': System)
    requires StuckReader(y) && Enabled(y, step) && y' == Next(y, step) && step.Read? && Safe(y')
    ensures StuckReader(y') && y'.read == y.read
  {
    ReadsNothing(y.receiver, step.n);
    assert y.read + [] == y.read;
  }

  lemma {:induction false} StepStuck(y: System, step: Step, y': System)
    requires StuckReader(y) && Enabled(y, step) && y' == Next(y, step)
    ensures StuckReader(y') && y'.read == y.read
  {
    NextSafe(y, step);
    if step.Deliver? {
      DeliverStuck(y, step, y');
    } else if step.Read? {
      ReadStuck(y, step, y');
    } else {
      SenderStuck(y, step, y');
    }
  }

  ghost predicate Dry(o: Outcome, read: Bytes) {
    o.Reached? ==> StuckReader(o.system) && o.system.read == read
  }

  lemma {:induction false} DryStep(y: System, step: Step, read: Bytes)
    requires Good(y) && StuckReader(y) && y.read == read
    ensures Dry(After(y, step), read)
  {
    if Enabled(y, step) {
      StepStuck(y, step, Next(y, step));
    }
  }

  lemma {:induction false} RunSnoc(id: nat, steps: seq<Step>, step: Step, all: seq<Step>, o: Outcome)
    requires id <= MAX_VARINT8 && all == steps + [step] && o == Run(id, steps)
    ensures if o.Failed? then Run(id, all) == Failed else Good(o.system) && Run(id, all) == After(o.system, step)
  {
    assert all[..|all| - 1] == steps;
  }

  lemma {:induction false} DrySnoc(id: nat, steps: seq<Step>, step: Step, all: seq<Step>, o: Outcome, read: Bytes)
    requires id <= MAX_VARINT8 && all == steps + [step] && o == Run(id, steps) && Dry(o, read)
    ensures Dry(Run(id, all), read)
  {
    RunSnoc(id, steps, step, all, o);
    if o.Reached? {
      DryStep(o.system, step, read);
    }
  }

  /** Whatever is sent, delivered again or read later, nothing more comes out. */
  lemma {:induction false} StuckForGood(id: nat, steps: seq<Step>, read: Bytes, more: seq<Step>, all: seq<Step>)
    requires id <= MAX_VARINT8 && Dry(Run(id, steps), read) && all == steps + more
    ensures Dry(Run(id, all), read)
    decreases |more|
  {
    if |more| == 0 {
      Seqs.NothingAdded(steps);
      assert all == steps;
    } else {
      var n := |more| - 1;
      var init := steps + more[..n];
      StuckForGood(id, steps, read, more[..n], init);
      assert all == init + [more[n]];
      DrySnoc(id, init, more[n], all, Run(id, init), read);
    }
  }

  // The run.

  /** Reading from the sorter's state: five bytes, then the empty entry, then nothing. */
  lemma {:induction false} ReadsFive(r: RS.Receiver, n: nat, e: Bytes)
    requires RS.CursorOk(r) && RS.NeedsFrame(r) && !r.finRead && n > 5 && |e| == 5 && r.finalOffset > 5
    requires r.sorter.readPos == 0 && 0 in r.sorter.queue && r.sorter.queue[0] == e
    requires 5 in r.sorter.queue && r.sorter.queue[5] == []
    ensures var t := RS.Read(r, n);
            && t.bytes == e && t.receiver.sorter == FS.Pop(FS.Pop(r.sorter))
            && RS.NeedsFrame(t.receiver) && !t.receiver.finRead
  {
    var r1 := RS.Dequeue(r);
    var r2 := RS.Advance(r1, n);
    FirstRound(r, n, e, r1, r2);
    SecondRound(r2, n - 5, RS.Dequeue(r2));
    assert e + [] == e;
  }

  lemma {:induction false} FirstRound(r: RS.Receiver, n: nat, e: Bytes, r1: RS.Receiver, r2: RS.Receiver)
    requires RS.CursorOk(r) && RS.NeedsFrame(r) && !r.finRead && n > 5 && |e| == 5 && r.finalOffset > 5
    requires r.sorter.readPos == 0 && 0 in r.sorter.queue && r.sorter.queue[0] == e
    requires r1 == RS.Dequeue(r) && r2 == RS.Advance(r1, n)
    ensures r2.sorter == FS.Pop(r.sorter) && RS.NeedsFrame(r2) && RS.CursorOk(r2) && !r2.finRead
            && r2.finalOffset == r.finalOffset
    ensures RS.Read(r, n) == RS.Prepend(e, RS.ReadLoop(r2, n - 5, true))
  {
    assert e[0..5] == e;
    assert RS.Round(r, n, false) == RS.Step(r2, e, false, RS.Done);
  }

  lemma {:induction false} SecondRound(r: RS.Receiver, n: nat, r1: RS.Receiver)
    requires RS.CursorOk(r) && RS.NeedsFrame(r) && !r.finRead && n > 0 && r.finalOffset > r.sorter.readPos
    requires r.sorter.readPos in r.sorter.queue && r.sorter.queue[r.sorter.readPos] == [] && r1 == RS.Dequeue(r)
    ensures var t := RS.ReadLoop(r, n, true);
            && t.bytes == [] && t.receiver.sorter == FS.Pop(r.sorter) && RS.NeedsFrame(t.receiver)
            && !t.receiver.finRead
  {
    var none: Bytes := [];
    assert none[0..0] == none;
    var r2 := RS.Advance(r1, n);
    assert RS.Round(r, n, true) == RS.Step(r2, [], false, RS.Done);
    assert RS.Round(r2, n, true) == RS.Step(RS.Dequeue(r2), [], true, RS.Done);
    assert RS.ReadLoop(r, n, true) == RS.Prepend([], RS.ReadLoop(r2, n, true));
  }

  lemma {:induction false} Empties(b: Bytes, c: Bytes, e: Bytes, s: FS.Sorter, s': FS.Sorter)
    requires |e| == 5 && s == FS.Sorter(map[0 := e, 5 := [], 6 := b, 8 := c], 0, [Interval(10, MAX_BYTE_COUNT)])
    requires SX.Inv(s) && s' == FS.Pop(FS.Pop(s))
    ensures Stuck(s') && s'.readPos == 5
  {
    SX.PopInv(s);
    SX.PopInv(FS.Pop(s));
  }

  /** The receiver before the read. */
  ghost predicate Primed(r: RS.Receiver, e: Bytes, b: Bytes, c: Bytes) {
    && RS.NeedsFrame(r) && RS.CursorOk(r) && !r.finRead && r.finalOffset == MAX_BYTE_COUNT && |e| == 5
    && SX.Inv(r.sorter)
    && r.sorter == FS.Sorter(map[0 := e, 5 := [], 6 := b, 8 := c], 0, [Interval(10, MAX_BYTE_COUNT)])
  }

  lemma {:induction false} ReadSticks(r: RS.Receiver, e: Bytes, b: Bytes, c: Bytes, n: nat)
    requires Primed(r, e, b, c) && n > 5
    ensures var t := RS.Read(r, n);
            && t.bytes == e && Stuck(t.receiver.sorter) && t.receiver.sorter.readPos == 5
            && t.receiver.sorter.gaps == r.sorter.gaps
            && RS.NeedsFrame(t.receiver) && !t.receiver.finRead
  {
    ReadsFive(r, n, e);
    Empties(b, c, e, r.sorter, FS.Pop(FS.Pop(r.sorter)));
  }

  lemma {:induction false} ReadsNext(y: System, e: Bytes, b: Bytes, c: Bytes, n: nat, y': System)
    requires Safe(y) && Primed(y.receiver, e, b, c) && y.read == [] && n > 5 && y.sender.writeOffset > 5
    requires y' == Next(y, Read(n)) && Safe(y')
    ensures StuckReader(y') && y'.read == e && y'.receiver.sorter.gaps == y.receiver.sorter.gaps
  {
    var t := RS.Read(y.receiver, n);
    ReadSticks(y.receiver, e, b, c, n);
    ReadLeaves(y, n, y', t);
    var none: Bytes := [];
    assert none + e == e;
  }

  lemma {:induction false} ReadLeaves(y: System, n: nat, y': System, t: RS.Reading)
    requires Safe(y) && y' == Next(y, Read(n)) && t == RS.Read(y.receiver, n)
    ensures y'.receiver == t.receiver && y'.read == y.read + t.bytes && y'.sender == y.sender
  {
  }

  function DeliverSteps(a: StreamFrame, b: StreamFrame, c: StreamFrame, e: StreamFrame, g: StreamFrame,
                        steps: seq<Step>): seq<Step> {
    steps + [Deliver(a, true)] + [Deliver(b, true)] + [Deliver(c, true)] + [Deliver(e, true)] + [Deliver(g, true)]
  }

  /** The whole run: written and sent, one frame lost and split, all delivered, read. */
  function StallSteps(id: nat, d: Bytes, n: nat): seq<Step>
    requires |d| == 10
  {
    DeliverSteps(Piece(id, d, 5, 6), Piece(id, d, 6, 8), Piece(id, d, 8, 10), Piece(id, d, 5, 8), Piece(id, d, 0, 5),
                 SendSteps(id, d))
    + [Read(n)]
  }

  lemma {:induction false} SameOps(none: seq<SX.Op>, a: SX.Op, b: SX.Op, c: SX.Op, e: SX.Op, g: SX.Op)
    requires none == []
    ensures none + [a] + [b] + [c] + [e] + [g] == [a, b, c] + [e] + [g]
  {
  }

  lemma {:induction false} AllDelivered(id: nat, steps: seq<Step>, y: System, d: Bytes, sent: set<StreamFrame>,
                                        a: StreamFrame, b: StreamFrame, c: StreamFrame, e: StreamFrame, g: StreamFrame,
                                        all: seq<Step>)
    returns (y': System)
    requires At(id, steps, y) && |d| == 10 && Sending(y, id, d, 10, [], sent, {}) && {a, b, c, e, g} <= sent
    requires a == Piece(id, d, 5, 6) && b == Piece(id, d, 6, 8) && c == Piece(id, d, 8, 10)
    requires e == Piece(id, d, 5, 8) && g == Piece(id, d, 0, 5) && all == DeliverSteps(a, b, c, e, g, steps)
    ensures At(id, all, y') && Receiving(y', d, sent, SD.SplitPushes(a.data, b.data, c.data, e.data, g.data))
  {
    var none: seq<SX.Op> := [];
    Unopened(y, d, sent, none);
    var oa, ob, oc := SX.PushOp(a.offset, a.data), SX.PushOp(b.offset, b.data), SX.PushOp(c.offset, c.data);
    var oe, og := SX.PushOp(e.offset, e.data), SX.PushOp(g.offset, g.data);
    SameOps(none, oa, ob, oc, oe, og);
    y' := DeliversFive(id, steps, y, d, sent, none, a, b, c, e, g, none + [oa] + [ob] + [oc] + [oe] + [og], all);
  }

  lemma {:induction false} PrimedThen(y: System, d: Bytes, sent: set<StreamFrame>, ops: seq<SX.Op>, a: Bytes, b: Bytes,
                                      c: Bytes, e: Bytes, g: Bytes, last: StreamFrame)
    requires Safe(y) && Receiving(y, d, sent, ops) && ops == SD.SplitPushes(a, b, c, e, g)
    requires |a| == 1 && |b| == 2 && |c| == 2 && |e| == 3 && |g| == 5 && last in sent && last.End() > 5
    ensures Primed(y.receiver, g, b, c) && y.sender.writeOffset > 5
  {
    SD.AfterSplitPushes(a, b, c, e, g);
    assert Genuine(y, last);
  }

  /**
   * Every byte below 10 has arrived, and the reader has got five. Whatever the sender sends, the network
   * delivers and the reader asks for after that, it never gets another one.
   */
  lemma {:induction false} SplitRetransmissionStalls(id: nat, d: Bytes, n: nat, more: seq<Step>)
    requires id <= MAX_VARINT1 && |d| == 10 && n > 5
    ensures var o := Run(id, StallSteps(id, d, n));
            && o.Reached? && o.system.written == d && o.system.read == d[..5]
            && (forall x | 0 <= x < 10 :: !Missing(o.system.receiver.sorter.gaps, x))
    ensures var o := Run(id, StallSteps(id, d, n) + more); o.Reached? ==> o.system.read == d[..5]
  {
    var y := SendsAll(id, d);
    var steps, all := SendSteps(id, d), StallSteps(id, d, n);
    y := ReadsAtLast(id, steps, y, d, AllFrames(id, d), n, Piece(id, d, 5, 6), Piece(id, d, 6, 8), Piece(id, d, 8, 10),
                     Piece(id, d, 5, 8), Piece(id, d, 0, 5), all);
    StuckForGood(id, all, d[..5], more, all + more);
  }

  lemma {:induction false} ReadsAtLast(id: nat, steps: seq<Step>, y: System, d: Bytes, sent: set<StreamFrame>, n: nat,
                                       a: StreamFrame, b: StreamFrame, c: StreamFrame, e: StreamFrame, g: StreamFrame,
                                       all: seq<Step>)
    returns (y': System)
    requires At(id, steps, y) && |d| == 10 && Sending(y, id, d, 10, [], sent, {}) && {a, b, c, e, g} <= sent && n > 5
    requires a == Piece(id, d, 5, 6) && b == Piece(id, d, 6, 8) && c == Piece(id, d, 8, 10)
    requires e == Piece(id, d, 5, 8) && g == Piece(id, d, 0, 5) && all == DeliverSteps(a, b, c, e, g, steps) + [Read(n)]
    ensures At(id, all, y') && StuckReader(y') && y'.written == d && y'.read == d[..5]
    ensures y'.receiver.sorter.gaps == [Interval(10, MAX_BYTE_COUNT)]
  {
    var init := DeliverSteps(a, b, c, e, g, steps);
    var ops := SD.SplitPushes(a.data, b.data, c.data, e.data, g.data);
    var y1 := AllDelivered(id, steps, y, d, sent, a, b, c, e, g, init);
    PrimedThen(y1, d, sent, ops, a.data, b.data, c.data, e.data, g.data, c);
    y' := GoOn(id, init, y1, Read(n), all);
    ReadsNext(y1, g.data, b.data, c.data, n, y');
  }
}
