/** A sending and a receiving stream joined by a network that loses, repeats and reorders frames. */
module StreamTransfer {
  // Safety of the bytes read, and coverage of the bytes sent, over all runs.

  import opened Protocol
  import opened VarInt
  import opened StreamFrames
  import SendStream
  import ReceiveStream
  import StreamReceiving

  datatype System = System(
    sender: SendStream.Sender,
    written: Bytes,                   // all bytes the application has written
    network: set<StreamFrame>,        // every frame ever sent; delivery does not consume it
    inflight: multiset<StreamFrame>,  // frames sent, neither acknowledged nor declared lost
    acked: set<StreamFrame>,
    completions: nat,                 // how often completion has been reported
    receiver: ReceiveStream.Receiver,
    read: Bytes)                      // all bytes the receiving application has read

  function Init(streamID: nat): System {
    System(SendStream.NewSender(streamID), [], {}, multiset{}, {}, 0, ReceiveStream.NEW, [])
  }

  datatype Step =
    | Write(p: Bytes)
    | Close
    | Cancel
    | Pop(maxBytes: nat, window: nat, omitLen: bool)  // the framer omits the length of the last frame in a packet
    | Ack(f: StreamFrame)
    | Lose(f: StreamFrame)
    | Deliver(f: StreamFrame, allowed: bool)
    | Read(n: nat)

  /** A frame is genuine with respect to the sender's current state. */
  ghost predicate Genuine(y: System, f: StreamFrame) {
    && f.streamID == y.sender.streamID
    && StreamReceiving.Genuine(f, y.written, y.sender.writeOffset, y.sender.finSent)
  }

  /** What the sender's fields say about the bytes written. */
  ghost predicate SenderOk(y: System) {
    && SendStream.Bounded(y.sender)
    && y.sender.writeOffset <= |y.written| < MAX_BYTE_COUNT
    && y.sender.dataForWriting == y.written[y.sender.writeOffset..]
    && (y.sender.finSent ==> y.sender.finishedWriting && y.sender.writeOffset == |y.written|)
  }

  ghost predicate FramesOk(y: System) {
    && (forall f | f in y.network :: Genuine(y, f))
    && (forall f | f in y.inflight :: Genuine(y, f))
    && (forall i | 0 <= i < |y.sender.retransmissions| :: Genuine(y, y.sender.retransmissions[i]))
  }

  ghost predicate ReceiverOk(y: System) {
    StreamReceiving.Inv(y.receiver, y.read, y.written, y.sender.writeOffset, y.sender.finSent)
  }

  ghost predicate Safe(y: System) {
    SenderOk(y) && FramesOk(y) && ReceiverOk(y)
  }

  /** The steps the environment may take; an error while handling a frame ends the run. */
  ghost predicate Enabled(y: System, step: Step)
    requires Safe(y)
  {
    match step
    case Write(p) =>
      && |y.written| + |p| < MAX_BYTE_COUNT
      && (SendStream.WriteAllowed(y.sender) ==> |y.sender.dataForWriting| == 0)
    case Pop(maxBytes, _, _) => maxBytes <= MAX_VARINT2
    case Ack(f) => f in y.inflight
    case Lose(f) => f in y.inflight
    case Deliver(f, allowed) => f in y.network && ReceiveStream.HandleFrame(y.receiver, f, allowed).0.Accepted?
    case _ => true
  }

  function PopNext(y: System, maxBytes: nat, window: nat, omitLen: bool): System
    requires SendStream.Bounded(y.sender) && maxBytes <= MAX_VARINT2
  {
    var (s, f) := SendStream.Pop(y.sender, maxBytes, window);
    if f.None? then y.(sender := s)
    else
      var sent := f.value.(dataLenPresent := !omitLen);
      y.(sender := s, network := y.network + {sent}, inflight := y.inflight + multiset{sent})
  }

  function AckNext(y: System, f: StreamFrame): System {
    var (s, newly) := SendStream.FrameAcked(y.sender);
    y.(sender := s, inflight := y.inflight - multiset{f}, acked := y.acked + {f},
       completions := y.completions + if newly then 1 else 0)
  }

  function LoseNext(y: System, f: StreamFrame): System {
    y.(sender := SendStream.FrameLost(y.sender, f), inflight := y.inflight - multiset{f})
  }

  ghost function Next(y: System, step: Step): System
    requires Safe(y) && Enabled(y, step)
  {
    match step
    case Write(p) =>
      y.(sender := SendStream.Write(y.sender, p),
         written := if SendStream.WriteAllowed(y.sender) then y.written + p else y.written)
    case Close => y.(sender := SendStream.Close(y.sender))
    case Cancel =>
      var (s, newly) := SendStream.Cancel(y.sender);
      y.(sender := s, completions := y.completions + if newly then 1 else 0)
    case Pop(maxBytes, window, omitLen) => PopNext(y, maxBytes, window, omitLen)
    case Ack(f) => AckNext(y, f)
    case Lose(f) => LoseNext(y, f)
    case Deliver(f, allowed) => y.(receiver := ReceiveStream.HandleFrame(y.receiver, f, allowed).1)
    case Read(n) =>
      var t := ReceiveStream.Read(y.receiver, n);
      y.(receiver := t.receiver, read := y.read + t.bytes)
  }

  lemma {:induction false} WriteSafe(y: System, p: Bytes)
    requires Safe(y) && Enabled(y, Write(p))
    ensures Safe(Next(y, Write(p)))
  {
    var y' := Next(y, Write(p));
    StreamReceiving.Grows(y.receiver, y.read, y.written, y.sender.writeOffset, y.sender.finSent,
                          y'.written, y'.sender.writeOffset, y'.sender.finSent);
  }

  /** What a pop does to the sender: it cuts a genuine frame off the pending bytes or off the retransmission queue. */
  lemma {:induction false} PopGenuine(y: System, maxBytes: nat, window: nat)
    requires SenderOk(y) && maxBytes <= MAX_VARINT2
    requires forall i | 0 <= i < |y.sender.retransmissions| :: Genuine(y, y.sender.retransmissions[i])
    ensures var (s, f) := SendStream.Pop(y.sender, maxBytes, window);
            var y' := y.(sender := s);
            && SenderOk(y')
            && y.sender.writeOffset <= s.writeOffset && (y.sender.finSent ==> s.finSent)
            && (f.Some? ==> Genuine(y', f.value))
            && (forall i | 0 <= i < |s.retransmissions| :: Genuine(y', s.retransmissions[i]))
  {
    SendStream.PopFits(y.sender, maxBytes, window);
    if |y.sender.retransmissions| > 0 {
      var f := y.sender.retransmissions[0];
      if MaybeSplitOff(f, maxBytes).Parts? {
        SplitGenuine(y, f, maxBytes);
      }
    }
  }

  lemma {:induction false} SplitGenuine(y: System, f: StreamFrame, maxBytes: nat)
    requires Genuine(y, f) && Encodable(f) && maxBytes <= MAX_VARINT2 && MaybeSplitOff(f, maxBytes).Parts?
    ensures Genuine(y, MaybeSplitOff(f, maxBytes).head) && Genuine(y, MaybeSplitOff(f, maxBytes).rest)
  {
    SplitParts(f, maxBytes);
  }

  /** What a pop adds to the network and to the frames in flight. */
  lemma {:induction false} PopSends(y: System, maxBytes: nat, window: nat, omitLen: bool, y': System)
    requires SenderOk(y) && maxBytes <= MAX_VARINT2 && y' == PopNext(y, maxBytes, window, omitLen)
    ensures var f := SendStream.Pop(y.sender, maxBytes, window).1;
            && y'.sender == SendStream.Pop(y.sender, maxBytes, window).0 && y'.written == y.written
            && y'.sender.streamID == y.sender.streamID
            && (forall g | g in y'.network :: g in y.network || (f.Some? && g == f.value.(dataLenPresent := !omitLen)))
            && (forall g | g in y'.inflight ::
                  g in y.inflight || (f.Some? && g == f.value.(dataLenPresent := !omitLen)))
  {
  }

  lemma {:induction false} PopFrames(y: System, maxBytes: nat, window: nat, omitLen: bool, y': System)
    requires SenderOk(y) && FramesOk(y) && maxBytes <= MAX_VARINT2 && y' == PopNext(y, maxBytes, window, omitLen)
    ensures SenderOk(y') && FramesOk(y')
    ensures y.sender.writeOffset <= y'.sender.writeOffset && (y.sender.finSent ==> y'.sender.finSent)
    ensures y'.written == y.written && y'.receiver == y.receiver && y'.read == y.read
  {
    PopGenuine(y, maxBytes, window);
    PopSends(y, maxBytes, window, omitLen, y');
    var f := SendStream.Pop(y.sender, maxBytes, window).1;
    FramesStay(y, y', if f.Some? then Some(f.value.(dataLenPresent := !omitLen)) else None);
  }

  lemma {:induction false} GenuineStays(y: System, y': System, f: StreamFrame)
    requires y'.sender.streamID == y.sender.streamID && y'.written == y.written && Genuine(y, f)
    requires y.sender.writeOffset <= y'.sender.writeOffset <= |y.written| && (y.sender.finSent ==> y'.sender.finSent)
    ensures Genuine(y', f)
  {
  }

  /** At most one frame is new, and it is genuine. */
  lemma {:induction false} FramesStay(y: System, y': System, new': Option<StreamFrame>)
    requires FramesOk(y) && y'.sender.streamID == y.sender.streamID && y'.written == y.written
    requires y.sender.writeOffset <= y'.sender.writeOffset <= |y.written| && (y.sender.finSent ==> y'.sender.finSent)
    requires forall g | g in y'.network :: g in y.network || new' == Some(g)
    requires forall g | g in y'.inflight :: g in y.inflight || new' == Some(g)
    requires new'.Some? ==> Genuine(y', new'.value)
    requires forall i | 0 <= i < |y'.sender.retransmissions| :: Genuine(y', y'.sender.retransmissions[i])
    ensures FramesOk(y')
  {
    forall g | g in y'.network ensures Genuine(y', g) {
      if g in y.network {
        GenuineStays(y, y', g);
      }
    }
    forall g | g in y'.inflight ensures Genuine(y', g) {
      if g in y.inflight {
        GenuineStays(y, y', g);
      }
    }
  }

  lemma {:induction false} PopSafe(y: System, maxBytes: nat, window: nat, omitLen: bool)
    requires Safe(y) && maxBytes <= MAX_VARINT2
    ensures Safe(PopNext(y, maxBytes, window, omitLen))
  {
    var y' := PopNext(y, maxBytes, window, omitLen);
    PopFrames(y, maxBytes, window, omitLen, y');
    StreamReceiving.Grows(y.receiver, y.read, y.written, y.sender.writeOffset, y.sender.finSent,
                          y'.written, y'.sender.writeOffset, y'.sender.finSent);
  }

  /** Sending nothing and forgetting nothing that is to be sent keeps everything safe. */
  lemma {:induction false} StaysSafe(y: System, y': System)
    requires Safe(y) && y'.written == y.written && y'.receiver == y.receiver && y'.read == y.read
    requires y'.sender.streamID == y.sender.streamID && y'.sender.dataForWriting == y.sender.dataForWriting
    requires y'.sender.writeOffset == y.sender.writeOffset && y'.sender.finSent == y.sender.finSent
    requires y.sender.finishedWriting ==> y'.sender.finishedWriting
    requires y'.network == y.network && y'.inflight <= y.inflight
    requires forall f | f in y'.sender.retransmissions :: f in y.sender.retransmissions || Genuine(y, f)
    ensures Safe(y')
  {
    forall i | 0 <= i < |y'.sender.retransmissions| ensures Genuine(y', y'.sender.retransmissions[i]) {
      assert y'.sender.retransmissions[i] in y'.sender.retransmissions;
    }
    FramesStay(y, y', None);
  }

  lemma {:induction false} AckSafe(y: System, step: Step, y': System)
    requires (step.Ack? || step.Close? || step.Cancel?) && Safe(y) && Enabled(y, step) && y' == Next(y, step)
    ensures Safe(y')
  {
    StaysSafe(y, y');
  }

  lemma {:induction false} LoseSafe(y: System, f: StreamFrame, y': System)
    requires Safe(y) && Enabled(y, Lose(f)) && y' == Next(y, Lose(f))
    ensures Safe(y')
  {
    assert Genuine(y, f);
    assert Genuine(y, f.(dataLenPresent := true));
    StaysSafe(y, y');
  }

  lemma {:induction false} ReceiverSafe(y: System, step: Step)
    requires (step.Deliver? || step.Read?) && Safe(y) && Enabled(y, step)
    ensures Safe(Next(y, step))
  {
    if step.Deliver? {
      StreamReceiving.DeliverKeeps(y.receiver, y.read, y.written, y.sender.writeOffset, y.sender.finSent, step.f,
                                   step.allowed);
    } else {
      StreamReceiving.ReadKeeps(y.receiver, y.read, y.written, y.sender.writeOffset, y.sender.finSent, step.n);
    }
  }

  lemma {:induction false} NextSafe(y: System, step: Step)
    requires Safe(y) && Enabled(y, step)
    ensures Safe(Next(y, step))
  {
    match step
    case Write(p) => WriteSafe(y, p);
    case Pop(maxBytes, window, omitLen) => PopSafe(y, maxBytes, window, omitLen);
    case Deliver(_, _) => ReceiverSafe(y, step);
    case Read(_) => ReceiverSafe(y, step);
    case Lose(f) => LoseSafe(y, f, Next(y, step));
    case _ => AckSafe(y, step, Next(y, step));
  }

  /** The frame has been acknowledged, is in flight, or waits for retransmission. */
  ghost predicate Held(y: System, f: StreamFrame) {
    f in y.acked || f in y.inflight || f in y.sender.retransmissions
  }

  ghost predicate HasByte(f: StreamFrame, x: int) {
    f.offset <= x < f.End()
  }

  /** Byte x has been acknowledged, is in flight, or waits for retransmission. */
  ghost predicate Covered(y: System, x: int) {
    exists f :: Held(y, f) && HasByte(f, x)
  }

  ghost predicate FinCovered(y: System) {
    exists f :: Held(y, f) && f.fin
  }

  /** Nothing sent is forgotten, the counter is exact, and completion is reported once, at the end. */
  ghost predicate Complete(y: System) {
    && y.sender.numOutstanding == |y.inflight|
    && (forall x: nat | x < y.sender.writeOffset :: Covered(y, x))
    && (y.sender.finSent ==> FinCovered(y))
    && y.completions == (if y.sender.completed then 1 else 0)
    && (y.sender.completed && !y.sender.canceledWrite ==>
          y.sender.finSent && y.inflight == multiset{} && y.sender.retransmissions == [])
  }

  /** The frame is held, up to its length field. */
  ghost predicate HeldAs(y: System, f: StreamFrame) {
    Held(y, f.(dataLenPresent := true)) || Held(y, f.(dataLenPresent := false))
  }

  lemma {:induction false} HeldAsCovers(y: System, f: StreamFrame)
    requires HeldAs(y, f)
    ensures forall x | HasByte(f, x) :: Covered(y, x)
    ensures f.fin ==> FinCovered(y)
  {
    var g :| Held(y, g) && g.offset == f.offset && g.data == f.data && g.fin == f.fin;
    forall x | HasByte(f, x) ensures Covered(y, x) {
      assert HasByte(g, x);
    }
  }

  /** Every byte and FIN of a held frame is covered afterwards. */
  ghost predicate Keeps(y: System, y': System) {
    forall f | Held(y, f) :: (forall x | HasByte(f, x) :: Covered(y', x)) && (f.fin ==> FinCovered(y'))
  }

  lemma {:induction false} KeepsCovered(y: System, y': System)
    requires Keeps(y, y')
    ensures forall x :: Covered(y, x) ==> Covered(y', x)
    ensures FinCovered(y) ==> FinCovered(y')
  {
  }

  lemma {:induction false} KeepsHeld(y: System, y': System)
    requires forall f | Held(y, f) :: HeldAs(y', f)
    ensures Keeps(y, y')
  {
    forall f | Held(y, f) ensures (forall x | HasByte(f, x) :: Covered(y', x)) && (f.fin ==> FinCovered(y')) {
      HeldAsCovers(y', f);
    }
  }

  lemma {:induction false} AckComplete(y: System, f: StreamFrame)
    requires f in y.inflight && Complete(y)
    ensures Complete(AckNext(y, f))
  {
    var y' := AckNext(y, f);
    forall h | Held(y, h) ensures HeldAs(y', h) {
      assert Held(y', h);
    }
    KeepsHeld(y, y');
    KeepsCovered(y, y');
  }

  lemma {:induction false} LoseComplete(y: System, f: StreamFrame)
    requires f in y.inflight && Complete(y)
    ensures Complete(LoseNext(y, f))
  {
    var y' := LoseNext(y, f);
    var g := f.(dataLenPresent := true);
    assert y'.sender.retransmissions[|y.sender.retransmissions|] == g;
    forall h | Held(y, h) ensures HeldAs(y', h) {
      if h in y.sender.retransmissions {
        assert h in y'.sender.retransmissions;
      }
      assert h != f ==> Held(y', h);
    }
    KeepsHeld(y, y');
    KeepsCovered(y, y');
  }

  lemma {:induction false} HeldIsHeldAs(y: System, f: StreamFrame)
    requires Held(y, f)
    ensures HeldAs(y, f)
  {
    assert f == f.(dataLenPresent := true) || f == f.(dataLenPresent := false);
  }

  /** Frames behind the first retransmission stay where they are. */
  lemma {:induction false} OthersHeld(y: System, maxBytes: nat, window: nat, omitLen: bool, f: StreamFrame)
    requires SendStream.Bounded(y.sender) && maxBytes <= MAX_VARINT2 && |y.sender.retransmissions| > 0
    requires f in y.acked || f in y.inflight || f in y.sender.retransmissions[1..]
    ensures HeldAs(PopNext(y, maxBytes, window, omitLen), f)
  {
    var y' := PopNext(y, maxBytes, window, omitLen);
    var retr := y.sender.retransmissions;
    if f in retr[1..] {
      var i :| 0 <= i < |retr[1..]| && retr[1..][i] == f;
      assert f == retr[i + 1];
      assert f in y'.sender.retransmissions;
    }
    HeldIsHeldAs(y', f);
  }

  lemma {:induction false} FirstHeld(y: System, maxBytes: nat, window: nat, omitLen: bool)
    requires SendStream.Bounded(y.sender) && maxBytes <= MAX_VARINT2 && |y.sender.retransmissions| > 0
    ensures var y', f := PopNext(y, maxBytes, window, omitLen), y.sender.retransmissions[0];
            match MaybeSplitOff(f, maxBytes)
            case Parts(head, rest) => HeldAs(y', head) && HeldAs(y', rest)
            case _ => HeldAs(y', f)
  {
    var y', f := PopNext(y, maxBytes, window, omitLen), y.sender.retransmissions[0];
    var split := MaybeSplitOff(f, maxBytes);
    if split.Parts? {
      assert y'.sender.retransmissions[0] == split.rest;
      HeldIsHeldAs(y', split.rest);
    } else if split.TooSmall? {
      HeldIsHeldAs(y', f);
    }
  }

  /** A retransmission that goes out whole or in part leaves no byte uncovered. */
  lemma {:induction false} RetransmitKeeps(y: System, maxBytes: nat, window: nat, omitLen: bool)
    requires SendStream.Bounded(y.sender) && maxBytes <= MAX_VARINT2 && |y.sender.retransmissions| > 0
    ensures Keeps(y, PopNext(y, maxBytes, window, omitLen))
  {
    var y', retr := PopNext(y, maxBytes, window, omitLen), y.sender.retransmissions;
    forall f | Held(y, f) ensures (forall x | HasByte(f, x) :: Covered(y', x)) && (f.fin ==> FinCovered(y')) {
      if f == retr[0] {
        FirstHeld(y, maxBytes, window, omitLen);
        if MaybeSplitOff(f, maxBytes).Parts? {
          SplitCovers(y', f, maxBytes);
        } else {
          HeldAsCovers(y', f);
        }
      } else {
        assert retr == [retr[0]] + retr[1..];
        OthersHeld(y, maxBytes, window, omitLen, f);
        HeldAsCovers(y', f);
      }
    }
  }

  lemma {:induction false} SplitCovers(y: System, f: StreamFrame, maxBytes: nat)
    requires Encodable(f) && maxBytes <= MAX_VARINT2 && MaybeSplitOff(f, maxBytes).Parts?
    requires HeldAs(y, MaybeSplitOff(f, maxBytes).head) && HeldAs(y, MaybeSplitOff(f, maxBytes).rest)
    ensures forall x | HasByte(f, x) :: Covered(y, x)
    ensures f.fin ==> FinCovered(y)
  {
    var Parts(head, rest) := MaybeSplitOff(f, maxBytes);
    SplitParts(f, maxBytes);
    HeldAsCovers(y, head);
    HeldAsCovers(y, rest);
    forall x | HasByte(f, x) ensures Covered(y, x) {
      assert HasByte(head, x) || HasByte(rest, x);
    }
  }

  /** New data is covered by the frame it goes out in. */
  lemma {:induction false} NewDataKeeps(y: System, maxBytes: nat, window: nat, omitLen: bool)
    requires SendStream.Bounded(y.sender) && maxBytes <= MAX_VARINT2 && |y.sender.retransmissions| == 0
    ensures var y' := PopNext(y, maxBytes, window, omitLen);
            && Keeps(y, y')
            && (forall x: nat | y.sender.writeOffset <= x < y'.sender.writeOffset :: Covered(y', x))
            && (y'.sender.finSent && !y.sender.finSent ==> FinCovered(y'))
  {
    var y' := PopNext(y, maxBytes, window, omitLen);
    forall f | Held(y, f) ensures HeldAs(y', f) {
      assert Held(y', f);
    }
    KeepsHeld(y, y');
    var f := SendStream.Pop(y.sender, maxBytes, window).1;
    if f.Some? {
      HeldAsCovers(y', f.value);
    }
  }

  /** One more frame is outstanding exactly if one more is in flight, and a finished stream stays as it is. */
  lemma {:induction false} PopCounts(y: System, maxBytes: nat, window: nat, omitLen: bool, y': System)
    requires SenderOk(y) && maxBytes <= MAX_VARINT2 && y' == PopNext(y, maxBytes, window, omitLen)
    ensures y'.sender.numOutstanding - y.sender.numOutstanding == |y'.inflight| - |y.inflight|
    ensures y'.completions == y.completions && y'.sender.completed == y.sender.completed
    ensures y'.sender.canceledWrite == y.sender.canceledWrite
    ensures y.sender.finSent && y.sender.retransmissions == [] ==>
              y'.sender.finSent && y'.inflight == y.inflight && y'.sender.retransmissions == []
  {
    SendStream.PopCounts(y.sender, maxBytes, window);
  }

  lemma {:induction false} StaysComplete(y: System, y': System)
    requires Complete(y) && (forall x :: Covered(y, x) ==> Covered(y', x)) && (FinCovered(y) ==> FinCovered(y'))
    requires forall x: nat | y.sender.writeOffset <= x < y'.sender.writeOffset :: Covered(y', x)
    requires y'.sender.finSent && !y.sender.finSent ==> FinCovered(y')
    requires y'.sender.numOutstanding - y.sender.numOutstanding == |y'.inflight| - |y.inflight|
    requires y'.completions == y.completions && y'.sender.completed == y.sender.completed
    requires y'.sender.canceledWrite == y.sender.canceledWrite
    requires y.sender.finSent && y.sender.retransmissions == [] ==>
               y'.sender.finSent && y'.inflight == y.inflight && y'.sender.retransmissions == []
    ensures Complete(y')
  {
  }

  lemma {:induction false} RetransmitOffsets(y: System, maxBytes: nat, window: nat, omitLen: bool, y': System)
    requires SendStream.Bounded(y.sender) && maxBytes <= MAX_VARINT2 && |y.sender.retransmissions| > 0
    requires y' == PopNext(y, maxBytes, window, omitLen)
    ensures y'.sender.writeOffset == y.sender.writeOffset && y'.sender.finSent == y.sender.finSent
  {
  }

  lemma {:induction false} PopComplete(y: System, maxBytes: nat, window: nat, omitLen: bool, y': System)
    requires SenderOk(y) && Complete(y) && maxBytes <= MAX_VARINT2 && y' == PopNext(y, maxBytes, window, omitLen)
    ensures Complete(y')
  {
    if |y.sender.retransmissions| > 0 {
      RetransmitKeeps(y, maxBytes, window, omitLen);
      RetransmitOffsets(y, maxBytes, window, omitLen, y');
    } else {
      NewDataKeeps(y, maxBytes, window, omitLen);
    }
    KeepsCovered(y, y');
    PopCounts(y, maxBytes, window, omitLen, y');
    StaysComplete(y, y');
  }

  lemma {:induction false} NextComplete(y: System, step: Step)
    requires Safe(y) && Enabled(y, step) && Complete(y)
    ensures Complete(Next(y, step))
  {
    var y' := Next(y, step);
    match step
    case Ack(f) => AckComplete(y, f);
    case Lose(f) => LoseComplete(y, f);
    case Pop(maxBytes, window, omitLen) => PopComplete(y, maxBytes, window, omitLen, y');
    case _ => OtherComplete(y, y');
  }

  lemma {:induction false} OtherComplete(y: System, y': System)
    requires Complete(y) && y'.acked == y.acked && y'.inflight == y.inflight
    requires y'.sender.retransmissions == y.sender.retransmissions
             && y'.sender.numOutstanding == y.sender.numOutstanding
    requires y'.sender.writeOffset == y.sender.writeOffset && y'.sender.finSent == y.sender.finSent
    requires y'.completions == (if y'.sender.completed then 1 else 0)
    requires y'.sender.completed && !y'.sender.canceledWrite ==> y.sender.completed && !y.sender.canceledWrite
    ensures Complete(y')
  {
    forall f | Held(y, f) ensures HeldAs(y', f) {
      HeldIsHeldAs(y', f);
    }
    KeepsHeld(y, y');
    KeepsCovered(y, y');
  }

  datatype Outcome = Failed | Reached(system: System)

  /** What every step keeps. */
  ghost predicate Good(y: System) {
    Safe(y) && Complete(y)
  }

  lemma {:induction false} InitSender(streamID: nat)
    requires streamID <= MAX_VARINT8
    ensures SenderOk(Init(streamID)) && FramesOk(Init(streamID))
  {
    var none: Bytes := [];
    assert none[0..] == none;
  }

  lemma {:induction false} InitReceiver(streamID: nat)
    ensures ReceiverOk(Init(streamID))
  {
    StreamReceiving.NewInv();
  }

  lemma {:induction false} InitComplete(streamID: nat)
    ensures Complete(Init(streamID))
  {
  }

  lemma {:induction false} InitGood(streamID: nat)
    requires streamID <= MAX_VARINT8
    ensures Good(Init(streamID))
  {
    InitSender(streamID);
    InitReceiver(streamID);
    InitComplete(streamID);
  }

  ghost function After(y: System, step: Step): (o: Outcome)
    requires Good(y)
    ensures o.Reached? ==> Good(o.system)
  {
    if Enabled(y, step) then
      NextSafe(y, step);
      NextComplete(y, step);
      Reached(Next(y, step))
    else Failed
  }

  /** The system after any sequence of steps, if each was possible. */
  ghost function Run(streamID: nat, steps: seq<Step>): (o: Outcome)
    requires streamID <= MAX_VARINT8
    ensures o.Reached? ==> Good(o.system)
  {
    if |steps| == 0 then
      InitGood(streamID);
      Reached(Init(streamID))
    else
      match Run(streamID, steps[..|steps| - 1])
      case Failed => Failed
      case Reached(y) => After(y, steps[|steps| - 1])
  }

  /**
   * End-to-end safety: in every reachable system the bytes read are a prefix of the bytes written,
   * and end-of-file is reported only once everything written before Close has been read.
   */
  lemma {:induction false} StreamSafety(streamID: nat, steps: seq<Step>)
    requires streamID <= MAX_VARINT8 && Run(streamID, steps).Reached?
    ensures var y := Run(streamID, steps).system;
            && y.read <= y.written
            && (y.receiver.finRead ==> y.read == y.written && y.sender.finishedWriting)
  {
  }

  /** An honest peer is never accused of changing the final size of the stream. */
  lemma {:induction false} NoFinalSizeError(streamID: nat, steps: seq<Step>, f: StreamFrame, allowed: bool)
    requires streamID <= MAX_VARINT8 && Run(streamID, steps).Reached? && f in Run(streamID, steps).system.network
    ensures var r := Run(streamID, steps).system.receiver;
            ReceiveStream.HandleFrame(r, f, allowed).0 != ReceiveStream.FinalSizeError
  {
    var y := Run(streamID, steps).system;
    assert Genuine(y, f);
    StreamReceiving.DeliverKeeps(y.receiver, y.read, y.written, y.sender.writeOffset, y.sender.finSent, f, allowed);
  }

  /**
   * Send-side coverage: every byte cut into frames and the FIN are acknowledged, in flight or queued;
   * the frame counter is exact and never negative, so neither panic is reached.
   */
  lemma {:induction false} NothingForgotten(streamID: nat, steps: seq<Step>)
    requires streamID <= MAX_VARINT8 && Run(streamID, steps).Reached?
    ensures var y := Run(streamID, steps).system;
            && (forall x: nat | x < y.sender.writeOffset :: Covered(y, x))
            && (y.sender.finSent ==> FinCovered(y))
            && y.sender.numOutstanding == |y.inflight| >= 0
            && (y.inflight != multiset{} ==> y.sender.numOutstanding - 1 >= 0)
            && y.completions <= 1
  {
  }

  /** Without CancelWrite, completion means that every byte written and the FIN have been acknowledged. */
  lemma {:induction false} CompletionMeansAcked(streamID: nat, steps: seq<Step>, x: nat)
    requires streamID <= MAX_VARINT8 && Run(streamID, steps).Reached?
    requires var y := Run(streamID, steps).system;
             y.completions == 1 && !y.sender.canceledWrite && x < |y.written|
    ensures var y := Run(streamID, steps).system;
            && (exists f :: f in y.acked && HasByte(f, x))
            && (exists f :: f in y.acked && f.fin)
  {
    var y := Run(streamID, steps).system;
    assert Covered(y, x) && FinCovered(y);
    var f :| Held(y, f) && HasByte(f, x);
    var g :| Held(y, g) && g.fin;
    assert f in y.acked && g in y.acked;
  }
}
