/** Which frame a sending stream hands out next, and when it hands out none (quic-go/send_stream.go). */
module SendProgress {
  import opened Protocol
  import opened VarInt
  import opened StreamFrames
  import opened SendStream

  /** Something is left to be sent, now or once the windows allow it. */
  predicate Waiting(s: Sender) {
    |s.retransmissions| > 0 || (!s.canceledWrite && (|s.dataForWriting| > 0 || (s.finishedWriting && !s.finSent)))
  }

  /** The length of all fields in front of the data of a new frame, with the shortest length field. */
  function NewHeader(s: Sender): nat
    requires Bounded(s)
  {
    2 + VarIntLen(s.streamID) + (if s.writeOffset != 0 then VarIntLen(s.writeOffset) else 0)
  }

  /** A lost frame goes out whole or in part. */
  predicate CanResend(f: StreamFrame, maxBytes: nat)
    requires Encodable(f)
  {
    Length(f) <= maxBytes || HeaderLen(f) + (if f.dataLenPresent then 1 else 0) < maxBytes
  }

  /** There is room for at least one byte, and a byte within the window or just the FIN to send. */
  predicate CanSendNew(s: Sender, maxBytes: nat, window: nat)
    requires Bounded(s)
  {
    && !s.canceledWrite && NewHeader(s) < maxBytes
    && if |s.dataForWriting| > 0 then window > 0 else s.finishedWriting && !s.finSent
  }

  predicate CanSend(s: Sender, maxBytes: nat, window: nat)
    requires Bounded(s)
  {
    if |s.retransmissions| > 0 then CanResend(s.retransmissions[0], maxBytes) else CanSendNew(s, maxBytes, window)
  }

  /** Exactly when a pop hands out a frame. */
  lemma {:induction false} PopYields(s: Sender, maxBytes: nat, window: nat)
    requires Bounded(s) && maxBytes <= MAX_VARINT2
    ensures Pop(s, maxBytes, window).1.Some? <==> CanSend(s, maxBytes, window)
  {
  }

  /** A new frame starts where the last one ended, is as long as it can be, and has the FIN exactly at the end. */
  lemma {:induction false} NewFrame(s: Sender, maxBytes: nat, window: nat)
    requires Bounded(s) && maxBytes <= MAX_VARINT2 && |s.retransmissions| == 0 && CanSendNew(s, maxBytes, window)
    ensures var (s', f) := Pop(s, maxBytes, window);
            && f.Some? && f.value.streamID == s.streamID && f.value.offset == s.writeOffset
            && f.value.data + s'.dataForWriting == s.dataForWriting
            && (|s.dataForWriting| > 0 ==> |f.value.data| > 0)
            && s'.writeOffset == f.value.End()
            && (|s'.dataForWriting| > 0 ==> |f.value.data| == window || Length(f.value) >= maxBytes - 1)
            && (f.value.fin <==> s.finishedWriting && !s.finSent && |s'.dataForWriting| == 0)
            && (s'.finSent <==> s.finSent || f.value.fin)
  {
  }

  /** A lost frame keeps its FIN until its last part goes out; what does not fit stays at the head of the queue. */
  lemma {:induction false} ResentFrame(s: Sender, maxBytes: nat, window: nat)
    requires Bounded(s) && maxBytes <= MAX_VARINT2 && |s.retransmissions| > 0
    requires CanResend(s.retransmissions[0], maxBytes)
    ensures var (s', f) := Pop(s, maxBytes, window);
            var old', later := s.retransmissions[0], s.retransmissions[1..];
            && f.Some? && s'.finSent == s.finSent && s'.dataForWriting == s.dataForWriting
            && s'.writeOffset == s.writeOffset
            && if Length(old') <= maxBytes then f.value == old' && s'.retransmissions == later
               else
                 && |s'.retransmissions| == |s.retransmissions| && s'.retransmissions[1..] == later
                 && f.value.data + s'.retransmissions[0].data == old'.data
                 && |f.value.data| > 0 && |s'.retransmissions[0].data| > 0
                 && !f.value.fin && s'.retransmissions[0].fin == old'.fin
                 && f.value.offset == old'.offset && s'.retransmissions[0].offset == f.value.End()
  {
    if Length(s.retransmissions[0]) > maxBytes {
      SplitParts(s.retransmissions[0], maxBytes);
    }
  }

  /** Frames are declared lost one after the other. */
  function LoseAll(s: Sender, fs: seq<StreamFrame>): Sender
    decreases |fs|
  {
    if |fs| == 0 then s else LoseAll(FrameLost(s, fs[0]), fs[1..])
  }

  function Repeated(fs: seq<StreamFrame>): (r: seq<StreamFrame>)
    ensures |r| == |fs| && forall i | 0 <= i < |fs| :: r[i] == fs[i].(dataLenPresent := true)
  {
    if |fs| == 0 then [] else [fs[0].(dataLenPresent := true)] + Repeated(fs[1..])
  }

  lemma {:induction false} LostQueue(s: Sender, fs: seq<StreamFrame>)
    ensures LoseAll(s, fs).retransmissions == s.retransmissions + Repeated(fs)
    decreases |fs|
  {
    if |fs| > 0 {
      LostQueue(FrameLost(s, fs[0]), fs[1..]);
    }
  }

  /** Lost frames are sent again in the order in which they were lost, behind those lost before. */
  lemma {:induction false} ResentInOrder(s: Sender, fs: seq<StreamFrame>, k: nat, maxBytes: nat, window: nat)
    requires var all := s.retransmissions + Repeated(fs);
             k < |all| && forall i | 0 <= i < |all| :: Encodable(all[i]) && Length(all[i]) <= maxBytes
    requires Bounded(LoseAll(s, fs)) && maxBytes <= MAX_VARINT2
    ensures var all := s.retransmissions + Repeated(fs);
            var t := PopTimes(LoseAll(s, fs), k, maxBytes, window);
            Pop(t, maxBytes, window).1 == Some(all[k])
  {
    LostQueue(s, fs);
    PopsInOrder(LoseAll(s, fs), k, maxBytes, window);
  }

  /** The stream after k pops. */
  function PopTimes(s: Sender, k: nat, maxBytes: nat, window: nat): (t: Sender)
    requires Bounded(s) && maxBytes <= MAX_VARINT2
    ensures Bounded(t)
    decreases k
  {
    if k == 0 then s
    else
      PopFits(s, maxBytes, window);
      PopTimes(Pop(s, maxBytes, window).0, k - 1, maxBytes, window)
  }

  lemma {:induction false} PopsInOrder(s: Sender, k: nat, maxBytes: nat, window: nat)
    requires Bounded(s) && k < |s.retransmissions| && maxBytes <= MAX_VARINT2
    requires forall i | 0 <= i < |s.retransmissions| :: Length(s.retransmissions[i]) <= maxBytes
    ensures Pop(PopTimes(s, k, maxBytes, window), maxBytes, window).1 == Some(s.retransmissions[k])
    decreases k
  {
    ResentFrame(s, maxBytes, window);
    if k > 0 {
      PopFits(s, maxBytes, window);
      PopsInOrder(Pop(s, maxBytes, window).0, k - 1, maxBytes, window);
    }
  }

  /** Without a frame the stream stays as it is. */
  lemma {:induction false} NoFrame(s: Sender, maxBytes: nat, window: nat)
    requires Bounded(s) && maxBytes <= MAX_VARINT2 && !CanSend(s, maxBytes, window)
    ensures Pop(s, maxBytes, window) == (s, None)
  {
  }

  lemma {:induction false} PopKeepsEnds(s: Sender, maxBytes: nat, window: nat)
    requires Bounded(s) && maxBytes <= MAX_VARINT2
    ensures var s' := Pop(s, maxBytes, window).0;
            s'.canceledWrite == s.canceledWrite && s'.finishedWriting == s.finishedWriting
  {
  }

  /**
   * A stream that still waits after a pop stays active, with two exceptions: flow control has just
   * stopped it, or only its FIN waits and the frame was to be too short even for a header. In the second
   * case only a lost frame makes it active again.
   */
  lemma {:induction false} StaysActive(s: Sender, maxBytes: nat, window: nat, newlyBlocked: bool)
    requires Bounded(s) && maxBytes <= MAX_VARINT2
    ensures var s' := Pop(s, maxBytes, window).0;
            Waiting(s') && !HasMoreData(s, maxBytes, window, newlyBlocked)
            <==> && |s.retransmissions| == 0 && !s.canceledWrite
                 && if |s.dataForWriting| > 0 then newlyBlocked && window == 0 && NewHeader(s) < maxBytes
                    else s.finishedWriting && !s.finSent && NewHeader(s) >= maxBytes
  {
  }

  /** A stream that stays active although nothing waits was resending; it says so once too often. */
  lemma {:induction false} ActiveInVain(s: Sender, maxBytes: nat, window: nat, newlyBlocked: bool)
    requires Bounded(s) && maxBytes <= MAX_VARINT2 && HasMoreData(s, maxBytes, window, newlyBlocked)
    ensures Waiting(Pop(s, maxBytes, window).0) || |s.retransmissions| == 1
  {
  }

  /** What is left: bytes and frames to be sent again, bytes and FIN to be sent for the first time. */
  function Left(s: Sender): nat {
    LeftOf(s.retransmissions) + |s.dataForWriting| + if s.finSent then 0 else 1
  }

  function LeftOf(fs: seq<StreamFrame>): nat {
    if |fs| == 0 then 0 else 1 + |fs[0].data| + LeftOf(fs[1..])
  }

  /** The largest header leaves room for a byte. */
  const ROOM: nat := 19

  /** With room and window every pop sends something until all is sent. */
  lemma {:induction false} PopSends(s: Sender, maxBytes: nat, window: nat)
    requires Bounded(s) && ROOM <= maxBytes <= MAX_VARINT2 && window > 0
    requires s.finishedWriting && !s.canceledWrite
    ensures var s' := Pop(s, maxBytes, window).0;
            && s'.finishedWriting && !s'.canceledWrite && Left(s') <= Max(0, Left(s) - 1)
  {
    PopYields(s, maxBytes, window);
    if |s.retransmissions| > 0 {
      ResentFrame(s, maxBytes, window);
    } else if CanSendNew(s, maxBytes, window) {
      NewFrame(s, maxBytes, window);
    }
  }
}
