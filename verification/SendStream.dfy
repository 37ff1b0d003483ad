/** The sending half of a stream (quic-go/send_stream.go). */
module SendStream {
  import opened Protocol
  import opened VarInt
  import opened StreamFrames

  /** The fields that popping, acknowledging and losing frames read and change. */
  datatype Sender = Sender(
    streamID: nat,
    dataForWriting: Bytes,
    writeOffset: nat,
    retransmissions: seq<StreamFrame>,
    numOutstanding: int,
    finishedWriting: bool,
    canceledWrite: bool,
    finSent: bool,
    completed: bool)

  function NewSender(streamID: nat): Sender {
    Sender(streamID, [], 0, [], 0, false, false, false, false)
  }

  /** All offsets stay below the largest stream offset, so every frame can be encoded. */
  predicate Bounded(s: Sender) {
    && s.streamID <= MAX_VARINT8
    && s.writeOffset + |s.dataForWriting| < MAX_BYTE_COUNT
    && (forall i | 0 <= i < |s.retransmissions| :: Encodable(s.retransmissions[i]))
  }

  /** The start of a Write call: it is refused after Close and after a cancellation (lines 83-106). */
  predicate WriteAllowed(s: Sender) {
    !s.finishedWriting && !s.canceledWrite
  }

  function Write(s: Sender, p: Bytes): Sender {
    if WriteAllowed(s) && |p| > 0 then s.(dataForWriting := p) else s
  }

  /** How many bytes of new data go into the next frame, for a limit on the frame and a send window. */
  function NewDataLen(s: Sender, maxBytes: nat, window: nat): nat
    requires Bounded(s) && maxBytes <= MAX_VARINT2
  {
    var n := MaxDataLen(StreamFrame(s.streamID, s.writeOffset, [], false, true), maxBytes);
    Min(Min(n, window), |s.dataForWriting|)
  }

  /** A frame with new data, or only a FIN; None if there is nothing to send or no room (lines 216-300). */
  function PopNew(s: Sender, maxBytes: nat, window: nat): (Sender, Option<StreamFrame>)
    requires Bounded(s) && maxBytes <= MAX_VARINT2
  {
    var room := MaxDataLen(StreamFrame(s.streamID, s.writeOffset, [], false, true), maxBytes);
    if s.canceledWrite || room == 0 then (s, None)
    else
      var n := NewDataLen(s, maxBytes, window);
      var rest := s.dataForWriting[n..];
      var fin := s.finishedWriting && |rest| == 0 && !s.finSent;
      if n == 0 && !fin then (s, None)
      else
        (s.(dataForWriting := rest, writeOffset := s.writeOffset + n, finSent := s.finSent || fin),
         Some(StreamFrame(s.streamID, s.writeOffset, s.dataForWriting[..n], fin, true)))
  }

  /** A queued retransmission, split if it is too long; None if not even one byte fits (lines 251-259). */
  function PopRetransmission(s: Sender, maxBytes: nat): (Sender, Option<StreamFrame>)
    requires Bounded(s) && maxBytes <= MAX_VARINT2 && |s.retransmissions| > 0
  {
    var f, later := s.retransmissions[0], s.retransmissions[1..];
    match MaybeSplitOff(f, maxBytes)
    case Whole => (s.(retransmissions := later), Some(f))
    case TooSmall => (s, None)
    case Parts(head, rest) => (s.(retransmissions := [rest] + later), Some(head))
  }

  /** The next frame to send; retransmissions go first (lines 171-214). */
  function Pop(s: Sender, maxBytes: nat, window: nat): (Sender, Option<StreamFrame>)
    requires Bounded(s) && maxBytes <= MAX_VARINT2
  {
    var (s', f) := if |s.retransmissions| > 0 then PopRetransmission(s, maxBytes) else PopNew(s, maxBytes, window);
    (if f.Some? then s'.(numOutstanding := s'.numOutstanding + 1) else s', f)
  }

  /** Whether the stream stays active after the pop; `newlyBlocked` is the flow controller's answer. */
  predicate HasMoreData(s: Sender, maxBytes: nat, window: nat, newlyBlocked: bool)
    requires Bounded(s) && maxBytes <= MAX_VARINT2
  {
    if |s.retransmissions| > 0 then true
    else if s.canceledWrite then false
    else
      var (s', f) := PopNew(s, maxBytes, window);
      var room := MaxDataLen(StreamFrame(s.streamID, s.writeOffset, [], false, true), maxBytes) > 0;
      |s'.dataForWriting| > 0 && (room && f.None? ==> !newlyBlocked)
  }

  /** Nothing is left to be acknowledged or retransmitted, and the stream has ended. */
  predicate Finished(s: Sender) {
    (s.finSent || s.canceledWrite) && s.numOutstanding == 0 && |s.retransmissions| == 0
  }

  /** Reports completion the first time the stream is finished (lines 318-325). */
  function Complete(s: Sender): (Sender, bool) {
    if Finished(s) && !s.completed then (s.(completed := true), true) else (s, false)
  }

  function FrameAcked(s: Sender): (Sender, bool) {
    Complete(s.(numOutstanding := s.numOutstanding - 1))
  }

  function FrameLost(s: Sender, f: StreamFrame): Sender {
    s.(retransmissions := s.retransmissions + [f.(dataLenPresent := true)],
       numOutstanding := s.numOutstanding - 1)
  }

  function Close(s: Sender): Sender {
    if s.canceledWrite then s else s.(finishedWriting := true)
  }

  function Cancel(s: Sender): (Sender, bool) {
    if s.canceledWrite then (s, false) else Complete(s.(canceledWrite := true))
  }

  class SendStream {
    const streamID: nat
    var dataForWriting: Bytes
    var writeOffset: nat
    var retransmissionQueue: seq<StreamFrame>
    var numOutstandingFrames: int
    var finishedWriting: bool
    var canceledWrite: bool
    var finSent: bool
    var completed: bool

    ghost function State(): Sender
      reads this
    {
      Sender(streamID, dataForWriting, writeOffset, retransmissionQueue, numOutstandingFrames,
             finishedWriting, canceledWrite, finSent, completed)
    }

    constructor (id: nat)
      ensures State() == NewSender(id)
    {
      streamID := id;
      dataForWriting, writeOffset, retransmissionQueue, numOutstandingFrames := [], 0, [], 0;
      finishedWriting, canceledWrite, finSent, completed := false, false, false, false;
    }

    method StartWrite(p: Bytes) returns (ok: bool)
      modifies this
      ensures ok == WriteAllowed(old(State())) && State() == Write(old(State()), p)
    {
      if finishedWriting || canceledWrite {
        return false;
      }
      if |p| > 0 {
        dataForWriting := p;
      }
      ok := true;
    }

    method GetDataForWriting(maxDataLen: nat, window: nat) returns (data: Bytes, fin: bool)
      requires Bounded(State())
      modifies this`dataForWriting, this`writeOffset
      ensures var n := Min(Min(maxDataLen, window), |old(dataForWriting)|);
              && data == old(dataForWriting)[..n] && dataForWriting == old(dataForWriting)[n..]
              && writeOffset == old(writeOffset) + n
              && fin == (finishedWriting && |dataForWriting| == 0 && !finSent)
    {
      if |dataForWriting| == 0 {
        return [], finishedWriting && !finSent;
      }
      var maxBytes := if maxDataLen < window then maxDataLen else window;
      if maxBytes == 0 {
        return [], false;
      }
      if |dataForWriting| > maxBytes {
        data := dataForWriting[..maxBytes];
        dataForWriting := dataForWriting[maxBytes..];
      } else {
        data := dataForWriting;
        dataForWriting := [];
      }
      writeOffset := writeOffset + |data|;
      fin := finishedWriting && |dataForWriting| == 0 && !finSent;
    }

    method PopNewStreamFrame(maxBytes: nat, window: nat, newlyBlocked: bool)
      returns (f: Option<StreamFrame>, hasMoreData: bool)
      requires Bounded(State()) && maxBytes <= MAX_VARINT2 && |retransmissionQueue| == 0
      modifies this
      ensures State() == PopNew(old(State()), maxBytes, window).0 && f == PopNew(old(State()), maxBytes, window).1
      ensures hasMoreData == HasMoreData(old(State()), maxBytes, window, newlyBlocked)
    {
      if canceledWrite {
        return None, false;
      }
      var offset := writeOffset;
      var maxDataLen := MaxDataLen(StreamFrame(streamID, offset, [], false, true), maxBytes);
      if maxDataLen == 0 {
        return None, |dataForWriting| > 0;
      }
      var data, fin := GetDataForWriting(maxDataLen, window);
      if |data| == 0 && !fin {
        return None, |dataForWriting| > 0 && !newlyBlocked;
      }
      if fin {
        finSent := true;
      }
      f := Some(StreamFrame(streamID, offset, data, fin, true));
      hasMoreData := |dataForWriting| > 0;
    }

    method MaybeGetRetransmission(maxBytes: nat) returns (f: Option<StreamFrame>)
      requires Bounded(State()) && maxBytes <= MAX_VARINT2 && |retransmissionQueue| > 0
      modifies this`retransmissionQueue
      ensures State() == PopRetransmission(old(State()), maxBytes).0 && f == PopRetransmission(old(State()), maxBytes).1
    {
      var first := retransmissionQueue[0];
      match MaybeSplitOff(first, maxBytes)
      case Whole =>
        retransmissionQueue := retransmissionQueue[1..];
        f := Some(first);
      case TooSmall =>
        f := None;
      case Parts(head, rest) =>
        retransmissionQueue := [rest] + retransmissionQueue[1..];
        f := Some(head);
    }

    method PopStreamFrame(maxBytes: nat, window: nat, newlyBlocked: bool)
      returns (f: Option<StreamFrame>, hasMoreData: bool)
      requires Bounded(State()) && maxBytes <= MAX_VARINT2
      modifies this
      ensures State() == Pop(old(State()), maxBytes, window).0 && f == Pop(old(State()), maxBytes, window).1
      ensures hasMoreData == HasMoreData(old(State()), maxBytes, window, newlyBlocked)
    {
      if |retransmissionQueue| > 0 {
        f := MaybeGetRetransmission(maxBytes);
        hasMoreData := true;
      } else {
        f, hasMoreData := PopNewStreamFrame(maxBytes, window, newlyBlocked);
      }
      if f.Some? {
        numOutstandingFrames := numOutstandingFrames + 1;
      }
    }

    method IsNewlyCompleted() returns (newly: bool)
      modifies this`completed
      ensures (State(), newly) == Complete(old(State()))
    {
      newly := (finSent || canceledWrite) && numOutstandingFrames == 0 && |retransmissionQueue| == 0 && !completed;
      completed := completed || newly;
    }

    method OnFrameAcked() returns (newlyCompleted: bool)
      requires numOutstandingFrames > 0
      modifies this
      ensures (State(), newlyCompleted) == FrameAcked(old(State())) && numOutstandingFrames >= 0
    {
      numOutstandingFrames := numOutstandingFrames - 1;
      newlyCompleted := IsNewlyCompleted();
    }

    method QueueRetransmission(f: StreamFrame)
      requires numOutstandingFrames > 0
      modifies this
      ensures State() == FrameLost(old(State()), f) && numOutstandingFrames >= 0
    {
      retransmissionQueue := retransmissionQueue + [f.(dataLenPresent := true)];
      numOutstandingFrames := numOutstandingFrames - 1;
    }

    method CloseStream() returns (ok: bool)
      modifies this
      ensures ok == !old(canceledWrite) && State() == Close(old(State()))
    {
      if canceledWrite {
        return false;
      }
      finishedWriting := true;
      ok := true;
    }

    method CancelWrite() returns (newlyCompleted: bool)
      modifies this
      ensures (State(), newlyCompleted) == Cancel(old(State()))
    {
      if canceledWrite {
        return false;
      }
      canceledWrite := true;
      newlyCompleted := IsNewlyCompleted();
    }
  }

  /** Every frame handed out fits the limit it was asked for. */
  lemma {:induction false} PopFits(s: Sender, maxBytes: nat, window: nat)
    requires Bounded(s) && maxBytes <= MAX_VARINT2
    ensures Pop(s, maxBytes, window).1.Some? ==>
              && Encodable(Pop(s, maxBytes, window).1.value)
              && Length(Pop(s, maxBytes, window).1.value) <= maxBytes
    ensures Bounded(Pop(s, maxBytes, window).0)
  {
    if |s.retransmissions| > 0 {
      if MaybeSplitOff(s.retransmissions[0], maxBytes).Parts? {
        SplitParts(s.retransmissions[0], maxBytes);
      }
    } else {
      var f := PopNew(s, maxBytes, window).1;
      if f.Some? {
        MaxDataLenFits(f.value, maxBytes);
      }
    }
  }

  /** A frame handed out is counted, and a stream that has sent its FIN hands out nothing new. */
  lemma {:induction false} PopCounts(s: Sender, maxBytes: nat, window: nat)
    requires Bounded(s) && maxBytes <= MAX_VARINT2 && (s.finSent ==> |s.dataForWriting| == 0)
    ensures var (s', f) := Pop(s, maxBytes, window);
            && s'.numOutstanding == s.numOutstanding + (if f.Some? then 1 else 0)
            && s'.completed == s.completed && s'.canceledWrite == s.canceledWrite
            && (s.finSent && s.retransmissions == [] ==> f.None? && s'.finSent && s'.retransmissions == [])
  {
  }
}
