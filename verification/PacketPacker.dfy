/** Composing the payload of a 1-RTT packet (quic-go/packet_packer.go, quic-go/retransmission_queue.go). */
module PacketPacker {
  import opened Protocol
  import opened FrameParser
  import opened Payloads
  import Fr = Framer
  import SF = StreamFrames
  import AF = AckFrames
  import CF = ControlFrames
  import Seqs

  /** Takes lost control frames from the front of their queue while enough room is left (lines 388-404). */
  function TakeFront<T>(q: seq<T>, size: T -> nat, taken: seq<T>, length: nat, maxLen: int): Fr.Taken<T> {
    var remaining := maxLen - length;
    if remaining < Fr.MIN_STREAM_FRAME_SIZE || |q| == 0 || size(q[0]) > remaining then Fr.Taken(q, taken, length)
    else TakeFront(q[1..], size, taken + [q[0]], length + size(q[0]), maxLen)
  }

  lemma {:induction false} FrontLength<T>(q: seq<T>, size: T -> nat, taken: seq<T>, length: nat, maxLen: int, base: nat)
    requires length == base + Fr.SumOf(taken, size)
    ensures var r := TakeFront(q, size, taken, length, maxLen);
            && r.length == base + Fr.SumOf(r.taken, size) && (length <= maxLen <==> r.length <= maxLen)
            && (|r.left| > 0 ==> || maxLen - r.length < Fr.MIN_STREAM_FRAME_SIZE
                                 || r.length + size(r.left[0]) > maxLen)
  {
    if !(maxLen - length < Fr.MIN_STREAM_FRAME_SIZE || |q| == 0 || size(q[0]) > maxLen - length) {
      Fr.SumSnoc(taken, q[0], size);
      FrontLength(q[1..], size, taken + [q[0]], length + size(q[0]), maxLen, base);
    }
  }

  lemma {:induction false} FrontOrder<T>(q: seq<T>, size: T -> nat, taken: seq<T>, length: nat, maxLen: int)
    ensures var r := TakeFront(q, size, taken, length, maxLen);
            r.taken + r.left == taken + q && (length > maxLen ==> r.taken == taken)
  {
    if !(maxLen - length < Fr.MIN_STREAM_FRAME_SIZE || |q| == 0 || size(q[0]) > maxLen - length) {
      FrontOrder(q[1..], size, taken + [q[0]], length + size(q[0]), maxLen);
      Seqs.MoveFirst(taken, q);
    }
  }

  /**
   * The order is kept, the limit is only exceeded if it was before, and taking stops only if nothing is left,
   * less than the smallest frame size remains, or the next frame does not fit.
   */
  lemma {:induction false} FrontFits<T>(q: seq<T>, size: T -> nat, taken: seq<T>, length: nat, maxLen: int, base: nat)
    requires length == base + Fr.SumOf(taken, size)
    ensures var r := TakeFront(q, size, taken, length, maxLen);
            && r.length == base + Fr.SumOf(r.taken, size)
            && (length <= maxLen <==> r.length <= maxLen) && (length > maxLen ==> r.taken == taken)
            && r.taken + r.left == taken + q
            && (|r.left| > 0 ==> || maxLen - r.length < Fr.MIN_STREAM_FRAME_SIZE
                                 || r.length + size(r.left[0]) > maxLen)
  {
    FrontLength(q, size, taken, length, maxLen, base);
    FrontOrder(q, size, taken, length, maxLen);
  }

  function ControlList(cs: seq<CF.ControlFrame>): seq<Frame> {
    seq(|cs|, i requires 0 <= i < |cs| => Control(cs[i]))
  }

  function StreamList(fs: seq<SF.StreamFrame>): seq<Frame> {
    seq(|fs|, i requires 0 <= i < |fs| => Stream(fs[i]))
  }

  lemma {:induction false} TotalConcat(a: seq<Frame>, b: seq<Frame>)
    requires AllEncodable(a) && AllEncodable(b)
    ensures AllEncodable(a + b) && TotalLength(a + b) == TotalLength(a) + TotalLength(b)
  {
    if |a| == 0 {
      assert a + b == b;
    } else {
      assert (a + b)[1..] == a[1..] + b;
      TotalConcat(a[1..], b);
    }
  }

  lemma {:induction false} TotalOne(f: Frame)
    requires Encodable(f)
    ensures AllEncodable([f]) && TotalLength([f]) == Length(f)
  {
    assert [f][1..] == [];
  }

  ghost predicate ControlOk(c: CF.ControlFrame) {
    CF.Writable(c) && CF.Accepted(c.ty, c.fields)
  }

  ghost predicate ControlsOk(cs: seq<CF.ControlFrame>) {
    forall i | 0 <= i < |cs| :: ControlOk(cs[i])
  }

  lemma {:induction false} ControlTotal(cs: seq<CF.ControlFrame>)
    requires ControlsOk(cs)
    ensures AllEncodable(ControlList(cs)) && TotalLength(ControlList(cs)) == Fr.SumOf(cs, CF.Size)
  {
    var n := |cs|;
    if n > 0 {
      var init, f := cs[..n - 1], Control(cs[n - 1]);
      ControlTotal(init);
      TotalOne(f);
      TotalConcat(ControlList(init), [f]);
      assert ControlList(cs) == ControlList(init) + [f];
    }
  }

  lemma {:induction false} StreamTotal(fs: seq<SF.StreamFrame>)
    requires Fr.AllEncodable(fs)
    ensures AllEncodable(StreamList(fs)) && TotalLength(StreamList(fs)) == Fr.TotalLength(fs)
  {
    var n := |fs|;
    if n > 0 {
      var init, f := fs[..n - 1], Stream(fs[n - 1]);
      StreamTotal(init);
      TotalOne(f);
      TotalConcat(StreamList(init), [f]);
      assert StreamList(fs) == StreamList(init) + [f];
    }
  }

  const MAX_NON_ACK_ELICITING_ACKS := 19
  const PING := CF.ControlFrame(0x01, [])

  /** The lost control frames, the framer, and how many packets in a row only carried an ACK. */
  datatype Packer = Packer(appData: seq<CF.ControlFrame>, framer: Fr.Framer, numNonAckElicitingAcks: nat)

  ghost predicate PackerOk(p: Packer) {
    ControlsOk(p.appData) && ControlsOk(p.framer.controls) && Fr.FramerOk(p.framer)
  }

  /** The frames of one payload by where they come from. */
  datatype Composed = Composed(lost: Fr.Taken<CF.ControlFrame>, controls: Fr.Taken<CF.ControlFrame>, framer: Fr.Framer,
                               streams: seq<SF.StreamFrame>)

  function Frames(c: Composed): seq<Frame> {
    ControlList(c.lost.taken) + ControlList(c.controls.taken) + StreamList(c.streams)
  }

  /** ACK, lost control frames, control frames, STREAM frames, each from what the ones before leave (lines 379-415). */
  ghost function Compose(p: Packer, ackLength: nat, windows: nat -> Fr.Window, maxSize: int, limit: nat): Composed
    requires PackerOk(p) && maxSize <= Fr.MAX_FRAME_SIZE
  {
    var lost := TakeFront(p.appData, CF.Size, [], ackLength, maxSize);
    var controls := Fr.TakeFitting(p.framer.controls, CF.Size, [], 0, maxSize - lost.length);
    var s := Fr.AppendStreams(p.framer.(controls := controls.left), windows, maxSize - lost.length - controls.length,
                              limit);
    Composed(lost, controls, s.0, s.1)
  }

  /** The queues after composing. */
  function Remaining(p: Packer, c: Composed): Packer {
    p.(appData := c.lost.left, framer := c.framer)
  }

  lemma {:induction false} PartsOk(q: seq<CF.ControlFrame>, a: seq<CF.ControlFrame>, b: seq<CF.ControlFrame>)
    requires ControlsOk(q) && multiset(a) + multiset(b) == multiset(q)
    ensures ControlsOk(a) && ControlsOk(b)
  {
    forall i | 0 <= i < |a| ensures ControlOk(a[i]) {
      assert a[i] in multiset(q);
    }
    forall i | 0 <= i < |b| ensures ControlOk(b[i]) {
      assert b[i] in multiset(q);
    }
  }

  lemma {:induction false} LostOk(p: Packer, ackLength: nat, maxSize: int, lost: Fr.Taken<CF.ControlFrame>)
    requires ControlsOk(p.appData) && lost == TakeFront(p.appData, CF.Size, [], ackLength, maxSize)
    ensures ControlsOk(lost.taken) && ControlsOk(lost.left) && lost.length == ackLength + Fr.SumOf(lost.taken, CF.Size)
    ensures (ackLength <= maxSize <==> lost.length <= maxSize) && lost.taken + lost.left == p.appData
  {
    FrontFits(p.appData, CF.Size, [], ackLength, maxSize, ackLength);
    assert [] + p.appData == p.appData;
    PartsOk(p.appData, lost.taken, lost.left);
  }

  lemma {:induction false} ControlsTakenOk(cs: seq<CF.ControlFrame>, maxLen: int, t: Fr.Taken<CF.ControlFrame>)
    requires ControlsOk(cs) && t == Fr.TakeFitting(cs, CF.Size, [], 0, maxLen)
    ensures ControlsOk(t.taken) && ControlsOk(t.left) && t.length == Fr.SumOf(t.taken, CF.Size)
            && t.length <= Max(0, maxLen)
    ensures multiset(t.left) + multiset(t.taken) == multiset(cs)
  {
    Fr.TakenFits(cs, CF.Size, [], 0, maxLen);
    PartsOk(cs, t.left, t.taken);
  }

  /** The composed parts are well formed and together exceed the limit only if the ACK alone does. */
  ghost predicate ComposedOk(c: Composed, ackLength: nat, maxSize: int, limit: nat) {
    && ControlsOk(c.lost.taken) && ControlsOk(c.controls.taken) && Fr.StreamsOk(c.streams, limit)
    && (ackLength <= maxSize <==>
          ackLength + Fr.SumOf(c.lost.taken, CF.Size) + Fr.SumOf(c.controls.taken, CF.Size)
            + Fr.TotalLength(c.streams) <= maxSize)
    && Fr.TotalLength(c.streams) <= Fr.MAX_FRAME_SIZE
  }

  lemma {:induction false} ComposeTakes(p: Packer, ackLength: nat, windows: nat -> Fr.Window, maxSize: int, limit: nat,
                                        c: Composed)
    requires PackerOk(p) && maxSize <= Fr.MAX_FRAME_SIZE && c == Compose(p, ackLength, windows, maxSize, limit)
    ensures c.lost == TakeFront(p.appData, CF.Size, [], ackLength, maxSize)
    ensures c.controls == Fr.TakeFitting(p.framer.controls, CF.Size, [], 0, maxSize - c.lost.length)
  {
  }

  lemma {:induction false} ComposeControls(p: Packer, ackLength: nat, windows: nat -> Fr.Window, maxSize: int,
                                           limit: nat, c: Composed)
    requires PackerOk(p) && maxSize <= Fr.MAX_FRAME_SIZE && c == Compose(p, ackLength, windows, maxSize, limit)
    ensures ControlsOk(c.lost.taken) && ControlsOk(c.lost.left) && ControlsOk(c.controls.taken)
            && ControlsOk(c.controls.left)
    ensures c.lost.length == ackLength + Fr.SumOf(c.lost.taken, CF.Size)
            && (ackLength <= maxSize <==> c.lost.length <= maxSize)
    ensures c.controls.length == Fr.SumOf(c.controls.taken, CF.Size)
            && c.controls.length <= Max(0, maxSize - c.lost.length)
    ensures c.lost.taken + c.lost.left == p.appData
    ensures multiset(c.controls.left) + multiset(c.controls.taken) == multiset(p.framer.controls)
  {
    ComposeTakes(p, ackLength, windows, maxSize, limit, c);
    LostOk(p, ackLength, maxSize, c.lost);
    ControlsTakenOk(p.framer.controls, maxSize - c.lost.length, c.controls);
  }

  lemma {:induction false} ComposeStreams(p: Packer, ackLength: nat, windows: nat -> Fr.Window, maxSize: int,
                                          limit: nat, c: Composed)
    requires PackerOk(p) && maxSize <= Fr.MAX_FRAME_SIZE && c == Compose(p, ackLength, windows, maxSize, limit)
    ensures Fr.FramerOk(c.framer) && c.framer.controls == c.controls.left
    ensures Fr.StreamsOk(c.streams, limit)
            && Fr.TotalLength(c.streams) <= Max(0, maxSize - c.lost.length - c.controls.length)
  {
    StreamsTakenOk(p.framer.(controls := c.controls.left), windows, maxSize - c.lost.length - c.controls.length, limit);
  }

  lemma {:induction false} ComposeOk(p: Packer, ackLength: nat, windows: nat -> Fr.Window, maxSize: int, limit: nat,
                                     c: Composed)
    requires PackerOk(p) && maxSize <= Fr.MAX_FRAME_SIZE && c == Compose(p, ackLength, windows, maxSize, limit)
    ensures ComposedOk(c, ackLength, maxSize, limit) && PackerOk(Remaining(p, c))
  {
    ComposeControls(p, ackLength, windows, maxSize, limit, c);
    ComposeStreams(p, ackLength, windows, maxSize, limit, c);
    AddsUp(ackLength, c.lost.length, c.controls.length, Fr.TotalLength(c.streams), maxSize);
  }

  lemma {:induction false} AddsUp(ack: nat, lost: nat, controls: nat, streams: nat, maxSize: int)
    requires ack <= lost && (ack <= maxSize <==> lost <= maxSize)
    requires controls <= Max(0, maxSize - lost) && streams <= Max(0, maxSize - lost - controls)
    ensures ack <= maxSize <==> lost + controls + streams <= maxSize
  {
  }

  lemma {:induction false} StreamsTakenOk(f: Fr.Framer, windows: nat -> Fr.Window, room: int, limit: nat)
    requires Fr.FramerOk(f) && room <= Fr.MAX_FRAME_SIZE
    ensures var s := Fr.AppendStreams(f, windows, room, limit);
            && Fr.FramerOk(s.0) && s.0.controls == f.controls && Fr.StreamsOk(s.1, limit)
            && Fr.TotalLength(s.1) <= Max(0, room)
  {
    Fr.StreamFramesFit(f, windows, room, limit);
    ControlsUntouched(f, windows, room, limit);
  }

  lemma {:induction false} ControlsUntouched(f: Fr.Framer, windows: nat -> Fr.Window, maxLen: int, limit: nat)
    requires Fr.FramerOk(f) && maxLen <= Fr.MAX_FRAME_SIZE
    ensures Fr.AppendStreams(f, windows, maxLen, limit).0.controls == f.controls
  {
    Fr.VisitsKeepControls(Fr.Progress(f, [], 0, 0), windows, maxLen, |f.queue|, limit, f.queue);
  }

  lemma {:induction false} MemberLength(fs: seq<SF.StreamFrame>, i: nat)
    requires Fr.AllEncodable(fs) && i < |fs|
    ensures SF.Length(fs[i]) <= Fr.TotalLength(fs)
  {
    var n := |fs|;
    if i < n - 1 {
      MemberLength(fs[..n - 1], i);
    }
  }

  ghost predicate Ready(f: Frame) {
    Sendable(f, OneRttLevel) && Writable(f)
  }

  lemma {:induction false} StreamsReady(fs: seq<SF.StreamFrame>, limit: nat)
    requires Fr.StreamsOk(fs, limit) && Fr.TotalLength(fs) <= Fr.MAX_FRAME_SIZE
    ensures forall i | 0 <= i < |fs| :: Ready(StreamList(fs)[i]) && (i < |fs| - 1 ==> Delimited(StreamList(fs)[i]))
  {
    forall i | 0 <= i < |fs| ensures Ready(StreamList(fs)[i]) && (i < |fs| - 1 ==> Delimited(StreamList(fs)[i])) {
      MemberLength(fs, i);
      assert Fr.FrameOk(fs[i], fs[i].streamID);
    }
  }

  lemma {:induction false} ControlsReady(cs: seq<CF.ControlFrame>)
    requires ControlsOk(cs)
    ensures forall i | 0 <= i < |cs| :: Ready(ControlList(cs)[i]) && Delimited(ControlList(cs)[i])
  {
    forall i | 0 <= i < |cs| ensures Ready(ControlList(cs)[i]) && Delimited(ControlList(cs)[i]) {
      assert ControlOk(cs[i]);
    }
  }

  lemma {:induction false} JoinReady(a: seq<Frame>, b: seq<Frame>, d: seq<Frame>)
    requires forall i | 0 <= i < |a| :: Ready(a[i]) && Delimited(a[i])
    requires forall i | 0 <= i < |b| :: Ready(b[i]) && Delimited(b[i])
    requires forall i | 0 <= i < |d| :: Ready(d[i]) && (i < |d| - 1 ==> Delimited(d[i]))
    ensures Transmittable(a + b + d, OneRttLevel)
    ensures forall i | 0 <= i < |a + b + d| :: Writable((a + b + d)[i])
  {
    var all := a + b + d;
    forall i | 0 <= i < |all| ensures Ready(all[i]) && (i < |all| - 1 ==> Delimited(all[i])) {
      if i < |a| {
        assert all[i] == a[i];
      } else if i < |a| + |b| {
        assert all[i] == b[i - |a|];
      } else {
        assert all[i] == d[i - |a| - |b|];
      }
    }
  }

  lemma {:induction false} FramesReady(c: Composed, ackLength: nat, maxSize: int, limit: nat)
    requires ComposedOk(c, ackLength, maxSize, limit)
    ensures Transmittable(Frames(c), OneRttLevel) && forall i | 0 <= i < |Frames(c)| :: Writable(Frames(c)[i])
  {
    ControlsReady(c.lost.taken);
    ControlsReady(c.controls.taken);
    StreamsReady(c.streams, limit);
    JoinReady(ControlList(c.lost.taken), ControlList(c.controls.taken), StreamList(c.streams));
  }

  lemma {:induction false} FramesTotal(c: Composed)
    requires ControlsOk(c.lost.taken) && ControlsOk(c.controls.taken) && Fr.AllEncodable(c.streams)
    ensures AllEncodable(Frames(c))
    ensures TotalLength(Frames(c))
            == Fr.SumOf(c.lost.taken, CF.Size) + Fr.SumOf(c.controls.taken, CF.Size) + Fr.TotalLength(c.streams)
  {
    ControlTotal(c.lost.taken);
    ControlTotal(c.controls.taken);
    StreamTotal(c.streams);
    TotalConcat(ControlList(c.lost.taken), ControlList(c.controls.taken));
    TotalConcat(ControlList(c.lost.taken) + ControlList(c.controls.taken), StreamList(c.streams));
  }

  /** The payload of the next packet. */
  ghost function NextPayload(p: Packer, ack: Option<AF.AckFrame>, windows: nat -> Fr.Window, maxSize: int, limit: nat,
                             padding: nat): Payload
    requires PackerOk(p) && maxSize <= Fr.MAX_FRAME_SIZE && (ack.Some? ==> AF.Encodable(ack.value))
  {
    Payload(ack, padding, Frames(Compose(p, AckLength(ack), windows, maxSize, limit)))
  }

  /**
   * The payload never exceeds the limit unless the ACK alone does, and with 1008 bytes or more of room
   * no ACK does.
   */
  lemma {:induction false} PayloadFits(p: Packer, ack: Option<AF.AckFrame>, windows: nat -> Fr.Window, maxSize: int,
                                       limit: nat, padding: nat)
    requires PackerOk(p) && maxSize <= Fr.MAX_FRAME_SIZE && (ack.Some? ==> AF.Encodable(ack.value))
    ensures var payload := NextPayload(p, ack, windows, maxSize, limit, padding);
            && PayloadEncodable(payload)
            && (PayloadLength(payload) <= maxSize <==> AckLength(ack) <= maxSize)
            && (AF.MAX_ACK_FRAME_SIZE + 8 <= maxSize ==> PayloadLength(payload) <= maxSize)
  {
    var c := Compose(p, AckLength(ack), windows, maxSize, limit);
    ComposeOk(p, AckLength(ack), windows, maxSize, limit, c);
    FramesTotal(c);
    if ack.Some? {
      AF.LengthBound(ack.value);
    }
  }

  /** The peer reads back exactly what was composed: the ACK as far as it fits, then every frame in order. */
  lemma {:induction false} ComposedRoundTrip(p: Packer, ack: Option<AF.AckFrame>, windows: nat -> Fr.Window,
                                             maxSize: int, limit: nat, padding: nat)
    requires PackerOk(p) && maxSize <= Fr.MAX_FRAME_SIZE && (ack.Some? ==> AF.Encodable(ack.value))
    ensures var payload := NextPayload(p, ack, windows, maxSize, limit, padding);
            && PayloadEncodable(payload) && WritePayload(payload).Some?
            && ParseAll(WritePayload(payload).value, OneRttLevel, AF.ACK_DELAY_EXPONENT)
               == Some(ReceivedAck(ack) + ReceivedAll(payload.frames))
  {
    var c := Compose(p, AckLength(ack), windows, maxSize, limit);
    ComposeOk(p, AckLength(ack), windows, maxSize, limit, c);
    FramesReady(c, AckLength(ack), maxSize, limit);
    FramesTotal(c);
    PayloadRoundTrip(NextPayload(p, ack, windows, maxSize, limit, padding), OneRttLevel);
  }

  /** Every twentieth packet in a row without frames gets a PING, so that it is acknowledged (lines 286-301). */
  function WithPing(frames: seq<Frame>, count: nat): (seq<Frame>, nat) {
    if |frames| > 0 then (frames, 0)
    else if count >= MAX_NON_ACK_ELICITING_ACKS then ([Control(PING)], 0)
    else ([], count + 1)
  }

  /** The frames of the next packet, None if there is nothing to send, and the packer after composing it. */
  ghost function Pack(p: Packer, ack: Option<AF.AckFrame>, windows: nat -> Fr.Window, maxSize: int,
                      limit: nat): (Option<seq<Frame>>, Packer)
    requires PackerOk(p) && maxSize <= Fr.MAX_FRAME_SIZE && (ack.Some? ==> AF.Encodable(ack.value))
  {
    var c := Compose(p, AckLength(ack), windows, maxSize, limit);
    if |Frames(c)| == 0 && ack.None? then (None, Remaining(p, c))
    else
      var w := WithPing(Frames(c), p.numNonAckElicitingAcks);
      (Some(w.0), Remaining(p, c).(numNonAckElicitingAcks := w.1))
  }

  lemma {:induction false} PingFits(frames: seq<Frame>, count: nat, ackLength: nat, maxSize: int)
    requires AllEncodable(frames) && (ackLength + TotalLength(frames) <= maxSize <==> ackLength <= maxSize)
    ensures var w := WithPing(frames, count);
            && AllEncodable(w.0)
            && (ackLength + TotalLength(w.0) <= maxSize
                <==> ackLength + (if |frames| == 0 && |w.0| > 0 then 1 else 0) <= maxSize)
            && (count <= MAX_NON_ACK_ELICITING_ACKS ==> w.1 <= MAX_NON_ACK_ELICITING_ACKS)
            && (|w.0| == 0 ==> w.1 == count + 1)
  {
    TotalOne(Control(PING));
  }

  /**
   * The packet fits if and only if the ACK, with the byte of a PING where one is added, does; so it does
   * whenever there is room for 1009 bytes. No more than 19 packets in a row carry only an ACK.
   */
  lemma {:induction false} PackFits(p: Packer, ack: Option<AF.AckFrame>, windows: nat -> Fr.Window, maxSize: int,
                                    limit: nat)
    requires PackerOk(p) && maxSize <= Fr.MAX_FRAME_SIZE && (ack.Some? ==> AF.Encodable(ack.value))
    ensures var (frames, p') := Pack(p, ack, windows, maxSize, limit);
            && PackerOk(p')
            && (p.numNonAckElicitingAcks <= MAX_NON_ACK_ELICITING_ACKS ==>
                  p'.numNonAckElicitingAcks <= MAX_NON_ACK_ELICITING_ACKS)
            && (frames.Some? ==>
                  && AllEncodable(frames.value)
                  && (AF.MAX_ACK_FRAME_SIZE + 9 <= maxSize ==> AckLength(ack) + TotalLength(frames.value) <= maxSize)
                  && (|frames.value| == 0 ==> p'.numNonAckElicitingAcks == p.numNonAckElicitingAcks + 1))
  {
    var c := Compose(p, AckLength(ack), windows, maxSize, limit);
    ComposeOk(p, AckLength(ack), windows, maxSize, limit, c);
    FramesTotal(c);
    PingFits(Frames(c), p.numNonAckElicitingAcks, AckLength(ack), maxSize);
    if ack.Some? {
      AF.LengthBound(ack.value);
    }
  }

  class PacketPacker {
    var appData: seq<CF.ControlFrame>
    var numNonAckElicitingAcks: nat
    const framer: Fr.FramerI

    ghost function State(): Packer
      reads this, framer
    {
      Packer(appData, framer.State(), numNonAckElicitingAcks)
    }

    constructor (f: Fr.FramerI)
      ensures framer == f && appData == [] && numNonAckElicitingAcks == 0
    {
      framer, appData, numNonAckElicitingAcks := f, [], 0;
    }

    method AddAppData(c: CF.ControlFrame)
      modifies this`appData
      ensures appData == old(appData) + [c]
    {
      appData := appData + [c];
    }

    method GetAppDataFrame(maxLen: int) returns (f: Option<CF.ControlFrame>)
      modifies this`appData
      ensures f.Some? <==> |old(appData)| > 0 && CF.Size(old(appData)[0]) <= maxLen
      ensures if f.Some? then [f.value] + appData == old(appData) else appData == old(appData)
    {
      if |appData| == 0 {
        return None;
      }
      if CF.Size(appData[0]) > maxLen {
        return None;
      }
      f := Some(appData[0]);
      appData := appData[1..];
    }

    method TakeLost(ackLength: nat, maxSize: int) returns (frames: seq<CF.ControlFrame>, length: nat)
      modifies this`appData
      ensures Fr.Taken(appData, frames, length) == TakeFront(old(appData), CF.Size, [], ackLength, maxSize)
    {
      frames, length := [], ackLength;
      while true
        invariant TakeFront(appData, CF.Size, frames, length, maxSize)
                  == TakeFront(old(appData), CF.Size, [], ackLength, maxSize)
        decreases |appData|
      {
        var remaining := maxSize - length;
        if remaining < Fr.MIN_STREAM_FRAME_SIZE {
          return;
        }
        var before := appData;
        var f := GetAppDataFrame(remaining);
        if f.None? {
          return;
        }
        assert before[0] == f.value && before[1..] == appData;
        frames := frames + [f.value];
        length := length + CF.Size(f.value);
      }
    }

    /** Control frames, then STREAM frames (lines 406-413). */
    method TakeNew(windows: nat -> Fr.Window, maxLen: int, limit: nat)
      returns (controls: seq<CF.ControlFrame>, streams: seq<SF.StreamFrame>, ghost t: Fr.Taken<CF.ControlFrame>)
      requires Fr.FramerOk(framer.State()) && maxLen <= Fr.MAX_FRAME_SIZE
      modifies framer
      ensures t == Fr.TakeFitting(old(framer.State()).controls, CF.Size, [], 0, maxLen) && controls == t.taken
      ensures Fr.FramerOk(old(framer.State()).(controls := t.left))
      ensures (framer.State(), streams)
              == Fr.AppendStreams(old(framer.State()).(controls := t.left), windows, maxLen - t.length, limit)
    {
      var added, more;
      controls, added := framer.AppendControlFrames(maxLen);
      t := Fr.Taken(framer.controlFrames, controls, added);
      streams, more := framer.AppendStreamFrames(windows, maxLen - added, limit);
    }

    method ComposeNextPacket(ackLength: nat, windows: nat -> Fr.Window, maxSize: int, limit: nat)
      returns (frames: seq<Frame>)
      requires PackerOk(State()) && maxSize <= Fr.MAX_FRAME_SIZE
      modifies this`appData, framer
      ensures frames == Frames(Compose(old(State()), ackLength, windows, maxSize, limit))
      ensures State() == Remaining(old(State()), Compose(old(State()), ackLength, windows, maxSize, limit))
    {
      ghost var c := Compose(State(), ackLength, windows, maxSize, limit);
      var lost, length := TakeLost(ackLength, maxSize);
      assert Fr.Taken(appData, lost, length) == c.lost;
      var controls, streams, t := TakeNew(windows, maxSize - length, limit);
      assert t == c.controls && framer.State() == c.framer && streams == c.streams;
      frames := ControlList(lost) + ControlList(controls) + StreamList(streams);
    }

    method PackPacket(ack: Option<AF.AckFrame>, windows: nat -> Fr.Window, maxSize: int, limit: nat)
      returns (frames: Option<seq<Frame>>)
      requires PackerOk(State()) && maxSize <= Fr.MAX_FRAME_SIZE && (ack.Some? ==> AF.Encodable(ack.value))
      modifies this, framer
      ensures (frames, State()) == Pack(old(State()), ack, windows, maxSize, limit)
    {
      var fs := ComposeNextPacket(AckLength(ack), windows, maxSize, limit);
      if |fs| == 0 && ack.None? {
        return None;
      }
      if |fs| == 0 {
        if numNonAckElicitingAcks >= MAX_NON_ACK_ELICITING_ACKS {
          fs := [Control(PING)];
          numNonAckElicitingAcks := 0;
        } else {
          numNonAckElicitingAcks := numNonAckElicitingAcks + 1;
        }
      } else {
        numNonAckElicitingAcks := 0;
      }
      frames := Some(fs);
    }
  }
}
