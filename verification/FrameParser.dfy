/** Parsing a packet payload frame by frame (quic-go/core/wire/frame_parser.go), and writing one. */
module FrameParser {
  import opened Protocol
  import SF = StreamFrames
  import SC = StreamCodec
  import CF = ControlFrames
  import AF = AckFrames

  datatype Frame = Stream(stream: SF.StreamFrame) | Ack(ack: AF.AckFrame) | Control(control: CF.ControlFrame)

  /** Outside 1-RTT packets only CRYPTO, ACK and CONNECTION_CLOSE frames are allowed (lines 101-112). */
  predicate IsAllowedAt(f: Frame, level: Level) {
    level.OneRttLevel? || f.Ack? || (f.Control? && f.control.ty in {0x06, 0x1c, 0x1d})
  }

  function DelayExponent(level: Level, exponent: nat): nat {
    if level.OneRttLevel? then exponent else AF.ACK_DELAY_EXPONENT
  }

  /** One frame of any type (lines 43-99), starting at its type byte. */
  function ParseFrame(b: Bytes, level: Level, exponent: nat): (r: Option<(Frame, Bytes)>)
    requires |b| > 0
    ensures r.Some? ==> |r.value.1| < |b|
  {
    var r: Option<(Frame, Bytes)> :=
      if 8 <= b[0] < 16 then
        (var s := SC.Parse(b); if s.None? then None else Some((Stream(s.value.0), s.value.1)))
      else if b[0] in {0x2, 0x3} then
        (var a := AF.Parse(b, DelayExponent(level, exponent));
         if a.None? then None else Some((Ack(a.value.0), a.value.1)))
      else
        (var c := CF.Parse(b); if c.None? then None else Some((Control(c.value.0), c.value.1)));
    if r.None? || !IsAllowedAt(r.value.0, level) then None else r
  }

  datatype Parsed = End | Failed | Next(frame: Frame, rest: Bytes)

  function SkipPadding(b: Bytes): (r: Bytes)
    ensures |r| <= |b| && (|r| > 0 ==> r[0] != 0)
  {
    if |b| > 0 && b[0] == 0 then SkipPadding(b[1..]) else b
  }

  /** The next frame after any padding (lines 25-40). */
  function ParseNext(b: Bytes, level: Level, exponent: nat): (p: Parsed)
    ensures p.Next? ==> |p.rest| < |b|
  {
    var c := SkipPadding(b);
    if |c| == 0 then End
    else
      var r := ParseFrame(c, level, exponent);
      if r.None? then Failed else Next(r.value.0, r.value.1)
  }

  method ParseNextFrame(b: Bytes, level: Level, exponent: nat) returns (p: Parsed)
    ensures p == ParseNext(b, level, exponent)
  {
    var r := b;
    while |r| != 0
      invariant SkipPadding(r) == SkipPadding(b)
    {
      if r[0] == 0x0 {
        r := r[1..];
        continue;
      }
      var f := ParseFrame(r, level, exponent);
      return if f.None? then Failed else Next(f.value.0, f.value.1);
    }
    p := End;
  }

  /** All frames of a payload; None if one of them is refused. */
  function ParseAll(b: Bytes, level: Level, exponent: nat): Option<seq<Frame>>
    decreases |b|
  {
    match ParseNext(b, level, exponent)
    case End => Some([])
    case Failed => None
    case Next(f, rest) =>
      var later := ParseAll(rest, level, exponent);
      if later.None? then None else Some([f] + later.value)
  }

  /** The frame's numbers fit into their fields. */
  ghost predicate Encodable(f: Frame) {
    match f
    case Stream(s) => SF.Encodable(s)
    case Ack(a) => AF.Encodable(a)
    case Control(c) => CF.Writable(c)
  }

  function Length(f: Frame): nat
    requires Encodable(f)
  {
    match f
    case Stream(s) => SF.Length(s)
    case Ack(a) => AF.Length(a)
    case Control(c) => CF.Length(c)
  }

  /** Writing only fails for an empty STREAM frame without FIN. */
  predicate Writable(f: Frame) {
    f.Stream? ==> |f.stream.data| > 0 || f.stream.fin
  }

  function Write(f: Frame): (b: Bytes)
    requires Encodable(f)
    ensures |b| == Length(f)
  {
    match f
    case Stream(s) => SC.Encode(s)
    case Ack(a) => AF.Write(a)
    case Control(c) => CF.WriteLength(c); CF.Write(c)
  }

  /** What the peer's parser accepts at this level. */
  ghost predicate Sendable(f: Frame, level: Level) {
    && Encodable(f) && IsAllowedAt(f, level)
    && (f.Stream? ==> |f.stream.data| <= SC.MAX_RECEIVE_PACKET_SIZE)
    && (f.Control? ==> CF.Accepted(f.control.ty, f.control.fields))
  }

  /** The frame ends where its own fields say, not with the packet. */
  predicate Delimited(f: Frame) {
    f.Stream? ==> f.stream.dataLenPresent
  }

  /** The frame as the peer reads it. */
  function Received(f: Frame): Frame
    requires Encodable(f)
  {
    match f
    case Stream(s) => f
    case Ack(a) => Ack(AF.Received(a))
    case Control(c) => Control(CF.Received(c))
  }

  lemma {:induction false} StreamParses(b: Bytes, s: SF.StreamFrame, rest: Bytes, exponent: nat)
    requires |b| > 0 && 8 <= b[0] < 16 && SC.Parse(b) == Some((s, rest))
    ensures ParseFrame(b, OneRttLevel, exponent) == Some((Stream(s), rest))
  {
  }

  lemma {:induction false} AckParses(b: Bytes, a: AF.AckFrame, rest: Bytes, level: Level)
    requires |b| > 0 && b[0] == 0x2 && AF.Parse(b, AF.ACK_DELAY_EXPONENT) == Some((a, rest))
    ensures ParseFrame(b, level, AF.ACK_DELAY_EXPONENT) == Some((Ack(a), rest))
  {
    assert DelayExponent(level, AF.ACK_DELAY_EXPONENT) == AF.ACK_DELAY_EXPONENT;
  }

  lemma {:induction false} ControlParses(b: Bytes, c: CF.ControlFrame, rest: Bytes, level: Level, exponent: nat)
    requires |b| > 0 && !(8 <= b[0] < 16) && b[0] !in {0x2, 0x3} && CF.Parse(b) == Some((c, rest))
             && IsAllowedAt(Control(c), level)
    ensures ParseFrame(b, level, exponent) == Some((Control(c), rest))
  {
  }

  lemma {:induction false} ControlTypes(ty: Byte)
    requires CF.Layout(ty).Some?
    ensures !(8 <= ty < 16) && ty !in {0x0, 0x2, 0x3}
  {
  }

  lemma {:induction false} StreamFrameTrip(s: SF.StreamFrame, b: Bytes, rest: Bytes)
    requires SF.Encodable(s) && |s.data| <= SC.MAX_RECEIVE_PACKET_SIZE && (!s.dataLenPresent ==> rest == [])
    requires b == SC.Encode(s) + rest
    ensures |b| > 0 && ParseFrame(b, OneRttLevel, AF.ACK_DELAY_EXPONENT) == Some((Stream(s), rest))
  {
    SC.TypeBits(s);
    SC.StreamRoundTrip(s, rest);
    StreamParses(b, s, rest, AF.ACK_DELAY_EXPONENT);
  }

  lemma {:induction false} AckFrameTrip(a: AF.AckFrame, level: Level, b: Bytes, rest: Bytes)
    requires AF.Encodable(a) && b == AF.Write(a) + rest
    ensures |b| > 0 && ParseFrame(b, level, AF.ACK_DELAY_EXPONENT) == Some((Ack(AF.Received(a)), rest))
  {
    AF.AckRoundTrip(a, rest);
    AckParses(b, AF.Received(a), rest, level);
  }

  lemma {:induction false} ControlFrameTrip(c: CF.ControlFrame, level: Level, b: Bytes, rest: Bytes)
    requires CF.Writable(c) && CF.Accepted(c.ty, c.fields) && IsAllowedAt(Control(c), level) && b == CF.Write(c) + rest
    ensures |b| > 0 && ParseFrame(b, level, AF.ACK_DELAY_EXPONENT) == Some((Control(CF.Received(c)), rest))
  {
    CF.ControlRoundTrip(c, rest);
    ControlTypes(c.ty);
    CF.WriteTail(c.ty, CF.WriteFields(CF.Layout(c.ty).value, c.fields), rest, b);
    ControlParses(b, CF.Received(c), rest, level, AF.ACK_DELAY_EXPONENT);
  }

  /** Every frame comes back as the peer's view of it. */
  lemma {:induction false} FrameRoundTrip(f: Frame, level: Level, rest: Bytes)
    requires Sendable(f, level) && (!Delimited(f) ==> rest == [])
    ensures |Write(f)| > 0
    ensures ParseFrame(Write(f) + rest, level, AF.ACK_DELAY_EXPONENT) == Some((Received(f), rest))
  {
    match f
    case Stream(s) => StreamFrameTrip(s, Write(f) + rest, rest);
    case Ack(a) => AckFrameTrip(a, level, Write(f) + rest, rest);
    case Control(c) => ControlFrameTrip(c, level, Write(f) + rest, rest);
  }

  const CRYPTO: nat := 0x06
  const CONNECTION_CLOSE: nat := 0x1c
  const APPLICATION_CLOSE: nat := 0x1d

  /** What an Initial or Handshake packet may carry besides padding. */
  predicate HandshakeFrame(f: Frame) {
    match f
    case Stream(_) => false
    case Ack(_) => true
    case Control(c) => c.ty == CRYPTO || c.ty == CONNECTION_CLOSE || c.ty == APPLICATION_CLOSE
  }

  /**
   * Initial and Handshake packets: whatever the bytes, a frame is returned only if it is of one of these
   * types, and one that a 1-RTT packet with the same delay exponent would yield is refused only if it is not.
   */
  lemma {:induction false} HandshakeLevels(b: Bytes, level: Level)
    requires |b| > 0 && !level.OneRttLevel?
    ensures var r := ParseFrame(b, level, AF.ACK_DELAY_EXPONENT);
            var all := ParseFrame(b, OneRttLevel, AF.ACK_DELAY_EXPONENT);
            && (r.Some? ==> r == all && HandshakeFrame(r.value.0))
            && (r.None? ==> all.None? || !HandshakeFrame(all.value.0))
  {
  }

  /** A payload with any other frame is refused as a whole. */
  lemma {:induction false} OthersRefused(b: Bytes, level: Level, exponent: nat)
    requires !level.OneRttLevel? && ParseAll(b, level, exponent).Some?
    ensures forall i | 0 <= i < |ParseAll(b, level, exponent).value| ::
              HandshakeFrame(ParseAll(b, level, exponent).value[i])
    decreases |b|
  {
    var p := ParseNext(b, level, exponent);
    if p.Next? {
      OthersRefused(p.rest, level, exponent);
    }
  }
}
