/** Whole packet payloads: written by the packer, read back by the peer (quic-go/packet_packer.go). */
module Payloads {
  import opened Protocol
  import opened FrameParser
  import AF = AckFrames
  import Seqs

  /** An ACK, padding, then frames, in the order in which they are written. */
  datatype Payload = Payload(ack: Option<AF.AckFrame>, padding: nat, frames: seq<Frame>)

  ghost predicate AllEncodable(fs: seq<Frame>) {
    forall i | 0 <= i < |fs| :: Encodable(fs[i])
  }

  function WriteAll(fs: seq<Frame>): (b: Bytes)
    requires AllEncodable(fs)
    ensures |b| == TotalLength(fs)
  {
    if |fs| == 0 then [] else Write(fs[0]) + WriteAll(fs[1..])
  }

  function TotalLength(fs: seq<Frame>): nat
    requires AllEncodable(fs)
  {
    if |fs| == 0 then 0 else Length(fs[0]) + TotalLength(fs[1..])
  }

  function ReceivedAll(fs: seq<Frame>): (r: seq<Frame>)
    requires AllEncodable(fs)
    ensures |r| == |fs|
  {
    if |fs| == 0 then [] else [Received(fs[0])] + ReceivedAll(fs[1..])
  }

  function Zeros(n: nat): (b: Bytes)
    ensures |b| == n
  {
    if n == 0 then [] else [0] + Zeros(n - 1)
  }

  function AckBytes(ack: Option<AF.AckFrame>): Bytes
    requires ack.Some? ==> AF.Encodable(ack.value)
  {
    if ack.Some? then AF.Write(ack.value) else []
  }

  function AckLength(ack: Option<AF.AckFrame>): nat
    requires ack.Some? ==> AF.Encodable(ack.value)
  {
    if ack.Some? then AF.Length(ack.value) else 0
  }

  ghost predicate PayloadEncodable(p: Payload) {
    (p.ack.Some? ==> AF.Encodable(p.ack.value)) && AllEncodable(p.frames)
  }

  /** The length the packer adds up while composing. */
  function PayloadLength(p: Payload): nat
    requires PayloadEncodable(p)
  {
    AckLength(p.ack) + TotalLength(p.frames)
  }

  /** The bytes between header and authentication tag; None if a frame cannot be written (lines 525-545). */
  function WritePayload(p: Payload): (b: Option<Bytes>)
    requires PayloadEncodable(p)
    ensures b.Some? ==> |b.value| - p.padding == PayloadLength(p)
  {
    if exists i | 0 <= i < |p.frames| :: !Writable(p.frames[i]) then None
    else Some(AckBytes(p.ack) + Zeros(p.padding) + WriteAll(p.frames))
  }

  method WriteFrames(fs: seq<Frame>, b: Bytes) returns (r: Option<Bytes>)
    requires AllEncodable(fs)
    ensures r.None? <==> exists i | 0 <= i < |fs| :: !Writable(fs[i])
    ensures r.Some? ==> r.value == b + WriteAll(fs)
  {
    var buffer := b;
    ghost var all := b + WriteAll(fs);
    WriteStart(fs, b, all);
    for i := 0 to |fs|
      invariant Written(fs, i, buffer, all)
      invariant forall j | 0 <= j < i :: Writable(fs[j])
    {
      if !Writable(fs[i]) {
        return None;
      }
      WriteNext(fs, i, buffer, all);
      buffer := buffer + Write(fs[i]);
    }
    WriteEnd(fs, buffer, all);
    r := Some(buffer);
  }

  /** With the frames from i on, the buffer becomes `all`. */
  ghost predicate Written(fs: seq<Frame>, i: nat, buffer: Bytes, all: Bytes)
    requires i <= |fs| && AllEncodable(fs)
  {
    buffer + WriteAll(fs[i..]) == all
  }

  lemma {:induction false} WriteStart(fs: seq<Frame>, b: Bytes, all: Bytes)
    requires AllEncodable(fs) && all == b + WriteAll(fs)
    ensures Written(fs, 0, b, all)
  {
    assert fs[0..] == fs;
  }

  lemma {:induction false} WriteNext(fs: seq<Frame>, i: nat, buffer: Bytes, all: Bytes)
    requires i < |fs| && AllEncodable(fs) && Written(fs, i, buffer, all)
    ensures Written(fs, i + 1, buffer + Write(fs[i]), all)
  {
    var rest, later := fs[i..], fs[i + 1..];
    assert rest[0] == fs[i] && rest[1..] == later;
    Seqs.Assoc(buffer, Write(fs[i]), WriteAll(later));
  }

  lemma {:induction false} WriteEnd(fs: seq<Frame>, buffer: Bytes, all: Bytes)
    requires AllEncodable(fs) && Written(fs, |fs|, buffer, all)
    ensures buffer == all
  {
    assert fs[|fs|..] == [];
    Seqs.NothingAdded(buffer);
  }

  /**
   * Writes a payload and checks its size (lines 525-545); the check never fails, so the only error is a
   * frame that cannot be written.
   */
  method WriteAndCheck(p: Payload) returns (r: Option<Bytes>)
    requires PayloadEncodable(p)
    ensures r == WritePayload(p)
  {
    var buffer := [];
    if p.ack.Some? {
      buffer := AF.WriteFrame(p.ack.value);
    }
    if p.padding > 0 {
      buffer := buffer + Zeros(p.padding);
    }
    assert buffer == AckBytes(p.ack) + Zeros(p.padding);
    r := WriteFrames(p.frames, buffer);
    if r.None? {
      return None;
    }
    var size := |r.value| - p.padding;
    if size != PayloadLength(p) {
      return None;
    }
  }

  /** All frames are acceptable to the peer, and only the last one may run to the end of the packet. */
  ghost predicate Transmittable(fs: seq<Frame>, level: Level) {
    forall i | 0 <= i < |fs| :: Sendable(fs[i], level) && (i < |fs| - 1 ==> Delimited(fs[i]))
  }

  lemma {:induction false} ZeroIsNoFrame(b: Bytes, level: Level, exponent: nat)
    requires |b| > 0 && ParseFrame(b, level, exponent).Some?
    ensures b[0] != 0
  {
  }

  lemma {:induction false} ParsesOn(b: Bytes, level: Level, exponent: nat, f: Frame, rest: Bytes, later: seq<Frame>)
    requires |b| > 0 && ParseFrame(b, level, exponent) == Some((f, rest))
             && ParseAll(rest, level, exponent) == Some(later)
    ensures ParseAll(b, level, exponent) == Some([f] + later)
  {
    ZeroIsNoFrame(b, level, exponent);
    assert ParseNext(b, level, exponent) == Next(f, rest);
  }

  lemma {:induction false} FramesRoundTrip(fs: seq<Frame>, level: Level)
    requires Transmittable(fs, level)
    ensures AllEncodable(fs) && ParseAll(WriteAll(fs), level, AF.ACK_DELAY_EXPONENT) == Some(ReceivedAll(fs))
  {
    if |fs| > 0 {
      FramesRoundTrip(fs[1..], level);
      var rest := WriteAll(fs[1..]);
      FrameRoundTrip(fs[0], level, rest);
      ParsesOn(WriteAll(fs), level, AF.ACK_DELAY_EXPONENT, Received(fs[0]), rest, ReceivedAll(fs[1..]));
    }
  }

  lemma {:induction false} PaddingSkipped(n: nat, b: Bytes, level: Level, exponent: nat)
    ensures ParseAll(Zeros(n) + b, level, exponent) == ParseAll(b, level, exponent)
  {
    ZerosSkipped(n, b);
  }

  lemma {:induction false} ZerosSkipped(n: nat, b: Bytes)
    ensures SkipPadding(Zeros(n) + b) == SkipPadding(b)
  {
    if n == 0 {
      assert Zeros(n) + b == b;
    } else {
      ZerosSkipped(n - 1, b);
      assert (Zeros(n) + b)[1..] == Zeros(n - 1) + b;
    }
  }

  function ReceivedAck(ack: Option<AF.AckFrame>): seq<Frame>
    requires ack.Some? ==> AF.Encodable(ack.value)
  {
    if ack.Some? then [Ack(AF.Received(ack.value))] else []
  }

  lemma {:induction false} AckFirst(ack: Option<AF.AckFrame>, body: Bytes, fs: seq<Frame>, level: Level)
    requires ack.Some? ==> AF.Encodable(ack.value)
    requires ParseAll(body, level, AF.ACK_DELAY_EXPONENT) == Some(fs)
    ensures ParseAll(AckBytes(ack) + body, level, AF.ACK_DELAY_EXPONENT) == Some(ReceivedAck(ack) + fs)
  {
    if ack.Some? {
      var b := AF.Write(ack.value) + body;
      AckFrameTrip(ack.value, level, b, body);
      ParsesOn(b, level, AF.ACK_DELAY_EXPONENT, Ack(AF.Received(ack.value)), body, fs);
    } else {
      assert AckBytes(ack) + body == body && ReceivedAck(ack) + fs == fs;
    }
  }

  /**
   * Reading a payload gives back the ACK with the ranges that fit and its rounded delay, then the frames
   * in order, whatever the padding.
   */
  lemma {:induction false} PayloadRoundTrip(p: Payload, level: Level)
    requires Transmittable(p.frames, level) && PayloadEncodable(p) && WritePayload(p).Some?
    ensures ParseAll(WritePayload(p).value, level, AF.ACK_DELAY_EXPONENT)
            == Some(ReceivedAck(p.ack) + ReceivedAll(p.frames))
  {
    var body := Zeros(p.padding) + WriteAll(p.frames);
    FramesRoundTrip(p.frames, level);
    PaddingSkipped(p.padding, WriteAll(p.frames), level, AF.ACK_DELAY_EXPONENT);
    AckFirst(p.ack, body, ReceivedAll(p.frames), level);
    Seqs.Assoc(AckBytes(p.ack), Zeros(p.padding), WriteAll(p.frames));
  }
}
