/** STREAM frames on the wire (quic-go/core/wire/stream_frame.go; section 19.8 of RFC 9000). */
module StreamCodec {
  import opened Protocol
  import opened VarInt
  import opened StreamFrames
  import ControlFrames
  import Seqs

  const MIN_STREAM_FRAME_BUFFER_SIZE := 128
  const MAX_RECEIVE_PACKET_SIZE := 1452

  function TypeByte(f: StreamFrame): Byte {
    8 + (if f.fin then 1 else 0) + (if f.dataLenPresent then 2 else 0) + (if f.offset != 0 then 4 else 0)
  }

  /** A number that is only written if the type byte says so. */
  function WriteIf(flag: bool, v: nat): (b: Bytes)
    requires v <= MAX_VARINT8
    ensures |b| == if flag then VarIntLen(v) else 0
  {
    if flag then WriteVarInt(v) else []
  }

  function ReadIf(flag: bool, b: Bytes, absent: nat): (r: Option<(nat, Bytes)>)
    ensures r.Some? ==> |r.value.1| <= |b|
  {
    if flag then ReadVarInt(b) else Some((absent, b))
  }

  /** The bytes of a frame (lines 99-118). */
  function Encode(f: StreamFrame): (b: Bytes)
    requires Encodable(f)
    ensures |b| == Length(f)
  {
    [TypeByte(f)]
      + (WriteVarInt(f.streamID) + WriteIf(f.offset != 0, f.offset) + WriteIf(f.dataLenPresent, |f.data|) + f.data)
  }

  /** Writing refuses an empty frame without FIN (lines 94-120). */
  function Write(f: StreamFrame): Option<Bytes>
    requires Encodable(f)
  {
    if |f.data| == 0 && !f.fin then None else Some(Encode(f))
  }

  datatype Header = Header(streamID: nat, offset: nat, dataLen: nat)

  function ReadHeader(b: Bytes, hasOffset: bool, hasDataLen: bool): (r: Option<(Header, Bytes)>)
    ensures r.Some? ==> |r.value.1| <= |b|
  {
    var id := ReadVarInt(b);
    if id.None? then None else
    var offset := ReadIf(hasOffset, id.value.1, 0);
    if offset.None? then None else
    var len := ReadIf(hasDataLen, offset.value.1, |offset.value.1|);
    if len.None? then None
    else Some((Header(id.value.0, offset.value.0, len.value.0), len.value.1))
  }

  /** Reads a STREAM frame (lines 25-91); None for every error. */
  function Parse(b: Bytes): (r: Option<(StreamFrame, Bytes)>)
    requires |b| > 0
    ensures r.Some? ==> |r.value.1| < |b|
  {
    var t := b[0];
    var header := ReadHeader(b[1..], t / 4 % 2 == 1, t / 2 % 2 == 1);
    if header.None? then None else
    var h := header.value.0;
    if h.dataLen >= MIN_STREAM_FRAME_BUFFER_SIZE && h.dataLen > MAX_RECEIVE_PACKET_SIZE then None else
    var data := ControlFrames.ReadBytes(header.value.1, h.dataLen);
    if data.None? || h.offset + h.dataLen > MAX_BYTE_COUNT then None
    else Some((StreamFrame(h.streamID, h.offset, data.value.0, t % 2 == 1, t / 2 % 2 == 1), data.value.1))
  }

  lemma {:induction false} TypeBits(f: StreamFrame)
    ensures var t := TypeByte(f);
            && (t % 2 == 1 <==> f.fin) && (t / 2 % 2 == 1 <==> f.dataLenPresent) && (t / 4 % 2 == 1 <==> f.offset != 0)
            && 8 <= t < 16
  {
  }

  lemma {:induction false} ReadsBackIf(flag: bool, v: nat, absent: nat, b: Bytes, rest: Bytes)
    requires v <= MAX_VARINT8 && b == WriteIf(flag, v) + rest
    ensures ReadIf(flag, b, absent) == Some((if flag then v else absent, rest))
  {
    if flag {
      ReadsBack(v, b, rest);
    } else {
      assert b == rest;
    }
  }

  lemma {:induction false} HeaderSteps(b: Bytes, b1: Bytes, b2: Bytes, b3: Bytes, o: bool, l: bool, h: Header)
    requires ReadVarInt(b) == Some((h.streamID, b1)) && ReadIf(o, b1, 0) == Some((h.offset, b2))
    requires ReadIf(l, b2, |b2|) == Some((h.dataLen, b3))
    ensures ReadHeader(b, o, l) == Some((h, b3))
  {
  }

  lemma {:induction false} HeaderRoundTrip(f: StreamFrame, b: Bytes, rest: Bytes)
    requires Encodable(f) && (!f.dataLenPresent ==> rest == [])
    requires b == WriteVarInt(f.streamID) + WriteIf(f.offset != 0, f.offset) + WriteIf(f.dataLenPresent, |f.data|)
             + f.data + rest
    ensures ReadHeader(b, f.offset != 0, f.dataLenPresent)
            == Some((Header(f.streamID, f.offset, |f.data|), f.data + rest))
  {
    var b3 := f.data + rest;
    var b2 := WriteIf(f.dataLenPresent, |f.data|) + b3;
    var b1 := WriteIf(f.offset != 0, f.offset) + b2;
    Seqs.Assoc5(WriteVarInt(f.streamID), WriteIf(f.offset != 0, f.offset), WriteIf(f.dataLenPresent, |f.data|), f.data,
                rest);
    ReadsBack(f.streamID, b, b1);
    ReadsBackIf(f.offset != 0, f.offset, 0, b1, b2);
    ReadsBackIf(f.dataLenPresent, |f.data|, |b2|, b2, b3);
    HeaderSteps(b, b1, b2, b3, f.offset != 0, f.dataLenPresent, Header(f.streamID, f.offset, |f.data|));
  }

  lemma {:induction false} ParseSteps(b: Bytes, f: StreamFrame, rest: Bytes)
    requires |b| > 0 && b[0] == TypeByte(f) && |f.data| <= MAX_RECEIVE_PACKET_SIZE && f.End() <= MAX_BYTE_COUNT
    requires ReadHeader(b[1..], f.offset != 0, f.dataLenPresent)
             == Some((Header(f.streamID, f.offset, |f.data|), f.data + rest))
    ensures Parse(b) == Some((f, rest))
  {
    TypeBits(f);
    ControlFrames.SplitBytes(f.data, rest);
  }

  /** A frame comes back as written; without a length field it must be the last thing in the packet. */
  lemma {:induction false} StreamRoundTrip(f: StreamFrame, rest: Bytes)
    requires Encodable(f) && |f.data| <= MAX_RECEIVE_PACKET_SIZE && (!f.dataLenPresent ==> rest == [])
    ensures Parse(Encode(f) + rest) == Some((f, rest))
  {
    var b := Encode(f) + rest;
    var body :=
      WriteVarInt(f.streamID) + WriteIf(f.offset != 0, f.offset) + WriteIf(f.dataLenPresent, |f.data|) + f.data;
    ControlFrames.WriteTail(TypeByte(f), body, rest, b);
    HeaderRoundTrip(f, b[1..], rest);
    ParseSteps(b, f, rest);
  }
}
