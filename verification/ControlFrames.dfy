/** Frames that are a type byte and fields in a fixed order (quic-go/core/wire). */
module ControlFrames {
  // These are PING, CRYPTO and all control frames.

  import opened Protocol
  import opened VarInt

  const MAX_CONN_ID_LEN := 20

  /** How a field is written: a varint, a 16 bit number, bytes after a varint or a one byte length, or just bytes. */
  datatype Kind = Number | Number16 | Blob | ConnID | Raw(size: nat)

  datatype Value = Num(n: nat) | Data(bytes: Bytes)

  /** The fields of each frame type, in the order in which they are written. */
  function Layout(ty: Byte): Option<seq<Kind>> {
    if ty in {0x10, 0x12, 0x13, 0x14, 0x16, 0x17, 0x19} then Some([Number])
    else if ty in {0x11, 0x15} then Some([Number, Number])
    else if ty in {0x1a, 0x1b} then Some([Raw(8)])
    else if ty == 0x01 then Some([])
    else if ty == 0x04 then Some([Number, Number, Number])
    else if ty == 0x05 then Some([Number, Number16])
    else if ty == 0x06 || ty == 0x1d then Some([Number, Blob])
    else if ty == 0x07 then Some([Blob])
    else if ty == 0x18 then Some([Number, Number, ConnID, Raw(16)])
    else if ty == 0x1c then Some([Number, Number, Blob])
    else None
  }

  /** The value has the field's type and can be written without a panic or an error. */
  predicate FieldOk(kind: Kind, v: Value) {
    match kind
    case Number => v.Num? && v.n <= MAX_VARINT8
    case Number16 => v.Num?
    case Blob => v.Data? && |v.bytes| <= MAX_VARINT8
    case ConnID => v.Data? && |v.bytes| <= MAX_CONN_ID_LEN
    case Raw(size) => v.Data? && |v.bytes| == size
  }

  predicate FieldsOk(kinds: seq<Kind>, vs: seq<Value>) {
    |vs| == |kinds| && forall i | 0 <= i < |vs| :: FieldOk(kinds[i], vs[i])
  }

  function WriteField(kind: Kind, v: Value): Bytes
    requires FieldOk(kind, v)
  {
    match kind
    case Number => WriteVarInt(v.n)
    case Number16 => BigEndian(v.n, 2)
    case Blob => WriteVarInt(|v.bytes|) + v.bytes
    case ConnID => [|v.bytes|] + v.bytes
    case Raw(_) => v.bytes
  }

  function FieldLength(kind: Kind, v: Value): nat
    requires FieldOk(kind, v)
  {
    match kind
    case Number => VarIntLen(v.n)
    case Number16 => 2
    case Blob => VarIntLen(|v.bytes|) + |v.bytes|
    case ConnID => 1 + |v.bytes|
    case Raw(size) => size
  }

  function ReadBytes(b: Bytes, n: nat): Option<(Bytes, Bytes)> {
    if |b| < n then None else Some((b[..n], b[n..]))
  }

  function ReadField(kind: Kind, b: Bytes): Option<(Value, Bytes)> {
    match kind
    case Number =>
      var r := ReadVarInt(b);
      if r.None? then None else Some((Num(r.value.0), r.value.1))
    case Number16 =>
      if |b| < 2 then None else Some((Num(FromBigEndian(b[..2])), b[2..]))
    case Blob =>
      var r := ReadVarInt(b);
      if r.None? then None
      else
        var d := ReadBytes(r.value.1, r.value.0);
        if d.None? then None else Some((Data(d.value.0), d.value.1))
    case ConnID =>
      if |b| == 0 || b[0] > MAX_CONN_ID_LEN then None
      else
        var d := ReadBytes(b[1..], b[0]);
        if d.None? then None else Some((Data(d.value.0), d.value.1))
    case Raw(size) =>
      var d := ReadBytes(b, size);
      if d.None? then None else Some((Data(d.value.0), d.value.1))
  }

  function WriteFields(kinds: seq<Kind>, vs: seq<Value>): Bytes
    requires FieldsOk(kinds, vs)
  {
    if |vs| == 0 then [] else WriteField(kinds[0], vs[0]) + WriteFields(kinds[1..], vs[1..])
  }

  function FieldsLength(kinds: seq<Kind>, vs: seq<Value>): nat
    requires FieldsOk(kinds, vs)
  {
    if |vs| == 0 then 0 else FieldLength(kinds[0], vs[0]) + FieldsLength(kinds[1..], vs[1..])
  }

  function ReadFields(kinds: seq<Kind>, b: Bytes): (r: Option<(seq<Value>, Bytes)>)
    ensures r.Some? ==> |r.value.1| <= |b|
    decreases |kinds|
  {
    if |kinds| == 0 then Some(([], b))
    else
      var f := ReadField(kinds[0], b);
      if f.None? then None
      else
        ReadFieldShrinks(kinds[0], b);
        var r := ReadFields(kinds[1..], f.value.1);
        if r.None? then None else Some(([f.value.0] + r.value.0, r.value.1))
  }

  lemma {:induction false} ReadFieldShrinks(kind: Kind, b: Bytes)
    ensures ReadField(kind, b).Some? ==> |ReadField(kind, b).value.1| <= |b|
  {
  }

  /** What the reader gets: 16 bit numbers lose their high bits. */
  function Kept(kind: Kind, v: Value): Value {
    if kind.Number16? && v.Num? then Num(v.n % 65536) else v
  }

  function KeptFields(kinds: seq<Kind>, vs: seq<Value>): (r: seq<Value>)
    requires |kinds| == |vs|
    ensures |r| == |vs|
  {
    if |vs| == 0 then [] else [Kept(kinds[0], vs[0])] + KeptFields(kinds[1..], vs[1..])
  }

  lemma {:induction false} SplitBytes(d: Bytes, rest: Bytes)
    ensures ReadBytes(d + rest, |d|) == Some((d, rest))
  {
    assert (d + rest)[..|d|] == d && (d + rest)[|d|..] == rest;
  }

  lemma {:induction false} FieldRoundTrip(kind: Kind, v: Value, rest: Bytes)
    requires FieldOk(kind, v)
    ensures ReadField(kind, WriteField(kind, v) + rest) == Some((Kept(kind, v), rest))
    ensures |WriteField(kind, v)| == FieldLength(kind, v)
  {
    match kind
    case Number => VarIntRoundTrip(v.n, rest);
    case Number16 =>
      var w := BigEndian(v.n, 2);
      BigEndianTruncates(v.n);
      Powers();
      BigEndianRoundTrip(v.n % 65536, 2);
      assert (w + rest)[..2] == w && (w + rest)[2..] == rest;
    case Blob =>
      var w := WriteVarInt(|v.bytes|);
      assert w + v.bytes + rest == w + (v.bytes + rest);
      VarIntRoundTrip(|v.bytes|, v.bytes + rest);
      SplitBytes(v.bytes, rest);
    case ConnID =>
      assert ([|v.bytes|] + v.bytes + rest)[1..] == v.bytes + rest;
      SplitBytes(v.bytes, rest);
    case Raw(_) => SplitBytes(v.bytes, rest);
  }

  lemma {:induction false} FieldsRoundTrip(kinds: seq<Kind>, vs: seq<Value>, rest: Bytes)
    requires FieldsOk(kinds, vs)
    ensures ReadFields(kinds, WriteFields(kinds, vs) + rest) == Some((KeptFields(kinds, vs), rest))
    ensures |WriteFields(kinds, vs)| == FieldsLength(kinds, vs)
  {
    if |vs| == 0 {
      assert WriteFields(kinds, vs) + rest == rest;
    } else {
      var later := WriteFields(kinds[1..], vs[1..]) + rest;
      FieldsRoundTrip(kinds[1..], vs[1..], rest);
      FieldRoundTrip(kinds[0], vs[0], later);
      assert WriteFields(kinds, vs) + rest == WriteField(kinds[0], vs[0]) + later;
    }
  }

  datatype ControlFrame = ControlFrame(ty: Byte, fields: seq<Value>)

  predicate Writable(f: ControlFrame) {
    Layout(f.ty).Some? && FieldsOk(Layout(f.ty).value, f.fields)
  }

  /** What the parsers check beyond the format: a token is not empty, Retire Prior To is at most the sequence number. */
  predicate Accepted(ty: Byte, fields: seq<Value>) {
    && (ty == 0x07 && |fields| == 1 && fields[0].Data? ==> |fields[0].bytes| > 0)
    && (ty == 0x18 && |fields| == 4 && fields[0].Num? && fields[1].Num? ==> fields[1].n <= fields[0].n)
  }

  function Write(f: ControlFrame): Bytes
    requires Writable(f)
  {
    [f.ty] + WriteFields(Layout(f.ty).value, f.fields)
  }

  function Length(f: ControlFrame): nat
    requires Writable(f)
  {
    1 + FieldsLength(Layout(f.ty).value, f.fields)
  }

  /** The length, or 0 for a frame that cannot be written. */
  function Size(f: ControlFrame): nat {
    if Writable(f) then Length(f) else 0
  }

  function Parse(b: Bytes): (r: Option<(ControlFrame, Bytes)>)
    requires |b| > 0
    ensures r.Some? ==> |r.value.1| < |b|
  {
    if Layout(b[0]).None? then None
    else
      var r := ReadFields(Layout(b[0]).value, b[1..]);
      if r.None? || !Accepted(b[0], r.value.0) then None else Some((ControlFrame(b[0], r.value.0), r.value.1))
  }

  /** The frame as the peer sees it. */
  function Received(f: ControlFrame): ControlFrame
    requires Writable(f)
  {
    f.(fields := KeptFields(Layout(f.ty).value, f.fields))
  }

  lemma {:induction false} WriteTail(ty: Byte, body: Bytes, rest: Bytes, b: Bytes)
    requires b == [ty] + body + rest
    ensures |b| > 0 && b[0] == ty && b[1..] == body + rest
  {
  }

  /** A frame that the parsers accept comes back as written, with 16 bit fields reduced, and has the computed length. */
  lemma {:induction false} ControlRoundTrip(f: ControlFrame, rest: Bytes)
    requires Writable(f) && Accepted(f.ty, f.fields)
    ensures Parse(Write(f) + rest) == Some((Received(f), rest))
    ensures |Write(f)| == Length(f)
  {
    var kinds, b := Layout(f.ty).value, Write(f) + rest;
    FieldsRoundTrip(kinds, f.fields, rest);
    WriteTail(f.ty, WriteFields(kinds, f.fields), rest, b);
    KeptAccepted(f);
    ParseFields(b, kinds, Received(f).fields, rest);
  }

  lemma {:induction false} WriteLength(f: ControlFrame)
    requires Writable(f)
    ensures |Write(f)| == Length(f)
  {
    FieldsRoundTrip(Layout(f.ty).value, f.fields, []);
  }

  lemma {:induction false} KeptAccepted(f: ControlFrame)
    requires Writable(f) && Accepted(f.ty, f.fields)
    ensures Accepted(f.ty, Received(f).fields)
  {
    if f.ty != 0x05 {
      OnlyStopSendingLoses(f);
    }
  }

  lemma {:induction false} ParseFields(b: Bytes, kinds: seq<Kind>, fields: seq<Value>, rest: Bytes)
    requires |b| > 0 && Layout(b[0]) == Some(kinds) && ReadFields(kinds, b[1..]) == Some((fields, rest))
             && Accepted(b[0], fields)
    ensures Parse(b) == Some((ControlFrame(b[0], fields), rest))
  {
  }

  lemma {:induction false} NothingLost(kinds: seq<Kind>, vs: seq<Value>)
    requires |kinds| == |vs| && forall i | 0 <= i < |vs| :: Kept(kinds[i], vs[i]) == vs[i]
    ensures KeptFields(kinds, vs) == vs
  {
    if |vs| > 0 {
      assert Kept(kinds[0], vs[0]) == vs[0];
      forall i | 0 <= i < |vs[1..]| ensures Kept(kinds[1..][i], vs[1..][i]) == vs[1..][i] {
        assert Kept(kinds[i + 1], vs[i + 1]) == vs[i + 1];
      }
      NothingLost(kinds[1..], vs[1..]);
    }
  }

  /**
   * The error code of STOP_SENDING is written as 16 bits although the field has 62, so exactly the frames
   * with larger codes are changed in transit.
   */
  lemma {:induction false} OnlyStopSendingLoses(f: ControlFrame)
    requires Writable(f)
    ensures Received(f) == f <==> !(f.ty == 0x05 && f.fields[1].n >= 65536)
  {
    var kinds := Layout(f.ty).value;
    if f.ty == 0x05 {
      assert KeptFields(kinds, f.fields)[1] == Kept(kinds[1], f.fields[1]);
      if f.fields[1].n < 65536 {
        NothingLost(kinds, f.fields);
      }
    } else {
      forall i | 0 <= i < |f.fields| ensures Kept(kinds[i], f.fields[i]) == f.fields[i] {
        assert kinds[i] != Number16;
      }
      NothingLost(kinds, f.fields);
    }
  }
}
