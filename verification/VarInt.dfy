/** Variable-length integers (quic-go/core/utils/varint.go; section 16 of RFC 9000). */
module VarInt {
  import opened Protocol

  const MAX_VARINT1: nat := 63
  const MAX_VARINT2: nat := 16383
  const MAX_VARINT4: nat := 1073741823
  const MAX_VARINT8: nat := 4611686018427387903

  /** The number of bytes needed to write i; the source panics above the largest value. */
  function VarIntLen(i: nat): (n: nat)
    requires i <= MAX_VARINT8
    ensures n in {1, 2, 4, 8}
  {
    if i <= MAX_VARINT1 then 1
    else if i <= MAX_VARINT2 then 2
    else if i <= MAX_VARINT4 then 4
    else 8
  }

  /** The n low bytes of i, the most significant one first. */
  function BigEndian(i: nat, n: nat): (b: Bytes)
    ensures |b| == n
  {
    if n == 0 then [] else BigEndian(i / 256, n - 1) + [i % 256]
  }

  function FromBigEndian(b: Bytes): nat {
    if |b| == 0 then 0 else FromBigEndian(b[..|b| - 1]) * 256 + b[|b| - 1]
  }

  function Pow256(n: nat): nat {
    if n == 0 then 1 else 256 * Pow256(n - 1)
  }

  lemma {:induction false} BigEndianRoundTrip(i: nat, n: nat)
    requires i < Pow256(n)
    ensures FromBigEndian(BigEndian(i, n)) == i
  {
    if n > 0 {
      BigEndianRoundTrip(i / 256, n - 1);
      var b := BigEndian(i, n);
      assert b[..n - 1] == BigEndian(i / 256, n - 1);
    }
  }

  lemma {:induction false} TwoBytes(i: nat)
    ensures BigEndian(i, 2) == [i / 256 % 256, i % 256]
  {
    assert BigEndian(i / 256, 1) == BigEndian(i / 256 / 256, 0) + [i / 256 % 256];
  }

  lemma {:induction false} LowBytes(i: nat, q: nat, h: nat, l: nat)
    requires q == i / 65536 && h == i / 256 % 256 && l == i % 256
    ensures i % 65536 == 256 * h + l && (256 * h + l) / 256 % 256 == h && (256 * h + l) % 256 == l
  {
    assert i == 65536 * q + 256 * h + l;
  }

  /** Only the low bytes are written. */
  lemma {:induction false} BigEndianTruncates(i: nat)
    ensures BigEndian(i, 2) == BigEndian(i % 65536, 2)
  {
    TwoBytes(i);
    TwoBytes(i % 65536);
    LowBytes(i, i / 65536, i / 256 % 256, i % 256);
  }

  /** The two highest bits of the first byte encode the length. */
  function Tag(n: nat): nat {
    if n == 1 then 0 else if n == 2 then 0x40 else if n == 4 then 0x80 else 0xc0
  }

  lemma {:induction false} FirstByteSmall(i: nat)
    requires i <= MAX_VARINT8
    ensures BigEndian(i, VarIntLen(i))[0] < 64
    ensures i < Pow256(VarIntLen(i))
  {
    Powers();
    FirstByte(i, VarIntLen(i));
  }

  lemma {:induction false} Powers()
    ensures Pow256(0) == 1 && Pow256(1) == 256 && Pow256(2) == 65536 && Pow256(3) == 0x100_0000
            && Pow256(4) == 0x1_0000_0000
    ensures Pow256(7) == 0x100_0000_0000_0000 && Pow256(8) == 0x1_0000_0000_0000_0000
  {
    assert Pow256(2) == 256 * Pow256(1) && Pow256(3) == 256 * Pow256(2) && Pow256(4) == 256 * Pow256(3);
    assert Pow256(5) == 256 * Pow256(4) && Pow256(6) == 256 * Pow256(5);
    assert Pow256(7) == 256 * Pow256(6) && Pow256(8) == 256 * Pow256(7);
  }

  /** The first byte holds what the other bytes leave. */
  lemma {:induction false} FirstByte(i: nat, n: nat)
    requires n > 0 && i < 64 * Pow256(n - 1)
    ensures BigEndian(i, n)[0] < 64
  {
    if n > 1 {
      assert i / 256 < 64 * Pow256(n - 2);
      FirstByte(i / 256, n - 1);
      assert BigEndian(i, n)[0] == BigEndian(i / 256, n - 1)[0];
    } else {
      assert BigEndian(i, 1) == BigEndian(i / 256, 0) + [i % 256];
    }
  }

  function WriteVarInt(i: nat): (b: Bytes)
    requires i <= MAX_VARINT8
    ensures |b| == VarIntLen(i)
  {
    var n := VarIntLen(i);
    FirstByteSmall(i);
    var b := BigEndian(i, n);
    [b[0] + Tag(n)] + b[1..]
  }

  /** The number and the unread rest; None if the bytes end too early. */
  function ReadVarInt(b: Bytes): (r: Option<(nat, Bytes)>)
    ensures r.Some? ==> |r.value.1| < |b| && r.value.0 <= MAX_VARINT8
  {
    if |b| == 0 then None
    else
      var n := if b[0] < 0x40 then 1 else if b[0] < 0x80 then 2 else if b[0] < 0xc0 then 4 else 8;
      if |b| < n then None
      else
        var digits: Bytes := [b[0] % 64] + b[1..n];
        ReadBound(digits);
        Some((FromBigEndian(digits), b[n..]))
  }

  lemma {:induction false} ReadBound(b: Bytes)
    requires |b| in {1, 2, 4, 8} && b[0] < 64
    ensures FromBigEndian(b) <= MAX_VARINT8
  {
    FromBound(b);
    Powers();
  }

  lemma {:induction false} FromBound(b: Bytes)
    requires |b| > 0 && b[0] < 64
    ensures FromBigEndian(b) < 64 * Pow256(|b| - 1)
  {
    if |b| > 1 {
      FromBound(b[..|b| - 1]);
    }
  }

  lemma {:induction false} ReadTagged(b: Bytes, w: Bytes, rest: Bytes)
    requires |b| in {1, 2, 4, 8} && b[0] < 64 && w == [b[0] + Tag(|b|)] + b[1..] + rest
    ensures ReadVarInt(w) == Some((FromBigEndian(b), rest))
  {
    var n := |b|;
    assert w[0] % 64 == b[0];
    assert [b[0]] + w[1..n] == b && w[n..] == rest;
  }

  lemma {:induction false} VarIntRoundTrip(i: nat, rest: Bytes)
    requires i <= MAX_VARINT8
    ensures ReadVarInt(WriteVarInt(i) + rest) == Some((i, rest))
  {
    FirstByteSmall(i);
    BigEndianRoundTrip(i, VarIntLen(i));
    ReadTagged(BigEndian(i, VarIntLen(i)), WriteVarInt(i) + rest, rest);
  }

  /** The round trip for bytes b that are known to start with the written number. */
  lemma {:induction false} ReadsBack(i: nat, b: Bytes, rest: Bytes)
    requires i <= MAX_VARINT8 && b == WriteVarInt(i) + rest
    ensures ReadVarInt(b) == Some((i, rest))
  {
    VarIntRoundTrip(i, rest);
  }
}
