/** ACK frames on the wire (quic-go/core/wire/ack_frame.go; section 19.3 of RFC 9000). */
module AckFrames {
  import opened Protocol
  import opened VarInt
  import opened AckRanges
  import Seqs

  const MAX_ACK_FRAME_SIZE := 1000
  const ACK_DELAY_EXPONENT := 3
  const TWO_63: int := 0x8000_0000_0000_0000
  const TWO_64: int := 0x1_0000_0000_0000_0000

  /** The delay is a duration in nanoseconds. */
  datatype AckFrame = AckFrame(ranges: seq<AckRange>, delay: int)

  /** Valid ranges whose numbers fit into 62 bits. */
  ghost predicate Usable(r: seq<AckRange>) {
    Valid(r) && forall i | 0 <= i < |r| :: 0 <= r[i].smallest <= r[i].largest <= MAX_VARINT8
  }

  ghost predicate Encodable(f: AckFrame) {
    Usable(f.ranges) && 0 <= f.delay < TWO_63
  }

  function EncodeDelay(delay: int): (n: nat)
    requires 0 <= delay < TWO_63
    ensures n <= MAX_VARINT8
  {
    delay / 8000
  }

  /** The two numbers that stand for range i (lines 165-171). */
  function EncodeRange(r: seq<AckRange>, i: nat): (g: (nat, nat))
    requires Usable(r) && 0 < i < |r|
    ensures g.0 <= MAX_VARINT8 && g.1 <= MAX_VARINT8
  {
    assert Above(r, i - 1, i);
    (r[i - 1].smallest - r[i].largest - 2, r[i].largest - r[i].smallest)
  }

  function RangeLen(r: seq<AckRange>, i: nat): (n: nat)
    requires Usable(r) && 0 < i < |r|
    ensures 2 <= n <= 16
  {
    var (gap, len) := EncodeRange(r, i);
    VarIntLen(gap) + VarIntLen(len)
  }

  /** The bytes taken by ranges i to n. */
  function RangesLen(r: seq<AckRange>, i: nat, n: nat): (len: nat)
    requires Usable(r) && 0 < i <= n <= |r|
    ensures 2 * (n - i) <= len <= 16 * (n - i)
    decreases n - i
  {
    if i == n then 0 else RangeLen(r, i) + RangesLen(r, i + 1, n)
  }

  /** Everything before the first range, the number of ranges counted as two bytes (lines 150-151). */
  function BaseLen(f: AckFrame): (n: nat)
    requires Encodable(f)
    ensures n <= 19
  {
    1 + VarIntLen(f.ranges[0].largest) + VarIntLen(EncodeDelay(f.delay)) + 2
  }

  function NumFrom(r: seq<AckRange>, i: nat, length: nat): nat
    requires Usable(r) && 0 < i <= |r|
    decreases |r| - i
  {
    if i == |r| then |r|
    else if length + RangeLen(r, i) > MAX_ACK_FRAME_SIZE then i - 1
    else NumFrom(r, i + 1, length + RangeLen(r, i))
  }

  /** How many ranges are written (lines 149-163). */
  function NumEncodable(f: AckFrame): nat
    requires Encodable(f)
  {
    NumFrom(f.ranges, 1, BaseLen(f))
  }

  lemma {:induction false} RangesLenSnoc(r: seq<AckRange>, i: nat, n: nat)
    requires Usable(r) && 0 < i <= n < |r|
    ensures RangesLen(r, i, n + 1) == RangesLen(r, i, n) + RangeLen(r, n)
    decreases n - i
  {
    if i < n {
      RangesLenSnoc(r, i + 1, n);
    }
  }

  /** The ranges written fit; if some are left out, one more would still have fit but not two more. */
  lemma {:induction false} NumFromExact(r: seq<AckRange>, i: nat, length: nat)
    requires Usable(r) && 0 < i <= |r| && (i == 1 ==> length <= 19) && length <= MAX_ACK_FRAME_SIZE
    ensures var n := NumFrom(r, i, length);
            && 0 < n <= |r| && i - 1 <= n
            && (n >= i ==> length + RangesLen(r, i, n) <= MAX_ACK_FRAME_SIZE)
            && (n < |r| ==>
                  && n + 1 < |r|
                  && length + RangesLen(r, i, n + 1) <= MAX_ACK_FRAME_SIZE < length + RangesLen(r, i, n + 2))
    decreases |r| - i
  {
    if i < |r| && length + RangeLen(r, i) <= MAX_ACK_FRAME_SIZE {
      NumFromExact(r, i + 1, length + RangeLen(r, i));
    } else if i < |r| {
      RangesLenSnoc(r, i, i);
    }
  }

  lemma {:induction false} AllOrNot(r: seq<AckRange>, n: nat, length: nat)
    requires Usable(r) && length <= 19 && n == NumFrom(r, 1, length)
    ensures 0 < n <= |r| && length + RangesLen(r, 1, n) <= MAX_ACK_FRAME_SIZE
    ensures n == |r| <==> length + RangesLen(r, 1, |r|) <= MAX_ACK_FRAME_SIZE
  {
    NumFromExact(r, 1, length);
    if n < |r| {
      RangesLenMonotone(r, 1, n + 2, |r|);
    }
  }

  /** At least one range is written, and all of them exactly if they fit. */
  lemma {:induction false} NumEncodableExact(f: AckFrame)
    requires Encodable(f)
    ensures var n := NumEncodable(f);
            && 0 < n <= |f.ranges|
            && BaseLen(f) + RangesLen(f.ranges, 1, n) <= MAX_ACK_FRAME_SIZE
            && (n == |f.ranges| <==> BaseLen(f) + RangesLen(f.ranges, 1, |f.ranges|) <= MAX_ACK_FRAME_SIZE)
  {
    AllOrNot(f.ranges, NumEncodable(f), BaseLen(f));
  }

  /** If ranges are left out, then one range fewer is written than the limit allows. */
  lemma {:induction false} OneRangeFewer(f: AckFrame, n: nat, length: nat)
    requires Encodable(f) && n == NumEncodable(f) < |f.ranges| && length == BaseLen(f)
    ensures 0 < n && n + 1 < |f.ranges|
    ensures length + RangesLen(f.ranges, 1, n + 1) <= MAX_ACK_FRAME_SIZE < length + RangesLen(f.ranges, 1, n + 2)
  {
    NumFromExact(f.ranges, 1, length);
  }

  lemma {:induction false} RangesLenMonotone(r: seq<AckRange>, i: nat, m: nat, n: nat)
    requires Usable(r) && 0 < i <= m <= n <= |r|
    ensures RangesLen(r, i, m) <= RangesLen(r, i, n)
    decreases m - i
  {
    if i < m {
      RangesLenMonotone(r, i + 1, m, n);
    }
  }

  /** The length of the written frame (lines 129-145). */
  function Length(f: AckFrame): nat
    requires Encodable(f)
  {
    NumEncodableExact(f);
    var r, n := f.ranges, NumEncodable(f);
    NumSmall(f);
    1 + VarIntLen(r[0].largest) + VarIntLen(EncodeDelay(f.delay)) + VarIntLen(n - 1)
    + VarIntLen(r[0].largest - r[0].smallest) + RangesLen(r, 1, n)
  }

  lemma {:induction false} NumSmall(f: AckFrame)
    requires Encodable(f)
    ensures 0 < NumEncodable(f) <= MAX_ACK_FRAME_SIZE
  {
    NumEncodableExact(f);
  }

  /** The size limit does not count the first range, so a frame may take eight bytes more. */
  lemma {:induction false} LengthBound(f: AckFrame)
    requires Encodable(f)
    ensures Length(f) <= MAX_ACK_FRAME_SIZE + 8
  {
    NumEncodableExact(f);
    NumSmall(f);
  }

  /** How numbers are written and read; both are the variable-length format in the end. */
  type Writer = nat -> Bytes

  type Reader = Bytes -> Option<(nat, Bytes)>

  /** A number that fits, written as such. */
  function Put(i: nat): Bytes {
    if i <= MAX_VARINT8 then WriteVarInt(i) else []
  }

  ghost predicate Sizes(wr: Writer) {
    forall v: nat | v <= MAX_VARINT8 :: |wr(v)| == VarIntLen(v)
  }

  ghost predicate Inverse(rd: Reader, wr: Writer) {
    forall v: nat, rest: Bytes | v <= MAX_VARINT8 :: rd(wr(v) + rest) == Some((v, rest))
  }

  ghost predicate Shrinks(rd: Reader) {
    forall b: Bytes :: rd(b).Some? ==> |rd(b).value.1| < |b|
  }

  lemma {:induction false} VarIntCodec()
    ensures Sizes(Put) && Inverse(ReadVarInt, Put) && Shrinks(ReadVarInt)
  {
    forall v: nat, rest: Bytes | v <= MAX_VARINT8 ensures ReadVarInt(Put(v) + rest) == Some((v, rest)) {
      VarIntRoundTrip(v, rest);
    }
  }

  function WriteRange(wr: Writer, r: seq<AckRange>, i: nat): Bytes
    requires Usable(r) && 0 < i < |r|
  {
    wr(EncodeRange(r, i).0) + wr(EncodeRange(r, i).1)
  }

  function WriteRanges(wr: Writer, r: seq<AckRange>, i: nat, n: nat): Bytes
    requires Usable(r) && 0 < i <= n <= |r|
    decreases n - i
  {
    if i == n then [] else WriteRange(wr, r, i) + WriteRanges(wr, r, i + 1, n)
  }

  /** The four numbers that every ACK frame starts with. */
  datatype Head = Head(largest: nat, delay: nat, num: nat, first: nat)

  function HeadOf(f: AckFrame): (h: Head)
    requires Encodable(f)
    ensures h.largest <= MAX_VARINT8 && h.delay <= MAX_VARINT8 && h.num <= MAX_VARINT8 && h.first <= MAX_VARINT8
  {
    NumSmall(f);
    Head(f.ranges[0].largest, EncodeDelay(f.delay), NumEncodable(f) - 1, f.ranges[0].largest - f.ranges[0].smallest)
  }

  function WriteHead(wr: Writer, h: Head): Bytes {
    wr(h.largest) + wr(h.delay) + wr(h.num) + wr(h.first)
  }

  /** The bytes of a frame (lines 107-126). */
  function Write(f: AckFrame): (b: Bytes)
    requires Encodable(f)
    ensures |b| == Length(f)
  {
    NumEncodableExact(f);
    VarIntCodec();
    RangesSize(Put, f.ranges, 1, NumEncodable(f));
    HeadSize(Put, HeadOf(f));
    [0x2] + WriteHead(Put, HeadOf(f)) + WriteRanges(Put, f.ranges, 1, NumEncodable(f))
  }

  lemma {:induction false} RangesSize(wr: Writer, r: seq<AckRange>, i: nat, n: nat)
    requires Sizes(wr) && Usable(r) && 0 < i <= n <= |r|
    ensures |WriteRanges(wr, r, i, n)| == RangesLen(r, i, n)
    decreases n - i
  {
    if i < n {
      RangesSize(wr, r, i + 1, n);
    }
  }

  lemma {:induction false} HeadSize(wr: Writer, h: Head)
    requires Sizes(wr) && h.largest <= MAX_VARINT8 && h.delay <= MAX_VARINT8 && h.num <= MAX_VARINT8
             && h.first <= MAX_VARINT8
    ensures |WriteHead(wr, h)| == VarIntLen(h.largest) + VarIntLen(h.delay) + VarIntLen(h.num) + VarIntLen(h.first)
  {
  }

  function Signed64(x: int): int {
    var u := x % TWO_64;
    if u < TWO_63 then u else u - TWO_64
  }

  function Pow2(n: nat): nat {
    if n == 0 then 1 else 2 * Pow2(n - 1)
  }

  /** In 64 bit arithmetic that wraps around; a negative product means infinite (lines 41-46). */
  function DecodeDelay(raw: nat, exponent: nat): int {
    var d := Signed64(Signed64(raw * Pow2(exponent)) * 1000);
    if d < 0 then TWO_63 - 1 else d
  }

  /** The delay comes back rounded down to 8 microseconds. */
  lemma {:induction false} DelayRoundTrip(delay: int)
    requires 0 <= delay < TWO_63
    ensures DecodeDelay(EncodeDelay(delay), ACK_DELAY_EXPONENT) == delay - delay % 8000
  {
    var n := EncodeDelay(delay);
    assert Pow2(3) == 8 by {
      assert Pow2(1) == 2 && Pow2(2) == 4;
    }
    assert n * 8 < TWO_63 && n * 8000 < TWO_63;
  }

  /** The ranges after the first one; `smallest` is the lower end of the range before (lines 66-88). */
  function ReadRanges(rd: Reader, b: Bytes, n: nat, smallest: int): (o: Option<(seq<AckRange>, Bytes)>)
    ensures o.Some? ==> |o.value.0| == n
    decreases n
  {
    if n == 0 then Some(([], b))
    else
      var g := rd(b);
      if g.None? || smallest < g.value.0 + 2 then None
      else
        var largest := smallest - g.value.0 - 2;
        var l := rd(g.value.1);
        if l.None? || l.value.0 > largest then None
        else After([AckRange(largest - l.value.0, largest)], ReadRanges(rd, l.value.1, n - 1, largest - l.value.0))
  }

  function After(ranges: seq<AckRange>, later: Option<(seq<AckRange>, Bytes)>): Option<(seq<AckRange>, Bytes)> {
    if later.None? then None else Some((ranges + later.value.0, later.value.1))
  }

  /** Skips n numbers: the ECN counts. */
  function Skip(rd: Reader, b: Bytes, n: nat): Option<Bytes>
    decreases n
  {
    if n == 0 then Some(b)
    else
      var r := rd(b);
      if r.None? then None else Skip(rd, r.value.1, n - 1)
  }

  function ReadHead(rd: Reader, b: Bytes): Option<(Head, Bytes)> {
    var la := rd(b);
    if la.None? then None else
    var delay := rd(la.value.1);
    if delay.None? then None else
    var num := rd(delay.value.1);
    if num.None? then None else
    var first := rd(num.value.1);
    if first.None? then None
    else Some((Head(la.value.0, delay.value.0, num.value.0, first.value.0), first.value.1))
  }

  /** The ranges, the delay as written, and the unread rest. */
  datatype Raw = Raw(ranges: seq<AckRange>, delay: nat, rest: Bytes)

  function ParseRaw(rd: Reader, b: Bytes): Option<Raw>
    requires |b| > 0
  {
    var head := ReadHead(rd, b[1..]);
    if head.None? || head.value.0.first > head.value.0.largest then None else
    var h := head.value.0;
    var first := AckRange(h.largest - h.first, h.largest);
    var all := After([first], ReadRanges(rd, head.value.1, h.num, first.smallest));
    if all.None? then None else
    var rest := if b[0] % 2 == 1 then Skip(rd, all.value.1, 3) else Some(all.value.1);
    if rest.None? then None else Some(Raw(all.value.0, h.delay, rest.value))
  }

  lemma {:induction false} RangesShrink(rd: Reader, b: Bytes, n: nat, smallest: int)
    requires Shrinks(rd) && ReadRanges(rd, b, n, smallest).Some?
    ensures |ReadRanges(rd, b, n, smallest).value.1| <= |b|
    decreases n
  {
    if n > 0 {
      var g := rd(b).value;
      var l := rd(g.1).value;
      RangesShrink(rd, l.1, n - 1, smallest - g.0 - 2 - l.0);
    }
  }

  lemma {:induction false} SkipShrinks(rd: Reader, b: Bytes, n: nat)
    requires Shrinks(rd) && Skip(rd, b, n).Some?
    ensures |Skip(rd, b, n).value| <= |b|
    decreases n
  {
    if n > 0 {
      SkipShrinks(rd, rd(b).value.1, n - 1);
    }
  }

  lemma {:induction false} RawShrinks(rd: Reader, b: Bytes)
    requires Shrinks(rd) && |b| > 0 && ParseRaw(rd, b).Some?
    ensures |ParseRaw(rd, b).value.rest| < |b|
  {
    var head := ReadHead(rd, b[1..]);
    var h := head.value.0;
    RangesShrink(rd, head.value.1, h.num, h.largest - h.first);
    if b[0] % 2 == 1 {
      SkipShrinks(rd, ReadRanges(rd, head.value.1, h.num, h.largest - h.first).value.1, 3);
    }
  }

  /** Reads an ACK frame (lines 22-104); None for every error. */
  function Parse(b: Bytes, exponent: nat): (o: Option<(AckFrame, Bytes)>)
    requires |b| > 0
    ensures o.Some? ==> |o.value.1| < |b|
  {
    var raw := ParseRaw(ReadVarInt, b);
    if raw.None? then None
    else
      VarIntCodec();
      RawShrinks(ReadVarInt, b);
      Some((AckFrame(raw.value.ranges, DecodeDelay(raw.value.delay, exponent)), raw.value.rest))
  }

  lemma {:induction false} ConsValid(a: AckRange, r: seq<AckRange>)
    requires a.smallest <= a.largest && (|r| > 0 ==> Valid(r) && a.smallest > r[0].largest + 1)
    ensures Valid([a] + r)
  {
    var all := [a] + r;
    forall i: nat, j: nat | i < j < |all| ensures Above(all, i, j) {
      if i > 0 {
        assert Above(r, i - 1, j - 1);
      } else if j > 1 {
        assert Above(r, 0, j - 1);
      }
    }
  }

  /** Whatever the bytes, the ranges read are valid together with the one before: the final validation never fails. */
  lemma {:induction false} ReadRangesValid(rd: Reader, b: Bytes, n: nat, first: AckRange)
    requires first.smallest <= first.largest && ReadRanges(rd, b, n, first.smallest).Some?
    ensures Valid([first] + ReadRanges(rd, b, n, first.smallest).value.0)
    decreases n
  {
    if n > 0 {
      var g := rd(b).value;
      var l := rd(g.1).value;
      var largest := first.smallest - g.0 - 2;
      var next := AckRange(largest - l.0, largest);
      var later := ReadRanges(rd, l.1, n - 1, largest - l.0).value.0;
      ReadRangesValid(rd, l.1, n - 1, next);
      ConsValid(first, [next] + later);
    }
  }

  lemma {:induction false} ReadStep(rd: Reader, b: Bytes, b1: Bytes, b2: Bytes, gap: nat, r: AckRange, n: nat,
                                    smallest: int, later: seq<AckRange>, rest: Bytes)
    requires rd(b) == Some((gap, b1)) && rd(b1) == Some((r.largest - r.smallest, b2))
    requires 0 <= r.smallest <= r.largest == smallest - gap - 2
    requires ReadRanges(rd, b2, n, r.smallest) == Some((later, rest))
    ensures ReadRanges(rd, b, n + 1, smallest) == Some(([r] + later, rest))
  {
  }

  lemma {:induction false} RangeRoundTrip(rd: Reader, wr: Writer, r: seq<AckRange>, i: nat, b: Bytes, later: Bytes)
    returns (gap: nat, b1: Bytes)
    requires Inverse(rd, wr) && Usable(r) && 0 < i < |r| && b == WriteRange(wr, r, i) + later
    ensures rd(b) == Some((gap, b1)) && rd(b1) == Some((r[i].largest - r[i].smallest, later))
    ensures r[i].largest == r[i - 1].smallest - gap - 2
  {
    gap := EncodeRange(r, i).0;
    var len := EncodeRange(r, i).1;
    b1 := wr(len) + later;
    Seqs.Assoc(wr(gap), wr(len), later);
    assert b == wr(gap) + b1;
  }

  lemma {:induction false} RangesRoundTrip(rd: Reader, wr: Writer, r: seq<AckRange>, i: nat, n: nat, m: nat,
                                           smallest: int, b: Bytes, rest: Bytes)
    requires Inverse(rd, wr) && Usable(r) && 0 < i <= n <= |r| && m == n - i && smallest == r[i - 1].smallest
    requires b == WriteRanges(wr, r, i, n) + rest
    ensures ReadRanges(rd, b, m, smallest) == Some((r[i..n], rest))
    decreases m
  {
    if m == 0 {
      assert b == rest;
    } else {
      var later := WriteRanges(wr, r, i + 1, n) + rest;
      RangesRoundTrip(rd, wr, r, i + 1, n, m - 1, r[i].smallest, later, rest);
      Seqs.Assoc(WriteRange(wr, r, i), WriteRanges(wr, r, i + 1, n), rest);
      var gap, b1 := RangeRoundTrip(rd, wr, r, i, b, later);
      ReadStep(rd, b, b1, later, gap, r[i], m - 1, smallest, r[i + 1..n], rest);
      assert r[i..n] == [r[i]] + r[i + 1..n];
    }
  }

  /** The frame that the peer sees: the ranges that fit and the rounded delay. */
  function Received(f: AckFrame): AckFrame
    requires Encodable(f)
  {
    NumEncodableExact(f);
    AckFrame(f.ranges[..NumEncodable(f)], f.delay - f.delay % 8000)
  }

  lemma {:induction false} HeadRoundTrip(rd: Reader, wr: Writer, h: Head, b: Bytes, later: Bytes)
    requires Inverse(rd, wr) && h.largest <= MAX_VARINT8 && h.delay <= MAX_VARINT8 && h.num <= MAX_VARINT8
             && h.first <= MAX_VARINT8
    requires b == WriteHead(wr, h) + later
    ensures ReadHead(rd, b) == Some((h, later))
  {
    var b3 := wr(h.first) + later;
    var b2 := wr(h.num) + b3;
    var b1 := wr(h.delay) + b2;
    Seqs.Assoc5(wr(h.largest), wr(h.delay), wr(h.num), wr(h.first), later);
    assert b == wr(h.largest) + b1;
  }

  /** Parsing, given what each part returns. */
  lemma {:induction false} ParseSteps(rd: Reader, b: Bytes, h: Head, later: Bytes, first: AckRange,
                                      ranges: seq<AckRange>, rest: Bytes)
    requires |b| > 0 && b[0] == 0x2 && ReadHead(rd, b[1..]) == Some((h, later))
    requires h.largest == first.largest && h.first == first.largest - first.smallest && 0 <= first.smallest
    requires ReadRanges(rd, later, h.num, first.smallest) == Some((ranges, rest))
    ensures ParseRaw(rd, b) == Some(Raw([first] + ranges, h.delay, rest))
  {
  }

  lemma {:induction false} PiecesOf(h: Bytes, w: Bytes, rest: Bytes, b: Bytes)
    requires b == [0x2] + h + w + rest
    ensures |b| > 0 && b[0] == 0x2 && b[1..] == h + (w + rest)
  {
  }

  lemma {:induction false} RawFrom(rd: Reader, wr: Writer, r: seq<AckRange>, h: Head, n: nat, b: Bytes, later: Bytes,
                                   rest: Bytes)
    requires Inverse(rd, wr) && Usable(r) && 0 < n <= |r|
    requires h.largest == r[0].largest && h.first == r[0].largest - r[0].smallest && h.num == n - 1
    requires |b| > 0 && b[0] == 0x2 && ReadHead(rd, b[1..]) == Some((h, later))
             && later == WriteRanges(wr, r, 1, n) + rest
    ensures ParseRaw(rd, b) == Some(Raw(r[..n], h.delay, rest))
  {
    RangesRoundTrip(rd, wr, r, 1, n, n - 1, r[0].smallest, later, rest);
    ParseSteps(rd, b, h, later, r[0], r[1..n], rest);
    assert r[..n] == [r[0]] + r[1..n];
  }

  lemma {:induction false} RawRoundTrip(rd: Reader, wr: Writer, r: seq<AckRange>, h: Head, n: nat, b: Bytes,
                                        rest: Bytes)
    requires Inverse(rd, wr) && Usable(r) && 0 < n <= |r|
    requires h.largest == r[0].largest && h.first == r[0].largest - r[0].smallest && h.num == n - 1 <= MAX_VARINT8
             && h.delay <= MAX_VARINT8
    requires b == [0x2] + WriteHead(wr, h) + WriteRanges(wr, r, 1, n) + rest
    ensures |b| > 0 && b[0] == 0x2 && ParseRaw(rd, b) == Some(Raw(r[..n], h.delay, rest))
  {
    var w := WriteRanges(wr, r, 1, n);
    PiecesOf(WriteHead(wr, h), w, rest, b);
    HeadRoundTrip(rd, wr, h, b[1..], w + rest);
    RawFrom(rd, wr, r, h, n, b, w + rest, rest);
  }

  lemma {:induction false} FrameRaw(f: AckFrame, h: Head, n: nat, b: Bytes, rest: Bytes)
    requires Encodable(f) && b == Write(f) + rest && h == HeadOf(f) && n == NumEncodable(f)
    ensures 0 < n <= |f.ranges| && |b| > 0 && b[0] == 0x2
    ensures ParseRaw(ReadVarInt, b) == Some(Raw(f.ranges[..n], h.delay, rest))
  {
    NumEncodableExact(f);
    NumSmall(f);
    VarIntCodec();
    RawRoundTrip(ReadVarInt, Put, f.ranges, h, n, b, rest);
  }

  lemma {:induction false} ParseDelay(b: Bytes, raw: Raw, exponent: nat, delay: int)
    requires |b| > 0 && ParseRaw(ReadVarInt, b) == Some(raw) && delay == DecodeDelay(raw.delay, exponent)
    ensures Parse(b, exponent) == Some((AckFrame(raw.ranges, delay), raw.rest))
  {
  }

  /** An ACK frame comes back with the ranges that fit and its delay rounded down. */
  lemma {:induction false} AckRoundTrip(f: AckFrame, rest: Bytes)
    requires Encodable(f)
    ensures |Write(f)| > 0 && Write(f)[0] == 0x2
    ensures Parse(Write(f) + rest, ACK_DELAY_EXPONENT) == Some((Received(f), rest))
  {
    var b := Write(f) + rest;
    FrameRaw(f, HeadOf(f), NumEncodable(f), b, rest);
    DelayRoundTrip(f.delay);
    ParseDelay(b, Raw(Received(f).ranges, EncodeDelay(f.delay), rest), ACK_DELAY_EXPONENT, Received(f).delay);
    assert b[0] == Write(f)[0];
  }

  method NumEncodableAckRanges(f: AckFrame) returns (n: nat)
    requires Encodable(f)
    ensures n == NumEncodable(f)
  {
    var r := f.ranges;
    var length: nat, i := BaseLen(f), 1;
    while i < |r|
      invariant 0 < i <= |r| && NumFrom(r, 1, BaseLen(f)) == NumFrom(r, i, length)
    {
      var rangeLen := RangeLen(r, i);
      if length + rangeLen > MAX_ACK_FRAME_SIZE {
        return i - 1;
      }
      length := length + rangeLen;
      i := i + 1;
    }
    n := |r|;
  }

  method FrameLength(f: AckFrame) returns (length: nat)
    requires Encodable(f)
    ensures length == Length(f)
  {
    var n := NumEncodableAckRanges(f);
    NumEncodableExact(f);
    NumSmall(f);
    var r := f.ranges;
    length := 1 + VarIntLen(r[0].largest) + VarIntLen(EncodeDelay(f.delay));
    length := length + VarIntLen(n - 1) + VarIntLen(r[0].largest - r[0].smallest);
    for i := 1 to n
      invariant length + RangesLen(r, i, n) == Length(f)
    {
      length := length + RangeLen(r, i);
    }
  }

  method AppendRanges(wr: Writer, r: seq<AckRange>, n: nat, b: Bytes) returns (b': Bytes)
    requires Usable(r) && 0 < n <= |r|
    ensures b' == b + WriteRanges(wr, r, 1, n)
  {
    b' := b;
    for i := 1 to n
      invariant b' + WriteRanges(wr, r, i, n) == b + WriteRanges(wr, r, 1, n)
    {
      ghost var before := b';
      b' := b' + WriteRange(wr, r, i);
      Seqs.Assoc(before, WriteRange(wr, r, i), WriteRanges(wr, r, i + 1, n));
    }
  }

  method WriteFrame(f: AckFrame) returns (b: Bytes)
    requires Encodable(f)
    ensures b == Write(f)
  {
    var n := NumEncodableAckRanges(f);
    NumEncodableExact(f);
    b := AppendRanges(Put, f.ranges, n, [0x2] + WriteHead(Put, HeadOf(f)));
  }

  lemma {:induction false} NextRange(rd: Reader, ranges: seq<AckRange>, b: Bytes, n: nat, smallest: int,
                                     g: (nat, Bytes), l: (nat, Bytes), r: AckRange)
    requires n > 0 && rd(b) == Some(g) && rd(g.1) == Some(l) && smallest >= g.0 + 2
    requires r == AckRange(smallest - g.0 - 2 - l.0, smallest - g.0 - 2) && r.smallest >= 0
    ensures After(ranges, ReadRanges(rd, b, n, smallest)) == After(ranges + [r], ReadRanges(rd, l.1, n - 1, r.smallest))
  {
    var later := ReadRanges(rd, l.1, n - 1, r.smallest);
    if later.Some? {
      Seqs.Assoc(ranges, [r], later.value.0);
    }
  }

  method ReadAckRanges(rd: Reader, b: Bytes, n: nat, first: AckRange) returns (o: Option<(seq<AckRange>, Bytes)>)
    ensures o == After([first], ReadRanges(rd, b, n, first.smallest))
  {
    var ranges, rest, smallest := [first], b, first.smallest;
    var i := n;
    while i > 0
      invariant 0 <= i && After(ranges, ReadRanges(rd, rest, i, smallest))
                == After([first], ReadRanges(rd, b, n, first.smallest))
    {
      var g := rd(rest);
      if g.None? || smallest < g.value.0 + 2 {
        return None;
      }
      var largest := smallest - g.value.0 - 2;
      var l := rd(g.value.1);
      if l.None? || l.value.0 > largest {
        return None;
      }
      var r := AckRange(largest - l.value.0, largest);
      NextRange(rd, ranges, rest, i, smallest, g.value, l.value, r);
      ranges, rest, smallest := ranges + [r], l.value.1, r.smallest;
      i := i - 1;
    }
    assert ranges + [] == ranges;
    o := Some((ranges, rest));
  }

  /** The final validation is called as in the source, and never fails. */
  method ParseRanges(rd: Reader, b: Bytes) returns (o: Option<Raw>)
    requires |b| > 0
    ensures o == ParseRaw(rd, b)
  {
    var head := ReadHead(rd, b[1..]);
    if head.None? || head.value.0.first > head.value.0.largest {
      return None;
    }
    var h := head.value.0;
    var first := AckRange(h.largest - h.first, h.largest);
    var all := ReadAckRanges(rd, head.value.1, h.num, first);
    if all.None? {
      return None;
    }
    ReadRangesValid(rd, head.value.1, h.num, first);
    var valid := ValidateAckRanges(all.value.0);
    assert valid;
    var rest := if b[0] % 2 == 1 then Skip(rd, all.value.1, 3) else Some(all.value.1);
    o := if rest.None? then None else Some(Raw(all.value.0, h.delay, rest.value));
  }

  method ParseAckFrame(b: Bytes, exponent: nat) returns (o: Option<(AckFrame, Bytes)>)
    requires |b| > 0
    ensures o == Parse(b, exponent)
  {
    var raw := ParseRanges(ReadVarInt, b);
    if raw.None? {
      return None;
    }
    o := Some((AckFrame(raw.value.ranges, DecodeDelay(raw.value.delay, exponent)), raw.value.rest));
  }
}
