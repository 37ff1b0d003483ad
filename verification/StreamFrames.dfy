/** STREAM frames as values: their sizes and splitting (quic-go/core/wire/stream_frame.go). */
module StreamFrames {
  import opened Protocol
  import opened VarInt

  datatype StreamFrame = StreamFrame(streamID: nat, offset: nat, data: Bytes, fin: bool, dataLenPresent: bool) {
    function End(): nat {
      offset + |data|
    }
  }

  /** The frame's numbers fit into 62 bits. */
  predicate Encodable(f: StreamFrame) {
    f.streamID <= MAX_VARINT8 && f.End() <= MAX_BYTE_COUNT
  }

  function HeaderLen(f: StreamFrame): nat
    requires Encodable(f)
  {
    1 + VarIntLen(f.streamID) + (if f.offset != 0 then VarIntLen(f.offset) else 0)
  }

  /** The total length of the written frame (lines 123-132). */
  function Length(f: StreamFrame): nat
    requires Encodable(f)
  {
    HeaderLen(f) + (if f.dataLenPresent then VarIntLen(|f.data|) else 0) + |f.data|
  }

  /** The maximum data length such that the frame takes at most maxSize bytes; 0 if none (lines 141-159). */
  function MaxDataLen(f: StreamFrame, maxSize: nat): nat
    requires Encodable(f) && maxSize <= MAX_VARINT8
  {
    var header := HeaderLen(f) + (if f.dataLenPresent then 1 else 0);
    if header > maxSize then 0
    else
      var n := maxSize - header;
      if f.dataLenPresent && VarIntLen(n) != 1 then n - 1 else n
  }

  /**
   * For packet-sized limits a frame with at most MaxDataLen bytes of data fits, and one with more
   * does not, save for the one byte given up where the length field grows from 1 to 2 bytes.
   */
  lemma {:induction false} MaxDataLenFits(f: StreamFrame, maxSize: nat)
    requires Encodable(f) && maxSize <= MAX_VARINT2
    ensures MaxDataLen(f, maxSize) > 0 && |f.data| <= MaxDataLen(f, maxSize) ==> Length(f) <= maxSize
    ensures Length(f) <= maxSize ==> |f.data| <= MaxDataLen(f, maxSize) + 1
    ensures Length(f) <= maxSize && |f.data| == MaxDataLen(f, maxSize) + 1 ==>
              f.dataLenPresent && |f.data| == MAX_VARINT1
  {
  }

  datatype Split = Whole | TooSmall | Parts(head: StreamFrame, rest: StreamFrame)

  /** Splits a frame such that the first part is no bigger than maxSize (lines 166-192). */
  function MaybeSplitOff(f: StreamFrame, maxSize: nat): Split
    requires Encodable(f) && maxSize <= MAX_VARINT2
  {
    if maxSize >= Length(f) then Whole
    else
      var n := MaxDataLen(f, maxSize);
      if n == 0 then TooSmall
      else
        MaxDataLenFits(f, maxSize);
        Parts(StreamFrame(f.streamID, f.offset, f.data[..n], false, f.dataLenPresent),
              f.(offset := f.offset + n, data := f.data[n..]))
  }

  /**
   * The parts are adjacent, carry the same bytes and keep the FIN at the end; the first part fits, and
   * neither is empty.
   */
  lemma {:induction false} SplitParts(f: StreamFrame, maxSize: nat)
    requires Encodable(f) && maxSize <= MAX_VARINT2 && MaybeSplitOff(f, maxSize).Parts?
    ensures var Parts(head, rest) := MaybeSplitOff(f, maxSize);
            && Encodable(head) && Encodable(rest)
            && head.offset == f.offset && head.End() == rest.offset && rest.End() == f.End()
            && head.data + rest.data == f.data && 0 < |head.data| && 0 < |rest.data|
            && !head.fin && rest.fin == f.fin
            && head.streamID == rest.streamID == f.streamID
            && head.dataLenPresent == rest.dataLenPresent == f.dataLenPresent
            && Length(head) <= maxSize
  {
    var Parts(head, rest) := MaybeSplitOff(f, maxSize);
    MaxDataLenFits(f, maxSize);
    MaxDataLenFits(head, maxSize);
  }
}
