/** What the receiving half of a stream keeps true about the bytes it hands out. */
module StreamReceiving {
  // For any honest sender: `written` is what its application wrote, `sent` the offset up to which frames
  // have been cut, and `fin` whether the FIN has been sent.

  import opened Protocol
  import opened StreamFrames
  import opened ReceiveStream
  import FrameSorter
  import SorterExactness
  import FinalSize
  import Seqs

  /** The frame carries the bytes the application wrote, and a FIN only at the very end. */
  ghost predicate Genuine(f: StreamFrame, written: Bytes, sent: nat, fin: bool) {
    && f.End() <= sent <= |written| < MAX_BYTE_COUNT
    && f.data == written[f.offset..f.End()]
    && (f.fin ==> fin && f.End() == |written|)
  }

  /** Every queued entry holds the bytes of the stream at its offset. */
  ghost predicate Holds(q: FrameSorter.Queue, written: Bytes, sent: nat)
    requires sent <= |written|
  {
    forall k | k in q :: k + |q[k]| <= sent && q[k] == written[k..k + |q[k]|]
  }

  /** The number of bytes of the current frame that have not been read yet. */
  function Left(r: Receiver): int {
    |CurrentData(r)| - r.readPosInFrame
  }

  /** The current frame is the piece of the stream in front of the sorter's read position. */
  ghost predicate CurrentOk(r: Receiver, written: Bytes) {
    && r.readPosInFrame <= |CurrentData(r)| <= r.sorter.readPos <= |written|
    && CurrentData(r) == written[r.sorter.readPos - |CurrentData(r)|..r.sorter.readPos]
  }

  ghost predicate SizesOk(r: Receiver, written: Bytes, sent: nat, fin: bool) {
    && (r.finalOffset == MAX_BYTE_COUNT || (fin && r.finalOffset == |written|))
    && r.highest.received <= sent && (r.highest.final ==> fin && r.highest.received == |written|)
    && (r.isLast ==> fin && r.sorter.readPos == |written|)
    && (r.finRead ==> r.isLast && Left(r) == 0)
  }

  ghost predicate Inv(r: Receiver, read: Bytes, written: Bytes, sent: nat, fin: bool) {
    && sent <= |written| < MAX_BYTE_COUNT && (fin ==> sent == |written|)
    && SorterExactness.Inv(r.sorter) && Holds(r.sorter.queue, written, sent) && r.sorter.readPos <= sent
    && CurrentOk(r, written)
    && SizesOk(r, written, sent, fin)
    && read == written[..r.sorter.readPos - Left(r)]
  }

  lemma {:induction false} NewInv()
    ensures Inv(NEW, [], [], 0, false)
  {
  }

  /** Writing and sending more keeps the invariant; after the FIN nothing is written any more. */
  lemma {:induction false} Grows(r: Receiver, read: Bytes, written: Bytes, sent: nat, fin: bool, written': Bytes,
                                 sent': nat, fin': bool)
    requires Inv(r, read, written, sent, fin)
    requires written <= written' && sent <= sent' <= |written'| < MAX_BYTE_COUNT
    requires fin ==> fin' && written' == written
    requires fin' ==> sent' == |written'|
    ensures Inv(r, read, written', sent', fin')
  {
  }

  /** An honest frame never contradicts the final size. */
  lemma {:induction false} UpdateKeeps(h: FinalSize.Highest, f: StreamFrame, written: Bytes, sent: nat, fin: bool)
    requires Genuine(f, written, sent, fin)
    requires h.received <= sent && (h.final ==> fin && h.received == |written|)
    ensures var (v, h') := FinalSize.Update(h, f.End(), f.fin);
            !v.FinalSizeError? && h'.received <= sent && (h'.final ==> fin && h'.received == |written|)
  {
  }

  lemma {:induction false} PushHolds(s: FrameSorter.Sorter, f: StreamFrame, written: Bytes, sent: nat, fin: bool)
    requires FrameSorter.Gaps.WellFormed(s.gaps) && Genuine(f, written, sent, fin) && Holds(s.queue, written, sent)
    ensures Holds(FrameSorter.Push(s, f.offset, f.data).1.queue, written, sent)
  {
    var q := FrameSorter.Push(s, f.offset, f.data).1.queue;
    forall k | k in q ensures k + |q[k]| <= sent && q[k] == written[k..k + |q[k]|] {
      SorterExactness.PushKeys(s, f.offset, f.data, k);
      if !(k in s.queue && q[k] == s.queue[k]) {
        PartHolds(f, written, sent, fin, k, q[k]);
      }
    }
  }

  lemma {:induction false} PartHolds(f: StreamFrame, written: Bytes, sent: nat, fin: bool, k: nat, v: Bytes)
    requires Genuine(f, written, sent, fin) && SorterExactness.PartOf(k, v, f.offset, f.data)
    ensures k + |v| <= sent && v == written[k..k + |v|]
  {
    Seqs.SliceSlice(written, f.offset, f.End(), k - f.offset, k - f.offset + |v|);
  }

  /** Delivering any honest frame, in any order and any number of times, is safe. */
  lemma {:induction false} DeliverKeeps(r: Receiver, read: Bytes, written: Bytes, sent: nat, fin: bool, f: StreamFrame,
                                        allowed: bool)
    requires Inv(r, read, written, sent, fin) && Genuine(f, written, sent, fin)
    ensures HandleFrame(r, f, allowed).0 != FinalSizeError
    ensures HandleFrame(r, f, allowed).0 == Accepted ==> Inv(HandleFrame(r, f, allowed).1, read, written, sent, fin)
  {
    UpdateKeeps(r.highest, f, written, sent, fin);
    SorterExactness.PushInv(r.sorter, f.offset, f.data);
    PushHolds(r.sorter, f, written, sent, fin);
  }

  lemma {:induction false} DequeueKeeps(r: Receiver, read: Bytes, written: Bytes, sent: nat, fin: bool)
    requires Inv(r, read, written, sent, fin) && Left(r) == 0 && !r.finRead
    ensures Inv(Dequeue(r), read, written, sent, fin)
  {
    SorterExactness.PopInv(r.sorter);
    PopHolds(r, written, sent, fin);
  }

  lemma {:induction false} PopHolds(r: Receiver, written: Bytes, sent: nat, fin: bool)
    requires sent <= |written| < MAX_BYTE_COUNT && (fin ==> sent == |written|)
    requires Holds(r.sorter.queue, written, sent) && r.sorter.readPos <= sent
    requires SizesOk(r, written, sent, fin) && !r.finRead
    ensures var r' := Dequeue(r);
            && Holds(r'.sorter.queue, written, sent) && r'.sorter.readPos <= sent
            && CurrentOk(r', written) && SizesOk(r', written, sent, fin)
            && r'.sorter.readPos - Left(r') == r.sorter.readPos
  {
  }

  lemma {:induction false} RoundKeeps(r: Receiver, read: Bytes, written: Bytes, sent: nat, fin: bool, n: nat, got: bool)
    requires Inv(r, read, written, sent, fin) && !r.finRead && n > 0
    ensures var s := Round(r, n, got);
            && Inv(s.receiver, read + s.chunk, written, sent, fin)
            && (s.outcome == EOF <==> s.receiver.finRead)
  {
    ReadyKeeps(r, read, written, sent, fin);
    RestKeeps(r, Ready(r), read, written, sent, fin, n, got, Round(r, n, got));
  }

  lemma {:induction false} ReadyKeeps(r: Receiver, read: Bytes, written: Bytes, sent: nat, fin: bool)
    requires Inv(r, read, written, sent, fin) && !r.finRead
    ensures Inv(Ready(r), read, written, sent, fin) && !Ready(r).finRead
  {
    if NeedsFrame(r) {
      DequeueKeeps(r, read, written, sent, fin);
    }
  }

  /** The part of a round behind taking a frame. */
  lemma {:induction false} RestKeeps(r: Receiver, r1: Receiver, read: Bytes, written: Bytes, sent: nat, fin: bool,
                                     n: nat, got: bool, s: Step)
    requires CursorOk(r) && r1 == Ready(r) && s == Round(r, n, got)
    requires Inv(r1, read, written, sent, fin) && !r1.finRead
    ensures Inv(s.receiver, read + s.chunk, written, sent, fin) && (s.outcome == EOF <==> s.receiver.finRead)
  {
    if r1.current.None? && (got || !r1.isLast) {
      assert read + [] == read;
    } else {
      AdvanceKeeps(r1, read, written, sent, fin, n);
    }
  }

  lemma {:induction false} AdvanceKeeps(r: Receiver, read: Bytes, written: Bytes, sent: nat, fin: bool, n: nat)
    requires Inv(r, read, written, sent, fin) && !r.finRead
    ensures Inv(Advance(r, n), read + Copied(r, n), written, sent, fin)
  {
    AdvanceReads(r, read, written, n, r.sorter.readPos - Left(r), CopyLen(r, n));
  }

  /** What is copied continues what was read. */
  lemma {:induction false} AdvanceReads(r: Receiver, read: Bytes, written: Bytes, n: nat, a: nat, m: nat)
    requires CurrentOk(r, written) && a == r.sorter.readPos - Left(r) && read == written[..a] && m == CopyLen(r, n)
    ensures a + m <= |written| && read + Copied(r, n) == written[..a + m]
  {
    var start := r.sorter.readPos - |CurrentData(r)|;
    Seqs.SliceSlice(written, start, r.sorter.readPos, r.readPosInFrame, r.readPosInFrame + m);
    assert Copied(r, n) == written[a..a + m];
    Seqs.Extend(written, a, a + m);
  }

  /** The result t of a read keeps the invariant, with its bytes appended to those already read. */
  ghost predicate ReadOk(t: Reading, read: Bytes, written: Bytes, sent: nat, fin: bool) {
    Inv(t.receiver, read + t.bytes, written, sent, fin) && (t.outcome == EOF <==> t.receiver.finRead)
  }

  lemma {:induction false} ReadOkPrepend(t: Reading, chunk: Bytes, read: Bytes, written: Bytes, sent: nat, fin: bool)
    requires ReadOk(t, read + chunk, written, sent, fin)
    ensures ReadOk(Prepend(chunk, t), read, written, sent, fin)
  {
    assert read + (chunk + t.bytes) == read + chunk + t.bytes;
  }

  /** A read that ends with the round s. */
  lemma {:induction false} LastRound(s: Step, read: Bytes, written: Bytes, sent: nat, fin: bool)
    requires Inv(s.receiver, read + s.chunk, written, sent, fin) && (s.outcome == EOF <==> s.receiver.finRead)
    ensures ReadOk(Reading(s.receiver, s.chunk, s.outcome), read, written, sent, fin)
  {
  }

  lemma {:induction false} NoRound(r: Receiver, read: Bytes, written: Bytes, sent: nat, fin: bool)
    requires Inv(r, read, written, sent, fin) && !r.finRead
    ensures ReadOk(Reading(r, [], Done), read, written, sent, fin)
  {
    assert read + [] == read;
  }

  lemma {:induction false} NotFinished(r: Receiver, n: nat, got: bool, s: Step)
    requires CursorOk(r) && s == Round(r, n, got) && !s.stop
    ensures s.outcome == Done
  {
  }

  lemma {:induction false} ReadLoopKeeps(r: Receiver, read: Bytes, written: Bytes, sent: nat, fin: bool, n: nat,
                                         got: bool, t: Reading)
    requires Inv(r, read, written, sent, fin) && !r.finRead && t == ReadLoop(r, n, got)
    ensures ReadOk(t, read, written, sent, fin) && |t.bytes| <= n
    decreases n, |r.sorter.queue|
  {
    if n == 0 {
      NoRound(r, read, written, sent, fin);
    } else {
      var s := Round(r, n, got);
      RoundKeeps(r, read, written, sent, fin, n, got);
      if s.stop {
        LastRound(s, read, written, sent, fin);
        ReadStops(r, n, got, s, t);
      } else {
        RoundShrinks(r, n, got);
        NotFinished(r, n, got, s);
        var m, got' := n - |s.chunk|, got || |s.chunk| > 0;
        var t' := ReadLoop(s.receiver, m, got');
        ReadLoopKeeps(s.receiver, read + s.chunk, written, sent, fin, m, got', t');
        ReadOkPrepend(t', s.chunk, read, written, sent, fin);
        ReadGoesOn(r, n, got, s, m, got', t, t');
      }
    }
  }

  /** Reading hands out the next bytes of the stream; end-of-file exactly when they are all read. */
  lemma {:induction false} ReadKeeps(r: Receiver, read: Bytes, written: Bytes, sent: nat, fin: bool, n: nat)
    requires Inv(r, read, written, sent, fin)
    ensures var Reading(r', p, outcome) := Read(r, n);
            && Inv(r', read + p, written, sent, fin) && |p| <= n
            && (outcome == EOF <==> r'.finRead) && (r'.finRead ==> fin && read + p == written)
  {
    assert read + [] == read;
    if !r.finRead {
      ReadLoopKeeps(r, read, written, sent, fin, n, false, ReadLoop(r, n, false));
    }
  }
}
