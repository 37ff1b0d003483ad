/** What a read reaches: everything up to the first byte that is not there (quic-go/receive_stream.go). */
module StreamReading {
  import opened Protocol
  import opened Gaps
  import opened ReceiveStream
  import FrameSorter
  import SD = SorterDelivery
  import SR = StreamReceiving
  import ST = StreamTransfer
  import SC = StreamCompletion
  import Seqs

  /** Nothing is left of the current frame, and no queued entry continues it. */
  predicate Exhausted(r: Receiver) {
    r.current.None? && r.sorter.readPos !in r.sorter.queue
  }

  lemma {:induction false} DrainPop(s: FrameSorter.Sorter)
    ensures SD.Drain(FrameSorter.Pop(s)) == SD.Drain(s)
  {
  }

  /** One round: the entries it takes are those that draining the sorter takes. */
  lemma {:induction false} RoundDrains(r: Receiver, n: nat, got: bool, s: Step)
    requires CursorOk(r) && n > 0 && s == Round(r, n, got)
    ensures SD.Drain(s.receiver.sorter) == SD.Drain(r.sorter)
    ensures s.stop && s.outcome != EOF ==> Exhausted(s.receiver) && s.chunk == []
  {
    DrainPop(r.sorter);
  }

  /** A read that is not filled and not at the end stops only where nothing more can be read. */
  lemma {:induction false} LoopDrains(r: Receiver, n: nat, got: bool, t: Reading)
    requires CursorOk(r) && t == ReadLoop(r, n, got)
    ensures SD.Drain(t.receiver.sorter) == SD.Drain(r.sorter)
    ensures |t.bytes| < n && t.outcome != EOF ==> Exhausted(t.receiver)
    decreases n, |r.sorter.queue|
  {
    if n > 0 {
      var s := Round(r, n, got);
      RoundDrains(r, n, got, s);
      if s.stop {
        ReadStops(r, n, got, s, t);
      } else {
        RoundShrinks(r, n, got);
        var m, got' := n - |s.chunk|, got || |s.chunk| > 0;
        var t' := ReadLoop(s.receiver, m, got');
        LoopDrains(s.receiver, m, got', t');
        ReadGoesOn(r, n, got, s, m, got', t, t');
      }
    }
  }

  /**
   * A read ends because the buffer is full, because all is read, or where the next byte is missing. In the
   * last case it has taken exactly what popping until nothing is returned takes.
   */
  lemma {:induction false} ReadExact(r: Receiver, n: nat)
    requires CursorOk(r) && !r.finRead
    ensures var t := Read(r, n);
            |t.bytes| < n && t.outcome != EOF ==> Exhausted(t.receiver) && t.receiver.sorter == SD.Drain(r.sorter)
  {
    LoopDrains(r, n, false, ReadLoop(r, n, false));
  }

  /** With an intact path the reader gets every byte up to the first gap. */
  lemma {:induction false} ReadsToFirstGap(r: Receiver, read: Bytes, written: Bytes, sent: nat, fin: bool, n: nat)
    requires SR.Inv(r, read, written, sent, fin) && !r.finRead
    requires SD.Chain(r.sorter.queue, r.sorter.readPos, r.sorter.gaps[0].start)
    ensures var t := Read(r, n);
            |t.bytes| < n && t.outcome != EOF ==>
              r.sorter.gaps[0].start <= |written| && read + t.bytes == written[..r.sorter.gaps[0].start]
  {
    var t := Read(r, n);
    ReadExact(r, n);
    SR.ReadKeeps(r, read, written, sent, fin, n);
    SD.DrainReaches(r.sorter);
  }

  /** When all is read and the final offset is known, the next read says so. */
  lemma {:induction false} EofComes(r: Receiver, read: Bytes, written: Bytes, sent: nat, fin: bool, n: nat)
    requires SR.Inv(r, read, written, sent, fin) && n > 0
    requires read == written && r.finalOffset == |written|
    ensures Read(r, n).outcome == EOF && Read(r, n).bytes == []
  {
    if !r.finRead {
      EndsAtOnce(r, read, written, sent, fin, n, Round(r, n, false));
      ReadStops(r, n, false, Round(r, n, false), ReadLoop(r, n, false));
    }
  }

  lemma {:induction false} EndsAtOnce(r: Receiver, read: Bytes, written: Bytes, sent: nat, fin: bool, n: nat, s: Step)
    requires SR.Inv(r, read, written, sent, fin) && n > 0 && s == Round(r, n, false)
    requires read == written && r.finalOffset == |written|
    ensures s.stop && s.outcome == EOF && s.chunk == []
  {
    assert r.sorter.readPos - SR.Left(r) == |written|;
    assert NeedsFrame(r);
  }

  /** Every byte written has arrived, in entries that lead from one to the next, and so has the FIN. */
  ghost predicate AllArrived(y: ST.System) {
    && SR.Inv(y.receiver, y.read, y.written, y.sender.writeOffset, y.sender.finSent)
    && y.receiver.finalOffset == |y.written|
    && (forall x: nat | x < |y.written| :: !Missing(y.receiver.sorter.gaps, x))
    && SD.Chain(y.receiver.sorter.queue, y.receiver.sorter.readPos, y.receiver.sorter.gaps[0].start)
  }

  /** A read with a buffer that is large enough gets the rest. */
  lemma {:induction false} ReadsRest(y: ST.System, n: nat)
    requires AllArrived(y) && n > |y.written| - |y.read|
    ensures y.read + Read(y.receiver, n).bytes == y.written
    ensures Read(y.receiver, n).receiver.finalOffset == |y.written|
  {
    var r, t := y.receiver, Read(y.receiver, n);
    SR.ReadKeeps(r, y.read, y.written, y.sender.writeOffset, y.sender.finSent, n);
    KeepsFinal(r, n);
    if r.finRead || t.outcome == EOF {
      assert y.read + t.bytes == y.written;
    } else {
      ReadsToFirstGap(r, y.read, y.written, y.sender.writeOffset, y.sender.finSent, n);
      assert Missing(r.sorter.gaps, r.sorter.gaps[0].start);
      Seqs.Whole(y.written);
    }
  }

  lemma {:induction false} KeepsFinal(r: Receiver, n: nat)
    requires CursorOk(r)
    ensures Read(r, n).receiver.finalOffset == r.finalOffset
  {
    if !r.finRead {
      LoopKeepsFinal(r, n, false, ReadLoop(r, n, false));
    }
  }

  lemma {:induction false} LoopKeepsFinal(r: Receiver, n: nat, got: bool, t: Reading)
    requires CursorOk(r) && t == ReadLoop(r, n, got)
    ensures t.receiver.finalOffset == r.finalOffset
    decreases n, |r.sorter.queue|
  {
    if n > 0 {
      var s := Round(r, n, got);
      if s.stop {
        ReadStops(r, n, got, s, t);
      } else {
        RoundShrinks(r, n, got);
        var m, got' := n - |s.chunk|, got || |s.chunk| > 0;
        var t' := ReadLoop(s.receiver, m, got');
        LoopKeepsFinal(s.receiver, m, got', t');
        ReadGoesOn(r, n, got, s, m, got', t, t');
      }
    }
  }

  lemma {:induction false} ReadStep(id: nat, steps: seq<ST.Step>, n: nat, y: ST.System, t: Reading)
    returns (y': ST.System)
    requires SC.At(id, steps, y) && CursorOk(y.receiver) && t == Read(y.receiver, n)
    ensures SC.At(id, steps + [ST.Read(n)], y') && y'.read == y.read + t.bytes && y'.receiver == t.receiver
    ensures y'.written == y.written && y'.sender == y.sender
  {
    y' := SC.RunSnoc(id, steps, ST.Read(n), steps + [ST.Read(n)], y);
  }

  /**
   * In every reachable state in which everything has arrived, a large enough read returns all the bytes that
   * are left, and the next one the end of the stream.
   */
  lemma {:induction false} ArrivedIsRead(id: nat, steps: seq<ST.Step>, y: ST.System, n: nat, m: nat)
    returns (y': ST.System)
    requires SC.At(id, steps, y) && AllArrived(y) && n > |y.written| - |y.read| && m > 0
    ensures SC.At(id, steps + [ST.Read(n)] + [ST.Read(m)], y') && y'.read == y'.written == y.written
    ensures y'.receiver.finRead
  {
    ReadsRest(y, n);
    var z := ReadStep(id, steps, n, y, Read(y.receiver, n));
    EofComes(z.receiver, z.read, z.written, z.sender.writeOffset, z.sender.finSent, m);
    SR.ReadKeeps(z.receiver, z.read, z.written, z.sender.writeOffset, z.sender.finSent, m);
    y' := ReadStep(id, steps + [ST.Read(n)], m, z, Read(z.receiver, m));
    Seqs.NothingAdded(z.read);
  }
}
