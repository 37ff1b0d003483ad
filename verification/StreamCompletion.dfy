/** A closed stream gets everything out, and its completion is reported exactly when all is acknowledged. */
module StreamCompletion {
  // quic-go/send_stream.go, over the runs of StreamTransfer.

  import opened Protocol
  import opened VarInt
  import opened StreamFrames
  import opened StreamTransfer
  import Seqs
  import SendStream
  import SP = SendProgress

  /** The stream has ended, and nothing of it is in flight or waits to be sent again. */
  ghost predicate Done(y: System) {
    (y.sender.finSent || y.sender.canceledWrite) && y.inflight == multiset{} && y.sender.retransmissions == []
  }

  ghost predicate Exact(y: System) {
    y.sender.completed <==> Done(y)
  }

  /** The last acknowledgement reports completion, and so does a cancellation when nothing is under way. */
  lemma {:induction false} EndExact(y: System, step: Step, y': System)
    requires Good(y) && Exact(y) && Enabled(y, step) && y' == Next(y, step) && Good(y')
    requires step.Ack? || step.Lose? || step.Cancel?
    ensures Exact(y')
  {
    assert y'.sender.numOutstanding == |y'.inflight|;
    assert y'.inflight == multiset{} <==> |y'.inflight| == 0;
  }

  lemma {:induction false} PopExact(y: System, step: Step, y': System)
    requires Good(y) && Exact(y) && step.Pop? && Enabled(y, step) && y' == Next(y, step)
    ensures Exact(y')
  {
    SP.PopYields(y.sender, step.maxBytes, step.window);
    if SP.CanSend(y.sender, step.maxBytes, step.window) {
      var f := SendStream.Pop(y.sender, step.maxBytes, step.window).1.value.(dataLenPresent := !step.omitLen);
      assert f in y'.inflight;
    } else {
      SP.NoFrame(y.sender, step.maxBytes, step.window);
    }
  }

  lemma {:induction false} OtherExact(y: System, step: Step, y': System)
    requires Good(y) && Exact(y) && Enabled(y, step) && y' == Next(y, step)
    requires step.Write? || step.Close? || step.Deliver? || step.Read?
    ensures Exact(y')
  {
  }

  lemma {:induction false} NextExact(y: System, step: Step, y': System)
    requires Good(y) && Exact(y) && Enabled(y, step) && y' == Next(y, step) && Good(y')
    ensures Exact(y')
  {
    match step
    case Pop(_, _, _) => PopExact(y, step, y');
    case Ack(_) => EndExact(y, step, y');
    case Lose(_) => EndExact(y, step, y');
    case Cancel => EndExact(y, step, y');
    case _ => OtherExact(y, step, y');
  }

  /**
   * Over every run: completion has been reported exactly if the stream has ended, by its FIN or by a
   * cancellation, and nothing of it is in flight or waits to be sent again.
   */
  lemma {:induction false} CompletionExact(id: nat, steps: seq<Step>)
    requires id <= MAX_VARINT8 && Run(id, steps).Reached?
    ensures var y := Run(id, steps).system;
            Exact(y) && y.completions == if Done(y) then 1 else 0
  {
    var n := |steps| - 1;
    if n >= 0 {
      CompletionExact(id, steps[..n]);
      NextExact(Run(id, steps[..n]).system, steps[n], Run(id, steps).system);
    }
  }

  /** The run leads to this state. */
  ghost predicate At(id: nat, steps: seq<Step>, y: System) {
    id <= MAX_VARINT8 && Run(id, steps) == Reached(y) && Good(y)
  }

  lemma {:induction false} RunSnoc(id: nat, steps: seq<Step>, step: Step, all: seq<Step>, y: System)
    returns (y': System)
    requires At(id, steps, y) && all == steps + [step] && Enabled(y, step)
    ensures At(id, all, y') && y' == Next(y, step)
  {
    assert all[..|all| - 1] == steps;
    y' := Run(id, all).system;
  }

  /** A pop with room for any header and a byte, and with a window. */
  ghost predicate Roomy(step: Step) {
    step.Pop? && SP.ROOM <= step.maxBytes <= MAX_VARINT2 && step.window > 0
  }

  ghost predicate AllRoomy(steps: seq<Step>) {
    forall i | 0 <= i < |steps| :: Roomy(steps[i])
  }

  ghost predicate Closing(y: System) {
    y.sender.finishedWriting && !y.sender.canceledWrite
  }

  ghost predicate Called(steps: seq<Step>, step: Step) {
    exists i | 0 <= i < |steps| :: steps[i] == step
  }

  lemma {:induction false} CalledSnoc(steps: seq<Step>, step: Step, n: nat)
    requires n == |steps| - 1 >= 0
    ensures Called(steps, step) <==> Called(steps[..n], step) || steps[n] == step
  {
    if Called(steps[..n], step) {
      var i :| 0 <= i < n && steps[..n][i] == step;
      assert steps[i] == step;
    }
  }

  lemma {:induction false} NextCloses(y: System, step: Step, y': System)
    requires Good(y) && Enabled(y, step) && y' == Next(y, step)
    ensures y'.sender.canceledWrite <==> y.sender.canceledWrite || step.Cancel?
    ensures !y.sender.canceledWrite ==> (y'.sender.finishedWriting <==> y.sender.finishedWriting || step.Close?)
  {
    if step.Pop? {
      PopStaysOpen(y, step, y');
    } else if step.Ack? || step.Lose? || step.Cancel? {
      EndCloses(y, step, y');
    } else {
      OtherCloses(y, step, y');
    }
  }

  lemma {:induction false} PopStaysOpen(y: System, step: Step, y': System)
    requires Good(y) && step.Pop? && Enabled(y, step) && y' == Next(y, step)
    ensures y'.sender.canceledWrite == y.sender.canceledWrite
    ensures y'.sender.finishedWriting == y.sender.finishedWriting
  {
    SP.PopKeepsEnds(y.sender, step.maxBytes, step.window);
  }

  lemma {:induction false} EndCloses(y: System, step: Step, y': System)
    requires Good(y) && (step.Ack? || step.Lose? || step.Cancel?) && Enabled(y, step) && y' == Next(y, step)
    ensures y'.sender.canceledWrite <==> y.sender.canceledWrite || step.Cancel?
    ensures y'.sender.finishedWriting == y.sender.finishedWriting
  {
  }

  lemma {:induction false} OtherCloses(y: System, step: Step, y': System)
    requires Good(y) && (step.Write? || step.Close? || step.Deliver? || step.Read?) && Enabled(y, step)
    requires y' == Next(y, step)
    ensures y'.sender.canceledWrite == y.sender.canceledWrite
    ensures !y.sender.canceledWrite ==> (y'.sender.finishedWriting <==> y.sender.finishedWriting || step.Close?)
  {
  }

  /** A stream is closing exactly if it was closed and never cancelled. */
  lemma {:induction false} ClosingExact(id: nat, steps: seq<Step>)
    requires id <= MAX_VARINT8 && Run(id, steps).Reached?
    ensures var y := Run(id, steps).system;
            && (y.sender.canceledWrite <==> Called(steps, Cancel))
            && (Closing(y) <==> Called(steps, Close) && !Called(steps, Cancel))
  {
    var n := |steps| - 1;
    if n >= 0 {
      ClosingExact(id, steps[..n]);
      CalledSnoc(steps, Cancel, n);
      CalledSnoc(steps, Close, n);
      NextCloses(Run(id, steps[..n]).system, steps[n], Run(id, steps).system);
    }
  }

  lemma {:induction false} PopLeaves(y: System, step: Step, y': System)
    requires Good(y) && Closing(y) && Roomy(step) && y' == Next(y, step)
    ensures Closing(y') && y'.written == y.written && SP.Left(y'.sender) <= Max(0, SP.Left(y.sender) - 1)
  {
    SP.PopSends(y.sender, step.maxBytes, step.window);
  }

  lemma {:induction false} PopStep(id: nat, steps: seq<Step>, step: Step, all: seq<Step>, y: System)
    returns (y': System)
    requires At(id, steps, y) && all == steps + [step] && Closing(y) && Roomy(step)
    ensures At(id, all, y') && Closing(y') && y'.written == y.written
    ensures SP.Left(y'.sender) <= Max(0, SP.Left(y.sender) - 1)
  {
    y' := RunSnoc(id, steps, step, all, y);
    PopLeaves(y, step, y');
  }

  lemma {:induction false} PopsLeave(id: nat, steps: seq<Step>, more: seq<Step>, all: seq<Step>, y: System)
    returns (y': System)
    requires At(id, steps, y) && all == steps + more && AllRoomy(more) && Closing(y)
    ensures At(id, all, y') && Closing(y') && y'.written == y.written
    ensures SP.Left(y'.sender) <= Max(0, SP.Left(y.sender) - |more|)
    decreases |more|
  {
    if |more| == 0 {
      Seqs.NothingAdded(steps);
      y' := y;
    } else {
      var first := steps + [more[0]];
      Seqs.MoveFirst(steps, more);
      var z := PopStep(id, steps, more[0], first, y);
      y' := PopsLeave(id, first, more[1..], all, z);
    }
  }

  /**
   * From every reachable state of a closed stream, any pops with room and window, as many as bytes and
   * frames are left, send everything: all bytes written, all frames lost, and the FIN.
   */
  lemma {:induction false} EverythingGoesOut(id: nat, steps: seq<Step>, more: seq<Step>)
    requires id <= MAX_VARINT8 && Run(id, steps).Reached? && Closing(Run(id, steps).system)
    requires AllRoomy(more) && |more| >= SP.Left(Run(id, steps).system.sender)
    ensures var o := Run(id, steps + more);
            && o.Reached? && o.system.sender.finSent && o.system.sender.retransmissions == []
            && o.system.sender.writeOffset == |o.system.written| && o.system.written == Run(id, steps).system.written
  {
    var y := PopsLeave(id, steps, more, steps + more, Run(id, steps).system);
    NothingLeft(y);
  }

  lemma {:induction false} NothingLeft(y: System)
    requires Good(y) && SP.Left(y.sender) == 0
    ensures y.sender.finSent && y.sender.retransmissions == [] && y.sender.writeOffset == |y.written|
  {
  }

  ghost predicate AllAcks(steps: seq<Step>) {
    forall i | 0 <= i < |steps| :: steps[i].Ack?
  }

  lemma {:induction false} AckStep(id: nat, steps: seq<Step>, f: StreamFrame, all: seq<Step>, y: System)
    returns (y': System)
    requires At(id, steps, y) && all == steps + [Ack(f)] && f in y.inflight
    ensures At(id, all, y') && |y'.inflight| == |y.inflight| - 1
    ensures y'.sender.finSent == y.sender.finSent && y'.sender.retransmissions == y.sender.retransmissions
  {
    y' := RunSnoc(id, steps, Ack(f), all, y);
  }

  lemma {:induction false} NoneInFlight(id: nat, steps: seq<Step>, y: System)
    requires At(id, steps, y) && |y.inflight| == 0 && y.sender.finSent && y.sender.retransmissions == []
    ensures y.completions == 1
  {
    CompletionExact(id, steps);
  }

  lemma {:induction false} AckFirst(id: nat, steps: seq<Step>, f: StreamFrame, rest: seq<Step>, acks: seq<Step>,
                                    y: System)
    requires At(id, steps + [Ack(f)] + rest, y) && AllAcks(rest) && acks == [Ack(f)] + rest
    ensures At(id, steps + acks, y) && AllAcks(acks)
  {
    Seqs.Assoc(steps, [Ack(f)], rest);
  }

  /** Acknowledging what is in flight then reports completion, once. */
  lemma {:induction false} AcksComplete(id: nat, steps: seq<Step>, y: System, n: nat)
    returns (acks: seq<Step>, y': System)
    requires At(id, steps, y) && n == |y.inflight| && y.sender.finSent && y.sender.retransmissions == []
    ensures AllAcks(acks) && |acks| == n && At(id, steps + acks, y') && y'.completions == 1
    decreases n
  {
    if n == 0 {
      acks, y' := [], y;
      Seqs.NothingAdded(steps);
      NoneInFlight(id, steps, y);
    } else {
      var f :| f in y.inflight;
      var z := AckStep(id, steps, f, steps + [Ack(f)], y);
      var rest;
      rest, y' := AcksComplete(id, steps + [Ack(f)], z, n - 1);
      acks := [Ack(f)] + rest;
      AckFirst(id, steps, f, rest, acks, y');
    }
  }

  /** Every closed stream can complete: pops, then the acknowledgements of what is in flight. */
  lemma {:induction false} ClosedStreamCompletes(id: nat, steps: seq<Step>, more: seq<Step>) returns (acks: seq<Step>)
    requires id <= MAX_VARINT8 && Run(id, steps).Reached? && Closing(Run(id, steps).system)
    requires AllRoomy(more) && |more| >= SP.Left(Run(id, steps).system.sender)
    ensures AllAcks(acks)
    ensures var o := Run(id, steps + more + acks); o.Reached? && o.system.completions == 1
  {
    EverythingGoesOut(id, steps, more);
    var y, y' := Run(id, steps + more).system, Run(id, steps).system;
    acks, y' := AcksComplete(id, steps + more, y, |y.inflight|);
  }
}
