/** What every error-free run of an endpoint's flow controllers keeps. */
module FlowControlRuns {
  import opened Protocol
  import opened FlowControl

  /** A stream, whether reading was given up, and the windows it has advertised. */
  datatype Flow = Flow(s: Stream, abandoned: bool, advertised: seq<nat>)

  datatype Endpoint = Endpoint(conn: Base, advertised: seq<nat>, flows: seq<Flow>)

  function HighestOf(f: Flow): nat {
    f.s.base.highestReceived
  }

  function SentOf(f: Flow): nat {
    f.s.base.bytesSent
  }

  /** An abandoned stream counts as read up to its end. */
  function ReadOf(f: Flow): nat {
    if f.abandoned then f.s.base.highestReceived else f.s.base.bytesRead
  }

  function SumOf(fs: seq<Flow>, size: Flow -> nat): nat {
    if |fs| == 0 then 0 else SumOf(fs[..|fs| - 1], size) + size(fs[|fs| - 1])
  }

  ghost predicate Less(a: seq<nat>, i: nat, j: nat)
    requires i < j < |a|
  {
    a[i] < a[j]
  }

  /** Strictly increasing, up to the window. */
  ghost predicate Growing(a: seq<nat>, window: nat) {
    && (forall i: nat, j: nat | i < j < |a| :: Less(a, i, j))
    && (forall i | 0 <= i < |a| :: a[i] <= window)
  }

  ghost predicate FlowOk(f: Flow) {
    BaseOk(f.s.base) && (f.abandoned ==> f.s.receivedFinalOffset) && Growing(f.advertised, f.s.base.receiveWindow)
  }

  /** The connection's counters are the sums over its streams. */
  ghost predicate Sums(e: Endpoint) {
    && e.conn.highestReceived == SumOf(e.flows, HighestOf)
    && e.conn.bytesSent == SumOf(e.flows, SentOf)
    && e.conn.bytesRead == SumOf(e.flows, ReadOf)
  }

  ghost predicate Inv(e: Endpoint) {
    && BaseOk(e.conn) && Growing(e.advertised, e.conn.receiveWindow) && Sums(e)
    && (forall i | 0 <= i < |e.flows| :: FlowOk(e.flows[i]))
  }

  datatype Step =
    | Open(receiveWindow: nat, maxReceiveWindow: nat, sendWindow: nat)
    | Receive(i: nat, offset: nat, final: bool)
    | Read(i: nat, n: nat)
    | GiveUp(i: nat)
    | Send(i: nat, n: nat)
    | StreamCredit(i: nat, offset: nat)
    | ConnCredit(offset: nat)
    | StreamUpdate(i: nat, rttKnown: bool, tooFast: bool)
    | ConnUpdate(rttKnown: bool, tooFast: bool)

  /** Both windows allow n more bytes. */
  predicate MaySend(conn: Base, b: Base, n: nat) {
    n <= Min(SendWindowSize(b), SendWindowSize(conn))
  }

  /**
   * What callers respect: received data causes no error, only received data is read, a stream is given up
   * once and only when its final size is known, nothing is read after that, and sending asks for the window.
   */
  predicate Enabled(e: Endpoint, step: Step) {
    match step
    case Open(window, max, _) => window <= max
    case Receive(i, offset, final) =>
      i < |e.flows| && UpdateHighestReceived(e.conn, e.flows[i].s, offset, final).0.Accepted?
    case Read(i, n) =>
      && i < |e.flows| && !e.flows[i].abandoned
      && n <= e.flows[i].s.base.highestReceived - e.flows[i].s.base.bytesRead
    case GiveUp(i) => i < |e.flows| && !e.flows[i].abandoned && e.flows[i].s.receivedFinalOffset
    case Send(i, n) => i < |e.flows| && MaySend(e.conn, e.flows[i].s.base, n)
    case StreamCredit(i, _) => i < |e.flows|
    case ConnCredit(_) => true
    case StreamUpdate(i, _, _) => i < |e.flows|
    case ConnUpdate(_, _) => true
  }

  function Note(advertised: seq<nat>, offset: nat): seq<nat> {
    if offset == 0 then advertised else advertised + [offset]
  }

  /** A step of one stream that may change the connection's counters as well. */
  function FlowStep(conn: Base, f: Flow, step: Step): (Base, Flow)
    requires !step.Open? && !step.ConnCredit? && !step.ConnUpdate?
  {
    match step
    case Receive(_, offset, final) =>
      var r := UpdateHighestReceived(conn, f.s, offset, final);
      (r.1, f.(s := r.2))
    case Read(_, n) => (AddBytesRead(conn, n), f.(s := f.s.(base := AddBytesRead(f.s.base, n))))
    case GiveUp(_) => (Abandon(conn, f.s), f.(abandoned := true))
    case Send(_, n) =>
      (conn.(bytesSent := conn.bytesSent + n), f.(s := f.s.(base := f.s.base.(bytesSent := f.s.base.bytesSent + n))))
    case StreamCredit(_, offset) => (conn, f.(s := f.s.(base := UpdateSendWindow(f.s.base, offset))))
    case StreamUpdate(_, rttKnown, tooFast) =>
      var r := StreamWindowUpdate(conn, f.s, rttKnown, tooFast);
      (r.1, Flow(r.2, f.abandoned, Note(f.advertised, r.0)))
  }

  function Next(e: Endpoint, step: Step): Endpoint
    requires Enabled(e, step)
  {
    match step
    case Open(w, max, send) => e.(flows := e.flows + [Flow(Stream(NewBase(w, max, send), false), false, [])])
    case ConnCredit(offset) => e.(conn := UpdateSendWindow(e.conn, offset))
    case ConnUpdate(rttKnown, tooFast) =>
      var r := GetWindowUpdate(e.conn, rttKnown, tooFast);
      e.(conn := r.1, advertised := Note(e.advertised, r.0))
    case _ =>
      var r := FlowStep(e.conn, e.flows[step.i], step);
      e.(conn := r.0, flows := e.flows[step.i := r.1])
  }

  lemma {:induction false} SumUpdate(fs: seq<Flow>, size: Flow -> nat, i: nat, f: Flow)
    requires i < |fs|
    ensures SumOf(fs[i := f], size) == SumOf(fs, size) - size(fs[i]) + size(f)
  {
    var n := |fs| - 1;
    if i < n {
      SumUpdate(fs[..n], size, i, f);
      assert fs[i := f][..n] == fs[..n][i := f];
    } else {
      assert fs[i := f][..n] == fs[..n];
    }
  }

  lemma {:induction false} SumLe(fs: seq<Flow>)
    requires forall i | 0 <= i < |fs| :: FlowOk(fs[i])
    ensures SumOf(fs, ReadOf) <= SumOf(fs, HighestOf)
  {
    if |fs| > 0 {
      SumLe(fs[..|fs| - 1]);
      assert FlowOk(fs[|fs| - 1]);
    }
  }

  lemma {:induction false} GrowingNote(a: seq<nat>, old': nat, offset: nat, window: nat)
    requires Growing(a, old') && old' <= window && (offset != 0 ==> old' < offset <= window)
    ensures Growing(Note(a, offset), window)
  {
    if offset != 0 {
      forall i: nat, j: nat | i < j < |a + [offset]| ensures Less(a + [offset], i, j) {
        assert j < |a| ==> Less(a, i, j);
      }
    }
  }

  /** How far one step moves a stream's counters is how far it moves the connection's. */
  ghost predicate InStep(conn: Base, f: Flow, conn': Base, f': Flow) {
    && conn'.highestReceived - conn.highestReceived == HighestOf(f') - HighestOf(f)
    && conn'.bytesSent - conn.bytesSent == SentOf(f') - SentOf(f)
    && conn'.bytesRead - conn.bytesRead == ReadOf(f') - ReadOf(f)
    && conn'.receiveWindow == conn.receiveWindow && conn'.sendWindow == conn.sendWindow
    && conn'.bytesSent <= conn'.sendWindow && conn'.highestReceived <= conn'.receiveWindow
    && conn'.receiveWindowSize <= conn'.maxReceiveWindowSize
    && (conn'.receiveWindowSize == 0 ==> conn'.receiveWindow == 0)
  }

  lemma {:induction false} UpdateKeeps(conn: Base, f: Flow, step: Step)
    requires BaseOk(conn) && FlowOk(f) && step.StreamUpdate?
    ensures var r := FlowStep(conn, f, step);
            FlowOk(r.1) && InStep(conn, f, r.0, r.1)
  {
    if !f.s.receivedFinalOffset {
      UpdateGrows(f.s.base, step.rttKnown, step.tooFast);
      var u := GetWindowUpdate(f.s.base, step.rttKnown, step.tooFast);
      GrowingNote(f.advertised, f.s.base.receiveWindow, u.0, u.1.receiveWindow);
    }
  }

  lemma {:induction false} ReceiveKeeps(conn: Base, f: Flow, step: Step)
    requires BaseOk(conn) && FlowOk(f) && step.Receive?
    requires UpdateHighestReceived(conn, f.s, step.offset, step.final).0.Accepted?
    ensures var r := FlowStep(conn, f, step);
            FlowOk(r.1) && InStep(conn, f, r.0, r.1)
  {
  }

  lemma {:induction false} FlowKeeps(e: Endpoint, step: Step)
    requires Inv(e) && Enabled(e, step) && !step.Open? && !step.ConnCredit? && !step.ConnUpdate?
    ensures var r := FlowStep(e.conn, e.flows[step.i], step);
            FlowOk(r.1) && InStep(e.conn, e.flows[step.i], r.0, r.1)
  {
    var f := e.flows[step.i];
    assert FlowOk(f);
    if step.StreamUpdate? {
      UpdateKeeps(e.conn, f, step);
    } else if step.Receive? {
      ReceiveKeeps(e.conn, f, step);
    }
  }

  lemma {:induction false} FlowSums(e: Endpoint, i: nat, conn: Base, f: Flow, e': Endpoint)
    requires Sums(e) && i < |e.flows| && InStep(e.conn, e.flows[i], conn, f)
    requires e' == e.(conn := conn, flows := e.flows[i := f])
    ensures Sums(e')
  {
    SumUpdate(e.flows, HighestOf, i, f);
    SumUpdate(e.flows, SentOf, i, f);
    SumUpdate(e.flows, ReadOf, i, f);
  }

  lemma {:induction false} FlowsOk(flows: seq<Flow>, i: nat, f: Flow, flows': seq<Flow>)
    requires i < |flows| && FlowOk(f) && forall j | 0 <= j < |flows| :: FlowOk(flows[j])
    requires flows' == flows[i := f]
    ensures forall j | 0 <= j < |flows'| :: FlowOk(flows'[j])
  {
    forall j | 0 <= j < |flows'| ensures FlowOk(flows'[j]) {
      assert j != i ==> FlowOk(flows[j]);
    }
  }

  lemma {:induction false} FlowInv(e: Endpoint, step: Step, e': Endpoint)
    requires Inv(e) && Enabled(e, step) && !step.Open? && !step.ConnCredit? && !step.ConnUpdate? && e' == Next(e, step)
    ensures Inv(e')
  {
    var r := FlowStep(e.conn, e.flows[step.i], step);
    FlowKeeps(e, step);
    FlowSums(e, step.i, r.0, r.1, e');
    FlowsOk(e.flows, step.i, r.1, e'.flows);
    SumLe(e'.flows);
  }

  lemma {:induction false} ConnInv(e: Endpoint, step: Step)
    requires Inv(e) && (step.ConnCredit? || step.ConnUpdate?)
    ensures Inv(Next(e, step))
  {
    if step.ConnUpdate? {
      UpdateGrows(e.conn, step.rttKnown, step.tooFast);
      var u := GetWindowUpdate(e.conn, step.rttKnown, step.tooFast);
      GrowingNote(e.advertised, e.conn.receiveWindow, u.0, u.1.receiveWindow);
    }
  }

  lemma {:induction false} OpenInv(e: Endpoint, step: Step)
    requires Inv(e) && step.Open? && Enabled(e, step)
    ensures Inv(Next(e, step))
  {
    var flows := Next(e, step).flows;
    assert flows[..|e.flows|] == e.flows;
    forall i | 0 <= i < |flows| ensures FlowOk(flows[i]) {
      assert i < |e.flows| ==> FlowOk(e.flows[i]);
    }
  }

  lemma {:induction false} StepInv(e: Endpoint, step: Step)
    requires Inv(e) && Enabled(e, step)
    ensures Inv(Next(e, step))
  {
    if step.Open? {
      OpenInv(e, step);
    } else if step.ConnCredit? || step.ConnUpdate? {
      ConnInv(e, step);
    } else {
      FlowInv(e, step, Next(e, step));
    }
  }

  function Start(receiveWindow: nat, maxReceiveWindow: nat): Endpoint {
    Endpoint(NewBase(receiveWindow, maxReceiveWindow, 0), [], [])
  }

  datatype Outcome = Failed | Reached(e: Endpoint)

  /** The endpoint after a run, unless a step was not allowed. */
  ghost function Run(receiveWindow: nat, maxReceiveWindow: nat, steps: seq<Step>): (o: Outcome)
    requires receiveWindow <= maxReceiveWindow
    ensures o.Reached? ==> Inv(o.e)
  {
    if |steps| == 0 then Reached(Start(receiveWindow, maxReceiveWindow))
    else
      var before := Run(receiveWindow, maxReceiveWindow, steps[..|steps| - 1]);
      var step := steps[|steps| - 1];
      if before.Failed? || !Enabled(before.e, step) then Failed
      else
        StepInv(before.e, step);
        Reached(Next(before.e, step))
  }

  /**
   * Over every error-free run the connection's counters are the sums over its streams, nothing sent
   * exceeds either send window, nothing received either receive window, and the advertised windows of the
   * connection and of each stream strictly increase.
   */
  lemma {:induction false} TwoLevels(receiveWindow: nat, maxReceiveWindow: nat, steps: seq<Step>)
    requires receiveWindow <= maxReceiveWindow && Run(receiveWindow, maxReceiveWindow, steps).Reached?
    ensures var e := Run(receiveWindow, maxReceiveWindow, steps).e;
            && Sums(e)
            && e.conn.bytesSent <= e.conn.sendWindow
            && e.conn.bytesRead <= e.conn.highestReceived <= e.conn.receiveWindow
            && e.conn.receiveWindowSize <= e.conn.maxReceiveWindowSize && Growing(e.advertised, e.conn.receiveWindow)
            && (forall i | 0 <= i < |e.flows| :: FlowOk(e.flows[i]))
  {
    assert Inv(Run(receiveWindow, maxReceiveWindow, steps).e);
  }
}
