/** Two endpoints that respect each other's flow control windows. */
module FlowControlLink {
  // The network loses, repeats and reorders data and window updates: a sends, b receives.

  import opened FlowControl
  import opened FlowControlRuns

  /** frames: ends of the STREAM frames sent; credits and connCredits: the window updates b has sent. */
  datatype Link = Link(a: Endpoint, b: Endpoint, frames: set<(nat, nat)>, credits: set<(nat, nat)>,
                       connCredits: set<nat>)

  datatype LinkStep =
    | OpenBoth(window: nat, max: nat, aWindow: nat, aMax: nat, bWindow: nat)
    | SendData(i: nat, n: nat)
    | Deliver(i: nat, offset: nat, final: bool)
    | Local(step: Step)
    | CreditArrives(i: nat, offset: nat)
    | ConnCreditArrives(offset: nat)

  /** Delivered frames were sent; b reads, gives up and updates its windows as it likes. */
  predicate LinkEnabled(l: Link, step: LinkStep) {
    match step
    case OpenBoth(window, max, aWindow, aMax, _) => window <= max && aWindow <= aMax
    case SendData(i, n) => Enabled(l.a, Send(i, n))
    case Deliver(i, offset, final) => (i, offset) in l.frames && i < |l.b.flows|
    case Local(st) => (st.Read? || st.GiveUp? || st.StreamUpdate? || st.ConnUpdate?) && Enabled(l.b, st)
    case CreditArrives(i, offset) => (i, offset) in l.credits && i < |l.a.flows|
    case ConnCreditArrives(offset) => offset in l.connCredits
  }

  /** A frame with a contradictory final size is refused and changes nothing here. */
  function LinkNext(l: Link, step: LinkStep): Link
    requires LinkEnabled(l, step)
  {
    match step
    case OpenBoth(window, max, aWindow, aMax, bWindow) =>
      l.(a := Next(l.a, Open(aWindow, aMax, window)), b := Next(l.b, Open(window, max, bWindow)))
    case SendData(i, n) =>
      var a' := Next(l.a, Send(i, n));
      l.(a := a', frames := l.frames + {(i, a'.flows[i].s.base.bytesSent)})
    case Deliver(i, offset, final) =>
      if Enabled(l.b, Receive(i, offset, final)) then l.(b := Next(l.b, Receive(i, offset, final))) else l
    case Local(st) =>
      var b' := Next(l.b, st);
      var l' := l.(b := b');
      if st.StreamUpdate? then l'.(credits := l.credits + {(st.i, b'.flows[st.i].s.base.receiveWindow)})
      else if st.ConnUpdate? then l'.(connCredits := l.connCredits + {b'.conn.receiveWindow})
      else l'
    case CreditArrives(i, offset) => l.(a := Next(l.a, StreamCredit(i, offset)))
    case ConnCreditArrives(offset) => l.(a := Next(l.a, ConnCredit(offset)))
  }

  /** a's view of a stream is behind b's, and b has received no more than a has sent. */
  ghost predicate Behind(f: Flow, g: Flow) {
    f.s.base.sendWindow <= g.s.base.receiveWindow && HighestOf(g) <= SentOf(f)
  }

  ghost predicate FramesSent(flows: seq<Flow>, frames: set<(nat, nat)>) {
    forall x | x in frames :: x.0 < |flows| && x.1 <= SentOf(flows[x.0])
  }

  ghost predicate CreditsGiven(flows: seq<Flow>, credits: set<(nat, nat)>) {
    forall x | x in credits :: x.0 < |flows| && x.1 <= flows[x.0].s.base.receiveWindow
  }

  ghost predicate LinkInv(l: Link) {
    && Inv(l.a) && Inv(l.b) && |l.a.flows| == |l.b.flows|
    && (forall i | 0 <= i < |l.a.flows| :: Behind(l.a.flows[i], l.b.flows[i]))
    && l.a.conn.sendWindow <= l.b.conn.receiveWindow
    && FramesSent(l.a.flows, l.frames) && CreditsGiven(l.b.flows, l.credits)
    && (forall x | x in l.connCredits :: x <= l.b.conn.receiveWindow)
  }

  lemma {:induction false} SumsBehind(fs: seq<Flow>, gs: seq<Flow>)
    requires |fs| == |gs| && forall i | 0 <= i < |fs| :: HighestOf(gs[i]) <= SentOf(fs[i])
    ensures SumOf(gs, HighestOf) <= SumOf(fs, SentOf)
  {
    if |fs| > 0 {
      SumsBehind(fs[..|fs| - 1], gs[..|gs| - 1]);
    }
  }

  /** If b had received all of a frame, it would still have no more than a may send. */
  lemma {:induction false} RaisedFits(l: Link, i: nat, offset: nat)
    requires LinkInv(l) && (i, offset) in l.frames && i < |l.b.flows| && offset > HighestOf(l.b.flows[i])
    ensures offset <= l.b.flows[i].s.base.receiveWindow
    ensures l.b.conn.highestReceived + (offset - HighestOf(l.b.flows[i])) <= l.b.conn.receiveWindow
  {
    assert Behind(l.a.flows[i], l.b.flows[i]);
    assert FlowOk(l.a.flows[i]);
    var g := l.b.flows[i];
    var g' := g.(s := g.s.(base := g.s.base.(highestReceived := offset)));
    var gs := l.b.flows[i := g'];
    forall j | 0 <= j < |gs| ensures HighestOf(gs[j]) <= SentOf(l.a.flows[j]) {
      assert Behind(l.a.flows[j], l.b.flows[j]);
    }
    SumsBehind(l.a.flows, gs);
    SumUpdate(l.b.flows, HighestOf, i, g');
  }

  /** Data sent within the windows is never refused for flow control. */
  lemma {:induction false} NoViolation(l: Link, i: nat, offset: nat, final: bool)
    requires LinkInv(l) && (i, offset) in l.frames && i < |l.b.flows|
    ensures !UpdateHighestReceived(l.b.conn, l.b.flows[i].s, offset, final).0.FlowControlError?
  {
    if offset > HighestOf(l.b.flows[i]) {
      RaisedFits(l, i, offset);
    }
  }

  /** Receive windows never move back; only receiving moves the highest offset. */
  lemma {:induction false} WindowsForward(e: Endpoint, step: Step, i: nat)
    requires Inv(e) && Enabled(e, step) && !step.Open? && i < |e.flows|
    ensures var e' := Next(e, step);
            && |e'.flows| == |e.flows|
            && e.conn.receiveWindow <= e'.conn.receiveWindow
            && e.flows[i].s.base.receiveWindow <= e'.flows[i].s.base.receiveWindow
            && (!(step.Receive? && step.i == i) ==> HighestOf(e'.flows[i]) == HighestOf(e.flows[i]))
  {
    assert FlowOk(e.flows[i]);
    if step.StreamUpdate? {
      assert FlowOk(e.flows[step.i]);
      UpdateGrows(e.flows[step.i].s.base, step.rttKnown, step.tooFast);
    } else if step.ConnUpdate? {
      UpdateGrows(e.conn, step.rttKnown, step.tooFast);
    }
  }

  lemma {:induction false} LocalBehind(l: Link, st: Step, b': Endpoint)
    requires LinkInv(l) && LinkEnabled(l, Local(st)) && b' == Next(l.b, st)
    ensures |b'.flows| == |l.b.flows| && l.b.conn.receiveWindow <= b'.conn.receiveWindow
    ensures forall i | 0 <= i < |l.a.flows| :: Behind(l.a.flows[i], b'.flows[i])
  {
    WindowsAll(l.b, st);
    forall i | 0 <= i < |l.a.flows| ensures Behind(l.a.flows[i], b'.flows[i]) {
      assert Behind(l.a.flows[i], l.b.flows[i]);
      WindowsForward(l.b, st, i);
    }
  }

  lemma {:induction false} LocalCredits(l: Link, st: Step, l': Link)
    requires LinkInv(l) && LinkEnabled(l, Local(st)) && l' == LinkNext(l, Local(st))
    ensures CreditsGiven(l'.b.flows, l'.credits) && forall x | x in l'.connCredits :: x <= l'.b.conn.receiveWindow
  {
    var b' := Next(l.b, st);
    WindowsAll(l.b, st);
    CreditsStay(l.b, st, l.credits, b');
    assert l'.b == b';
    if st.StreamUpdate? {
      assert l'.credits == l.credits + {(st.i, b'.flows[st.i].s.base.receiveWindow)};
    }
  }

  lemma {:induction false} CreditsStay(b: Endpoint, st: Step, credits: set<(nat, nat)>, b': Endpoint)
    requires Inv(b) && Enabled(b, st) && !st.Open? && b' == Next(b, st) && CreditsGiven(b.flows, credits)
    ensures CreditsGiven(b'.flows, credits)
  {
    WindowsAll(b, st);
    forall x | x in credits ensures x.0 < |b'.flows| && x.1 <= b'.flows[x.0].s.base.receiveWindow {
      WindowsForward(b, st, x.0);
    }
  }

  /** A step of b that receives nothing. */
  lemma {:induction false} LocalKeeps(l: Link, st: Step, l': Link)
    requires LinkInv(l) && LinkEnabled(l, Local(st)) && l' == LinkNext(l, Local(st))
    ensures LinkInv(l')
  {
    StepInv(l.b, st);
    LocalBehind(l, st, l'.b);
    LocalCredits(l, st, l');
  }

  lemma {:induction false} WindowsAll(e: Endpoint, step: Step)
    requires Inv(e) && Enabled(e, step) && !step.Open?
    ensures |Next(e, step).flows| == |e.flows| && e.conn.receiveWindow <= Next(e, step).conn.receiveWindow
  {
    if |e.flows| > 0 {
      WindowsForward(e, step, 0);
    } else if step.ConnUpdate? {
      UpdateGrows(e.conn, step.rttKnown, step.tooFast);
    }
  }

  lemma {:induction false} DeliverKeeps(l: Link, i: nat, offset: nat, final: bool)
    requires LinkInv(l) && LinkEnabled(l, Deliver(i, offset, final))
    ensures LinkInv(LinkNext(l, Deliver(i, offset, final)))
  {
    var st := Receive(i, offset, final);
    if Enabled(l.b, st) {
      StepInv(l.b, st);
      WindowsAll(l.b, st);
      var b' := Next(l.b, st);
      forall j | 0 <= j < |l.a.flows| ensures Behind(l.a.flows[j], b'.flows[j]) {
        assert Behind(l.a.flows[j], l.b.flows[j]);
        WindowsForward(l.b, st, j);
      }
      forall x | x in l.credits ensures x.0 < |b'.flows| && x.1 <= b'.flows[x.0].s.base.receiveWindow {
        WindowsForward(l.b, st, x.0);
      }
    }
  }

  lemma {:induction false} SendKeeps(l: Link, i: nat, n: nat)
    requires LinkInv(l) && LinkEnabled(l, SendData(i, n))
    ensures LinkInv(LinkNext(l, SendData(i, n)))
  {
    StepInv(l.a, Send(i, n));
    var a' := Next(l.a, Send(i, n));
    forall j | 0 <= j < |a'.flows|
      ensures Behind(a'.flows[j], l.b.flows[j]) && SentOf(l.a.flows[j]) <= SentOf(a'.flows[j])
    {
      assert Behind(l.a.flows[j], l.b.flows[j]);
    }
  }

  lemma {:induction false} CreditKeeps(l: Link, step: LinkStep)
    requires LinkInv(l) && LinkEnabled(l, step) && (step.CreditArrives? || step.ConnCreditArrives?)
    ensures LinkInv(LinkNext(l, step))
  {
    var st := if step.CreditArrives? then StreamCredit(step.i, step.offset) else ConnCredit(step.offset);
    StepInv(l.a, st);
    var a' := Next(l.a, st);
    forall j | 0 <= j < |a'.flows|
      ensures Behind(a'.flows[j], l.b.flows[j]) && SentOf(l.a.flows[j]) == SentOf(a'.flows[j])
    {
      assert Behind(l.a.flows[j], l.b.flows[j]);
    }
  }

  lemma {:induction false} OpenKeeps(l: Link, step: LinkStep)
    requires LinkInv(l) && LinkEnabled(l, step) && step.OpenBoth?
    ensures LinkInv(LinkNext(l, step))
  {
    StepInv(l.a, Open(step.aWindow, step.aMax, step.window));
    StepInv(l.b, Open(step.window, step.max, step.bWindow));
    var l' := LinkNext(l, step);
    forall i | 0 <= i < |l'.a.flows| ensures Behind(l'.a.flows[i], l'.b.flows[i]) {
      assert i < |l.a.flows| ==> Behind(l.a.flows[i], l.b.flows[i]);
    }
  }

  lemma {:induction false} LinkKeeps(l: Link, step: LinkStep)
    requires LinkInv(l) && LinkEnabled(l, step)
    ensures LinkInv(LinkNext(l, step))
  {
    match step
    case OpenBoth(_, _, _, _, _) => OpenKeeps(l, step);
    case SendData(i, n) => SendKeeps(l, i, n);
    case Deliver(i, offset, final) => DeliverKeeps(l, i, offset, final);
    case Local(st) => LocalKeeps(l, st, LinkNext(l, step));
    case CreditArrives(_, _) => CreditKeeps(l, step);
    case ConnCreditArrives(_) => CreditKeeps(l, step);
  }

  datatype LinkOutcome = NotPossible | Linked(l: Link)

  /** The two endpoints after a run; the handshake tells a the initial connection window of b. */
  ghost function LinkRun(bWindow: nat, bMax: nat, aWindow: nat, aMax: nat, steps: seq<LinkStep>): (o: LinkOutcome)
    requires bWindow <= bMax && aWindow <= aMax
    ensures o.Linked? ==> LinkInv(o.l)
  {
    if |steps| == 0 then Linked(Link(Start(aWindow, aMax), Start(bWindow, bMax), {}, {}, {bWindow}))
    else
      var before := LinkRun(bWindow, bMax, aWindow, aMax, steps[..|steps| - 1]);
      var step := steps[|steps| - 1];
      if before.NotPossible? || !LinkEnabled(before.l, step) then NotPossible
      else
        LinkKeeps(before.l, step);
        Linked(LinkNext(before.l, step))
  }

  /** In every run no frame, however late or often it arrives, is refused for exceeding a window. */
  lemma {:induction false} WindowsRespected(bWindow: nat, bMax: nat, aWindow: nat, aMax: nat, steps: seq<LinkStep>,
                                            i: nat, offset: nat, final: bool)
    requires bWindow <= bMax && aWindow <= aMax
    requires var o := LinkRun(bWindow, bMax, aWindow, aMax, steps);
             o.Linked? && LinkEnabled(o.l, Deliver(i, offset, final))
    ensures var l := LinkRun(bWindow, bMax, aWindow, aMax, steps).l;
            !UpdateHighestReceived(l.b.conn, l.b.flows[i].s, offset, final).0.FlowControlError?
  {
    NoViolation(LinkRun(bWindow, bMax, aWindow, aMax, steps).l, i, offset, final);
  }
}
