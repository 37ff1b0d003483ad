/** What every run of the sent packet handler keeps: bytes in flight, one fate per packet, exact loss detection. */
module SentPacketRuns {
  import opened Protocol
  import opened AckRanges
  import opened PacketSeqs
  import opened AckScan
  import opened SentPackets
  import PNG = PacketNumberGenerator

  /** The packets a space tracks; none once the space is dropped. */
  function Tracked(s: Handler, level: Level): seq<Packet> {
    var space := GetSpace(s, level);
    if space.Some? then space.value.history else []
  }

  function Total(s: Handler): nat {
    Sum(Tracked(s, InitialLevel)) + Sum(Tracked(s, HandshakeLevel)) + Sum(Tracked(s, OneRttLevel))
  }

  /** The numbers of one space that have left according to the log. */
  function Gone(log: seq<Event>, level: Level): multiset<int> {
    if |log| == 0 then multiset{}
    else if log[|log| - 1].level == level then Gone(log[..|log| - 1], level) + multiset{log[|log| - 1].pn}
    else Gone(log[..|log| - 1], level)
  }

  /** The numbers of all ack-eliciting packets ever sent in each space. */
  datatype SentNumbers = SentNumbers(initial: set<int>, handshake: set<int>, oneRtt: set<int>)

  function SentIn(n: SentNumbers, level: Level): set<int> {
    match level
    case InitialLevel => n.initial
    case HandshakeLevel => n.handshake
    case OneRttLevel => n.oneRtt
  }

  function AddSent(n: SentNumbers, level: Level, pn: int): SentNumbers {
    match level
    case InitialLevel => n.(initial := n.initial + {pn})
    case HandshakeLevel => n.(handshake := n.handshake + {pn})
    case OneRttLevel => n.(oneRtt := n.oneRtt + {pn})
  }

  ghost predicate SpaceOk(space: Space) {
    && Increasing(space.history)
    && PNG.Inv(space.numbers)
    && space.largestSent < space.numbers.next
    && (forall p | p in space.history :: 0 <= p.pn < space.numbers.next)
  }

  /** Every packet sent is either tracked once or has left once, and no number will be used again. */
  ghost predicate Accounted(s: Handler, sent: set<int>, level: Level) {
    && Numbers(Tracked(s, level)) + Gone(s.log, level) == multiset(sent)
    && (GetSpace(s, level).Some? ==>
          && SpaceOk(GetSpace(s, level).value)
          && forall pn | pn in sent :: pn < GetSpace(s, level).value.numbers.next)
  }

  /** A handler together with what it sent and the bytes that Retry made it forget. */
  datatype World = World(s: Handler, sent: SentNumbers, forgotten: nat)

  ghost predicate Inv(w: World) {
    && w.s.bytesInFlight + w.forgotten == Total(w.s)
    && Accounted(w.s, w.sent.initial, InitialLevel)
    && Accounted(w.s, w.sent.handshake, HandshakeLevel)
    && Accounted(w.s, w.sent.oneRtt, OneRttLevel)
  }

  datatype Step =
    | Send(level: Level, random: nat, length: nat, sendTime: int, acks: int, ackEliciting: bool)
    | Ack(level: Level, ranges: seq<AckRange>, lostSendTime: int, lossDelay: int)
    | Alarm(lostSendTime: int, lossDelay: int)
    | Probe
    | Drop(level: Level)
    | Retry(random: nat)

  ghost predicate Enabled(s: Handler, step: Step) {
    match step
    case Send(level, _, _, _, _, _) => GetSpace(s, level).Some?
    case Ack(level, r, _, _) => GetSpace(s, level).Some? && Valid(r)
    case Alarm(_, _) => true
    case Probe => true
    case Drop(level) => !level.OneRttLevel? && GetSpace(s, level).Some?
    case Retry(_) => s.initial.Some?
  }

  /** The bytes in flight outside the Initial space. */
  function Others(s: Handler): nat {
    Sum(Tracked(s, HandshakeLevel)) + Sum(Tracked(s, OneRttLevel))
  }

  ghost function Next(w: World, step: Step): World
    requires Enabled(w.s, step)
  {
    match step
    case Send(level, random, length, time, acks, eliciting) =>
      var pn := GetSpace(w.s, level).value.numbers.next;
      w.(s := Sent(w.s, level, random, length, time, acks, eliciting),
         sent := if eliciting then AddSent(w.sent, level, pn) else w.sent)
    case Ack(level, r, t, d) => w.(s := ReceivedAck(w.s, level, r, t, d).1)
    case Alarm(t, d) => w.(s := Timeout(w.s, t, d))
    case Probe => w.(s := QueueProbe(w.s).1)
    case Drop(level) => w.(s := DropSpace(w.s, level))
    case Retry(random) => w.(s := ResetForRetry(w.s, random), forgotten := Others(w.s))
  }

  // Removing a selection of packets.

  lemma {:induction false} Agree(h: seq<Packet>, a: set<int>, b: set<int>)
    requires forall i | 0 <= i < |h| :: h[i].pn in a <==> h[i].pn in b
    ensures Only(h, a) == Only(h, b) && Without(h, a) == Without(h, b)
  {
    if |h| > 0 {
      Agree(h[1..], a, b);
    }
  }

  /** Removing the numbers of the selected packets is removing the selection. */
  lemma {:induction false} RemoveSelected(h: seq<Packet>, a: set<int>)
    ensures Without(h, PnSet(Only(h, a))) == Without(h, a)
  {
    var g := Only(h, a);
    forall i | 0 <= i < |h| ensures h[i].pn in PnSet(g) <==> h[i].pn in a {
      WithoutMember(h, a, h[i]);
      if h[i].pn in PnSet(g) {
        var j :| 0 <= j < |g| && g[j].pn == h[i].pn;
        WithoutMember(h, a, g[j]);
      }
      if h[i].pn in a {
        assert h[i] in g;
      }
    }
    Agree(h, PnSet(g), a);
  }

  lemma {:induction false} GoneSnoc(log: seq<Event>, e: Event, l: Level)
    ensures Gone(log + [e], l) == if e.level == l then Gone(log, l) + multiset{e.pn} else Gone(log, l)
  {
    assert (log + [e])[..|log|] == log;
  }

  lemma {:induction false} NumbersSnoc(h: seq<Packet>)
    requires |h| > 0
    ensures Numbers(h) == Numbers(h[..|h| - 1]) + multiset{h[|h| - 1].pn}
  {
    var last := h[|h| - 1];
    assert h == h[..|h| - 1] + [last];
    SumConcat(h[..|h| - 1], [last]);
    assert Numbers([last]) == multiset{last.pn};
  }

  lemma {:induction false} EventsInit(log: seq<Event>, level: Level, h: seq<Packet>, n: nat, fate: Fate)
    requires n + 1 == |h|
    ensures log + Events(level, h, fate) == (log + Events(level, h[..n], fate)) + [Event(level, h[n].pn, fate)]
  {
  }

  lemma {:induction false} GoneEvents(log: seq<Event>, level: Level, h: seq<Packet>, fate: Fate, l: Level)
    ensures Gone(log + Events(level, h, fate), l) == if l == level then Gone(log, l) + Numbers(h) else Gone(log, l)
  {
    if |h| == 0 {
      assert log + Events(level, h, fate) == log;
    } else {
      var n := |h| - 1;
      EventsInit(log, level, h, n, fate);
      GoneEvents(log, level, h[..n], fate, l);
      GoneSnoc(log + Events(level, h[..n], fate), Event(level, h[n].pn, fate), l);
      NumbersSnoc(h);
    }
  }

  lemma {:induction false} WithoutOk(space: Space, a: set<int>)
    requires SpaceOk(space)
    ensures SpaceOk(space.(history := Without(space.history, a)))
  {
    WithoutIncreasing(space.history, a);
    forall p | p in Without(space.history, a) ensures 0 <= p.pn < space.numbers.next {
      WithoutMember(space.history, a, p);
    }
  }

  ghost predicate Selection(gone: seq<Packet>, h: seq<Packet>) {
    exists a: set<int> :: gone == Only(h, a)
  }

  lemma {:induction false} TakeHere(s: Handler, level: Level, gone: seq<Packet>, fate: Fate, sent: set<int>)
    requires GetSpace(s, level).Some? && Selection(gone, Tracked(s, level)) && Accounted(s, sent, level)
    ensures Accounted(Take(s, level, gone, fate), sent, level)
  {
    var space := GetSpace(s, level).value;
    var a :| gone == Only(space.history, a);
    RemoveSelected(space.history, a);
    var space' := space.(history := Without(space.history, a));
    var s' := Take(s, level, gone, fate);
    assert GetSpace(s', level) == Some(space') && s'.log == s.log + Events(level, gone, fate);
    WithoutOk(space, a);
    TakeNumbers(s, level, gone, fate, a, s'.log);
  }

  lemma {:induction false} TakeNumbers(s: Handler, level: Level, gone: seq<Packet>, fate: Fate, a: set<int>,
                                       log: seq<Event>)
    requires gone == Only(Tracked(s, level), a) && log == s.log + Events(level, gone, fate)
    ensures Numbers(Without(Tracked(s, level), a)) + Gone(log, level) == Numbers(Tracked(s, level)) + Gone(s.log, level)
  {
    Partition(Tracked(s, level), a);
    GoneEvents(s.log, level, gone, fate, level);
  }

  /** Taking out a selection keeps the books of every space. */
  lemma {:induction false} TakeAccounted(s: Handler, level: Level, gone: seq<Packet>, fate: Fate, l: Level,
                                         sent: set<int>)
    requires GetSpace(s, level).Some? && Selection(gone, Tracked(s, level)) && Accounted(s, sent, l)
    ensures Accounted(Take(s, level, gone, fate), sent, l)
  {
    if l == level {
      TakeHere(s, level, gone, fate, sent);
    } else {
      GoneEvents(s.log, level, gone, fate, l);
      assert GetSpace(Take(s, level, gone, fate), l) == GetSpace(s, l);
    }
  }

  lemma {:induction false} TakeTotal(s: Handler, level: Level, gone: seq<Packet>, fate: Fate)
    requires GetSpace(s, level).Some? && Selection(gone, Tracked(s, level))
    ensures Total(Take(s, level, gone, fate)) == Total(s) - Sum(gone)
  {
    var h := Tracked(s, level);
    var a :| gone == Only(h, a);
    RemoveSelected(h, a);
    Partition(h, a);
  }

  lemma {:induction false} TakeInv(w: World, level: Level, gone: seq<Packet>, fate: Fate)
    requires GetSpace(w.s, level).Some? && Selection(gone, Tracked(w.s, level)) && Inv(w)
    ensures Inv(w.(s := Take(w.s, level, gone, fate)))
  {
    TakeTotal(w.s, level, gone, fate);
    TakeAccounted(w.s, level, gone, fate, InitialLevel, w.sent.initial);
    TakeAccounted(w.s, level, gone, fate, HandshakeLevel, w.sent.handshake);
    TakeAccounted(w.s, level, gone, fate, OneRttLevel, w.sent.oneRtt);
  }

  // The steps, one by one.

  /** The books of a space do not depend on its timer and its largest acknowledged number. */
  lemma {:induction false} SameSpace(w: World, level: Level, space: Space, w': World)
    requires Inv(w) && GetSpace(w.s, level).Some?
    requires var old' := GetSpace(w.s, level).value;
             old' == space.(lossTime := old'.lossTime, largestAcked := old'.largestAcked)
    requires w' == w.(s := SetSpace(w.s, level, space))
    ensures Inv(w')
  {
    forall l ensures Tracked(w'.s, l) == Tracked(w.s, l) {
      assert l != level ==> GetSpace(w'.s, l) == GetSpace(w.s, l);
    }
  }

  lemma {:induction false} DetectInv(w: World, level: Level, t: int, d: int)
    requires GetSpace(w.s, level).Some? && Inv(w)
    ensures Inv(w.(s := DetectLost(w.s, level, t, d)))
  {
    var space := GetSpace(w.s, level).value;
    var space' := space.(lossTime := LossTime(space.history, space.largestAcked, t, d));
    var w1 := w.(s := SetSpace(w.s, level, space'));
    SameSpace(w, level, space', w1);
    LostSetExact(space.history, space.largestAcked, t);
    TakeInv(w1, level, Lost(space.history, space.largestAcked, t), FateLost);
  }

  /** The books do not depend on the timers. */
  lemma {:induction false} SameBooks(w: World, w': World)
    requires Inv(w) && w'.sent == w.sent && w'.forgotten == w.forgotten
    requires w'.s.initial == w.s.initial && w'.s.handshake == w.s.handshake && w'.s.oneRtt == w.s.oneRtt
    requires w'.s.bytesInFlight == w.s.bytesInFlight && w'.s.log == w.s.log
    ensures Inv(w')
  {
    assert forall l :: GetSpace(w'.s, l) == GetSpace(w.s, l);
  }

  /** The handler once the newly acknowledged packets have left. */
  function AfterAcked(s: Handler, level: Level, acked: seq<Packet>): Handler
    requires GetSpace(s, level).Some?
  {
    var s2 := Take(s, level, acked, FateAcked);
    if level.OneRttLevel? then s2.(lowestNotConfirmedAcked := ConfirmedAcked(s.lowestNotConfirmedAcked, acked)) else s2
  }

  lemma {:induction false} AckedInv(w: World, level: Level, r: seq<AckRange>, w': World)
    requires GetSpace(w.s, level).Some? && Valid(r) && Inv(w)
    requires w' == w.(s := AfterAcked(w.s, level, Acked(Tracked(w.s, level), r)))
    ensures Inv(w')
  {
    var acked := Acked(Tracked(w.s, level), r);
    AckedSetExact(Tracked(w.s, level), r);
    TakeInv(w, level, acked, FateAcked);
    SameBooks(w.(s := Take(w.s, level, acked, FateAcked)), w');
  }

  lemma {:induction false} NewlyAckedInv(w: World, level: Level, r: seq<AckRange>, t: int, d: int)
    requires GetSpace(w.s, level).Some? && Valid(r) && Inv(w)
    ensures var s3 := AfterAcked(w.s, level, Acked(Tracked(w.s, level), r));
            Inv(w.(s := DetectLost(s3, level, t, d).(ptoCount := 0, numProbesToSend := 0)))
  {
    var w3 := w.(s := AfterAcked(w.s, level, Acked(Tracked(w.s, level), r)));
    AckedInv(w, level, r, w3);
    DetectInv(w3, level, t, d);
    var w4 := w3.(s := DetectLost(w3.s, level, t, d));
    SameBooks(w4, w4.(s := w4.s.(ptoCount := 0, numProbesToSend := 0)));
  }

  lemma {:induction false} AckInv(w: World, level: Level, r: seq<AckRange>, t: int, d: int)
    requires GetSpace(w.s, level).Some? && Valid(r) && Inv(w)
    ensures Inv(w.(s := ReceivedAck(w.s, level, r, t, d).1))
  {
    var space := GetSpace(w.s, level).value;
    if r[0].largest <= space.largestSent {
      var space' := space.(largestAcked := Max(space.largestAcked, r[0].largest));
      var w1 := w.(s := SetSpace(w.s, level, space'));
      SameSpace(w, level, space', w1);
      if PNG.Validate(space.numbers, r) {
        NewlyAckedInv(w1, level, r, t, d);
      }
    }
  }

  /** The space after sending one packet in it. */
  ghost function SentSpace(space: Space, step: Step): Space
    requires step.Send?
  {
    var (pn, numbers) := PNG.Pop(space.numbers, step.random);
    var space' := space.(numbers := numbers, largestSent := pn);
    if step.ackEliciting
    then space'.(history := space.history + [Packet(pn, step.length, step.sendTime, step.acks)])
    else space'
  }

  lemma {:induction false} SentSpaceOk(space: Space, step: Step)
    requires SpaceOk(space) && step.Send?
    ensures SpaceOk(SentSpace(space, step)) && space.numbers.next < SentSpace(space, step).numbers.next
  {
    PNG.PopInv(space.numbers, step.random);
    if step.ackEliciting {
      var n := |space.history|;
      assert n > 0 ==> space.history[n - 1] in space.history;
      IncreasingSnoc(space.history, Packet(space.numbers.next, step.length, step.sendTime, step.acks));
    }
  }

  ghost function SentStep(s: Handler, step: Step): Handler
    requires step.Send? && GetSpace(s, step.level).Some?
  {
    Sent(s, step.level, step.random, step.length, step.sendTime, step.acks, step.ackEliciting)
  }

  lemma {:induction false} NumbersAdd(h: seq<Packet>, p: Packet, gone: multiset<int>, sent: set<int>)
    requires Numbers(h) + gone == multiset(sent) && p.pn !in sent
    ensures Numbers(h + [p]) + gone == multiset(sent + {p.pn}) && Sum(h + [p]) == Sum(h) + p.length
  {
    SumConcat(h, [p]);
    assert Numbers([p]) == multiset{p.pn};
    assert multiset(sent + {p.pn}) == multiset(sent) + multiset{p.pn};
  }

  lemma {:induction false} SentHistory(space: Space, step: Step, gone: multiset<int>, sent: set<int>)
    requires step.Send? && Numbers(space.history) + gone == multiset(sent) && space.numbers.next !in sent
    ensures Numbers(SentSpace(space, step).history) + gone
            == multiset(if step.ackEliciting then sent + {space.numbers.next} else sent)
    ensures Sum(SentSpace(space, step).history) == Sum(space.history) + if step.ackEliciting then step.length else 0
  {
    if step.ackEliciting {
      NumbersAdd(space.history, Packet(space.numbers.next, step.length, step.sendTime, step.acks), gone, sent);
    }
  }

  lemma {:induction false} SentHere(s: Handler, step: Step, sent: set<int>)
    requires step.Send? && GetSpace(s, step.level).Some? && Accounted(s, sent, step.level)
    ensures var pn := GetSpace(s, step.level).value.numbers.next;
            Accounted(SentStep(s, step), if step.ackEliciting then sent + {pn} else sent, step.level)
    ensures Sum(Tracked(SentStep(s, step), step.level))
            == Sum(Tracked(s, step.level)) + if step.ackEliciting then step.length else 0
  {
    var space := GetSpace(s, step.level).value;
    assert GetSpace(SentStep(s, step), step.level) == Some(SentSpace(space, step)) && SentStep(s, step).log == s.log;
    SentSpaceOk(space, step);
    SentHistory(space, step, Gone(s.log, step.level), sent);
  }

  lemma {:induction false} SentThere(s: Handler, step: Step, l: Level, sent: set<int>)
    requires step.Send? && GetSpace(s, step.level).Some? && l != step.level && Accounted(s, sent, l)
    ensures Accounted(SentStep(s, step), sent, l) && Tracked(SentStep(s, step), l) == Tracked(s, l)
  {
    assert GetSpace(SentStep(s, step), l) == GetSpace(s, l) && SentStep(s, step).log == s.log;
  }

  lemma {:induction false} SendInv(w: World, step: Step)
    requires step.Send? && Enabled(w.s, step) && Inv(w)
    ensures Inv(Next(w, step))
  {
    var s' := SentStep(w.s, step);
    SentHere(w.s, step, SentIn(w.sent, step.level));
    if step.level != InitialLevel { SentThere(w.s, step, InitialLevel, w.sent.initial); }
    if step.level != HandshakeLevel { SentThere(w.s, step, HandshakeLevel, w.sent.handshake); }
    if step.level != OneRttLevel { SentThere(w.s, step, OneRttLevel, w.sent.oneRtt); }
    assert s'.bytesInFlight == w.s.bytesInFlight + if step.ackEliciting then step.length else 0;
  }

  lemma {:induction false} FirstIsSelection(h: seq<Packet>)
    requires Increasing(h) && |h| > 0
    ensures Selection(h[..1], h)
  {
    var pn := h[0].pn;
    forall i | 0 <= i < |h[1..]| ensures h[1..][i].pn !in {pn} {
      assert Less(h, 0, i + 1);
    }
    NoneSelected(h[1..], {pn});
    assert Only(h, {pn}) == h[..1];
  }

  lemma {:induction false} ProbeInv(w: World)
    requires Inv(w)
    ensures Inv(w.(s := QueueProbe(w.s).1))
  {
    var level := ProbeLevel(w.s);
    if level.Some? {
      FirstIsSelection(Tracked(w.s, level.value));
      TakeInv(w, level.value, Tracked(w.s, level.value)[..1], FateProbed);
    }
  }

  lemma {:induction false} DropAccounted(s: Handler, level: Level, s': Handler, sent: set<int>, l: Level)
    requires !level.OneRttLevel? && GetSpace(s, level).Some? && s' == DropSpace(s, level) && Accounted(s, sent, l)
    ensures Accounted(s', sent, l)
  {
    GoneEvents(s.log, level, Tracked(s, level), FateDropped, l);
    assert GetSpace(s', l) == if l == level then None else GetSpace(s, l);
  }

  lemma {:induction false} DropInv(w: World, level: Level)
    requires Inv(w) && !level.OneRttLevel? && GetSpace(w.s, level).Some?
    ensures Inv(w.(s := DropSpace(w.s, level)))
  {
    var s' := DropSpace(w.s, level);
    DropAccounted(w.s, level, s', w.sent.initial, InitialLevel);
    DropAccounted(w.s, level, s', w.sent.handshake, HandshakeLevel);
    DropAccounted(w.s, level, s', w.sent.oneRtt, OneRttLevel);
  }

  lemma {:induction false} RetryAccounted(s: Handler, random: nat, s': Handler, sent: set<int>, l: Level)
    requires s.initial.Some? && s' == ResetForRetry(s, random) && Accounted(s, sent, l)
    ensures Accounted(s', sent, l)
  {
    GoneEvents(s.log, InitialLevel, Tracked(s, InitialLevel), FateReset, l);
  }

  lemma {:induction false} RetryInv(w: World, random: nat)
    requires Inv(w) && w.s.initial.Some?
    ensures Inv(Next(w, Retry(random)))
  {
    var s' := ResetForRetry(w.s, random);
    RetryAccounted(w.s, random, s', w.sent.initial, InitialLevel);
    RetryAccounted(w.s, random, s', w.sent.handshake, HandshakeLevel);
    RetryAccounted(w.s, random, s', w.sent.oneRtt, OneRttLevel);
  }

  lemma {:induction false} AlarmInv(w: World, t: int, d: int)
    requires Inv(w)
    ensures Inv(w.(s := Timeout(w.s, t, d)))
  {
    var (time, level) := EarliestLossTime(w.s);
    if time.Some? {
      DetectInv(w, level, t, d);
    }
  }

  lemma {:induction false} StepInv(w: World, step: Step)
    requires Inv(w) && Enabled(w.s, step)
    ensures Inv(Next(w, step))
  {
    match step
    case Send(_, _, _, _, _, _) => SendInv(w, step);
    case Ack(level, r, t, d) => AckInv(w, level, r, t, d);
    case Alarm(t, d) => AlarmInv(w, t, d);
    case Probe => ProbeInv(w);
    case Drop(level) => DropInv(w, level);
    case Retry(random) => RetryInv(w, random);
  }

  function Start(initialPN: nat, random: nat): World {
    World(Handler(Some(NewSpace(initialPN, random)), Some(NewSpace(0, random)), NewSpace(0, random), 0, 0, 0, 0, []),
          SentNumbers({}, {}, {}), 0)
  }

  lemma {:induction false} StartInv(initialPN: nat, random: nat)
    ensures Inv(Start(initialPN, random))
  {
  }

  datatype Outcome = Failed | Reached(w: World)

  /** The state after a run, unless a step uses a space that was dropped. */
  ghost function Run(initialPN: nat, random: nat, steps: seq<Step>): (o: Outcome)
    ensures o.Reached? ==> Inv(o.w)
  {
    if |steps| == 0 then
      StartInv(initialPN, random);
      Reached(Start(initialPN, random))
    else
      var before := Run(initialPN, random, steps[..|steps| - 1]);
      if before.Failed? || !Enabled(before.w.s, steps[|steps| - 1]) then Failed
      else
        StepInv(before.w, steps[|steps| - 1]);
        Reached(Next(before.w, steps[|steps| - 1]))
  }

  lemma {:induction false} GoneCount(log: seq<Event>, level: Level, pn: int)
    ensures pn in Gone(log, level) <==> exists i :: 0 <= i < |log| && log[i].level == level && log[i].pn == pn
    decreases |log|
  {
    if |log| > 0 {
      var init := log[..|log| - 1];
      GoneCount(init, level, pn);
      assert log == init + [log[|log| - 1]];
    }
  }

  ghost predicate Logged(log: seq<Event>, i: int, level: Level, pn: int) {
    0 <= i < |log| && log[i].level == level && log[i].pn == pn
  }

  lemma {:induction false} LastRepeats(log: seq<Event>, level: Level, pn: int, k: int)
    requires Logged(log, k, level, pn) && k < |log| - 1 && Logged(log, |log| - 1, level, pn)
    ensures Gone(log, level)[pn] >= 2
  {
    var init := log[..|log| - 1];
    GoneCount(init, level, pn);
    assert init[k].level == level && init[k].pn == pn;
  }

  /** No two log entries name the same packet. */
  lemma {:induction false} NoTwice(log: seq<Event>, level: Level, pn: int, i: int, j: int)
    requires Gone(log, level)[pn] <= 1 && Logged(log, i, level, pn) && Logged(log, j, level, pn)
    ensures i == j
    decreases |log|
  {
    var n := |log| - 1;
    if i < n && j < n {
      NoTwice(log[..n], level, pn, i, j);
    } else if i < n {
      LastRepeats(log, level, pn, i);
    } else if j < n {
      LastRepeats(log, level, pn, j);
    }
  }

  lemma {:induction false} NumbersCount(h: seq<Packet>, pn: int)
    ensures pn in Numbers(h) <==> exists p :: p in h && p.pn == pn
  {
    if |h| > 0 {
      NumbersCount(h[1..], pn);
      assert h == [h[0]] + h[1..];
    }
  }

  ghost predicate IsTracked(s: Handler, level: Level, pn: int) {
    exists p :: p in Tracked(s, level) && p.pn == pn
  }

  ghost predicate HasLeft(s: Handler, level: Level, pn: int) {
    exists i :: Logged(s.log, i, level, pn)
  }

  lemma {:induction false} OneFateIn(s: Handler, sent: set<int>, level: Level, pn: int)
    requires Accounted(s, sent, level)
    ensures pn in sent <==> IsTracked(s, level, pn) || HasLeft(s, level, pn)
    ensures !(IsTracked(s, level, pn) && HasLeft(s, level, pn))
    ensures Gone(s.log, level)[pn] <= 1
  {
    NumbersCount(Tracked(s, level), pn);
    GoneCount(s.log, level, pn);
    var a, b := Numbers(Tracked(s, level)), Gone(s.log, level);
    assert (a + b)[pn] == a[pn] + b[pn];
    assert pn in b <==> HasLeft(s, level, pn) by {
      assert forall i ::
          Logged(s.log, i, level, pn) <==> 0 <= i < |s.log| && s.log[i].level == level && s.log[i].pn == pn;
    }
  }

  /**
   * Every ack-eliciting packet sent is still tracked or has left by exactly one fate, never both; and
   * nothing else is tracked or has left. So its callbacks fire at most once.
   */
  lemma {:induction false} OneFate(initialPN: nat, random: nat, steps: seq<Step>, level: Level, pn: int)
    requires Run(initialPN, random, steps).Reached?
    ensures var w := Run(initialPN, random, steps).w;
            && (pn in SentIn(w.sent, level) <==> IsTracked(w.s, level, pn) || HasLeft(w.s, level, pn))
            && !(IsTracked(w.s, level, pn) && HasLeft(w.s, level, pn))
            && (forall i, j | Logged(w.s.log, i, level, pn) && Logged(w.s.log, j, level, pn) :: i == j)
  {
    var w := Run(initialPN, random, steps).w;
    assert Accounted(w.s, SentIn(w.sent, level), level);
    OneFateIn(w.s, SentIn(w.sent, level), level, pn);
    forall i, j | Logged(w.s.log, i, level, pn) && Logged(w.s.log, j, level, pn) ensures i == j {
      NoTwice(w.s.log, level, pn, i, j);
    }
  }

  /**
   * An ACK that newly acknowledges a packet leaves exactly the packets that it neither acknowledges nor
   * makes lost by time or by number, so none that is three or more below the largest acknowledged number.
   */
  lemma {:induction false} AckExact(s: Handler, level: Level, r: seq<AckRange>, t: int, d: int, p: Packet)
    requires GetSpace(s, level).Some? && Increasing(Tracked(s, level)) && Valid(r)
    requires r[0].largest <= GetSpace(s, level).value.largestSent && PNG.Validate(GetSpace(s, level).value.numbers, r)
    requires |Acked(Tracked(s, level), r)| > 0
    ensures var s' := ReceivedAck(s, level, r, t, d).1;
            var largest := Max(GetSpace(s, level).value.largestAcked, r[0].largest);
            && (p in Tracked(s', level) <==>
                  && p in Tracked(s, level) && !Acks(r, p.pn)
                  && (p.pn <= largest ==> p.sendTime >= t && largest < p.pn + 3))
            && (p in Tracked(s', level) ==> largest < p.pn + 3)
  {
    var h := Tracked(s, level);
    var largest := Max(GetSpace(s, level).value.largestAcked, r[0].largest);
    AckedSetExact(h, r);
    var a := AckedSet(h, r);
    RemoveSelected(h, a);
    WithoutMember(h, a, p);
    AcksPacketExact(r, p.pn);
    WithoutIncreasing(h, a);
    var h1 := Without(h, a);
    LostSetExact(h1, largest, t);
    RemoveSelected(h1, LostSet(h1, largest, t));
    WithoutMember(h1, LostSet(h1, largest, t), p);
  }

  lemma {:induction false} EventsHas(level: Level, g: seq<Packet>, fate: Fate, p: Packet)
    requires p in g
    ensures Event(level, p.pn, fate) in Events(level, g, fate)
  {
    var i :| 0 <= i < |g| && g[i] == p;
    assert Events(level, g, fate)[i] == Event(level, p.pn, fate);
  }

  /** Each packet that such an ACK takes out is reported as what happened to it: acknowledged, else lost. */
  lemma {:induction false} AckReports(s: Handler, level: Level, r: seq<AckRange>, t: int, d: int, p: Packet)
    requires GetSpace(s, level).Some? && Increasing(Tracked(s, level)) && Valid(r)
    requires r[0].largest <= GetSpace(s, level).value.largestSent && PNG.Validate(GetSpace(s, level).value.numbers, r)
    requires |Acked(Tracked(s, level), r)| > 0 && p in Tracked(s, level)
    ensures var log := ReceivedAck(s, level, r, t, d).1.log;
            var largest := Max(GetSpace(s, level).value.largestAcked, r[0].largest);
            && (Acks(r, p.pn) ==> Event(level, p.pn, FateAcked) in log)
            && (!Acks(r, p.pn) && IsLost(p, largest, t) ==> Event(level, p.pn, FateLost) in log)
  {
    var h := Tracked(s, level);
    var largest := Max(GetSpace(s, level).value.largestAcked, r[0].largest);
    AckedSetExact(h, r);
    var a := AckedSet(h, r);
    RemoveSelected(h, a);
    WithoutMember(h, a, p);
    AcksPacketExact(r, p.pn);
    WithoutIncreasing(h, a);
    var h1 := Without(h, a);
    LostSetExact(h1, largest, t);
    WithoutMember(h1, LostSet(h1, largest, t), p);
    if Acks(r, p.pn) {
      EventsHas(level, Acked(h, r), FateAcked, p);
    } else if IsLost(p, largest, t) {
      EventsHas(level, Lost(h1, largest, t), FateLost, p);
    }
  }
}
