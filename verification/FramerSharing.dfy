/** How a packet is shared between the streams that want to send (quic-go/framer.go). */
module FramerSharing {
  import opened Protocol
  import opened VarInt
  import opened StreamFrames
  import opened Framer
  import SS = SendStream
  import SP = SendProgress

  /** One call for STREAM frames: the room in the packet, each stream's part of it, and the limit on streams. */
  datatype Call = Call(windows: nat -> Window, maxLen: nat, part: nat, limit: nat)

  ghost predicate CallOk(c: Call, numActive: nat) {
    && c.part <= c.maxLen <= MAX_FRAME_SIZE && c.limit > 0 && numActive > 0
    && c.part == c.maxLen / Min(numActive, c.limit)
  }

  /** A part and the length field that the last frame does not need. */
  function Offer(n: nat): nat
    requires n <= MAX_FRAME_SIZE
  {
    n + VarIntLen(n)
  }

  function Opt<T>(x: Option<T>): seq<T> {
    if x.Some? then [x.value] else []
  }

  function If<T>(b: bool, x: T): seq<T> {
    if b then [x] else []
  }

  ghost predicate TurnOk(p: Progress, c: Call, id: nat) {
    && c.part <= c.maxLen <= MAX_FRAME_SIZE && MIN_STREAM_FRAME_SIZE + p.length <= c.maxLen
    && id in p.framer.streams && SenderOk(p.framer.streams[id], id)
  }

  /** The stream is asked for its part, or for what is left of the packet. */
  function RoomFor(p: Progress, c: Call): nat
    requires c.part <= c.maxLen <= MAX_FRAME_SIZE && MIN_STREAM_FRAME_SIZE + p.length <= c.maxLen
  {
    Offer(Min(c.maxLen - p.length, c.part))
  }

  /** What is said about one stream of the queue, the first one, between two states of the loop. */
  ghost predicate Turn(p: Progress, c: Call, id: nat, r: Progress) {
    |p.framer.queue| > 0 &&
    if id !in p.framer.streams then
      && r.frames == p.frames && r.length == p.length && r.muxed == p.muxed
      && r.framer.streams == p.framer.streams && r.framer.queue == p.framer.queue[1..]
    else
      && TurnOk(p, c, id)
      && var s, w := p.framer.streams[id], c.windows(id);
         var pop := SS.Pop(s, RoomFor(p, c), w.size);
         && r.frames == p.frames + Opt(pop.1) && r.muxed == p.muxed + 1
         && (pop.1.Some? ==> FrameOk(pop.1.value, id) && pop.1.value.dataLenPresent)
         && (pop.1.Some? ==> Length(pop.1.value) <= RoomFor(p, c))
         && r.length == p.length + (if pop.1.Some? then Length(pop.1.value) else 0)
         && r.framer.streams == p.framer.streams[id := pop.0]
         && r.framer.queue
            == p.framer.queue[1..] + If(SS.HasMoreData(s, RoomFor(p, c), w.size, w.newlyBlocked), id)
  }

  lemma {:induction false} VisitTurns(p: Progress, c: Call, numActive: nat, wait: seq<nat>)
    requires RoundOk(p, wait, c.maxLen) && |wait| > 0 && CallOk(c, numActive)
    requires MIN_STREAM_FRAME_SIZE + p.length <= c.maxLen
    ensures |p.framer.queue| > 0 && p.framer.queue[0] == wait[0]
    ensures Turn(p, c, wait[0], Visit(p, c.windows, c.maxLen, numActive, c.limit))
  {
    var id := wait[0];
    assert p.framer.queue[0] == id;
    if id in p.framer.streams {
      assert Room(c.maxLen, p.length, numActive, c.limit) == RoomFor(p, c);
      AskOk(p.framer.streams[id], id, RoomFor(p, c), c.windows(id));
    }
  }

  /** No further stream is asked: all have been, or as many as allowed, or too little room is left. */
  ghost predicate Ends(p: Progress, c: Call, left: nat) {
    left == 0 || p.muxed >= c.limit || MIN_STREAM_FRAME_SIZE + p.length > c.maxLen
  }

  /** The states of the loop, one for each stream asked and one more. */
  ghost predicate Trace(ps: seq<Progress>, c: Call, queue: seq<nat>) {
    && 1 <= |ps| <= |queue| + 1
    && (forall k: nat | k < |ps| - 1 :: TurnAt(ps, c, queue, k))
    && Ends(ps[|ps| - 1], c, |queue| + 1 - |ps|)
  }

  ghost predicate TurnAt(ps: seq<Progress>, c: Call, queue: seq<nat>, k: nat)
    requires k < |ps| - 1 <= |queue|
  {
    Turn(ps[k], c, queue[k], ps[k + 1]) && !Ends(ps[k], c, |queue| - k)
  }

  ghost predicate TraceFrom(ps: seq<Progress>, c: Call, queue: seq<nat>, p: Progress, all: Progress) {
    Trace(ps, c, queue) && ps[0] == p && ps[|ps| - 1] == all
  }

  lemma {:induction false} TraceOne(p: Progress, c: Call, queue: seq<nat>)
    requires Ends(p, c, |queue|)
    ensures TraceFrom([p], c, queue, p, p)
  {
  }

  lemma {:induction false} TraceCons(p: Progress, r: Progress, ps: seq<Progress>, c: Call, queue: seq<nat>,
                                     all: Progress)
    requires |queue| > 0 && TraceFrom(ps, c, queue[1..], r, all) && Turn(p, c, queue[0], r) && !Ends(p, c, |queue|)
    ensures TraceFrom([p] + ps, c, queue, p, all)
  {
    var longer := [p] + ps;
    forall k: nat | k < |longer| - 1 ensures TurnAt(longer, c, queue, k) {
      assert k > 0 ==> TurnAt(ps, c, queue[1..], k - 1);
    }
  }

  lemma {:induction false} VisitOne(p: Progress, c: Call, numActive: nat, wait: seq<nat>) returns (r: Progress)
    requires RoundOk(p, wait, c.maxLen) && |wait| <= numActive && p.muxed <= c.limit && CallOk(c, numActive)
    requires !Ends(p, c, |wait|)
    ensures RoundOk(r, wait[1..], c.maxLen) && r.muxed <= c.limit && Turn(p, c, wait[0], r)
    ensures Visits(p, c.windows, c.maxLen, numActive, c.limit, wait)
            == Visits(r, c.windows, c.maxLen, numActive, c.limit, wait[1..])
  {
    VisitKeeps(p, c.windows, c.maxLen, numActive, c.limit, wait);
    VisitTurns(p, c, numActive, wait);
    r := Visit(p, c.windows, c.maxLen, numActive, c.limit);
  }

  lemma {:induction false} TraceOf(p: Progress, c: Call, numActive: nat, wait: seq<nat>, all: Progress)
    returns (ps: seq<Progress>)
    requires RoundOk(p, wait, c.maxLen) && |wait| <= numActive && p.muxed <= c.limit && CallOk(c, numActive)
    requires all == Visits(p, c.windows, c.maxLen, numActive, c.limit, wait)
    ensures TraceFrom(ps, c, wait, p, all)
    decreases |wait|
  {
    if Ends(p, c, |wait|) {
      TraceOne(p, c, wait);
      ps := [p];
    } else {
      var r := VisitOne(p, c, numActive, wait);
      var rest := TraceOf(r, c, numActive, wait[1..], all);
      TraceCons(p, r, rest, c, wait, all);
      ps := [p] + rest;
    }
  }

  // Positions in the queue.

  ghost predicate Less(ps: seq<nat>, i: nat, j: nat)
    requires i < j < |ps|
  {
    ps[i] < ps[j]
  }

  /** Increasing positions below n. */
  ghost predicate Positions(ps: seq<nat>, n: nat) {
    && (forall i: nat, j: nat | i < j < |ps| :: Less(ps, i, j))
    && (forall i | 0 <= i < |ps| :: ps[i] < n)
  }

  lemma {:induction false} PositionsSnoc(ps: seq<nat>, n: nat, b: bool)
    requires Positions(ps, n)
    ensures Positions(ps + If(b, n), n + 1)
  {
    var q := ps + If(b, n);
    forall i: nat, j: nat | i < j < |q| ensures Less(q, i, j) {
      if j < |ps| {
        assert Less(ps, i, j);
      }
    }
  }

  /** The streams at these positions. */
  function At(queue: seq<nat>, ps: seq<nat>): (r: seq<nat>)
    requires forall i | 0 <= i < |ps| :: ps[i] < |queue|
    ensures |r| == |ps| && forall i | 0 <= i < |ps| :: r[i] == queue[ps[i]]
  {
    seq(|ps|, i requires 0 <= i < |ps| => queue[ps[i]])
  }

  lemma {:induction false} AtSnoc(queue: seq<nat>, ps: seq<nat>, n: nat, b: bool)
    requires n < |queue| && Positions(ps, n)
    ensures Positions(ps + If(b, n), |queue|)
    ensures At(queue, ps + If(b, n)) == At(queue, ps) + If(b, queue[n])
  {
    PositionsSnoc(ps, n, b);
  }

  /** The positions below n whose streams sent a frame. */
  ghost function Sent(ps: seq<Progress>, n: nat): seq<nat>
    requires n < |ps|
  {
    if n == 0 then [] else Sent(ps, n - 1) + If(|ps[n].frames| > |ps[n - 1].frames|, n - 1)
  }

  /** The positions below n whose streams joined the queue again. */
  ghost function Again(ps: seq<Progress>, n: nat): seq<nat>
    requires n < |ps|
  {
    if n == 0 then [] else Again(ps, n - 1) + If(|ps[n].framer.queue| == |ps[n - 1].framer.queue|, n - 1)
  }

  lemma {:induction false} SentPositions(ps: seq<Progress>, n: nat)
    requires n < |ps|
    ensures Positions(Sent(ps, n), n)
  {
    if n > 0 {
      SentPositions(ps, n - 1);
      PositionsSnoc(Sent(ps, n - 1), n - 1, |ps[n].frames| > |ps[n - 1].frames|);
    }
  }

  lemma {:induction false} AgainPositions(ps: seq<Progress>, n: nat)
    requires n < |ps|
    ensures Positions(Again(ps, n), n)
  {
    if n > 0 {
      AgainPositions(ps, n - 1);
      PositionsSnoc(Again(ps, n - 1), n - 1, |ps[n].framer.queue| == |ps[n - 1].framer.queue|);
    }
  }

  lemma {:induction false} InSent(ps: seq<Progress>, n: nat, i: nat)
    requires i < n < |ps| && |ps[i + 1].frames| > |ps[i].frames|
    ensures i in Sent(ps, n)
  {
    if i < n - 1 {
      InSent(ps, n - 1, i);
    }
  }

  lemma {:induction false} InAgain(ps: seq<Progress>, n: nat, i: nat)
    requires i < n < |ps| && |ps[i + 1].framer.queue| == |ps[i].framer.queue|
    ensures i in Again(ps, n)
  {
    if i < n - 1 {
      InAgain(ps, n - 1, i);
    }
  }

  // What the trace says.

  function IdsOf(frames: seq<StreamFrame>): (r: seq<nat>)
    ensures |r| == |frames| && forall i | 0 <= i < |frames| :: r[i] == frames[i].streamID
  {
    seq(|frames|, i requires 0 <= i < |frames| => frames[i].streamID)
  }

  ghost predicate Within(frames: seq<StreamFrame>, n: nat) {
    forall i | 0 <= i < |frames| :: Encodable(frames[i]) && Length(frames[i]) <= n
  }

  lemma {:induction false} OfferGrows(a: nat, b: nat)
    requires a <= b <= MAX_FRAME_SIZE
    ensures Offer(a) <= Offer(b)
  {
  }

  lemma {:induction false} TurnSends(p: Progress, c: Call, id: nat, r: Progress)
    requires Turn(p, c, id, r) && c.part <= c.maxLen <= MAX_FRAME_SIZE && Within(p.frames, Offer(c.part))
    ensures Within(r.frames, Offer(c.part))
    ensures IdsOf(r.frames) == IdsOf(p.frames) + If(|r.frames| > |p.frames|, id)
  {
    if id in p.framer.streams {
      OfferGrows(Min(c.maxLen - p.length, c.part), c.part);
    }
  }

  /** The frames come from these streams, and none is longer than a part and its length field. */
  lemma {:induction false} FramesInTurn(ps: seq<Progress>, c: Call, queue: seq<nat>, n: nat)
    requires Trace(ps, c, queue) && n < |ps| && c.part <= c.maxLen <= MAX_FRAME_SIZE && ps[0].frames == []
    ensures Positions(Sent(ps, n), |queue|)
    ensures IdsOf(ps[n].frames) == At(queue, Sent(ps, n)) && Within(ps[n].frames, Offer(c.part))
  {
    if n > 0 {
      FramesInTurn(ps, c, queue, n - 1);
      assert TurnAt(ps, c, queue, n - 1);
      SentPositions(ps, n - 1);
      TurnSends(ps[n - 1], c, queue[n - 1], ps[n]);
      AtSnoc(queue, Sent(ps, n - 1), n - 1, |ps[n].frames| > |ps[n - 1].frames|);
    }
  }

  lemma {:induction false} TurnQueues(p: Progress, c: Call, id: nat, r: Progress)
    requires Turn(p, c, id, r)
    ensures r.framer.queue == p.framer.queue[1..] + If(|r.framer.queue| == |p.framer.queue|, id)
  {
  }

  lemma {:induction false} Rotate(queue: seq<nat>, n: nat, again: seq<nat>, more: seq<nat>)
    requires 0 < n <= |queue|
    ensures |queue[n - 1..] + again| > 0
    ensures (queue[n - 1..] + again)[1..] + more == queue[n..] + (again + more)
  {
  }

  lemma {:induction false} QueueSnoc(queue: seq<nat>, n: nat, again: seq<nat>, b: bool, before: seq<nat>)
    requires 0 < n <= |queue| && Positions(again, n - 1) && before == queue[n - 1..] + At(queue, again)
    ensures Positions(again + If(b, n - 1), |queue|) && |before| > 0
    ensures before[1..] + If(b, queue[n - 1]) == queue[n..] + At(queue, again + If(b, n - 1))
  {
    Rotate(queue, n, At(queue, again), If(b, queue[n - 1]));
    AtSnoc(queue, again, n - 1, b);
  }

  /** The queue goes round: those not asked stay in front, those that join again follow in order. */
  lemma {:induction false} QueueGoesRound(ps: seq<Progress>, c: Call, queue: seq<nat>, n: nat)
    requires Trace(ps, c, queue) && n < |ps| && ps[0].framer.queue == queue
    ensures Positions(Again(ps, n), |queue|)
    ensures ps[n].framer.queue == queue[n..] + At(queue, Again(ps, n))
  {
    if n == 0 {
      assert queue[0..] + [] == queue;
    } else {
      QueueGoesRound(ps, c, queue, n - 1);
      assert TurnAt(ps, c, queue, n - 1);
      AgainPositions(ps, n - 1);
      QueueSnoc(queue, n, Again(ps, n - 1), |ps[n].framer.queue| == |ps[n - 1].framer.queue|, ps[n - 1].framer.queue);
      TurnQueues(ps[n - 1], c, queue[n - 1], ps[n]);
    }
  }

  /** How many of these streams can still send. */
  function Live(streams: set<nat>, ids: seq<nat>): nat {
    var n := |ids| - 1;
    if n < 0 then 0 else Live(streams, ids[..n]) + if ids[n] in streams then 1 else 0
  }

  lemma {:induction false} TurnCounts(p: Progress, c: Call, id: nat, r: Progress)
    requires Turn(p, c, id, r)
    ensures r.framer.streams.Keys == p.framer.streams.Keys
    ensures r.muxed == p.muxed + if id in p.framer.streams then 1 else 0
  {
  }

  lemma {:induction false} AskedCounted(ps: seq<Progress>, c: Call, queue: seq<nat>, n: nat)
    requires Trace(ps, c, queue) && n < |ps| && ps[0].muxed == 0
    ensures ps[n].framer.streams.Keys == ps[0].framer.streams.Keys
    ensures ps[n].muxed == Live(ps[0].framer.streams.Keys, queue[..n])
  {
    if n > 0 {
      AskedCounted(ps, c, queue, n - 1);
      assert TurnAt(ps, c, queue, n - 1);
      TurnCounts(ps[n - 1], c, queue[n - 1], ps[n]);
      assert queue[..n][..n - 1] == queue[..n - 1];
    }
  }

  lemma {:induction false} TurnOthers(p: Progress, c: Call, id: nat, r: Progress, other: nat)
    requires Turn(p, c, id, r) && other != id && other in p.framer.streams
    ensures other in r.framer.streams && r.framer.streams[other] == p.framer.streams[other]
  {
  }

  /** A stream is as it was until it is asked. */
  lemma {:induction false} NotYetAsked(ps: seq<Progress>, c: Call, queue: seq<nat>, m: nat, n: nat, id: nat)
    requires Trace(ps, c, queue) && m <= n < |ps| && id !in queue[m..n] && id in ps[m].framer.streams
    ensures id in ps[n].framer.streams && ps[n].framer.streams[id] == ps[m].framer.streams[id]
    decreases n
  {
    if n > m {
      assert queue[m..n][..n - 1 - m] == queue[m..n - 1];
      assert queue[m..n][n - 1 - m] == queue[n - 1];
      NotYetAsked(ps, c, queue, m, n - 1, id);
      assert TurnAt(ps, c, queue, n - 1);
      TurnOthers(ps[n - 1], c, queue[n - 1], ps[n], id);
    }
  }

  lemma {:induction false} OnlyOnce(queue: seq<nat>, active: set<nat>, i: nat, a: nat, b: nat)
    requires QueueOk(queue, active, queue) && i < |queue| && a <= b <= |queue| && (b <= i || i < a)
    ensures queue[i] !in queue[a..b]
  {
    forall k | a <= k < b ensures queue[k] != queue[i] {
      assert k < i ==> Differ(queue, k, i);
      assert i < k ==> Differ(queue, i, k);
    }
  }

  /** The least room any stream is offered: its part, or the smallest frame size if that is less. */
  function Least(c: Call): nat
    requires c.part <= MAX_FRAME_SIZE
  {
    Offer(Min(MIN_STREAM_FRAME_SIZE, c.part))
  }

  lemma {:induction false} MoreRoom(s: SS.Sender, a: nat, b: nat, window: nat)
    requires SS.Bounded(s) && a <= b && SP.CanSend(s, a, window)
    ensures SP.CanSend(s, b, window)
  {
  }

  /** The stream cannot fill the room. */
  ghost predicate Idle(streams: map<nat, SS.Sender>, id: nat, room: nat, w: Window) {
    id in streams && SS.Bounded(streams[id]) && !SP.CanSend(streams[id], room, w.size)
  }

  lemma {:induction false} TurnPasses(p: Progress, c: Call, id: nat, r: Progress)
    requires Turn(p, c, id, r) && id in p.framer.streams && |r.frames| <= |p.frames|
    ensures c.part <= MAX_FRAME_SIZE && Idle(p.framer.streams, id, Least(c), c.windows(id))
  {
    var s, w := p.framer.streams[id], c.windows(id);
    SP.PopYields(s, RoomFor(p, c), w.size);
    OfferGrows(Min(MIN_STREAM_FRAME_SIZE, c.part), Min(c.maxLen - p.length, c.part));
    if SP.CanSend(s, Least(c), w.size) {
      MoreRoom(s, Least(c), RoomFor(p, c), w.size);
    }
  }

  /** A stream that was asked and sent nothing could not have filled even the least room. */
  lemma {:induction false} PassedOver(ps: seq<Progress>, c: Call, queue: seq<nat>, active: set<nat>, n: nat, i: nat)
    requires Trace(ps, c, queue) && i < n < |ps| && i !in Sent(ps, n) && QueueOk(queue, active, queue)
    requires queue[i] in ps[0].framer.streams && c.part <= MAX_FRAME_SIZE
    ensures Idle(ps[0].framer.streams, queue[i], Least(c), c.windows(queue[i]))
  {
    OnlyOnce(queue, active, i, 0, i);
    NotYetAsked(ps, c, queue, 0, i, queue[i]);
    assert TurnAt(ps, c, queue, i);
    if |ps[i + 1].frames| > |ps[i].frames| {
      InSent(ps, n, i);
    }
    TurnPasses(ps[i], c, queue[i], ps[i + 1]);
  }

  /** Why a stream that waits does not stay active: flow control has just stopped it, or its FIN does not fit. */
  predicate Stopped(s: SS.Sender, w: Window, room: nat)
    requires SS.Bounded(s)
  {
    if |s.dataForWriting| > 0 then w.newlyBlocked && w.size == 0 else SP.NewHeader(s) >= room
  }

  /** The stream has nothing left, or was stopped. */
  ghost predicate Rests(streams: map<nat, SS.Sender>, after: map<nat, SS.Sender>, id: nat, room: nat, w: Window) {
    && id in streams && SS.Bounded(streams[id]) && id in after
    && (SP.Waiting(after[id]) ==> Stopped(streams[id], w, room))
  }

  lemma {:induction false} TurnDrops(p: Progress, c: Call, id: nat, r: Progress)
    requires Turn(p, c, id, r) && id in p.framer.streams && |r.framer.queue| != |p.framer.queue|
    ensures c.part <= MAX_FRAME_SIZE && Rests(p.framer.streams, r.framer.streams, id, Least(c), c.windows(id))
  {
    var s, w := p.framer.streams[id], c.windows(id);
    SP.StaysActive(s, RoomFor(p, c), w.size, w.newlyBlocked);
    OfferGrows(Min(MIN_STREAM_FRAME_SIZE, c.part), Min(c.maxLen - p.length, c.part));
  }

  /** A stream that was asked and does not join the queue again has nothing left, or was stopped. */
  lemma {:induction false} Dropped(ps: seq<Progress>, c: Call, queue: seq<nat>, active: set<nat>, n: nat, i: nat)
    requires Trace(ps, c, queue) && i < n < |ps| && i !in Again(ps, n) && QueueOk(queue, active, queue)
    requires queue[i] in ps[0].framer.streams && ps[0].framer.queue == queue && c.part <= MAX_FRAME_SIZE
    ensures Rests(ps[0].framer.streams, ps[n].framer.streams, queue[i], Least(c), c.windows(queue[i]))
  {
    OnlyOnce(queue, active, i, 0, i);
    NotYetAsked(ps, c, queue, 0, i, queue[i]);
    assert TurnAt(ps, c, queue, i);
    if |ps[i + 1].framer.queue| == |ps[i].framer.queue| {
      InAgain(ps, n, i);
    }
    QueueGoesRound(ps, c, queue, i);
    TurnDrops(ps[i], c, queue[i], ps[i + 1]);
    OnlyOnce(queue, active, i, i + 1, n);
    NotYetAsked(ps, c, queue, i + 1, n, queue[i]);
  }

  // All of it together.

  /** The length of the frames before the last one lost its length field. */
  function FullLength(frames: seq<StreamFrame>): nat
    requires AllEncodable(frames)
  {
    TotalLength(frames) + if |frames| == 0 then 0 else VarIntLen(|frames[|frames| - 1].data|)
  }

  lemma {:induction false} FinishKeeps(frames: seq<StreamFrame>, n: nat)
    requires Within(frames, n) && AllEncodable(frames) && forall i | 0 <= i < |frames| :: frames[i].dataLenPresent
    ensures AllEncodable(Finish(frames)) && Within(Finish(frames), n) && IdsOf(Finish(frames)) == IdsOf(frames)
    ensures FullLength(Finish(frames)) == TotalLength(frames)
  {
    if |frames| > 0 {
      FinishLength(frames);
    }
  }

  lemma {:induction false} Product(a: nat, b: nat)
    ensures a * b >= 0
  {
  }

  lemma {:induction false} QuotientSmall(a: nat, m: nat)
    requires m > 0
    ensures a / m <= a
  {
    var q := a / m;
    Product(m - 1, q);
    assert m * q == (m - 1) * q + q;
  }

  /** The trace of a call. */
  lemma {:induction false} CallTrace(f: Framer, c: Call) returns (ps: seq<Progress>)
    requires FramerOk(f) && CallOk(c, |f.queue|)
    ensures Trace(ps, c, f.queue) && ps[0] == Progress(f, [], 0, 0)
    ensures var r := ps[|ps| - 1];
            && AppendStreams(f, c.windows, c.maxLen, c.limit) == (r.framer, Finish(r.frames))
            && AllEncodable(r.frames) && r.length == TotalLength(r.frames)
            && (forall i | 0 <= i < |r.frames| :: r.frames[i].dataLenPresent)
  {
    var p := Progress(f, [], 0, 0);
    ps := TraceOf(p, c, |f.queue|, f.queue, Visits(p, c.windows, c.maxLen, |f.queue|, c.limit, f.queue));
  }

  /** The frames of a packet, the streams asked for them, and the queue afterwards. */
  ghost predicate Shared(f: Framer, c: Call, f': Framer, frames: seq<StreamFrame>, asked: nat, sent: seq<nat>,
                         again: seq<nat>)
    requires c.part <= c.maxLen <= MAX_FRAME_SIZE
  {
    && asked <= |f.queue| && Positions(sent, asked) && Positions(again, asked)
    && IdsOf(frames) == At(f.queue, sent) && Within(frames, Offer(c.part)) && AllEncodable(frames)
    && f'.queue == f.queue[asked..] + At(f.queue, again)
    && (asked < |f.queue| ==> || Live(f.streams.Keys, f.queue[..asked]) >= c.limit
                              || MIN_STREAM_FRAME_SIZE + FullLength(frames) > c.maxLen)
    && (forall i: nat | i < asked && i !in sent && f.queue[i] in f.streams ::
          Idle(f.streams, f.queue[i], Least(c), c.windows(f.queue[i])))
    && (forall i: nat | i < asked && i !in again && f.queue[i] in f.streams ::
          Rests(f.streams, f'.streams, f.queue[i], Least(c), c.windows(f.queue[i])))
  }

  lemma {:induction false} TraceShared(f: Framer, c: Call, ps: seq<Progress>, n: nat)
    requires FramerOk(f) && c.part <= c.maxLen <= MAX_FRAME_SIZE && Trace(ps, c, f.queue) && n == |ps| - 1
    requires ps[0] == Progress(f, [], 0, 0) && AllEncodable(ps[n].frames) && ps[n].length == TotalLength(ps[n].frames)
    requires forall i | 0 <= i < |ps[n].frames| :: ps[n].frames[i].dataLenPresent
    ensures Shared(f, c, ps[n].framer, Finish(ps[n].frames), n, Sent(ps, n), Again(ps, n))
  {
    SentPositions(ps, n);
    AgainPositions(ps, n);
    FramesInTurn(ps, c, f.queue, n);
    FinishKeeps(ps[n].frames, Offer(c.part));
    QueueGoesRound(ps, c, f.queue, n);
    AskedCounted(ps, c, f.queue, n);
    forall i: nat | i < n && i !in Sent(ps, n) && f.queue[i] in f.streams
      ensures Idle(f.streams, f.queue[i], Least(c), c.windows(f.queue[i]))
    {
      PassedOver(ps, c, f.queue, f.active, n, i);
    }
    forall i: nat | i < n && i !in Again(ps, n) && f.queue[i] in f.streams
      ensures Rests(f.streams, ps[n].framer.streams, f.queue[i], Least(c), c.windows(f.queue[i]))
    {
      Dropped(ps, c, f.queue, f.active, n, i);
    }
  }

  /**
   * A packet is shared equally: with n streams in the queue, a part is the room divided by the smaller of n
   * and the limit. Streams are asked in the order of the queue, and each one sends at most a part and its
   * length field. Those asked that sent nothing could not have filled even the least room. Asking ends early
   * only at the limit or when too little is left. Those not asked stay in front of the queue; those asked that
   * still wait follow in order, unless they were stopped.
   */
  lemma {:induction false} PacketShared(f: Framer, windows: nat -> Window, maxLen: nat, limit: nat)
    returns (asked: nat, sent: seq<nat>, again: seq<nat>)
    requires FramerOk(f) && maxLen <= MAX_FRAME_SIZE && limit > 0 && |f.queue| > 0
    ensures maxLen / Min(|f.queue|, limit) <= maxLen
    ensures var c := Call(windows, maxLen, maxLen / Min(|f.queue|, limit), limit);
            var (f', frames) := AppendStreams(f, windows, maxLen, limit);
            Shared(f, c, f', frames, asked, sent, again)
  {
    QuotientSmall(maxLen, Min(|f.queue|, limit));
    var c := Call(windows, maxLen, maxLen / Min(|f.queue|, limit), limit);
    var ps := CallTrace(f, c);
    var n := |ps| - 1;
    TraceShared(f, c, ps, n);
    asked, sent, again := n, Sent(ps, n), Again(ps, n);
  }

  // Streams that all want their whole part.

  /** The stream has a whole part of new data, a window for it, and its header fits even the least room. */
  predicate Greedy(s: SS.Sender, w: Window, c: Call)
    requires c.part <= MAX_FRAME_SIZE
  {
    && SS.Bounded(s) && |s.retransmissions| == 0 && !s.canceledWrite
    && |s.dataForWriting| >= c.part && w.size >= c.part && SP.NewHeader(s) < Least(c)
  }

  /** The room offered is used up, but for one byte where the length field grows. */
  function Used(s: SS.Sender, n: nat): nat
    requires SS.Bounded(s) && n <= MAX_FRAME_SIZE
  {
    Offer(n) - if Offer(n) == SP.NewHeader(s) + 64 then 1 else 0
  }

  lemma {:induction false} GreedyFills(s: SS.Sender, w: Window, c: Call, n: nat)
    requires c.part <= MAX_FRAME_SIZE && Greedy(s, w, c) && Min(MIN_STREAM_FRAME_SIZE, c.part) <= n <= c.part
    ensures Offer(n) <= MAX_VARINT2
    ensures var f := SS.Pop(s, Offer(n), w.size).1;
            f.Some? && Encodable(f.value) && Length(f.value) == Used(s, n) >= n
  {
    OfferGrows(Min(MIN_STREAM_FRAME_SIZE, c.part), n);
  }

  ghost predicate AllGreedy(f: Framer, c: Call, m: nat)
    requires c.part <= MAX_FRAME_SIZE
  {
    m <= |f.queue| && forall i: nat | i < m :: GreedyAt(f, c, i)
  }

  ghost predicate GreedyAt(f: Framer, c: Call, i: nat)
    requires i < |f.queue| && c.part <= MAX_FRAME_SIZE
  {
    f.queue[i] in f.streams && Greedy(f.streams[f.queue[i]], c.windows(f.queue[i]), c)
  }

  /** One turn of such a stream. */
  lemma {:induction false} GreedyTurn(p: Progress, c: Call, id: nat, r: Progress, s: SS.Sender)
    requires Turn(p, c, id, r) && id in p.framer.streams && p.framer.streams[id] == s && c.part <= MAX_FRAME_SIZE
    requires Greedy(s, c.windows(id), c)
    ensures p.length <= c.maxLen && c.maxLen <= MAX_FRAME_SIZE
    ensures |r.frames| == |p.frames| + 1 && r.frames[..|p.frames|] == p.frames && r.muxed == p.muxed + 1
    ensures r.frames[|p.frames|].streamID == id && Encodable(r.frames[|p.frames|])
    ensures var n := Min(c.maxLen - p.length, c.part);
            Length(r.frames[|p.frames|]) == Used(s, n) >= n && r.length == p.length + Used(s, n)
  {
    GreedyFills(s, c.windows(id), c, Min(c.maxLen - p.length, c.part));
  }

  /** After k turns there are k frames, of the first k streams, each using the room it was offered. */
  ghost predicate Filled(ps: seq<Progress>, f: Framer, c: Call, k: nat)
    requires k < |ps| && k <= |f.queue| && c.part <= MAX_FRAME_SIZE
  {
    |ps[k].frames| == ps[k].muxed == k && IdsOf(ps[k].frames) == f.queue[..k]
  }

  lemma {:induction false} GreedyStep(ps: seq<Progress>, f: Framer, c: Call, k: nat)
    requires Trace(ps, c, f.queue) && FramerOk(f) && ps[0].framer == f && k < |ps| - 1 && c.part <= MAX_FRAME_SIZE
    requires Filled(ps, f, c, k) && GreedyAt(f, c, k)
    ensures Filled(ps, f, c, k + 1) && ps[k + 1].frames[..k] == ps[k].frames && Encodable(ps[k + 1].frames[k])
    ensures ps[k].length <= c.maxLen <= MAX_FRAME_SIZE
    ensures var n := Min(c.maxLen - ps[k].length, c.part);
            var used := Used(f.streams[f.queue[k]], n);
            Length(ps[k + 1].frames[k]) == used >= n && ps[k + 1].length == ps[k].length + used
  {
    OnlyOnce(f.queue, f.active, k, 0, k);
    NotYetAsked(ps, c, f.queue, 0, k, f.queue[k]);
    assert TurnAt(ps, c, f.queue, k);
    GreedyTurn(ps[k], c, f.queue[k], ps[k + 1], f.streams[f.queue[k]]);
    assert f.queue[..k + 1] == f.queue[..k] + [f.queue[k]];
    assert IdsOf(ps[k + 1].frames) == IdsOf(ps[k].frames) + [f.queue[k]];
  }

  /** No more streams are asked than can take part. */
  lemma {:induction false} GreedyTurns(ps: seq<Progress>, f: Framer, c: Call, m: nat, k: nat)
    requires Trace(ps, c, f.queue) && FramerOk(f) && ps[0] == Progress(f, [], 0, 0) && k < |ps|
    requires c.part <= MAX_FRAME_SIZE && m == Min(|f.queue|, c.limit) && AllGreedy(f, c, m)
    ensures k <= m && Filled(ps, f, c, k)
  {
    if k > 0 {
      GreedyTurns(ps, f, c, m, k - 1);
      assert TurnAt(ps, c, f.queue, k - 1);
      assert GreedyAt(f, c, k - 1);
      GreedyStep(ps, f, c, k - 1);
    } else {
      assert IdsOf([]) == f.queue[..0];
    }
  }

  /** All turns but the last use a whole part. */
  lemma {:induction false} WholeParts(ps: seq<Progress>, f: Framer, c: Call, m: nat, k: nat)
    requires Trace(ps, c, f.queue) && FramerOk(f) && ps[0] == Progress(f, [], 0, 0) && k + 2 < |ps|
    requires c.part <= MAX_FRAME_SIZE && m == Min(|f.queue|, c.limit) && AllGreedy(f, c, m)
    ensures k < m && GreedyAt(f, c, k) && ps[k + 1].length == ps[k].length + Used(f.streams[f.queue[k]], c.part)
    ensures |ps[k + 1].frames| == k + 1 && Encodable(ps[k + 1].frames[k])
    ensures Length(ps[k + 1].frames[k]) == Used(f.streams[f.queue[k]], c.part)
  {
    GreedyTurns(ps, f, c, m, k);
    assert TurnAt(ps, c, f.queue, k) && TurnAt(ps, c, f.queue, k + 1);
    assert GreedyAt(f, c, k);
    GreedyStep(ps, f, c, k);
  }

  /** Frames once taken stay. */
  lemma {:induction false} FramesStay(ps: seq<Progress>, c: Call, queue: seq<nat>, k: nat, n: nat)
    requires Trace(ps, c, queue) && k <= n < |ps|
    ensures ps[k].frames <= ps[n].frames
    decreases n
  {
    if k < n {
      FramesStay(ps, c, queue, k, n - 1);
      assert TurnAt(ps, c, queue, n - 1);
    }
  }

  /** Parts of this size never meet the place where the length field grows. */
  lemma {:induction false} LargeParts(s: SS.Sender, n: nat)
    requires SS.Bounded(s) && MIN_STREAM_FRAME_SIZE <= n <= MAX_FRAME_SIZE
    ensures Used(s, n) == n + 2
  {
  }

  lemma {:induction false} NextMultiple(k: nat, a: nat)
    ensures (k + 1) * a == k * a + a
  {
  }

  lemma {:induction false} EqualLengths(ps: seq<Progress>, f: Framer, c: Call, m: nat, k: nat)
    requires Trace(ps, c, f.queue) && FramerOk(f) && ps[0] == Progress(f, [], 0, 0) && k + 1 < |ps|
    requires MIN_STREAM_FRAME_SIZE <= c.part <= MAX_FRAME_SIZE && m == Min(|f.queue|, c.limit) && AllGreedy(f, c, m)
    ensures ps[k].length == k * (c.part + 2)
  {
    if k > 0 {
      EqualLengths(ps, f, c, m, k - 1);
      WholeParts(ps, f, c, m, k - 1);
      LargeParts(f.streams[f.queue[k - 1]], c.part);
      NextMultiple(k - 1, c.part + 2);
    }
  }

  lemma {:induction false} TotalSnoc(fs: seq<StreamFrame>, f: StreamFrame)
    requires AllEncodable(fs) && Encodable(f)
    ensures AllEncodable(fs + [f]) && TotalLength(fs + [f]) == TotalLength(fs) + Length(f)
  {
    assert (fs + [f])[..|fs|] == fs;
  }

  lemma {:induction false} LengthsAdd(ps: seq<Progress>, c: Call, queue: seq<nat>, k: nat)
    requires Trace(ps, c, queue) && k < |ps| && ps[0].frames == [] && ps[0].length == 0
    ensures AllEncodable(ps[k].frames) && ps[k].length == TotalLength(ps[k].frames)
  {
    if k > 0 {
      LengthsAdd(ps, c, queue, k - 1);
      assert TurnAt(ps, c, queue, k - 1);
      TurnAdds(ps[k - 1], c, queue[k - 1], ps[k]);
    }
  }

  lemma {:induction false} TurnAdds(p: Progress, c: Call, id: nat, r: Progress)
    requires Turn(p, c, id, r) && AllEncodable(p.frames) && p.length == TotalLength(p.frames)
    ensures AllEncodable(r.frames) && r.length == TotalLength(r.frames)
  {
    if |r.frames| > |p.frames| {
      TotalSnoc(p.frames, r.frames[|p.frames|]);
      assert r.frames == p.frames + [r.frames[|p.frames|]];
    } else {
      assert r.frames == p.frames;
    }
  }

  /** What a packet looks like when the first m streams all want a whole part. */
  ghost predicate EquallyShared(f: Framer, c: Call, m: nat, frames: seq<StreamFrame>)
    requires c.part <= MAX_FRAME_SIZE && AllGreedy(f, c, m)
  {
    var k := |frames|;
    && k <= m && IdsOf(frames) == f.queue[..k] && AllEncodable(frames)
    && (forall j: nat | j < k - 1 :: WholePart(f, c, frames, j))
    && (k > 0 ==> MIN_STREAM_FRAME_SIZE + TotalLength(frames[..k - 1]) <= c.maxLen)
    && (k < m ==> MIN_STREAM_FRAME_SIZE + FullLength(frames) > c.maxLen)
  }

  ghost predicate WholePart(f: Framer, c: Call, frames: seq<StreamFrame>, j: nat)
    requires j < |frames| && j < |f.queue| && c.part <= MAX_FRAME_SIZE && AllEncodable(frames)
  {
    GreedyAt(f, c, j) && Length(frames[j]) == Used(f.streams[f.queue[j]], c.part)
  }

  lemma {:induction false} WholePartAt(ps: seq<Progress>, f: Framer, c: Call, m: nat, n: nat, j: nat)
    requires Trace(ps, c, f.queue) && FramerOk(f) && ps[0] == Progress(f, [], 0, 0) && n == |ps| - 1
    requires c.part <= MAX_FRAME_SIZE && m == Min(|f.queue|, c.limit) && AllGreedy(f, c, m)
    requires j < n - 1 && |ps[n].frames| == n && AllEncodable(Finish(ps[n].frames))
    ensures j < |f.queue| && WholePart(f, c, Finish(ps[n].frames), j)
  {
    WholeParts(ps, f, c, m, j);
    FramesStay(ps, c, f.queue, j + 1, n);
    assert ps[n].frames[j] == ps[j + 1].frames[j];
  }

  lemma {:induction false} BeforeLast(ps: seq<Progress>, f: Framer, c: Call, m: nat, n: nat)
    requires Trace(ps, c, f.queue) && FramerOk(f) && ps[0] == Progress(f, [], 0, 0) && n == |ps| - 1 > 0
    requires c.part <= MAX_FRAME_SIZE && m == Min(|f.queue|, c.limit) && AllGreedy(f, c, m) && |ps[n].frames| == n
    ensures AllEncodable(Finish(ps[n].frames)[..n - 1])
    ensures MIN_STREAM_FRAME_SIZE + TotalLength(Finish(ps[n].frames)[..n - 1]) <= c.maxLen
  {
    GreedyTurns(ps, f, c, m, n - 1);
    LengthsAdd(ps, c, f.queue, n - 1);
    FramesStay(ps, c, f.queue, n - 1, n);
    assert Finish(ps[n].frames)[..n - 1] == ps[n - 1].frames;
    assert TurnAt(ps, c, f.queue, n - 1);
  }

  lemma {:induction false} TraceEqual(ps: seq<Progress>, f: Framer, c: Call, m: nat, n: nat)
    requires Trace(ps, c, f.queue) && FramerOk(f) && ps[0] == Progress(f, [], 0, 0) && n == |ps| - 1
    requires c.part <= MAX_FRAME_SIZE && m == Min(|f.queue|, c.limit) && AllGreedy(f, c, m)
    requires forall i | 0 <= i < |ps[n].frames| :: ps[n].frames[i].dataLenPresent
    ensures |ps[n].frames| == n && EquallyShared(f, c, m, Finish(ps[n].frames))
  {
    GreedyTurns(ps, f, c, m, n);
    LengthsAdd(ps, c, f.queue, n);
    var frames := Finish(ps[n].frames);
    if n > 0 {
      FinishLength(ps[n].frames);
      BeforeLast(ps, f, c, m, n);
    }
    assert IdsOf(frames) == IdsOf(ps[n].frames);
    forall j: nat | j < n - 1 ensures WholePart(f, c, frames, j) {
      WholePartAt(ps, f, c, m, n, j);
    }
  }

  /** How many parts of this size a packet holds. */
  ghost predicate Count(c: Call, m: nat, k: nat) {
    && (k > 0 ==> MIN_STREAM_FRAME_SIZE + (k - 1) * (c.part + 2) <= c.maxLen)
    && (k < m ==> MIN_STREAM_FRAME_SIZE + k * (c.part + 2) > c.maxLen)
  }

  lemma {:induction false} TraceCount(ps: seq<Progress>, f: Framer, c: Call, m: nat, n: nat)
    requires Trace(ps, c, f.queue) && FramerOk(f) && ps[0] == Progress(f, [], 0, 0) && n == |ps| - 1
    requires MIN_STREAM_FRAME_SIZE <= c.part <= MAX_FRAME_SIZE && m == Min(|f.queue|, c.limit) && AllGreedy(f, c, m)
    ensures Count(c, m, n)
  {
    GreedyTurns(ps, f, c, m, n);
    if n > 0 {
      EqualLengths(ps, f, c, m, n - 1);
      assert TurnAt(ps, c, f.queue, n - 1);
      GreedyTurns(ps, f, c, m, n - 1);
      assert GreedyAt(f, c, n - 1);
      GreedyStep(ps, f, c, n - 1);
      OfferGrows(Min(c.maxLen - ps[n - 1].length, c.part), c.part);
      NextMultiple(n - 1, c.part + 2);
    }
  }

  /**
   * If the first streams of the queue, as many as can take part, each have a whole part to send, the packet
   * holds one frame of each of the first k, and all but the last use a whole part. The number k is the
   * largest that leaves room for the smallest frame before each; for parts from that size on it follows from
   * the sizes alone.
   */
  lemma {:induction false} EqualShares(f: Framer, windows: nat -> Window, maxLen: nat, limit: nat, c: Call, m: nat)
    requires FramerOk(f) && maxLen <= MAX_FRAME_SIZE && limit > 0 && |f.queue| > 0 && m == Min(|f.queue|, limit)
    requires c == Call(windows, maxLen, maxLen / m, limit) && c.part <= maxLen && AllGreedy(f, c, m)
    ensures var frames := AppendStreams(f, windows, maxLen, limit).1;
            && EquallyShared(f, c, m, frames)
            && (c.part >= MIN_STREAM_FRAME_SIZE ==> Count(c, m, |frames|))
  {
    var ps := CallTrace(f, c);
    var n := |ps| - 1;
    TraceEqual(ps, f, c, m, n);
    if c.part >= MIN_STREAM_FRAME_SIZE {
      TraceCount(ps, f, c, m, n);
    }
  }
}
