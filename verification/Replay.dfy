/** Replaying recorded requests packet by packet (python/har_converter.py). */
module Replay {
  import opened Protocol
  import DQ = DynamicQueue

  const DATA_BLOCK_SIZE: nat := 1200

  /** A recorded request; its resource id is its position. */
  datatype Entry = Entry(size: nat, resourceType: DQ.ResourceType, dependencies: seq<nat>)

  datatype Status = Unavailable | Enqueued | Finished

  /** The part of one resource that a packet carries. */
  datatype Frame = Frame(id: nat, length: nat, finished: bool)

  datatype State = State(
    remaining: seq<nat>,
    status: seq<Status>,
    queue: seq<nat>,
    enqueuedAt: seq<Option<nat>>,
    startedAt: seq<Option<nat>>,
    finishedAt: seq<Option<nat>>,
    log: seq<seq<Frame>>)

  /** All fields of all entries are there, and the queue names entries only. */
  predicate Sized(s: State, n: nat) {
    && |s.remaining| == |s.status| == |s.enqueuedAt| == |s.startedAt| == |s.finishedAt| == n
    && (forall k | 0 <= k < |s.queue| :: s.queue[k] < n)
  }

  /** The root and all dependencies name entries. */
  predicate Known(e: seq<Entry>, root: nat) {
    root < |e| && forall i | 0 <= i < |e| :: DependenciesBelow(e[i], |e|)
  }

  predicate DependenciesBelow(entry: Entry, bound: nat) {
    forall k | 0 <= k < |entry.dependencies| :: entry.dependencies[k] < bound
  }

  predicate DependenciesMet(entry: Entry, status: seq<Status>)
    requires DependenciesBelow(entry, |status|)
  {
    forall k | 0 <= k < |entry.dependencies| :: status[entry.dependencies[k]] == Finished
  }

  ghost predicate DependsOn(entry: Entry, b: set<nat>) {
    exists k | 0 <= k < |entry.dependencies| :: entry.dependencies[k] in b
  }

  /** Entries without the root that wait for one another. */
  ghost predicate Deadlocked(e: seq<Entry>, root: nat, b: set<nat>) {
    b != {} && root !in b && forall i | i in b :: i < |e| && DependsOn(e[i], b)
  }

  /** No entries wait for one another. */
  ghost predicate DeadlockFree(e: seq<Entry>, root: nat) {
    !exists b: set<nat> :: Deadlocked(e, root, b)
  }

  /** Puts entry i into the queue (lines 461-469). */
  function Enqueue(s: State, i: nat): State
    requires i < |s.status| == |s.enqueuedAt|
  {
    s.(queue := s.queue + [i], status := s.status[i := Enqueued], enqueuedAt := s.enqueuedAt[i := Some(|s.log|)])
  }

  function EnqueueIfReady(e: seq<Entry>, s: State, i: nat): State
    requires i < |e| && Sized(s, |e|) && DependenciesBelow(e[i], |e|)
  {
    if s.status[i] == Unavailable && DependenciesMet(e[i], s.status) then Enqueue(s, i) else s
  }

  /** The first stream in the queue fills the packet up or finishes (lines 233-260). */
  function SendFirst(s: State, frames: seq<Frame>, bytes: nat): (State, seq<Frame>, nat)
    requires Sized(s, |s.status|) && |s.queue| > 0 && bytes < DATA_BLOCK_SIZE
  {
    var id, room := s.queue[0], DATA_BLOCK_SIZE - bytes;
    var started := if s.startedAt[id].None? then s.startedAt[id := Some(|s.log|)] else s.startedAt;
    if s.remaining[id] > room then
      (s.(queue := s.queue[1..] + [id], remaining := s.remaining[id := s.remaining[id] - room], startedAt := started),
       frames + [Frame(id, room, false)],
       DATA_BLOCK_SIZE)
    else
      (s.(queue := s.queue[1..], remaining := s.remaining[id := 0], startedAt := started),
       frames + [Frame(id, s.remaining[id], true)],
       bytes + s.remaining[id])
  }

  /** Marks the streams that a packet finishes (lines 474-479). */
  function MarkFinished(s: State, f: Frame): State
    requires f.id < |s.status| == |s.finishedAt|
  {
    if f.finished
    then s.(status := s.status[f.id := Finished], finishedAt := s.finishedAt[f.id := Some(|s.log|)])
    else s
  }

  // What was sent.

  function SentIn(frames: seq<Frame>, i: nat): nat {
    if |frames| == 0 then 0
    else SentIn(frames[..|frames| - 1], i) + (if frames[|frames| - 1].id == i then frames[|frames| - 1].length else 0)
  }

  function Sent(log: seq<seq<Frame>>, i: nat): nat {
    if |log| == 0 then 0 else Sent(log[..|log| - 1], i) + SentIn(log[|log| - 1], i)
  }

  /** How many frames of the packet end resource i. */
  function EndsIn(frames: seq<Frame>, i: nat): nat {
    if |frames| == 0 then 0
    else
      var last := frames[|frames| - 1];
      EndsIn(frames[..|frames| - 1], i) + (if last.id == i && last.finished then 1 else 0)
  }

  function Ends(log: seq<seq<Frame>>, i: nat): nat {
    if |log| == 0 then 0 else Ends(log[..|log| - 1], i) + EndsIn(log[|log| - 1], i)
  }

  predicate Has(frames: seq<Frame>, i: nat) {
    exists k | 0 <= k < |frames| :: frames[k].id == i
  }

  function Bytes(frames: seq<Frame>): nat {
    if |frames| == 0 then 0 else Bytes(frames[..|frames| - 1]) + frames[|frames| - 1].length
  }

  /** A packet holds at most one block, and only its last frame may leave its resource unfinished. */
  ghost predicate PacketOk(frames: seq<Frame>) {
    Bytes(frames) <= DATA_BLOCK_SIZE && forall k | 0 <= k < |frames| - 1 :: frames[k].finished
  }

  /** The times of resource i fit its packets: it starts with the first packet that holds it. */
  ghost predicate TimesOk(s: State, frames: seq<Frame>, i: nat)
    requires i < |s.status| && Sized(s, |s.status|)
  {
    var a, b := s.enqueuedAt[i], s.startedAt[i];
    && (b.Some? ==> a.Some? && a.value <= b.value <= |s.log|)
    && (b.Some? && b.value < |s.log| ==> Has(s.log[b.value], i))
    && (b.Some? && b.value == |s.log| ==> Has(frames, i))
    && (Has(frames, i) ==> b.Some?)
    && (forall k | 0 <= k < |s.log| && Has(s.log[k], i) :: b.Some? && b.value <= k)
  }

  /** Where resource i stands while `frames` have been chosen for the current packet. */
  ghost predicate ItemOk(e: seq<Entry>, root: nat, s: State, frames: seq<Frame>, i: nat)
    requires i < |e| && Sized(s, |e|)
  {
    && Sent(s.log, i) + SentIn(frames, i) + s.remaining[i] == e[i].size
    && TimesOk(s, frames, i)
    && Ends(s.log, i) == (if s.status[i] == Finished then 1 else 0)
    && match s.status[i]
       case Unavailable =>
         i != root && i !in s.queue && s.enqueuedAt[i].None? && s.finishedAt[i].None? && EndsIn(frames, i) == 0
       case Enqueued =>
         && s.enqueuedAt[i].Some? && s.enqueuedAt[i].value <= |s.log| && s.finishedAt[i].None?
         && EndsIn(frames, i) == (if i in s.queue then 0 else 1)
         && (i !in s.queue ==> s.remaining[i] == 0 && s.startedAt[i].Some?)
       case Finished =>
         && i !in s.queue && s.remaining[i] == 0 && EndsIn(frames, i) == 0
         && s.enqueuedAt[i].Some? && s.startedAt[i].Some? && s.finishedAt[i].Some?
         && s.startedAt[i].value <= s.finishedAt[i].value < |s.log|
         && EndsIn(s.log[s.finishedAt[i].value], i) == 1
  }

  /** What resource i waited for was finished in earlier packets. */
  ghost predicate WaitedFor(e: seq<Entry>, root: nat, s: State, i: nat)
    requires i < |e| && Sized(s, |e|) && DependenciesBelow(e[i], |e|)
  {
    i != root && s.enqueuedAt[i].Some? ==>
      forall k | 0 <= k < |e[i].dependencies| ::
        var t := s.finishedAt[e[i].dependencies[k]];
        t.Some? && t.value < s.enqueuedAt[i].value
  }

  ghost predicate Differ(q: seq<nat>, i: nat, j: nat)
    requires i < j < |q|
  {
    q[i] != q[j]
  }

  ghost predicate Distinct(q: seq<nat>) {
    forall i: nat, j: nat | i < j < |q| :: Differ(q, i, j)
  }

  predicate InRange(frames: seq<Frame>, n: nat) {
    forall k | 0 <= k < |frames| :: frames[k].id < n
  }

  /** What every step of the replay keeps. */
  ghost predicate Inv(e: seq<Entry>, root: nat, s: State, frames: seq<Frame>) {
    && Known(e, root) && Sized(s, |e|) && Distinct(s.queue) && InRange(frames, |e|)
    && (forall i: nat | i < |e| :: ItemOk(e, root, s, frames, i))
    && (forall i: nat | i < |e| :: WaitedFor(e, root, s, i))
    && (forall k | 0 <= k < |s.log| :: PacketOk(s.log[k]))
  }

  lemma {:induction false} Snoc(frames: seq<Frame>, f: Frame, i: nat)
    ensures SentIn(frames + [f], i) == SentIn(frames, i) + if f.id == i then f.length else 0
    ensures EndsIn(frames + [f], i) == EndsIn(frames, i) + if f.id == i && f.finished then 1 else 0
    ensures Has(frames + [f], i) <==> Has(frames, i) || f.id == i
    ensures Bytes(frames + [f]) == Bytes(frames) + f.length
  {
    var all := frames + [f];
    assert all[..|frames|] == frames;
    assert all[|frames|] == f;
    if Has(frames, i) {
      var k :| 0 <= k < |frames| && frames[k].id == i;
      assert all[k].id == i;
    }
  }

  lemma {:induction false} TailDistinct(q: seq<nat>)
    requires Distinct(q) && |q| > 0
    ensures Distinct(q[1..]) && q[0] !in q[1..] && Distinct(q[1..] + [q[0]])
    ensures forall x :: x in q <==> x == q[0] || x in q[1..]
    ensures forall x :: x in q <==> x in q[1..] + [q[0]]
  {
    var t, c := q[1..], q[1..] + [q[0]];
    forall i: nat, j: nat | i < j < |t| ensures Differ(t, i, j) {
      assert Differ(q, i + 1, j + 1);
    }
    forall i | 0 <= i < |t| ensures t[i] != q[0] {
      assert Differ(q, 0, i + 1);
    }
    forall i: nat, j: nat | i < j < |c| ensures Differ(c, i, j) {
      if j < |t| {
        assert Differ(t, i, j);
      }
    }
    assert q == [q[0]] + t;
  }

  lemma {:induction false} SendOther(e: seq<Entry>, root: nat, s: State, frames: seq<Frame>, bytes: nat, i: nat)
    requires Sized(s, |e|) && Distinct(s.queue) && |s.queue| > 0 && bytes < DATA_BLOCK_SIZE && i < |e|
             && i != s.queue[0]
    requires ItemOk(e, root, s, frames, i)
    ensures var (s', frames', b') := SendFirst(s, frames, bytes);
            Sized(s', |e|) && ItemOk(e, root, s', frames', i)
  {
    var (s', frames', b') := SendFirst(s, frames, bytes);
    Snoc(frames, frames'[|frames|], i);
    TailDistinct(s.queue);
  }

  lemma {:induction false} SendSame(e: seq<Entry>, root: nat, s: State, frames: seq<Frame>, bytes: nat, i: nat)
    requires Sized(s, |e|) && Distinct(s.queue) && |s.queue| > 0 && bytes < DATA_BLOCK_SIZE && i < |e|
             && i == s.queue[0]
    requires ItemOk(e, root, s, frames, i)
    ensures var (s', frames', b') := SendFirst(s, frames, bytes);
            Sized(s', |e|) && ItemOk(e, root, s', frames', i)
  {
    var (s', frames', b') := SendFirst(s, frames, bytes);
    Snoc(frames, frames'[|frames|], i);
    TailDistinct(s.queue);
  }

  lemma {:induction false} SendKeeps(e: seq<Entry>, root: nat, s: State, frames: seq<Frame>, bytes: nat)
    requires Inv(e, root, s, frames) && |s.queue| > 0 && bytes < DATA_BLOCK_SIZE
    ensures Inv(e, root, SendFirst(s, frames, bytes).0, SendFirst(s, frames, bytes).1)
  {
    var (s', frames', b') := SendFirst(s, frames, bytes);
    TailDistinct(s.queue);
    forall i: nat | i < |e| ensures ItemOk(e, root, s', frames', i) {
      assert ItemOk(e, root, s, frames, i);
      if i == s.queue[0] {
        SendSame(e, root, s, frames, bytes, i);
      } else {
        SendOther(e, root, s, frames, bytes, i);
      }
    }
    forall i: nat | i < |e| ensures WaitedFor(e, root, s', i) {
      assert WaitedFor(e, root, s, i);
    }
  }

  /** The packet under construction: complete frames as long as there is room. */
  ghost predicate Filling(frames: seq<Frame>, bytes: nat) {
    && bytes == Bytes(frames) && PacketOk(frames)
    && (bytes < DATA_BLOCK_SIZE ==> forall k | 0 <= k < |frames| :: frames[k].finished)
  }

  /** Fills one packet from the queue (lines 233-262). */
  function Fill(s: State, frames: seq<Frame>, bytes: nat): (State, seq<Frame>)
    requires Sized(s, |s.status|)
    decreases if bytes < DATA_BLOCK_SIZE then 1 else 0, |s.queue|
  {
    if bytes >= DATA_BLOCK_SIZE || |s.queue| == 0 then (s, frames)
    else
      var r := SendFirst(s, frames, bytes);
      Fill(r.0, r.1, r.2)
  }

  function SumOf(a: seq<nat>): nat {
    if |a| == 0 then 0 else SumOf(a[..|a| - 1]) + a[|a| - 1]
  }

  lemma {:induction false} SumUpdate(a: seq<nat>, i: nat, x: nat)
    requires i < |a|
    ensures SumOf(a[i := x]) == SumOf(a) - a[i] + x
  {
    var n := |a| - 1;
    if i < n {
      SumUpdate(a[..n], i, x);
      assert a[i := x][..n] == a[..n][i := x];
    } else {
      assert a[i := x][..n] == a[..n];
    }
  }

  lemma {:induction false} SendFilling(s: State, frames: seq<Frame>, bytes: nat)
    requires Sized(s, |s.status|) && |s.queue| > 0 && bytes < DATA_BLOCK_SIZE && Filling(frames, bytes)
    ensures var (s', frames', b') := SendFirst(s, frames, bytes);
            && Filling(frames', b') && |frames'| > 0
            && SumOf(s'.remaining) + Bytes(frames') == SumOf(s.remaining) + Bytes(frames)
  {
    var (s', frames', b') := SendFirst(s, frames, bytes);
    Snoc(frames, frames'[|frames|], 0);
    SumUpdate(s.remaining, s.queue[0], s'.remaining[s.queue[0]]);
  }

  /** Filling keeps everything, sends what it takes from the resources, and takes something if anything waits. */
  lemma {:induction false} FillKeeps(e: seq<Entry>, root: nat, s: State, frames: seq<Frame>, bytes: nat)
    requires Inv(e, root, s, frames) && Filling(frames, bytes)
    ensures var (s', frames') := Fill(s, frames, bytes);
            && Inv(e, root, s', frames') && PacketOk(frames') && s'.log == s.log && s'.status == s.status
            && SumOf(s'.remaining) + Bytes(frames') == SumOf(s.remaining) + Bytes(frames)
            && (|frames| > 0 || |s.queue| > 0 ==> |frames'| > 0)
            && (|frames'| > 0 && !frames'[|frames'| - 1].finished ==> Bytes(frames') >= DATA_BLOCK_SIZE)
    decreases if bytes < DATA_BLOCK_SIZE then 1 else 0, |s.queue|
  {
    if !(bytes >= DATA_BLOCK_SIZE || |s.queue| == 0) {
      var r := SendFirst(s, frames, bytes);
      SendKeeps(e, root, s, frames, bytes);
      SendFilling(s, frames, bytes);
      FillKeeps(e, root, r.0, r.1, r.2);
    }
  }

  function MarkAll(s: State, frames: seq<Frame>): (r: State)
    requires |s.status| == |s.finishedAt| && InRange(frames, |s.status|)
    ensures |r.status| == |s.status| && |r.finishedAt| == |s.finishedAt|
    ensures r == s.(status := r.status, finishedAt := r.finishedAt)
  {
    if |frames| == 0 then s else MarkFinished(MarkAll(s, frames[..|frames| - 1]), frames[|frames| - 1])
  }

  lemma {:induction false} MarkAllAt(s: State, frames: seq<Frame>, i: nat)
    requires |s.status| == |s.finishedAt| && i < |s.status| && InRange(frames, |s.status|)
    ensures MarkAll(s, frames).status[i] == if EndsIn(frames, i) > 0 then Finished else s.status[i]
    ensures MarkAll(s, frames).finishedAt[i] == if EndsIn(frames, i) > 0 then Some(|s.log|) else s.finishedAt[i]
  {
    if |frames| > 0 {
      MarkAllAt(s, frames[..|frames| - 1], i);
    }
  }

  /** Marks what the packet finished and logs it (lines 474-482). */
  function ClosePacket(s: State, frames: seq<Frame>): State
    requires |s.status| == |s.finishedAt| && InRange(frames, |s.status|)
  {
    MarkAll(s, frames).(log := s.log + [frames])
  }

  lemma {:induction false} LogSnoc(log: seq<seq<Frame>>, frames: seq<Frame>, i: nat)
    ensures Sent(log + [frames], i) == Sent(log, i) + SentIn(frames, i)
    ensures Ends(log + [frames], i) == Ends(log, i) + EndsIn(frames, i)
  {
    assert (log + [frames])[..|log|] == log;
  }

  lemma {:induction false} CloseTimes(s: State, frames: seq<Frame>, i: nat)
    requires i < |s.status| && Sized(s, |s.status|) && InRange(frames, |s.status|) && TimesOk(s, frames, i)
    ensures Sized(ClosePacket(s, frames), |s.status|) && TimesOk(ClosePacket(s, frames), [], i)
  {
    var s' := ClosePacket(s, frames);
    var b := s.startedAt[i];
    if b.Some? && b.value < |s.log| {
      assert s'.log[b.value] == s.log[b.value];
    }
    forall k | 0 <= k < |s'.log| && Has(s'.log[k], i) ensures b.Some? && b.value <= k {
      if k < |s.log| {
        assert s'.log[k] == s.log[k];
      }
    }
  }

  lemma {:induction false} CloseItem(e: seq<Entry>, root: nat, s: State, frames: seq<Frame>, i: nat)
    requires i < |e| && Sized(s, |e|) && InRange(frames, |e|) && ItemOk(e, root, s, frames, i)
    ensures Sized(ClosePacket(s, frames), |e|) && ItemOk(e, root, ClosePacket(s, frames), [], i)
  {
    MarkAllAt(s, frames, i);
    LogSnoc(s.log, frames, i);
    CloseTimes(s, frames, i);
  }

  lemma {:induction false} CloseWaited(e: seq<Entry>, root: nat, s: State, frames: seq<Frame>, i: nat)
    requires Inv(e, root, s, frames) && i < |e|
    ensures WaitedFor(e, root, ClosePacket(s, frames), i)
  {
    assert WaitedFor(e, root, s, i);
    var s' := ClosePacket(s, frames);
    if i != root && s.enqueuedAt[i].Some? {
      forall k | 0 <= k < |e[i].dependencies|
        ensures var t := s'.finishedAt[e[i].dependencies[k]]; t.Some? && t.value < s.enqueuedAt[i].value
      {
        var d := e[i].dependencies[k];
        assert ItemOk(e, root, s, frames, d);
        MarkAllAt(s, frames, d);
      }
    }
  }

  lemma {:induction false} CloseKeeps(e: seq<Entry>, root: nat, s: State, frames: seq<Frame>)
    requires Inv(e, root, s, frames) && PacketOk(frames)
    ensures Inv(e, root, ClosePacket(s, frames), [])
  {
    var s' := ClosePacket(s, frames);
    forall i: nat | i < |e| ensures ItemOk(e, root, s', [], i) && WaitedFor(e, root, s', i) {
      assert ItemOk(e, root, s, frames, i);
      CloseItem(e, root, s, frames, i);
      CloseWaited(e, root, s, frames, i);
    }
    forall k | 0 <= k < |s'.log| ensures PacketOk(s'.log[k]) {
      assert k < |s.log| ==> s'.log[k] == s.log[k];
    }
  }

  lemma {:induction false} EnqueueItem(e: seq<Entry>, root: nat, s: State, i: nat, j: nat)
    requires i < |e| && j < |e| && Sized(s, |e|) && s.status[i] == Unavailable && ItemOk(e, root, s, [], j)
    ensures Sized(Enqueue(s, i), |e|) && ItemOk(e, root, Enqueue(s, i), [], j)
  {
  }

  lemma {:induction false} EnqueueKeeps(e: seq<Entry>, root: nat, s: State, i: nat)
    requires Inv(e, root, s, []) && i < |e| && s.status[i] == Unavailable && DependenciesMet(e[i], s.status)
    ensures Inv(e, root, Enqueue(s, i), [])
  {
    var s' := Enqueue(s, i);
    assert ItemOk(e, root, s, [], i);
    forall a: nat, b: nat | a < b < |s'.queue| ensures Differ(s'.queue, a, b) {
      if b < |s.queue| {
        assert Differ(s.queue, a, b);
      } else {
        assert s.queue[a] in s.queue;
      }
    }
    forall j: nat | j < |e| ensures ItemOk(e, root, s', [], j) {
      EnqueueItem(e, root, s, i, j);
    }
    forall j: nat | j < |e| ensures WaitedFor(e, root, s', j) {
      assert WaitedFor(e, root, s, j);
      if j == i {
        forall k | 0 <= k < |e[i].dependencies|
          ensures var t := s.finishedAt[e[i].dependencies[k]]; t.Some? && t.value < |s.log|
        {
          assert ItemOk(e, root, s, [], e[i].dependencies[k]);
        }
      }
    }
  }

  /** Puts all entries below n whose dependencies are met into the queue (lines 458-469). */
  function EnqueueAll(e: seq<Entry>, s: State, n: nat): (r: State)
    requires n <= |e| && Sized(s, |e|) && forall i | 0 <= i < |e| :: DependenciesBelow(e[i], |e|)
    ensures Sized(r, |e|)
  {
    if n == 0 then s else EnqueueIfReady(e, EnqueueAll(e, s, n - 1), n - 1)
  }

  /** Entry i is not left waiting although its dependencies are met. */
  ghost predicate Settled(e: seq<Entry>, s: State, i: nat)
    requires i < |e| && Sized(s, |e|) && DependenciesBelow(e[i], |e|)
  {
    s.status[i] == Unavailable ==> !DependenciesMet(e[i], s.status)
  }

  lemma {:induction false} EnqueueAllKeeps(e: seq<Entry>, root: nat, s: State, n: nat)
    requires Inv(e, root, s, []) && n <= |e|
    ensures var s' := EnqueueAll(e, s, n);
            && Inv(e, root, s', [])
            && (forall i: nat | i < n :: Settled(e, s', i))
            && s'.remaining == s.remaining && s'.log == s.log && SameFinished(s.status, s'.status)
  {
    if n > 0 {
      EnqueueAllKeeps(e, root, s, n - 1);
      var m := EnqueueAll(e, s, n - 1);
      if m.status[n - 1] == Unavailable && DependenciesMet(e[n - 1], m.status) {
        EnqueueKeeps(e, root, m, n - 1);
        var m' := Enqueue(m, n - 1);
        forall i: nat | i < n ensures Settled(e, m', i) {
          SettledKeeps(e, m, n - 1, i);
        }
      }
    }
  }

  ghost predicate SameFinished(a: seq<Status>, b: seq<Status>) {
    |a| == |b| && forall i | 0 <= i < |a| :: a[i] == Finished <==> b[i] == Finished
  }

  lemma {:induction false} SettledKeeps(e: seq<Entry>, s: State, j: nat, i: nat)
    requires i < |e| && j < |e| && Sized(s, |e|) && DependenciesBelow(e[i], |e|) && s.status[j] == Unavailable
    requires i == j || Settled(e, s, i)
    ensures Sized(Enqueue(s, j), |e|) && Settled(e, Enqueue(s, j), i)
  {
    if i != j && s.status[i] == Unavailable {
      var k :| 0 <= k < |e[i].dependencies| && s.status[e[i].dependencies[k]] != Finished;
      assert Enqueue(s, j).status[e[i].dependencies[k]] != Finished;
    }
  }

  /** Every queued stream knows when it was enqueued. */
  predicate Timed(s: State) {
    forall k | 0 <= k < |s.queue| :: s.queue[k] < |s.enqueuedAt| && s.enqueuedAt[s.queue[k]].Some?
  }

  function Items(e: seq<Entry>, s: State): seq<DQ.Item>
    requires Sized(s, |e|) && Timed(s)
  {
    seq(|s.queue|, k requires 0 <= k < |s.queue| =>
          DQ.Item(s.queue[k], e[s.queue[k]].resourceType, s.enqueuedAt[s.queue[k]].value))
  }

  function Ids(r: seq<DQ.Ranked>): (q: seq<nat>)
    ensures |q| == |r| && forall k | 0 <= k < |r| :: q[k] == r[k].item.id
  {
    if |r| == 0 then [] else Ids(r[..|r| - 1]) + [r[|r| - 1].item.id]
  }

  /** The order in which the chosen scheduler serves the queue. */
  function Order(e: seq<Entry>, s: State, dynamic: bool): seq<nat>
    requires Sized(s, |e|) && Timed(s)
  {
    if dynamic then Ids(DQ.Reordered(Items(e, s))) else s.queue
  }

  lemma {:induction false} SourceOf(e: seq<Entry>, s: State, k: nat)
    requires Sized(s, |e|) && Timed(s) && k < |DQ.Reordered(Items(e, s))|
    ensures var x := DQ.Reordered(Items(e, s))[k];
            && x.position < |s.queue| && x == DQ.Rank(Items(e, s), |s.queue|)[x.position]
            && x.item.id == s.queue[x.position]
  {
    var items := Items(e, s);
    var r, x := DQ.Rank(items, |items|), DQ.Reordered(items)[k];
    DQ.ReorderedSorted(items);
    DQ.SameMembers(DQ.Reordered(items), r, x);
    var i :| 0 <= i < |r| && r[i] == x;
  }

  lemma {:induction false} OrderDistinct(e: seq<Entry>, s: State)
    requires Sized(s, |e|) && Timed(s) && Distinct(s.queue)
    ensures Distinct(Order(e, s, true))
  {
    var items, q := Items(e, s), Order(e, s, true);
    var o := DQ.Reordered(items);
    DQ.ReorderedSorted(items);
    forall i: nat, j: nat | i < j < |q| ensures Differ(q, i, j) {
      SourceOf(e, s, i);
      SourceOf(e, s, j);
      assert DQ.PrecedesAt(o, i, j);
      var a, b := o[i].position, o[j].position;
      assert a < b ==> Differ(s.queue, a, b);
      assert b < a ==> Differ(s.queue, b, a);
    }
  }

  lemma {:induction false} OrderMembers(e: seq<Entry>, s: State, x: nat)
    requires Sized(s, |e|) && Timed(s)
    ensures x in Order(e, s, true) <==> x in s.queue
  {
    var items, q := Items(e, s), Order(e, s, true);
    var r, o := DQ.Rank(items, |items|), DQ.Reordered(items);
    DQ.ReorderedSorted(items);
    if x in q {
      var k :| 0 <= k < |q| && q[k] == x;
      SourceOf(e, s, k);
    }
    if x in s.queue {
      var k :| 0 <= k < |s.queue| && s.queue[k] == x;
      DQ.SameMembers(o, r, r[k]);
      var m :| 0 <= m < |o| && o[m] == r[k];
      assert q[m] == x;
    }
  }

  lemma {:induction false} OrderOk(e: seq<Entry>, s: State, dynamic: bool)
    requires Sized(s, |e|) && Timed(s) && Distinct(s.queue)
    ensures var q := Order(e, s, dynamic);
            Distinct(q) && forall x :: x in q <==> x in s.queue
  {
    if dynamic {
      OrderDistinct(e, s);
      forall x: nat ensures x in Order(e, s, true) <==> x in s.queue {
        OrderMembers(e, s, x);
      }
    }
  }

  lemma {:induction false} ReorderKeeps(e: seq<Entry>, root: nat, s: State, q: seq<nat>)
    requires Inv(e, root, s, []) && Distinct(q) && forall x :: x in q <==> x in s.queue
    ensures Inv(e, root, s.(queue := q), [])
  {
    var s' := s.(queue := q);
    forall k | 0 <= k < |q| ensures q[k] < |e| {
      assert q[k] in s.queue;
    }
    forall i: nat | i < |e| ensures ItemOk(e, root, s', [], i) {
      assert ItemOk(e, root, s, [], i);
    }
    forall i: nat | i < |e| ensures WaitedFor(e, root, s', i) {
      assert WaitedFor(e, root, s, i);
    }
  }

  lemma {:induction false} QueueTimed(e: seq<Entry>, root: nat, s: State)
    requires Inv(e, root, s, [])
    ensures Timed(s)
  {
    forall k | 0 <= k < |s.queue| ensures s.enqueuedAt[s.queue[k]].Some? {
      assert ItemOk(e, root, s, [], s.queue[k]);
      assert s.queue[k] in s.queue;
    }
  }

  /** If nothing waits in the queue although not everything is finished, the rest is deadlocked. */
  lemma {:induction false} SomethingWaits(e: seq<Entry>, root: nat, s: State, i: nat)
    requires Inv(e, root, s, []) && i < |e| && s.status[i] != Finished
    requires forall j: nat | j < |e| :: Settled(e, s, j)
    requires DeadlockFree(e, root)
    ensures |s.queue| > 0
  {
    if |s.queue| == 0 {
      var b := set j: nat | j < |e| && s.status[j] != Finished;
      forall j | j in b ensures j != root && DependsOn(e[j], b) {
        assert ItemOk(e, root, s, [], j);
        assert Settled(e, s, j);
        var k :| 0 <= k < |e[j].dependencies| && s.status[e[j].dependencies[k]] != Finished;
        assert e[j].dependencies[k] in b;
      }
      assert i in b;
      assert Deadlocked(e, root, b);
    }
  }

  function Unfinished(status: seq<Status>): nat {
    if |status| == 0 then 0
    else Unfinished(status[..|status| - 1]) + if status[|status| - 1] == Finished then 0 else 1
  }

  lemma {:induction false} FewerUnfinished(a: seq<Status>, b: seq<Status>)
    requires |a| == |b| && forall i | 0 <= i < |a| :: a[i] == Finished ==> b[i] == Finished
    ensures Unfinished(b) <= Unfinished(a)
    ensures (exists i | 0 <= i < |a| :: a[i] != Finished && b[i] == Finished) ==> Unfinished(b) < Unfinished(a)
  {
    var n := |a| - 1;
    if n >= 0 {
      FewerUnfinished(a[..n], b[..n]);
      if i :| 0 <= i < |a| && a[i] != Finished && b[i] == Finished {
        if i < n {
          assert a[..n][i] != Finished && b[..n][i] == Finished;
        }
      }
    }
  }

  /** What is still to be done: bytes to send and resources to finish. */
  function Work(s: State): nat {
    SumOf(s.remaining) + Unfinished(s.status)
  }

  /** One round of the replay: enqueue what is ready, fill a packet, mark what it finished (lines 456-482). */
  ghost function Round(e: seq<Entry>, root: nat, s: State, dynamic: bool): (r: State)
    requires Inv(e, root, s, [])
    ensures Inv(e, root, r, [])
  {
    EnqueueAllKeeps(e, root, s, |e|);
    var s1 := EnqueueAll(e, s, |e|);
    QueueTimed(e, root, s1);
    OrderOk(e, s1, dynamic);
    ReorderKeeps(e, root, s1, Order(e, s1, dynamic));
    var s2 := s1.(queue := Order(e, s1, dynamic));
    FillKeeps(e, root, s2, [], 0);
    CloseKeeps(e, root, Fill(s2, [], 0).0, Fill(s2, [], 0).1);
    ClosePacket(Fill(s2, [], 0).0, Fill(s2, [], 0).1)
  }

  lemma {:induction false} EndsCount(frames: seq<Frame>, k: nat)
    requires k < |frames| && frames[k].finished
    ensures EndsIn(frames, frames[k].id) > 0
  {
    var n := |frames| - 1;
    if k < n {
      EndsCount(frames[..n], k);
    }
  }

  lemma {:induction false} CloseFinishes(e: seq<Entry>, root: nat, s: State, frames: seq<Frame>)
    requires Inv(e, root, s, frames)
    ensures Unfinished(ClosePacket(s, frames).status) <= Unfinished(s.status)
    ensures |frames| > 0 && frames[|frames| - 1].finished ==>
              Unfinished(ClosePacket(s, frames).status) < Unfinished(s.status)
  {
    var t := ClosePacket(s, frames).status;
    forall i | 0 <= i < |e| && s.status[i] == Finished ensures t[i] == Finished {
      MarkAllAt(s, frames, i);
    }
    if |frames| > 0 && frames[|frames| - 1].finished {
      var id := frames[|frames| - 1].id;
      EndsCount(frames, |frames| - 1);
      MarkAllAt(s, frames, id);
      assert ItemOk(e, root, s, frames, id);
      assert s.status[id] != Finished && t[id] == Finished;
    }
    FewerUnfinished(s.status, t);
  }

  lemma {:induction false} PacketWorks(e: seq<Entry>, root: nat, s: State)
    requires Inv(e, root, s, []) && |s.queue| > 0
    ensures var r := Fill(s, [], 0);
            InRange(r.1, |e|) && Sized(r.0, |e|) && Work(ClosePacket(r.0, r.1)) < Work(s)
  {
    FillKeeps(e, root, s, [], 0);
    var r := Fill(s, [], 0);
    CloseFinishes(e, root, r.0, r.1);
  }

  /** Each round does some of the work left. */
  lemma {:induction false} RoundWorks(e: seq<Entry>, root: nat, s: State, dynamic: bool, i: nat)
    requires Inv(e, root, s, []) && i < |e| && s.status[i] != Finished && DeadlockFree(e, root)
    ensures Work(Round(e, root, s, dynamic)) < Work(s)
  {
    EnqueueAllKeeps(e, root, s, |e|);
    var s1 := EnqueueAll(e, s, |e|);
    SomethingWaits(e, root, s1, i);
    QueueTimed(e, root, s1);
    OrderOk(e, s1, dynamic);
    var q := Order(e, s1, dynamic);
    assert s1.queue[0] in q;
    ReorderKeeps(e, root, s1, q);
    PacketWorks(e, root, s1.(queue := q));
    FewerUnfinished(s.status, s1.status);
  }

  /** Everything was sent exactly once, in order of dependency, in full packets, with matching times. */
  ghost predicate Correct(e: seq<Entry>, root: nat, s: State)
    requires Sized(s, |e|)
  {
    && (forall k | 0 <= k < |s.log| :: PacketOk(s.log[k]))
    && (forall i: nat | i < |e| :: Delivered(e, s, i))
    && (forall i: nat, k: nat | i < |e| && i != root && k < |s.log| && Has(s.log[k], i) :: After(e, s, i, k))
  }

  /** The frames of resource i add up to its size, one of them ends it, and its times are in order. */
  ghost predicate Delivered(e: seq<Entry>, s: State, i: nat)
    requires i < |e| && Sized(s, |e|)
  {
    && Sent(s.log, i) == e[i].size && Ends(s.log, i) == 1
    && s.enqueuedAt[i].Some? && s.startedAt[i].Some? && s.finishedAt[i].Some?
    && s.enqueuedAt[i].value <= s.startedAt[i].value <= s.finishedAt[i].value < |s.log|
    && Has(s.log[s.startedAt[i].value], i) && EndsIn(s.log[s.finishedAt[i].value], i) == 1
    && (forall k | 0 <= k < s.startedAt[i].value :: !Has(s.log[k], i))
  }

  /** All dependencies of i ended in packets before packet k. */
  ghost predicate After(e: seq<Entry>, s: State, i: nat, k: nat)
    requires i < |e|
  {
    forall m | 0 <= m < |e[i].dependencies| :: EndsBefore(s.log, e[i].dependencies[m], k)
  }

  ghost predicate EndsBefore(log: seq<seq<Frame>>, d: nat, k: nat) {
    exists j: nat | j < k && j < |log| :: EndsIn(log[j], d) == 1
  }

  lemma {:induction false} DependenciesFirst(e: seq<Entry>, root: nat, s: State, i: nat, k: nat)
    requires Inv(e, root, s, []) && i < |e| && i != root && k < |s.log| && Has(s.log[k], i)
    ensures After(e, s, i, k)
  {
    assert ItemOk(e, root, s, [], i);
    assert WaitedFor(e, root, s, i);
    forall m | 0 <= m < |e[i].dependencies| ensures EndsBefore(s.log, e[i].dependencies[m], k) {
      var d := e[i].dependencies[m];
      assert ItemOk(e, root, s, [], d);
      assert EndsIn(s.log[s.finishedAt[d].value], d) == 1;
    }
  }

  lemma {:induction false} FinishedCorrect(e: seq<Entry>, root: nat, s: State)
    requires Inv(e, root, s, []) && forall i | 0 <= i < |e| :: s.status[i] == Finished
    ensures Correct(e, root, s)
  {
    forall i: nat | i < |e| ensures Delivered(e, s, i) {
      assert ItemOk(e, root, s, [], i);
    }
    forall i: nat, k: nat | i < |e| && i != root && k < |s.log| && Has(s.log[k], i) ensures After(e, s, i, k) {
      DependenciesFirst(e, root, s, i, k);
    }
  }

  /** The beginning of a replay: only the root is in the queue (lines 441-453). */
  function Start(e: seq<Entry>, root: nat): State
    requires root < |e|
  {
    var none := seq(|e|, i => None);
    State(seq(|e|, i requires 0 <= i < |e| => e[i].size), seq(|e|, i => Unavailable)[root := Enqueued], [root],
          none[root := Some(0)], none, none, [])
  }

  lemma {:induction false} StartInv(e: seq<Entry>, root: nat)
    requires Known(e, root)
    ensures Inv(e, root, Start(e, root), [])
  {
    var s := Start(e, root);
    forall i: nat | i < |e| ensures ItemOk(e, root, s, [], i) && WaitedFor(e, root, s, i) {
    }
  }

  /** The state after n more rounds. */
  ghost function Rounds(e: seq<Entry>, root: nat, s: State, dynamic: bool, n: nat): State
    requires Inv(e, root, s, [])
    decreases n
  {
    if n == 0 then s else Rounds(e, root, Round(e, root, s, dynamic), dynamic, n - 1)
  }

  predicate AllFinished(s: State) {
    forall i | 0 <= i < |s.status| :: s.status[i] == Finished
  }

  ghost predicate NotStarted(s: State, b: set<nat>) {
    forall i | i in b :: i < |s.status| && s.status[i] == Unavailable
  }

  /** An entry with an unfinished dependency is not enqueued. */
  lemma {:induction false} EnqueueSkips(e: seq<Entry>, root: nat, s: State, n: nat, i: nat, k: nat)
    requires n <= |e| && Known(e, root) && Sized(s, |e|) && i < |e| && k < |e[i].dependencies|
    requires s.status[i] == Unavailable && s.status[e[i].dependencies[k]] != Finished
    ensures EnqueueAll(e, s, n).status[i] == Unavailable && EnqueueAll(e, s, n).status[e[i].dependencies[k]] != Finished
  {
    if n > 0 {
      EnqueueSkips(e, root, s, n - 1, i, k);
    }
  }

  lemma {:induction false} EnqueueStuck(e: seq<Entry>, root: nat, s: State, b: set<nat>)
    requires Known(e, root) && Sized(s, |e|) && Deadlocked(e, root, b) && NotStarted(s, b)
    ensures NotStarted(EnqueueAll(e, s, |e|), b)
  {
    forall i | i in b ensures i < |e| && EnqueueAll(e, s, |e|).status[i] == Unavailable {
      assert DependsOn(e[i], b);
      var k :| 0 <= k < |e[i].dependencies| && e[i].dependencies[k] in b;
      EnqueueSkips(e, root, s, |e|, i, k);
    }
  }

  /** Entries that wait for one another are never sent. */
  lemma {:induction false} RoundStuck(e: seq<Entry>, root: nat, s: State, dynamic: bool, b: set<nat>)
    requires Inv(e, root, s, []) && Deadlocked(e, root, b) && NotStarted(s, b)
    ensures NotStarted(Round(e, root, s, dynamic), b)
  {
    EnqueueAllKeeps(e, root, s, |e|);
    EnqueueStuck(e, root, s, b);
    var s1 := EnqueueAll(e, s, |e|);
    QueueTimed(e, root, s1);
    OrderOk(e, s1, dynamic);
    var s2 := s1.(queue := Order(e, s1, dynamic));
    ReorderKeeps(e, root, s1, s2.queue);
    FillKeeps(e, root, s2, [], 0);
    var r := Fill(s2, [], 0);
    forall i | i in b ensures ClosePacket(r.0, r.1).status[i] == Unavailable {
      assert ItemOk(e, root, r.0, r.1, i);
      MarkAllAt(r.0, r.1, i);
    }
  }

  lemma {:induction false} StuckUnfinished(e: seq<Entry>, root: nat, s: State, b: set<nat>)
    requires Deadlocked(e, root, b) && NotStarted(s, b)
    ensures !AllFinished(s)
  {
    var i :| i in b;
  }

  lemma {:induction false} StartStuck(e: seq<Entry>, root: nat, b: set<nat>)
    requires Known(e, root) && Deadlocked(e, root, b)
    ensures NotStarted(Start(e, root), b)
  {
  }

  lemma {:induction false} StuckForever(e: seq<Entry>, root: nat, s: State, dynamic: bool, b: set<nat>, n: nat)
    requires Inv(e, root, s, []) && Deadlocked(e, root, b) && NotStarted(s, b)
    ensures !AllFinished(Rounds(e, root, s, dynamic, n))
    decreases n
  {
    if n == 0 {
      StuckUnfinished(e, root, s, b);
    } else {
      var t := Round(e, root, s, dynamic);
      RoundStuck(e, root, s, dynamic, b);
      StuckForever(e, root, t, dynamic, b, n - 1);
      assert Rounds(e, root, s, dynamic, n) == Rounds(e, root, t, dynamic, n - 1);
    }
  }

  lemma {:induction false} NextWorks(e: seq<Entry>, root: nat, s: State, dynamic: bool)
    requires Inv(e, root, s, []) && DeadlockFree(e, root) && !AllFinished(s)
    ensures Work(Round(e, root, s, dynamic)) < Work(s)
  {
    var i :| 0 <= i < |s.status| && s.status[i] != Finished;
    RoundWorks(e, root, s, dynamic, i);
  }

  /** Each round leaves less work, so one is the last. */
  lemma {:induction false} LastRound(e: seq<Entry>, root: nat, s: State, dynamic: bool, work: nat) returns (n: nat)
    requires Inv(e, root, s, []) && DeadlockFree(e, root) && work == Work(s)
    ensures AllFinished(Rounds(e, root, s, dynamic, n))
    decreases work
  {
    if AllFinished(s) {
      return 0;
    }
    NextWorks(e, root, s, dynamic);
    var t := Round(e, root, s, dynamic);
    var m := LastRound(e, root, t, dynamic, Work(t));
    n := m + 1;
    assert Rounds(e, root, s, dynamic, n) == Rounds(e, root, t, dynamic, m);
  }

  ghost predicate EndsAfter(e: seq<Entry>, root: nat, dynamic: bool, n: nat)
    requires Known(e, root)
  {
    StartInv(e, root);
    AllFinished(Rounds(e, root, Start(e, root), dynamic, n))
  }

  /** The replay ends, with either scheduler, if and only if no entries wait for one another. */
  lemma {:induction false} ReplayEnds(e: seq<Entry>, root: nat, dynamic: bool)
    requires Known(e, root)
    ensures (exists n: nat :: EndsAfter(e, root, dynamic, n)) <==> DeadlockFree(e, root)
  {
    StartInv(e, root);
    if DeadlockFree(e, root) {
      var n := LastRound(e, root, Start(e, root), dynamic, Work(Start(e, root)));
      assert EndsAfter(e, root, dynamic, n);
    } else {
      var b :| Deadlocked(e, root, b);
      StartStuck(e, root, b);
      forall n: nat ensures !EndsAfter(e, root, dynamic, n) {
        StuckForever(e, root, Start(e, root), dynamic, b, n);
      }
    }
  }

  /** Dependencies with smaller ids, as in a recording in order of time, are enough. */
  lemma {:induction false} SmallerIdsSuffice(e: seq<Entry>, root: nat)
    requires forall i | 0 <= i < |e| && i != root :: DependenciesBelow(e[i], i)
    ensures DeadlockFree(e, root)
  {
    forall b: set<nat> | Deadlocked(e, root, b) ensures false {
      var i :| i in b;
      NoneWaits(e, root, b, i);
    }
  }

  lemma {:induction false} NoneWaits(e: seq<Entry>, root: nat, b: set<nat>, i: nat)
    requires forall j | 0 <= j < |e| && j != root :: DependenciesBelow(e[j], j)
    requires Deadlocked(e, root, b)
    ensures i !in b
  {
    if i in b {
      assert DependsOn(e[i], b);
      var k :| 0 <= k < |e[i].dependencies| && e[i].dependencies[k] in b;
      NoneWaits(e, root, b, e[i].dependencies[k]);
    }
  }

  class Replayer {
    const entries: seq<Entry>
    const root: nat
    var remaining: seq<nat>
    var status: seq<Status>
    var queue: seq<nat>
    var enqueuedAt: seq<Option<nat>>
    var startedAt: seq<Option<nat>>
    var finishedAt: seq<Option<nat>>
    var log: seq<seq<Frame>>
    var packetNumber: nat

    ghost function Now(): State
      reads this
    {
      State(remaining, status, queue, enqueuedAt, startedAt, finishedAt, log)
    }

    /** The packet number counts the packets logged. */
    ghost predicate Ready()
      reads this
    {
      Inv(entries, root, Now(), []) && packetNumber == |log|
    }

    constructor (e: seq<Entry>, r: nat)
      requires Known(e, r)
      ensures entries == e && root == r && Now() == Start(e, r) && Ready()
    {
      entries, root := e, r;
      remaining := seq(|e|, i requires 0 <= i < |e| => e[i].size);
      status := seq(|e|, i => Unavailable)[r := Enqueued];
      queue, log, packetNumber := [r], [], 0;
      enqueuedAt, startedAt, finishedAt := seq(|e|, i => None)[r := Some(0)], seq(|e|, i => None), seq(|e|, i => None);
      StartInv(e, r);
    }

    method IsDependenciesMet(i: nat) returns (met: bool)
      requires i < |entries| && DependenciesBelow(entries[i], |status|)
      ensures met == DependenciesMet(entries[i], status)
    {
      for k := 0 to |entries[i].dependencies|
        invariant forall m | 0 <= m < k :: status[entries[i].dependencies[m]] == Finished
      {
        if status[entries[i].dependencies[k]] != Finished {
          return false;
        }
      }
      met := true;
    }

    method EnqueueReady()
      requires Sized(Now(), |entries|) && packetNumber == |log|
      requires forall i | 0 <= i < |entries| :: DependenciesBelow(entries[i], |entries|)
      modifies this`queue, this`status, this`enqueuedAt
      ensures Now() == EnqueueAll(entries, old(Now()), |entries|)
    {
      for i := 0 to |entries|
        invariant Now() == EnqueueAll(entries, old(Now()), i)
      {
        var met := false;
        if status[i] == Unavailable {
          met := IsDependenciesMet(i);
        }
        if met {
          queue := queue + [i];
          status := status[i := Enqueued];
          enqueuedAt := enqueuedAt[i := Some(packetNumber)];
        }
      }
    }

    /** The loop that both schedulers share. */
    method FillPacket() returns (frames: seq<Frame>)
      requires Sized(Now(), |status|) && packetNumber == |log|
      modifies this`queue, this`remaining, this`startedAt
      ensures (Now(), frames) == Fill(old(Now()), [], 0)
    {
      frames := [];
      var bytesAdded: nat := 0;
      while bytesAdded < DATA_BLOCK_SIZE && |queue| > 0
        invariant Sized(Now(), |status|)
        invariant Fill(Now(), frames, bytesAdded) == Fill(old(Now()), [], 0)
        decreases if bytesAdded < DATA_BLOCK_SIZE then 1 else 0, |queue|
      {
        frames, bytesAdded := SendOne(frames, bytesAdded);
      }
    }

    method SendOne(frames: seq<Frame>, bytes: nat) returns (frames': seq<Frame>, bytes': nat)
      requires Sized(Now(), |status|) && packetNumber == |log| && |queue| > 0 && bytes < DATA_BLOCK_SIZE
      modifies this`queue, this`remaining, this`startedAt
      ensures (Now(), frames', bytes') == SendFirst(old(Now()), frames, bytes)
      ensures Sized(Now(), |status|)
      ensures |queue| < |old(queue)| || (|queue| == |old(queue)| && bytes' == DATA_BLOCK_SIZE)
    {
      var maxDataLen := DATA_BLOCK_SIZE - bytes;
      var id := queue[0];
      queue := queue[1..];
      if remaining[id] > maxDataLen {
        bytes' := DATA_BLOCK_SIZE;
        frames' := frames + [Frame(id, maxDataLen, false)];
        remaining := remaining[id := remaining[id] - maxDataLen];
        queue := queue + [id];
      } else {
        bytes' := bytes + remaining[id];
        frames' := frames + [Frame(id, remaining[id], true)];
        remaining := remaining[id := 0];
      }
      if startedAt[id].None? {
        startedAt := startedAt[id := Some(packetNumber)];
      }
    }

    method CopyQueue() returns (items: seq<DQ.Item>)
      requires Sized(Now(), |entries|) && Timed(Now())
      ensures items == Items(entries, Now())
    {
      items := [];
      for k := 0 to |queue|
        invariant items == Items(entries, Now())[..k]
      {
        items := items + [DQ.Item(queue[k], entries[queue[k]].resourceType, enqueuedAt[queue[k]].value)];
      }
    }

    /** The dynamic scheduler rearranges the queue first; the naive one takes it as it is. */
    method Arrange(dynamic: bool)
      requires Sized(Now(), |entries|) && Timed(Now())
      modifies this`queue
      ensures Now() == old(Now()).(queue := Order(entries, old(Now()), dynamic))
    {
      if dynamic {
        var items := CopyQueue();
        var reordered := DQ.ReplaceWithDynamicQueue(items);
        queue := Ids(reordered);
      }
    }

    method FinishPacket(frames: seq<Frame>)
      requires Sized(Now(), |status|) && InRange(frames, |status|) && packetNumber == |log|
      modifies this`status, this`finishedAt, this`log, this`packetNumber
      ensures Now() == ClosePacket(old(Now()), frames) && packetNumber == |log|
    {
      for k := 0 to |frames|
        invariant packetNumber == |log| == |old(log)|
        invariant Now() == MarkAll(old(Now()), frames[..k])
      {
        assert frames[..k + 1][..k] == frames[..k];
        if frames[k].finished {
          status := status[frames[k].id := Finished];
          finishedAt := finishedAt[frames[k].id := Some(packetNumber)];
        }
      }
      assert frames[..|frames|] == frames;
      log := log + [frames];
      packetNumber := packetNumber + 1;
    }

    method IsReplayFinished() returns (finished: bool)
      ensures finished == AllFinished(Now())
    {
      for i := 0 to |status|
        invariant forall j | 0 <= j < i :: status[j] == Finished
      {
        if status[i] != Finished {
          return false;
        }
      }
      finished := true;
    }

    method NextRound(dynamic: bool)
      requires Ready()
      modifies this
      ensures Ready() && Now() == Round(entries, root, old(Now()), dynamic)
    {
      EnqueueAllKeeps(entries, root, Now(), |entries|);
      EnqueueReady();
      QueueTimed(entries, root, Now());
      OrderOk(entries, Now(), dynamic);
      ReorderKeeps(entries, root, Now(), Order(entries, Now(), dynamic));
      Arrange(dynamic);
      FillKeeps(entries, root, Now(), [], 0);
      var frames := FillPacket();
      CloseKeeps(entries, root, Now(), frames);
      FinishPacket(frames);
    }

    /** The replay ends and has sent everything as it should. */
    method Run(dynamic: bool)
      requires Ready() && DeadlockFree(entries, root)
      modifies this
      ensures Sized(Now(), |entries|) && Correct(entries, root, Now())
    {
      var finished := IsReplayFinished();
      while !finished
        invariant Ready() && finished == AllFinished(Now())
        decreases Work(Now())
      {
        ghost var i :| 0 <= i < |status| && status[i] != Finished;
        RoundWorks(entries, root, Now(), dynamic, i);
        NextRound(dynamic);
        finished := IsReplayFinished();
      }
      FinishedCorrect(entries, root, Now());
    }
  }
}
