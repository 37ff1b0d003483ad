/** Streams opened by the peer (quic-go/streams_map_incoming_generic.go; section 4.6 of RFC 9000). */
module IncomingStreams {
  import opened Protocol

  /** `credits` are the limits sent to the peer in MAX_STREAMS frames. */
  datatype Incoming = Incoming(
    streams: set<nat>,
    streamsToDelete: set<nat>,
    nextStreamToAccept: nat,
    nextStreamToOpen: nat,
    maxStream: int,
    maxNumStreams: nat,
    credits: seq<int>)

  function New(maxStreams: nat): Incoming {
    Incoming({}, {}, 1, 1, maxStreams, maxStreams, [])
  }

  /** Really deletes a stream and lets the peer open another one (lines 158-167). */
  function Remove(m: Incoming, num: nat): Incoming {
    var streams := m.streams - {num};
    if m.maxNumStreams > |streams| then
      var max := m.nextStreamToOpen + (m.maxNumStreams - |streams|) - 1;
      m.(streams := streams, maxStream := max, credits := m.credits + [max])
    else m.(streams := streams)
  }

  datatype DeleteResult = Deleted | Deferred | UnknownStream | DeletedTwice

  /** Deletes a stream, or notes to do so once it is accepted (lines 137-169). */
  function Delete(m: Incoming, num: nat): (DeleteResult, Incoming) {
    if num !in m.streams then (UnknownStream, m)
    else if num >= m.nextStreamToAccept then
      if num in m.streamsToDelete then (DeletedTwice, m)
      else (Deferred, m.(streamsToDelete := m.streamsToDelete + {num}))
    else (Deleted, Remove(m, num))
  }

  /** The next stream in order, None if the peer has not opened it yet (lines 53-88). */
  function Accept(m: Incoming): (Option<nat>, Incoming) {
    var num := m.nextStreamToAccept;
    if num !in m.streams then (None, m)
    else
      var m' := m.(nextStreamToAccept := num + 1);
      if num in m.streamsToDelete then (Some(num), Delete(m'.(streamsToDelete := m.streamsToDelete - {num}), num).1)
      else (Some(num), m')
  }

  predicate Between(a: nat, x: nat, b: nat) {
    a <= x < b
  }

  function Range(a: nat, b: nat): (r: set<nat>)
    ensures forall x: nat :: x in r <==> a <= x < b
  {
    set x: nat | a <= x < b && Between(a, x, b)
  }

  datatype OpenResult = Stream(num: nat) | Gone | LimitExceeded

  /** The stream with this number, opening it and all below it if they are new (lines 90-128). */
  function GetOrOpen(m: Incoming, num: nat): (OpenResult, Incoming) {
    if num > m.maxStream then (LimitExceeded, m)
    else if num < m.nextStreamToOpen then
      (if num in m.streams && num !in m.streamsToDelete then Stream(num) else Gone, m)
    else (Stream(num), m.(streams := m.streams + Range(m.nextStreamToOpen, num + 1), nextStreamToOpen := num + 1))
  }

  class IncomingStreamsMap {
    var streams: set<nat>
    var streamsToDelete: set<nat>
    var nextStreamToAccept: nat
    var nextStreamToOpen: nat
    var maxStream: int
    const maxNumStreams: nat
    var credits: seq<int>

    ghost function State(): Incoming
      reads this
    {
      Incoming(streams, streamsToDelete, nextStreamToAccept, nextStreamToOpen, maxStream, maxNumStreams, credits)
    }

    constructor (maxStreams: nat)
      ensures State() == New(maxStreams)
    {
      streams, streamsToDelete, nextStreamToAccept, nextStreamToOpen := {}, {}, 1, 1;
      maxStream, maxNumStreams, credits := maxStreams, maxStreams, [];
    }

    method GetOrOpenStream(num: nat) returns (r: OpenResult)
      modifies this
      ensures (r, State()) == GetOrOpen(old(State()), num)
    {
      if num > maxStream {
        return LimitExceeded;
      }
      if num < nextStreamToOpen {
        return if num in streams && num !in streamsToDelete then Stream(num) else Gone;
      }
      for newNum := nextStreamToOpen to num + 1
        invariant State() == old(State()).(streams := old(streams) + Range(nextStreamToOpen, newNum))
      {
        assert Range(nextStreamToOpen, newNum + 1) == Range(nextStreamToOpen, newNum) + {newNum};
        streams := streams + {newNum};
      }
      nextStreamToOpen := num + 1;
      r := Stream(num);
    }

    method DeleteStream(num: nat) returns (r: DeleteResult)
      modifies this
      ensures (r, State()) == Delete(old(State()), num)
    {
      if num !in streams {
        return UnknownStream;
      }
      if num >= nextStreamToAccept {
        if num in streamsToDelete {
          return DeletedTwice;
        }
        streamsToDelete := streamsToDelete + {num};
        return Deferred;
      }
      streams := streams - {num};
      if maxNumStreams > |streams| {
        var numNewStreams := maxNumStreams - |streams|;
        maxStream := nextStreamToOpen + numNewStreams - 1;
        credits := credits + [maxStream];
      }
      r := Deleted;
    }

    /** One try to accept a stream; the source waits and tries again when there is none. */
    method AcceptStream() returns (num: Option<nat>)
      modifies this
      ensures (num, State()) == Accept(old(State()))
    {
      var next := nextStreamToAccept;
      if next !in streams {
        return None;
      }
      nextStreamToAccept := nextStreamToAccept + 1;
      if next in streamsToDelete {
        streamsToDelete := streamsToDelete - {next};
        var r := DeleteStream(next);
      }
      num := Some(next);
    }
  }

  ghost predicate Less(a: seq<int>, i: nat, j: nat)
    requires i < j < |a|
  {
    a[i] < a[j]
  }

  /** The credit equation, and which streams exist. */
  ghost predicate Inv(m: Incoming) {
    && 1 <= m.nextStreamToAccept <= m.nextStreamToOpen <= m.maxStream + 1
    && m.maxStream == m.nextStreamToOpen + m.maxNumStreams - |m.streams| - 1
    && (forall x | x in m.streams :: 1 <= x < m.nextStreamToOpen)
    && (forall x: nat | m.nextStreamToAccept <= x < m.nextStreamToOpen :: x in m.streams)
    && (forall x | x in m.streamsToDelete :: x in m.streams && x >= m.nextStreamToAccept)
    && (forall i: nat, j: nat | i < j < |m.credits| :: Less(m.credits, i, j))
    && (forall i | 0 <= i < |m.credits| :: m.credits[i] <= m.maxStream)
  }

  /** A real deletion raises the limit by one. */
  lemma {:induction false} RemoveKeeps(m: Incoming, num: nat)
    requires Inv(m) && num in m.streams && num < m.nextStreamToAccept && num !in m.streamsToDelete
    ensures Inv(Remove(m, num)) && Remove(m, num).maxStream == m.maxStream + 1
  {
    var c := Remove(m, num).credits;
    forall i: nat, j: nat | i < j < |c| ensures Less(c, i, j) {
      assert j < |m.credits| ==> Less(m.credits, i, j);
    }
  }

  lemma {:induction false} RangeSize(a: nat, b: nat)
    requires a <= b
    ensures |Range(a, b)| == b - a
    decreases b - a
  {
    if a == b {
      assert Range(a, b) == {};
    } else {
      RangeSize(a, b - 1);
      assert Range(a, b) == Range(a, b - 1) + {b - 1};
    }
  }

  lemma {:induction false} OpenKeeps(m: Incoming, num: nat)
    requires Inv(m)
    ensures Inv(GetOrOpen(m, num).1) && GetOrOpen(m, num).1.maxStream == m.maxStream
  {
    if m.nextStreamToOpen <= num <= m.maxStream {
      var new' := Range(m.nextStreamToOpen, num + 1);
      RangeSize(m.nextStreamToOpen, num + 1);
      assert m.streams !! new';
    }
  }

  datatype Op = Open(num: nat) | Take | Drop(num: nat)

  /** The map, the streams handed to the application so far, and how many were really deleted. */
  datatype World = World(m: Incoming, accepted: seq<nat>, deletions: nat)

  function Next(w: World, op: Op): World {
    match op
    case Open(num) => w.(m := GetOrOpen(w.m, num).1)
    case Take =>
      var r := Accept(w.m);
      if r.0.None? then w
      else World(r.1, w.accepted + [r.0.value], w.deletions + if r.0.value in w.m.streamsToDelete then 1 else 0)
    case Drop(num) =>
      var r := Delete(w.m, num);
      World(r.1, w.accepted, w.deletions + if r.0.Deleted? then 1 else 0)
  }

  ghost predicate WorldOk(w: World, maxStreams: nat) {
    && Inv(w.m) && w.m.maxNumStreams == maxStreams
    && w.m.maxStream == maxStreams + w.deletions
    && w.m.nextStreamToAccept == |w.accepted| + 1
    && (forall i | 0 <= i < |w.accepted| :: w.accepted[i] == i + 1)
  }

  lemma {:induction false} AcceptKeeps(m: Incoming)
    requires Inv(m)
    ensures var r := Accept(m);
            && Inv(r.1) && r.1.maxNumStreams == m.maxNumStreams
            && (r.0.None? ==> r.1 == m)
            && (r.0.Some? ==>
                  && r.0.value == m.nextStreamToAccept && r.1.nextStreamToAccept == m.nextStreamToAccept + 1
                  && r.1.maxStream == m.maxStream + if r.0.value in m.streamsToDelete then 1 else 0)
  {
    var num := m.nextStreamToAccept;
    if num in m.streams && num in m.streamsToDelete {
      RemoveKeeps(m.(nextStreamToAccept := num + 1, streamsToDelete := m.streamsToDelete - {num}), num);
    }
  }

  lemma {:induction false} DeleteKeeps(m: Incoming, num: nat)
    requires Inv(m)
    ensures var r := Delete(m, num);
            && Inv(r.1) && r.1.maxNumStreams == m.maxNumStreams && r.1.nextStreamToAccept == m.nextStreamToAccept
            && r.1.maxStream == m.maxStream + if r.0.Deleted? then 1 else 0
  {
    if num in m.streams && num < m.nextStreamToAccept {
      RemoveKeeps(m, num);
    }
  }

  lemma {:induction false} StepKeeps(w: World, op: Op, maxStreams: nat)
    requires WorldOk(w, maxStreams)
    ensures WorldOk(Next(w, op), maxStreams)
  {
    match op
    case Open(num) => OpenKeeps(w.m, num);
    case Take => AcceptKeeps(w.m);
    case Drop(num) => DeleteKeeps(w.m, num);
  }

  ghost function Run(maxStreams: nat, ops: seq<Op>): (w: World)
    ensures WorldOk(w, maxStreams)
  {
    if |ops| == 0 then World(New(maxStreams), [], 0)
    else
      StepKeeps(Run(maxStreams, ops[..|ops| - 1]), ops[|ops| - 1], maxStreams);
      Next(Run(maxStreams, ops[..|ops| - 1]), ops[|ops| - 1])
  }

  /**
   * In every run the peer may open as many streams as are allowed and not open: the limit is the initial
   * one plus the number of real deletions, so it never falls and each limit sent stays valid. The
   * application gets streams 1, 2, 3, ... each once, also those deleted before they were accepted.
   */
  lemma {:induction false} CreditEquation(maxStreams: nat, ops: seq<Op>)
    ensures var w := Run(maxStreams, ops);
            && w.m.maxStream == w.m.nextStreamToOpen + maxStreams - |w.m.streams| - 1
            && w.m.maxStream == maxStreams + w.deletions
            && |w.m.streams| <= maxStreams
            && w.m.nextStreamToOpen - 1 == |w.m.streams| + w.deletions
            && (forall i | 0 <= i < |w.accepted| :: w.accepted[i] == i + 1)
            && (forall x: nat | |w.accepted| < x < w.m.nextStreamToOpen :: x in w.m.streams)
            && (forall i | 0 <= i < |w.m.credits| :: w.m.credits[i] <= w.m.maxStream)
  {
    assert WorldOk(Run(maxStreams, ops), maxStreams);
  }
}
