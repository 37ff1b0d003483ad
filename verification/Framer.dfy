/** Choosing frames for the next packet (quic-go/framer.go). */
module Framer {
  import opened Protocol
  import opened VarInt
  import opened StreamFrames
  import SS = SendStream
  import CF = ControlFrames

  const MIN_STREAM_FRAME_SIZE := 128
  const MAX_FRAME_SIZE := 1452

  /** What the flow controller answers to a stream: its send window, and whether it is newly blocked. */
  datatype Window = Window(size: nat, newlyBlocked: bool)

  /** What a stream answers when asked for a frame. */
  datatype Answer = Answer(sender: SS.Sender, frame: Option<StreamFrame>, hasMoreData: bool)

  /** A frame of this stream that can be written. */
  ghost predicate FrameOk(f: StreamFrame, id: nat) {
    Encodable(f) && f.streamID == id && (|f.data| > 0 || f.fin)
  }

  /** Frames waiting to be sent again belong to the stream and have their length field. */
  ghost predicate SenderOk(s: SS.Sender, id: nat) {
    && SS.Bounded(s) && s.streamID == id
    && (forall i | 0 <= i < |s.retransmissions| ::
          FrameOk(s.retransmissions[i], id) && s.retransmissions[i].dataLenPresent)
  }

  ghost predicate AnswerOk(a: Answer, id: nat, room: nat) {
    && SenderOk(a.sender, id)
    && (a.frame.Some? ==> FrameOk(a.frame.value, id) && a.frame.value.dataLenPresent && Length(a.frame.value) <= room)
  }

  function Ask(s: SS.Sender, room: nat, w: Window): Answer
    requires SS.Bounded(s) && room <= MAX_VARINT2
  {
    var (s', frame) := SS.Pop(s, room, w.size);
    Answer(s', frame, SS.HasMoreData(s, room, w.size, w.newlyBlocked))
  }

  lemma {:induction false} AskOk(s: SS.Sender, id: nat, room: nat, w: Window)
    requires SenderOk(s, id) && room <= MAX_VARINT2
    ensures AnswerOk(Ask(s, room, w), id, room)
  {
    SS.PopFits(s, room, w.size);
    if |s.retransmissions| > 0 {
      RetransmissionOk(s, id, room);
    } else {
      NewOk(s, id, room, w.size);
    }
  }

  lemma {:induction false} RetransmissionOk(s: SS.Sender, id: nat, room: nat)
    requires SenderOk(s, id) && room <= MAX_VARINT2 && |s.retransmissions| > 0
    ensures var (s', f) := SS.PopRetransmission(s, room);
            && s'.streamID == id
            && (forall i | 0 <= i < |s'.retransmissions| ::
                  FrameOk(s'.retransmissions[i], id) && s'.retransmissions[i].dataLenPresent)
            && (f.Some? ==> FrameOk(f.value, id) && f.value.dataLenPresent)
  {
    if MaybeSplitOff(s.retransmissions[0], room).Parts? {
      SplitParts(s.retransmissions[0], room);
    }
  }

  lemma {:induction false} NewOk(s: SS.Sender, id: nat, room: nat, window: nat)
    requires SenderOk(s, id) && room <= MAX_VARINT2 && |s.retransmissions| == 0
    ensures var (s', f) := SS.PopNew(s, room, window);
            && s'.streamID == id && s'.retransmissions == []
            && (f.Some? ==> f.value.streamID == id && (|f.value.data| > 0 || f.value.fin) && f.value.dataLenPresent)
  {
  }

  /** `streams` are the streams that can still send; the queue may name others. */
  datatype Framer = Framer(queue: seq<nat>, active: set<nat>, streams: map<nat, SS.Sender>,
                           controls: seq<CF.ControlFrame>)

  ghost predicate Sound(streams: map<nat, SS.Sender>) {
    forall id | id in streams :: SenderOk(streams[id], id)
  }

  function AddActive(f: Framer, id: nat): Framer {
    if id in f.active then f else f.(queue := f.queue + [id], active := f.active + {id})
  }

  /** The frames taken so far in one call, and their total length. */
  datatype Progress = Progress(framer: Framer, frames: seq<StreamFrame>, length: nat, muxed: nat)

  /** How many bytes one stream may use: an equal share of the packet, at most what is left (lines 122-134). */
  function Share(maxLen: nat, length: nat, numActive: nat, limit: nat): (n: nat)
    requires numActive > 0 && limit > 0 && length <= maxLen
    ensures n <= maxLen - length
  {
    Min(maxLen - length, if numActive > limit then maxLen / limit else maxLen / numActive)
  }

  /** The stream is offered its share plus the length field that the last frame will not need. */
  function Room(maxLen: nat, length: nat, numActive: nat, limit: nat): (n: nat)
    requires numActive > 0 && limit > 0 && length <= maxLen <= MAX_FRAME_SIZE
    ensures n <= MAX_VARINT2
  {
    var share := Share(maxLen, length, numActive, limit);
    share + VarIntLen(share)
  }

  /** The first stream of the queue has gone away (lines 116-119). */
  function Skip(p: Progress): Progress
    requires |p.framer.queue| > 0
  {
    p.(framer := p.framer.(queue := p.framer.queue[1..], active := p.framer.active - {p.framer.queue[0]}))
  }

  /** The first stream of the queue has answered (lines 135-161). */
  function Take(p: Progress, a: Answer): Progress
    requires |p.framer.queue| > 0 && (a.frame.Some? ==> Encodable(a.frame.value))
  {
    var f, id := p.framer, p.framer.queue[0];
    var f' := if a.hasMoreData then f.(queue := f.queue[1..] + [id], streams := f.streams[id := a.sender])
              else f.(queue := f.queue[1..], active := f.active - {id}, streams := f.streams[id := a.sender]);
    if a.frame.None? then Progress(f', p.frames, p.length, p.muxed + 1)
    else Progress(f', p.frames + [a.frame.value], p.length + Length(a.frame.value), p.muxed + 1)
  }

  /** One round of the loop (lines 108-161). */
  function Visit(p: Progress, windows: nat -> Window, maxLen: nat, numActive: nat, limit: nat): Progress
    requires Sound(p.framer.streams) && |p.framer.queue| > 0 && numActive > 0 && limit > 0
    requires MIN_STREAM_FRAME_SIZE + p.length <= maxLen <= MAX_FRAME_SIZE
  {
    var id := p.framer.queue[0];
    if id !in p.framer.streams then Skip(p)
    else
      var room := Room(maxLen, p.length, numActive, limit);
      AskOk(p.framer.streams[id], id, room, windows(id));
      Take(p, Ask(p.framer.streams[id], room, windows(id)))
  }

  ghost predicate Differ(q: seq<nat>, i: nat, j: nat)
    requires i < j < |q|
  {
    q[i] != q[j]
  }

  /** The queue names each active stream once; `wait` are the streams not yet visited in this call. */
  ghost predicate QueueOk(queue: seq<nat>, active: set<nat>, wait: seq<nat>) {
    && (forall i: nat, j: nat | i < j < |queue| :: Differ(queue, i, j))
    && (forall x :: x in active <==> x in queue)
    && wait <= queue
  }

  lemma {:induction false} DropFirst(queue: seq<nat>, active: set<nat>, wait: seq<nat>)
    requires QueueOk(queue, active, wait) && |wait| > 0
    ensures QueueOk(queue[1..], active - {queue[0]}, wait[1..]) && queue[0] == wait[0] && wait[0] !in wait[1..]
  {
    var q := queue[1..];
    forall i: nat, j: nat | i < j < |q| ensures Differ(q, i, j) {
      assert Differ(queue, i + 1, j + 1);
    }
    forall i | 0 <= i < |q| ensures q[i] != queue[0] {
      assert Differ(queue, 0, i + 1);
    }
    assert queue == [queue[0]] + q;
    assert forall i | 0 <= i < |wait[1..]| :: wait[1..][i] == q[i];
  }

  lemma {:induction false} Requeue(queue: seq<nat>, active: set<nat>, wait: seq<nat>)
    requires QueueOk(queue, active, wait) && |wait| > 0
    ensures QueueOk(queue[1..] + [queue[0]], active, wait[1..])
  {
    var q := queue[1..] + [queue[0]];
    DropFirst(queue, active, wait);
    forall i: nat, j: nat | i < j < |q| ensures Differ(q, i, j) {
      if j < |queue| - 1 {
        assert Differ(queue, i + 1, j + 1);
      } else {
        assert Differ(queue, 0, i + 1);
      }
    }
    assert queue == [queue[0]] + queue[1..];
  }

  ghost predicate AllEncodable(fs: seq<StreamFrame>) {
    forall i | 0 <= i < |fs| :: Encodable(fs[i])
  }

  function TotalLength(fs: seq<StreamFrame>): nat
    requires AllEncodable(fs)
  {
    if |fs| == 0 then 0 else TotalLength(fs[..|fs| - 1]) + Length(fs[|fs| - 1])
  }

  ghost predicate OtherStream(fs: seq<StreamFrame>, i: nat, j: nat)
    requires i < j < |fs|
  {
    fs[i].streamID != fs[j].streamID
  }

  /** Complete frames of different streams, none of them still waiting. */
  ghost predicate FramesOk(fs: seq<StreamFrame>, wait: seq<nat>) {
    && (forall i | 0 <= i < |fs| :: FrameOk(fs[i], fs[i].streamID) && fs[i].dataLenPresent && fs[i].streamID !in wait)
    && (forall i: nat, j: nat | i < j < |fs| :: OtherStream(fs, i, j))
  }

  lemma {:induction false} FramesSnoc(fs: seq<StreamFrame>, wait: seq<nat>, f: StreamFrame)
    requires FramesOk(fs, wait) && |wait| > 0 && f.streamID == wait[0] && wait[0] !in wait[1..]
    requires FrameOk(f, f.streamID) && f.dataLenPresent
    ensures FramesOk(fs + [f], wait[1..]) && TotalLength(fs + [f]) == TotalLength(fs) + Length(f)
  {
    var all := fs + [f];
    assert all[..|fs|] == fs;
    forall i: nat, j: nat | i < j < |all| ensures OtherStream(all, i, j) {
      if j < |fs| {
        assert OtherStream(fs, i, j);
      } else {
        assert fs[i].streamID != wait[0];
      }
    }
    forall i | 0 <= i < |all| ensures all[i].streamID !in wait[1..] {
      assert i < |fs| ==> fs[i].streamID !in wait;
    }
  }

  lemma {:induction false} FramesShrink(fs: seq<StreamFrame>, wait: seq<nat>)
    requires FramesOk(fs, wait) && |wait| > 0
    ensures FramesOk(fs, wait[1..])
  {
    forall i | 0 <= i < |fs| ensures fs[i].streamID !in wait[1..] {
      assert fs[i].streamID !in wait;
    }
  }

  /** Without the length field of the last frame, everything fits. */
  ghost predicate Fits(fs: seq<StreamFrame>, length: nat, maxLen: int)
    requires AllEncodable(fs)
  {
    && length == TotalLength(fs)
    && (|fs| > 0 ==> length - VarIntLen(|fs[|fs| - 1].data|) <= maxLen)
  }

  /** A frame made for a share of the packet fits once its length field is gone. */
  lemma {:induction false} LastFits(f: StreamFrame, share: nat, length: nat, maxLen: nat)
    requires MIN_STREAM_FRAME_SIZE + length <= maxLen <= MAX_FRAME_SIZE && share <= maxLen - length
    requires Encodable(f) && f.dataLenPresent && Length(f) <= share + VarIntLen(share)
    ensures length + Length(f) - VarIntLen(|f.data|) <= maxLen
  {
    if VarIntLen(|f.data|) < VarIntLen(share) {
      assert |f.data| <= MAX_VARINT1;
    }
  }

  /** What every round keeps. */
  ghost predicate RoundOk(p: Progress, wait: seq<nat>, maxLen: int) {
    && Sound(p.framer.streams)
    && QueueOk(p.framer.queue, p.framer.active, wait)
    && FramesOk(p.frames, wait) && AllEncodable(p.frames) && Fits(p.frames, p.length, maxLen)
    && |p.frames| <= p.muxed
  }

  lemma {:induction false} TakeKeeps(p: Progress, a: Answer, wait: seq<nat>, share: nat, maxLen: nat)
    requires RoundOk(p, wait, maxLen) && |wait| > 0
    requires MIN_STREAM_FRAME_SIZE + p.length <= maxLen <= MAX_FRAME_SIZE && share <= maxLen - p.length
    requires AnswerOk(a, wait[0], share + VarIntLen(share))
    ensures RoundOk(Take(p, a), wait[1..], maxLen)
  {
    DropFirst(p.framer.queue, p.framer.active, wait);
    Requeue(p.framer.queue, p.framer.active, wait);
    if a.frame.Some? {
      FramesSnoc(p.frames, wait, a.frame.value);
      LastFits(a.frame.value, share, p.length, maxLen);
    } else {
      FramesShrink(p.frames, wait);
    }
  }

  lemma {:induction false} SkipKeeps(p: Progress, wait: seq<nat>, maxLen: int)
    requires RoundOk(p, wait, maxLen) && |wait| > 0
    ensures RoundOk(Skip(p), wait[1..], maxLen)
  {
    DropFirst(p.framer.queue, p.framer.active, wait);
    FramesShrink(p.frames, wait);
  }

  lemma {:induction false} VisitKeeps(p: Progress, windows: nat -> Window, maxLen: nat, numActive: nat, limit: nat,
                                      wait: seq<nat>)
    requires RoundOk(p, wait, maxLen) && |wait| > 0 && numActive > 0 && limit > 0
    requires MIN_STREAM_FRAME_SIZE + p.length <= maxLen <= MAX_FRAME_SIZE
    ensures |p.framer.queue| > 0 && RoundOk(Visit(p, windows, maxLen, numActive, limit), wait[1..], maxLen)
    ensures Visit(p, windows, maxLen, numActive, limit).muxed <= p.muxed + 1
  {
    var id := p.framer.queue[0];
    assert id == wait[0];
    if id in p.framer.streams {
      var room := Room(maxLen, p.length, numActive, limit);
      AskOk(p.framer.streams[id], id, room, windows(id));
      TakeKeeps(p, Ask(p.framer.streams[id], room, windows(id)), wait, Share(maxLen, p.length, numActive, limit),
                maxLen);
    } else {
      SkipKeeps(p, wait, maxLen);
    }
  }

  /** The loop over the streams that were in the queue when it started (lines 102-162). */
  ghost function Visits(p: Progress, windows: nat -> Window, maxLen: int, numActive: nat, limit: nat,
                        wait: seq<nat>): (r: Progress)
    requires RoundOk(p, wait, maxLen) && |wait| <= numActive && maxLen <= MAX_FRAME_SIZE && p.muxed <= limit
    ensures RoundOk(r, [], maxLen) && r.muxed <= limit
    decreases |wait|
  {
    if |wait| == 0 || p.muxed >= limit || MIN_STREAM_FRAME_SIZE + p.length > maxLen then
      StopEarly(p, wait, maxLen);
      p
    else
      VisitKeeps(p, windows, maxLen, numActive, limit, wait);
      Visits(Visit(p, windows, maxLen, numActive, limit), windows, maxLen, numActive, limit, wait[1..])
  }

  lemma {:induction false} StopEarly(p: Progress, wait: seq<nat>, maxLen: int)
    requires RoundOk(p, wait, maxLen)
    ensures RoundOk(p, [], maxLen)
  {
    assert forall i | 0 <= i < |p.frames| :: p.frames[i].streamID !in [];
  }

  lemma {:induction false} VisitsKeepControls(p: Progress, windows: nat -> Window, maxLen: int, numActive: nat,
                                              limit: nat, wait: seq<nat>)
    requires RoundOk(p, wait, maxLen) && |wait| <= numActive && maxLen <= MAX_FRAME_SIZE && p.muxed <= limit
    ensures Visits(p, windows, maxLen, numActive, limit, wait).framer.controls == p.framer.controls
    decreases |wait|
  {
    if !(|wait| == 0 || p.muxed >= limit || MIN_STREAM_FRAME_SIZE + p.length > maxLen) {
      VisitKeeps(p, windows, maxLen, numActive, limit, wait);
      VisitsKeepControls(Visit(p, windows, maxLen, numActive, limit), windows, maxLen, numActive, limit, wait[1..]);
    }
  }

  /** What the framer keeps between calls. */
  ghost predicate FramerOk(f: Framer) {
    Sound(f.streams) && QueueOk(f.queue, f.active, f.queue)
  }

  /** The last frame runs to the end of the packet, so its length field goes (lines 166-171). */
  function Finish(frames: seq<StreamFrame>): seq<StreamFrame> {
    if |frames| == 0 then [] else frames[|frames| - 1 := frames[|frames| - 1].(dataLenPresent := false)]
  }

  /** The STREAM frames for a packet with maxLen bytes left, and the framer after taking them. */
  ghost function AppendStreams(f: Framer, windows: nat -> Window, maxLen: int, limit: nat): (Framer, seq<StreamFrame>)
    requires FramerOk(f) && maxLen <= MAX_FRAME_SIZE
  {
    var p := Visits(Progress(f, [], 0, 0), windows, maxLen, |f.queue|, limit, f.queue);
    (p.framer, Finish(p.frames))
  }

  /** Only the last frame has no length field. */
  ghost predicate LastIsOpen(fs: seq<StreamFrame>) {
    forall i | 0 <= i < |fs| :: fs[i].dataLenPresent <==> i < |fs| - 1
  }

  ghost predicate Distinct(fs: seq<StreamFrame>) {
    forall i: nat, j: nat | i < j < |fs| :: OtherStream(fs, i, j)
  }

  /** At most `limit` writable frames of different streams, only the last one without a length field. */
  ghost predicate StreamsOk(fs: seq<StreamFrame>, limit: nat) {
    && AllEncodable(fs) && |fs| <= limit && Distinct(fs) && LastIsOpen(fs)
    && (forall i | 0 <= i < |fs| :: FrameOk(fs[i], fs[i].streamID))
  }

  lemma {:induction false} FinishLength(frames: seq<StreamFrame>)
    requires AllEncodable(frames) && |frames| > 0 && frames[|frames| - 1].dataLenPresent
    ensures AllEncodable(Finish(frames))
    ensures TotalLength(Finish(frames)) == TotalLength(frames) - VarIntLen(|frames[|frames| - 1].data|)
  {
    assert Finish(frames)[..|frames| - 1] == frames[..|frames| - 1];
  }

  /**
   * Although each stream is offered room for a length field on top of its share, the frames fit; there
   * are at most `limit` of them, of different streams, and only the last one lacks its length field. The
   * queue keeps naming each active stream once.
   */
  lemma {:induction false} StreamFramesFit(f: Framer, windows: nat -> Window, maxLen: int, limit: nat)
    requires FramerOk(f) && maxLen <= MAX_FRAME_SIZE
    ensures var (f', frames) := AppendStreams(f, windows, maxLen, limit);
            && FramerOk(f')
            && StreamsOk(frames, limit) && TotalLength(frames) <= Max(0, maxLen)
  {
    var p := Visits(Progress(f, [], 0, 0), windows, maxLen, |f.queue|, limit, f.queue);
    QueueAgain(p.framer.queue, p.framer.active);
    if |p.frames| > 0 {
      FinishLength(p.frames);
      FinishOk(p.frames);
    }
  }

  lemma {:induction false} QueueAgain(queue: seq<nat>, active: set<nat>)
    requires QueueOk(queue, active, [])
    ensures QueueOk(queue, active, queue)
  {
  }

  lemma {:induction false} FinishOk(frames: seq<StreamFrame>)
    requires FramesOk(frames, []) && |frames| > 0
    ensures Distinct(Finish(frames)) && LastIsOpen(Finish(frames))
    ensures forall i | 0 <= i < |frames| :: FrameOk(Finish(frames)[i], Finish(frames)[i].streamID)
  {
    var fs := Finish(frames);
    forall i: nat, j: nat | i < j < |fs| ensures OtherStream(fs, i, j) {
      assert OtherStream(frames, i, j);
    }
  }

  function SumOf<T>(cs: seq<T>, size: T -> nat): nat {
    if |cs| == 0 then 0 else SumOf(cs[..|cs| - 1], size) + size(cs[|cs| - 1])
  }

  /** What is left in the queue, what was taken from it, and the length of what was taken. */
  datatype Taken<T> = Taken(left: seq<T>, taken: seq<T>, length: nat)

  /** Takes frames from the end of the queue as long as they fit (lines 55-70). */
  function TakeFitting<T>(cs: seq<T>, size: T -> nat, taken: seq<T>, length: nat, maxLen: int): Taken<T> {
    if |cs| == 0 || length + size(cs[|cs| - 1]) > maxLen then Taken(cs, taken, length)
    else TakeFitting(cs[..|cs| - 1], size, taken + [cs[|cs| - 1]], length + size(cs[|cs| - 1]), maxLen)
  }

  lemma {:induction false} SumSnoc<T>(taken: seq<T>, c: T, size: T -> nat)
    ensures SumOf(taken + [c], size) == SumOf(taken, size) + size(c)
  {
    assert (taken + [c])[..|taken|] == taken;
  }

  lemma {:induction false} TakenLength<T>(cs: seq<T>, size: T -> nat, taken: seq<T>, length: nat, maxLen: int)
    requires length == SumOf(taken, size) && length <= Max(0, maxLen)
    ensures var r := TakeFitting(cs, size, taken, length, maxLen);
            && r.length == SumOf(r.taken, size) && r.length <= Max(0, maxLen)
            && (|r.left| > 0 ==> r.length + size(r.left[|r.left| - 1]) > maxLen)
  {
    if !(|cs| == 0 || length + size(cs[|cs| - 1]) > maxLen) {
      var rest, c := cs[..|cs| - 1], cs[|cs| - 1];
      SumSnoc(taken, c, size);
      TakenLength(rest, size, taken + [c], length + size(c), maxLen);
    }
  }

  lemma {:induction false} TakenParts<T>(cs: seq<T>, size: T -> nat, taken: seq<T>, length: nat, maxLen: int)
    ensures var r := TakeFitting(cs, size, taken, length, maxLen);
            multiset(r.left) + multiset(r.taken) == multiset(cs) + multiset(taken)
  {
    if !(|cs| == 0 || length + size(cs[|cs| - 1]) > maxLen) {
      var rest, c := cs[..|cs| - 1], cs[|cs| - 1];
      assert cs == rest + [c];
      TakenParts(rest, size, taken + [c], length + size(c), maxLen);
    }
  }

  /** Each frame is taken or still queued, what was taken fits, and the next one left behind would not have fit. */
  lemma {:induction false} TakenFits<T>(cs: seq<T>, size: T -> nat, taken: seq<T>, length: nat, maxLen: int)
    requires length == SumOf(taken, size) && length <= Max(0, maxLen)
    ensures var r := TakeFitting(cs, size, taken, length, maxLen);
            && r.length == SumOf(r.taken, size) && r.length <= Max(0, maxLen)
            && multiset(r.left) + multiset(r.taken) == multiset(cs) + multiset(taken)
            && (|r.left| > 0 ==> r.length + size(r.left[|r.left| - 1]) > maxLen)
  {
    TakenLength(cs, size, taken, length, maxLen);
    TakenParts(cs, size, taken, length, maxLen);
  }

  class FramerI {
    var streamQueue: seq<nat>
    var activeStreams: set<nat>
    var streams: map<nat, SS.Sender>
    var controlFrames: seq<CF.ControlFrame>

    ghost function State(): Framer
      reads this
    {
      Framer(streamQueue, activeStreams, streams, controlFrames)
    }

    constructor ()
      ensures State() == Framer([], {}, map[], []) && FramerOk(State())
    {
      streamQueue, activeStreams, streams, controlFrames := [], {}, map[], [];
    }

    method QueueControlFrame(c: CF.ControlFrame)
      modifies this`controlFrames
      ensures State() == old(State()).(controls := old(controlFrames) + [c])
    {
      controlFrames := controlFrames + [c];
    }

    method AddActiveStream(id: nat)
      requires FramerOk(State())
      modifies this
      ensures State() == AddActive(old(State()), id) && FramerOk(State())
    {
      if id !in activeStreams {
        AddKeeps(streamQueue, activeStreams, id);
        streamQueue := streamQueue + [id];
        activeStreams := activeStreams + {id};
      }
    }

    method AppendControlFrames(maxLen: int) returns (frames: seq<CF.ControlFrame>, length: nat)
      modifies this`controlFrames
      ensures Taken(controlFrames, frames, length) == TakeFitting(old(controlFrames), CF.Size, [], 0, maxLen)
    {
      frames, length := [], 0;
      while |controlFrames| > 0
        invariant TakeFitting(controlFrames, CF.Size, frames, length, maxLen)
                  == TakeFitting(old(controlFrames), CF.Size, [], 0, maxLen)
        decreases |controlFrames|
      {
        var frame := controlFrames[|controlFrames| - 1];
        var frameLen := CF.Size(frame);
        if length + frameLen > maxLen {
          break;
        }
        frames := frames + [frame];
        length := length + frameLen;
        controlFrames := controlFrames[..|controlFrames| - 1];
      }
    }

    /** One round of the loop in AppendStreamFrames. */
    method VisitFirst(windows: nat -> Window, maxLen: nat, numActive: nat, limit: nat, frames: seq<StreamFrame>,
                      length: nat, muxed: nat)
      returns (frames': seq<StreamFrame>, length': nat, muxed': nat)
      requires Sound(streams) && |streamQueue| > 0 && numActive > 0 && limit > 0
      requires MIN_STREAM_FRAME_SIZE + length <= maxLen <= MAX_FRAME_SIZE
      modifies this`streamQueue, this`activeStreams, this`streams
      ensures Progress(State(), frames', length', muxed')
              == Visit(Progress(old(State()), frames, length, muxed), windows, maxLen, numActive, limit)
    {
      frames', length', muxed' := frames, length, muxed;
      var id := streamQueue[0];
      streamQueue := streamQueue[1..];
      if id !in streams {
        activeStreams := activeStreams - {id};
        return;
      }
      var remaining := maxLen - length;
      var perRound := if numActive > limit then maxLen / limit else maxLen / numActive;
      if remaining > perRound {
        remaining := perRound;
      }
      muxed' := muxed + 1;
      var room := remaining + VarIntLen(remaining);
      assert room == Room(maxLen, length, numActive, limit);
      AskOk(streams[id], id, room, windows(id));
      frames', length' := Serve(id, Ask(streams[id], room, windows(id)), frames, length);
      assert State()
          == Take(Progress(old(State()), frames, length, muxed), Ask(old(streams)[id], room, windows(id))).framer;
    }

    /** What becomes of the stream that was taken off the queue and of its answer (lines 138-161). */
    method Serve(id: nat, a: Answer, frames: seq<StreamFrame>, length: nat)
      returns (frames': seq<StreamFrame>, length': nat)
      requires a.frame.Some? ==> Encodable(a.frame.value)
      modifies this`streamQueue, this`activeStreams, this`streams
      ensures streams == old(streams)[id := a.sender]
      ensures streamQueue == old(streamQueue) + if a.hasMoreData then [id] else []
      ensures activeStreams == old(activeStreams) - if a.hasMoreData then {} else {id}
      ensures frames' == frames + if a.frame.Some? then [a.frame.value] else []
      ensures length' == length + if a.frame.Some? then Length(a.frame.value) else 0
    {
      frames', length' := frames, length;
      streams := streams[id := a.sender];
      if a.hasMoreData {
        streamQueue := streamQueue + [id];
      } else {
        activeStreams := activeStreams - {id};
      }
      if a.frame.Some? {
        frames' := frames + [a.frame.value];
        length' := length + Length(a.frame.value);
      }
    }

    method AppendStreamFrames(windows: nat -> Window, maxLen: int, limit: nat)
      returns (frames: seq<StreamFrame>, length: nat)
      requires FramerOk(State()) && maxLen <= MAX_FRAME_SIZE
      modifies this`streamQueue, this`activeStreams, this`streams
      ensures (State(), frames) == AppendStreams(old(State()), windows, maxLen, limit)
      ensures AllEncodable(frames) && length == TotalLength(frames)
    {
      frames, length := [], 0;
      var numActive, i := |streamQueue|, 0;
      var muxed: nat := 0;
      ghost var wait := streamQueue;
      ghost var all := Visits(Progress(State(), [], 0, 0), windows, maxLen, numActive, limit, wait);
      while i < numActive && muxed < limit
        invariant 0 <= i <= numActive && |wait| == numActive - i && muxed <= limit
        invariant RoundOk(Progress(State(), frames, length, muxed), wait, maxLen)
        invariant Visits(Progress(State(), frames, length, muxed), windows, maxLen, numActive, limit, wait) == all
      {
        if MIN_STREAM_FRAME_SIZE + length > maxLen {
          break;
        }
        VisitKeeps(Progress(State(), frames, length, muxed), windows, maxLen, numActive, limit, wait);
        frames, length, muxed := VisitFirst(windows, maxLen, numActive, limit, frames, length, muxed);
        wait := wait[1..];
        i := i + 1;
      }
      if |frames| > 0 {
        FinishLength(frames);
        var last := frames[|frames| - 1];
        frames := frames[|frames| - 1 := last.(dataLenPresent := false)];
        length := length - VarIntLen(|last.data|);
      }
    }
  }

  lemma {:induction false} AddKeeps(queue: seq<nat>, active: set<nat>, id: nat)
    requires QueueOk(queue, active, queue) && id !in active
    ensures QueueOk(queue + [id], active + {id}, queue + [id])
  {
    var q := queue + [id];
    forall i: nat, j: nat | i < j < |q| ensures Differ(q, i, j) {
      if j < |queue| {
        assert Differ(queue, i, j);
      } else {
        assert queue[i] in queue;
      }
    }
  }
}
