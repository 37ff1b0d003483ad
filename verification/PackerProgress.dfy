/** That nothing which fits is left out of a packet (quic-go/packet_packer.go). */
module PackerProgress {
  import opened Protocol
  import opened PacketPacker
  import FP = FrameParser
  import Fr = Framer
  import FS = FramerSharing
  import SP = SendProgress
  import CF = ControlFrames

  /** What is left of the packet for STREAM frames. */
  function RoomForStreams(c: Composed, maxSize: int): int {
    maxSize - c.lost.length - c.controls.length
  }

  /** A stream among those that can take part can fill the least room that one is offered. */
  ghost predicate SomeCanSend(f: Fr.Framer, windows: nat -> Fr.Window, room: nat, limit: nat)
    requires room <= Fr.MAX_FRAME_SIZE
  {
    exists i: nat :: CanSendAt(f, windows, room, limit, i)
  }

  ghost predicate CanSendAt(f: Fr.Framer, windows: nat -> Fr.Window, room: nat, limit: nat, i: nat)
    requires room <= Fr.MAX_FRAME_SIZE
  {
    && i < |f.queue| && i < limit && f.queue[i] in f.streams && Fr.SenderOk(f.streams[f.queue[i]], f.queue[i])
    && var part := room / Min(|f.queue|, limit);
       && part <= room
       && SP.CanSend(f.streams[f.queue[i]], FS.Offer(Min(Fr.MIN_STREAM_FRAME_SIZE, part)), windows(f.queue[i]).size)
  }

  lemma {:induction false} LiveAtMost(streams: set<nat>, ids: seq<nat>)
    ensures FS.Live(streams, ids) <= |ids|
  {
    if |ids| > 0 {
      LiveAtMost(streams, ids[..|ids| - 1]);
    }
  }

  lemma {:induction false} NoneSent(f: Fr.Framer, c: FS.Call, f': Fr.Framer, asked: nat, sent: seq<nat>,
                                    again: seq<nat>, i: nat)
    requires c.part <= c.maxLen <= Fr.MAX_FRAME_SIZE && FS.Shared(f, c, f', [], asked, sent, again)
    requires i < |f.queue| && i < c.limit && f.queue[i] in f.streams && Fr.MIN_STREAM_FRAME_SIZE <= c.maxLen
    ensures FS.Idle(f.streams, f.queue[i], FS.Least(c), c.windows(f.queue[i]))
  {
    LiveAtMost(f.streams.Keys, f.queue[..asked]);
    assert FS.IdsOf([]) == [];
    assert |sent| == 0;
    assert i < asked && i !in sent;
  }

  /** If some stream can send, the packet has a STREAM frame. */
  lemma {:induction false} StreamsSend(f: Fr.Framer, windows: nat -> Fr.Window, room: nat, limit: nat)
    requires Fr.FramerOk(f) && Fr.MIN_STREAM_FRAME_SIZE <= room <= Fr.MAX_FRAME_SIZE
    requires SomeCanSend(f, windows, room, limit)
    ensures |Fr.AppendStreams(f, windows, room, limit).1| > 0
  {
    var i: nat :| CanSendAt(f, windows, room, limit, i);
    var asked, sent, again := FS.PacketShared(f, windows, room, limit);
    var c := FS.Call(windows, room, room / Min(|f.queue|, limit), limit);
    var (f', frames) := Fr.AppendStreams(f, windows, room, limit);
    if |frames| == 0 {
      NoneSent(f, c, f', asked, sent, again, i);
    }
  }

  lemma {:induction false} ComposeAsks(p: Packer, ackLength: nat, windows: nat -> Fr.Window, maxSize: int, limit: nat,
                                       c: Composed, f: Fr.Framer, room: int)
    requires PackerOk(p) && maxSize <= Fr.MAX_FRAME_SIZE && c == Compose(p, ackLength, windows, maxSize, limit)
    requires f == p.framer.(controls := c.controls.left) && room == RoomForStreams(c, maxSize)
    ensures Fr.FramerOk(f) && room <= Fr.MAX_FRAME_SIZE && c.streams == Fr.AppendStreams(f, windows, room, limit).1
  {
  }

  lemma {:induction false} SameStreams(f: Fr.Framer, g: Fr.Framer, windows: nat -> Fr.Window, room: nat, limit: nat)
    requires room <= Fr.MAX_FRAME_SIZE && f.queue == g.queue && f.streams == g.streams
    ensures SomeCanSend(f, windows, room, limit) ==> SomeCanSend(g, windows, room, limit)
  {
    if SomeCanSend(f, windows, room, limit) {
      var i: nat :| CanSendAt(f, windows, room, limit, i);
      assert CanSendAt(g, windows, room, limit, i);
    }
  }

  lemma {:induction false} StreamsHeldBack(p: Packer, ackLength: nat, windows: nat -> Fr.Window, maxSize: int,
                                           limit: nat, c: Composed)
    requires PackerOk(p) && maxSize <= Fr.MAX_FRAME_SIZE && c == Compose(p, ackLength, windows, maxSize, limit)
    requires Fr.MIN_STREAM_FRAME_SIZE <= RoomForStreams(c, maxSize)
    requires SomeCanSend(p.framer, windows, RoomForStreams(c, maxSize), limit)
    ensures |c.streams| > 0
  {
    var f, room := p.framer.(controls := c.controls.left), RoomForStreams(c, maxSize);
    ComposeAsks(p, ackLength, windows, maxSize, limit, c, f, room);
    SameStreams(p.framer, f, windows, room, limit);
    StreamsSend(f, windows, room, limit);
  }

  lemma {:induction false} LostLeft(q: seq<CF.ControlFrame>, ackLength: nat, maxSize: int, none: seq<CF.ControlFrame>,
                                    t: Fr.Taken<CF.ControlFrame>)
    requires none == [] && t == TakeFront(q, CF.Size, none, ackLength, maxSize)
    ensures |t.left| > 0 ==> || maxSize - t.length < Fr.MIN_STREAM_FRAME_SIZE
                             || t.length + CF.Size(t.left[0]) > maxSize
  {
    FrontFits(q, CF.Size, none, ackLength, maxSize, ackLength);
  }

  lemma {:induction false} ControlsLeft(cs: seq<CF.ControlFrame>, maxLen: int, none: seq<CF.ControlFrame>, zero: nat,
                                        t: Fr.Taken<CF.ControlFrame>)
    requires none == [] && zero == 0 && t == Fr.TakeFitting(cs, CF.Size, none, zero, maxLen)
    ensures |t.left| > 0 ==> t.length + CF.Size(t.left[|t.left| - 1]) > maxLen
  {
    Fr.TakenFits(cs, CF.Size, none, zero, maxLen);
  }

  lemma {:induction false} ControlsHeldBack(p: Packer, ackLength: nat, windows: nat -> Fr.Window, maxSize: int,
                                            limit: nat, c: Composed)
    requires PackerOk(p) && maxSize <= Fr.MAX_FRAME_SIZE && c == Compose(p, ackLength, windows, maxSize, limit)
    ensures |c.lost.left| > 0 ==> || maxSize - c.lost.length < Fr.MIN_STREAM_FRAME_SIZE
                                  || c.lost.length + CF.Size(c.lost.left[0]) > maxSize
    ensures |c.controls.left| > 0 ==>
              c.lost.length + c.controls.length + CF.Size(c.controls.left[|c.controls.left| - 1]) > maxSize
  {
    ComposeTakes(p, ackLength, windows, maxSize, limit, c);
    LostLeft(p.appData, ackLength, maxSize, [], c.lost);
    ControlsLeft(p.framer.controls, maxSize - c.lost.length, [], 0, c.controls);
  }

  /**
   * Lost control frames are left out only if less than the smallest frame size remained or the next one did not
   * fit, new control frames only if the next one did not fit, and STREAM frames only if too little room remained
   * or no stream that could take part had anything to send.
   */
  lemma {:induction false} NothingHeldBack(p: Packer, ackLength: nat, windows: nat -> Fr.Window, maxSize: int,
                                           limit: nat, c: Composed, room: int)
    requires PackerOk(p) && maxSize <= Fr.MAX_FRAME_SIZE && c == Compose(p, ackLength, windows, maxSize, limit)
    requires room == RoomForStreams(c, maxSize)
    ensures |c.lost.left| > 0 ==> || maxSize - c.lost.length < Fr.MIN_STREAM_FRAME_SIZE
                                  || c.lost.length + CF.Size(c.lost.left[0]) > maxSize
    ensures |c.controls.left| > 0 ==>
              c.lost.length + c.controls.length + CF.Size(c.controls.left[|c.controls.left| - 1]) > maxSize
    ensures room >= Fr.MIN_STREAM_FRAME_SIZE && SomeCanSend(p.framer, windows, room, limit) ==> |c.streams| > 0
  {
    ControlsHeldBack(p, ackLength, windows, maxSize, limit, c);
    if room >= Fr.MIN_STREAM_FRAME_SIZE && SomeCanSend(p.framer, windows, room, limit) {
      StreamsHeldBack(p, ackLength, windows, maxSize, limit, c);
    }
  }

  /** The counter after n packets in a row that carry nothing but an ACK, and whether the next one gets a PING. */
  function AcksOnly(n: nat): nat {
    if n == 0 then 0 else WithPing([], AcksOnly(n - 1)).1
  }

  lemma {:induction false} NextOfTwenty(n: nat)
    ensures (n + 1) % 20 == if n % 20 == 19 then 0 else n % 20 + 1
  {
  }

  /** Of packets that would carry nothing but an ACK exactly each twentieth gets a PING. */
  lemma {:induction false} EveryTwentieth(n: nat)
    ensures AcksOnly(n) == n % 20
    ensures WithPing([], AcksOnly(n)).0 == if n % 20 == 19 then [FP.Control(PING)] else []
  {
    if n > 0 {
      EveryTwentieth(n - 1);
      NextOfTwenty(n - 1);
    }
  }
}
