/** No stream waits for ever: the framer serves its queue in turn (quic-go/framer.go). */
module FramerFairness {
  import opened Protocol
  import opened StreamFrames
  import opened Framer
  import FS = FramerSharing
  import SS = SendStream

  /** A stream wants to send, the streams change in any way, or a packet is filled. */
  datatype Op =
    | Activate(id: nat)
    | Change(streams: map<nat, SS.Sender>)
    | Packet(windows: nat -> Window, maxLen: nat, limit: nat)

  /** Packets have room for a frame. */
  ghost predicate OpOk(op: Op) {
    match op
    case Activate(_) => true
    case Change(streams) => Sound(streams)
    case Packet(_, maxLen, limit) => MIN_STREAM_FRAME_SIZE <= maxLen <= MAX_FRAME_SIZE && limit > 0
  }

  ghost predicate OpsOk(ops: seq<Op>) {
    forall i | 0 <= i < |ops| :: OpOk(ops[i])
  }

  ghost function Next(f: Framer, op: Op): (f': Framer)
    requires FramerOk(f) && OpOk(op)
    ensures FramerOk(f')
  {
    match op
    case Activate(id) =>
      if id !in f.active then
        AddKeeps(f.queue, f.active, id);
        AddActive(f, id)
      else AddActive(f, id)
    case Change(streams) => f.(streams := streams)
    case Packet(windows, maxLen, limit) =>
      StreamFramesFit(f, windows, maxLen, limit);
      AppendStreams(f, windows, maxLen, limit).0
  }

  ghost function Run(f: Framer, ops: seq<Op>): (f': Framer)
    requires FramerOk(f) && OpsOk(ops)
    ensures FramerOk(f')
    decreases |ops|
  {
    if |ops| == 0 then f else Run(Next(f, ops[0]), ops[1..])
  }

  function Packets(ops: seq<Op>): nat {
    if |ops| == 0 then 0 else (if ops[0].Packet? then 1 else 0) + Packets(ops[1..])
  }

  /** The stream has a frame in the packet, or has gone away, or could not fill even the least room. */
  ghost predicate Served(f: Framer, op: Op, id: nat)
    requires FramerOk(f) && OpOk(op) && op.Packet? && |f.queue| > 0
  {
    || id in FS.IdsOf(AppendStreams(f, op.windows, op.maxLen, op.limit).1)
    || id !in f.streams
    || (var part := op.maxLen / Min(|f.queue|, op.limit);
        && part <= op.maxLen
        && FS.Idle(f.streams, id, FS.Offer(Min(MIN_STREAM_FRAME_SIZE, part)), op.windows(id)))
  }

  lemma {:induction false} AskedSome(f: Framer, c: FS.Call, f': Framer, frames: seq<StreamFrame>, asked: nat,
                                     sent: seq<nat>, again: seq<nat>)
    requires c.part <= c.maxLen <= MAX_FRAME_SIZE && FS.Shared(f, c, f', frames, asked, sent, again)
    requires |f.queue| > 0 && c.limit > 0 && MIN_STREAM_FRAME_SIZE <= c.maxLen
    ensures asked > 0
  {
    assert |frames| == |FS.IdsOf(frames)| == |sent|;
  }

  /** In a packet the stream at position k is served or moves forward. */
  lemma {:induction false} PacketMoves(f: Framer, op: Op, k: nat) returns (asked: nat)
    requires FramerOk(f) && OpOk(op) && op.Packet? && k < |f.queue|
    ensures asked > 0
    ensures if k < asked then Served(f, op, f.queue[k])
            else k - asked < |Next(f, op).queue| && Next(f, op).queue[k - asked] == f.queue[k]
  {
    var sent, again;
    asked, sent, again := FS.PacketShared(f, op.windows, op.maxLen, op.limit);
    var c := FS.Call(op.windows, op.maxLen, op.maxLen / Min(|f.queue|, op.limit), op.limit);
    var (f', frames) := AppendStreams(f, op.windows, op.maxLen, op.limit);
    AskedSome(f, c, f', frames, asked, sent, again);
    if k < asked {
      if k in sent {
        var i :| 0 <= i < |sent| && sent[i] == k;
        assert FS.IdsOf(frames)[i] == f.queue[k];
      }
    } else {
      assert f'.queue[k - asked] == f.queue[asked..][k - asked];
    }
  }

  /** Everything else leaves the stream where it is. */
  lemma {:induction false} OthersStay(f: Framer, op: Op, k: nat)
    requires FramerOk(f) && OpOk(op) && !op.Packet? && k < |f.queue|
    ensures k < |Next(f, op).queue| && Next(f, op).queue[k] == f.queue[k]
  {
  }

  lemma {:induction false} RunCons(f: Framer, ops: seq<Op>, j: nat)
    requires FramerOk(f) && OpsOk(ops) && 0 < j <= |ops|
    ensures OpsOk(ops[..j]) && OpsOk(ops[1..][..j - 1])
    ensures Run(f, ops[..j]) == Run(Next(f, ops[0]), ops[1..][..j - 1])
  {
    assert ops[..j][1..] == ops[1..][..j - 1];
  }

  ghost predicate ServedAt(f: Framer, ops: seq<Op>, j: nat, id: nat)
    requires FramerOk(f) && OpsOk(ops) && j < |ops|
  {
    ops[j].Packet? && |Run(f, ops[..j]).queue| > 0 && Served(Run(f, ops[..j]), ops[j], id)
  }

  /** The stream at position k of the queue is served by one of the next k + 1 packets, whatever else happens. */
  lemma {:induction false} Fair(f: Framer, ops: seq<Op>, k: nat) returns (j: nat)
    requires FramerOk(f) && OpsOk(ops) && k < |f.queue| && Packets(ops) > k
    ensures j < |ops| && ServedAt(f, ops, j, f.queue[k])
    decreases |ops|, 1
  {
    var id, op := f.queue[k], ops[0];
    if op.Packet? {
      var asked := PacketMoves(f, op, k);
      if k < asked {
        j := 0;
        assert Run(f, ops[..0]) == f;
      } else {
        j := Later(f, ops, k - asked, id);
      }
    } else {
      OthersStay(f, op, k);
      j := Later(f, ops, k, id);
    }
  }

  lemma {:induction false} Later(f: Framer, ops: seq<Op>, k: nat, id: nat) returns (j: nat)
    requires FramerOk(f) && OpsOk(ops) && |ops| > 0 && OpsOk(ops[1..])
    requires k < |Next(f, ops[0]).queue| && Next(f, ops[0]).queue[k] == id && Packets(ops[1..]) > k
    ensures j < |ops| && ServedAt(f, ops, j, id)
    decreases |ops|, 0
  {
    var i := Fair(Next(f, ops[0]), ops[1..], k);
    j := i + 1;
    RunCons(f, ops, j);
  }
}
