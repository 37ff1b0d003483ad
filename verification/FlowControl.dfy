/** Flow control of streams and of the connection (quic-go/core/flowcontrol; section 4.1 of RFC 9000). */
module FlowControl {
  import opened Protocol
  import FS = FinalSize

  /** The part that streams and the connection share (quic-go/core/flowcontrol/base_flow_controller.go). */
  datatype Base = Base(
    bytesSent: nat,
    sendWindow: nat,
    bytesRead: nat,
    highestReceived: nat,
    receiveWindow: nat,
    receiveWindowSize: nat,
    maxReceiveWindowSize: nat,
    epochStartOffset: nat)

  function NewBase(receiveWindow: nat, maxReceiveWindow: nat, sendWindow: nat): Base {
    Base(0, sendWindow, 0, 0, receiveWindow, receiveWindow, maxReceiveWindow, 0)
  }

  function SendWindowSize(b: Base): nat {
    if b.bytesSent > b.sendWindow then 0 else b.sendWindow - b.bytesSent
  }

  function UpdateSendWindow(b: Base, offset: nat): Base {
    if offset > b.sendWindow then b.(sendWindow := offset) else b
  }

  function AddBytesRead(b: Base, n: nat): Base {
    var b' := if b.bytesRead == 0 then b.(epochStartOffset := 0) else b;
    b'.(bytesRead := b.bytesRead + n)
  }

  /** A quarter of the window has been consumed (lines 76-80). */
  predicate HasWindowUpdate(b: Base) {
    b.receiveWindow - b.bytesRead <= b.receiveWindowSize * 3 / 4
  }

  /** Doubles the window if half of it was consumed too fast; `tooFast` is what the clock says (lines 96-113). */
  function AdjustWindow(b: Base, rttKnown: bool, tooFast: bool): Base {
    if b.bytesRead - b.epochStartOffset <= b.receiveWindowSize / 2 || !rttKnown then b
    else
      var b' := b.(epochStartOffset := b.bytesRead);
      if tooFast then b'.(receiveWindowSize := Min(2 * b.receiveWindowSize, b.maxReceiveWindowSize)) else b'
  }

  /** The new window to advertise, or 0 for none (lines 84-92). */
  function GetWindowUpdate(b: Base, rttKnown: bool, tooFast: bool): (nat, Base) {
    if !HasWindowUpdate(b) then (0, b)
    else
      var b' := AdjustWindow(b, rttKnown, tooFast);
      (b'.bytesRead + b'.receiveWindowSize, b'.(receiveWindow := b'.bytesRead + b'.receiveWindowSize))
  }

  /** Grows the connection's window with a stream's (connection_flow_controller.go, lines 84-92). */
  function EnsureMinimum(b: Base, size: nat): Base {
    if size > b.receiveWindowSize then
      b.(receiveWindowSize := Min(size, b.maxReceiveWindowSize), epochStartOffset := b.bytesRead)
    else b
  }

  /** What holds of one controller as long as no error was reported. */
  predicate BaseOk(b: Base) {
    && b.bytesSent <= b.sendWindow
    && b.bytesRead <= b.highestReceived <= b.receiveWindow
    && b.receiveWindowSize <= b.maxReceiveWindowSize
    && (b.receiveWindowSize == 0 ==> b.receiveWindow == 0)
  }

  /** A window that is advertised is larger than the one before, and windows only move forward. */
  lemma {:induction false} UpdateGrows(b: Base, rttKnown: bool, tooFast: bool)
    requires BaseOk(b)
    ensures var (offset, b') := GetWindowUpdate(b, rttKnown, tooFast);
            && BaseOk(b')
            && (offset != 0 ==> offset == b'.receiveWindow > b.receiveWindow)
            && (offset == 0 ==> b'.receiveWindow == b.receiveWindow)
            && b.receiveWindowSize <= b'.receiveWindowSize
            && b' == b.(receiveWindow := b'.receiveWindow, receiveWindowSize := b'.receiveWindowSize,
                        epochStartOffset := b'.epochStartOffset)
  {
  }

  datatype Stream = Stream(base: Base, receivedFinalOffset: bool)

  datatype Verdict = Accepted | FinalSizeError | FlowControlError

  /** Records received data on the stream and the connection (stream_flow_controller.go, lines 53-90). */
  function UpdateHighestReceived(conn: Base, s: Stream, offset: nat, final: bool): (Verdict, Base, Stream) {
    var (v, h) := FS.Update(FS.Highest(s.base.highestReceived, s.receivedFinalOffset), offset, final);
    var s' := Stream(s.base.(highestReceived := h.received), h.final);
    if v.FinalSizeError? then (FinalSizeError, conn, s')
    else if v.Unchanged? then (Accepted, conn, s')
    else if s'.base.highestReceived > s'.base.receiveWindow then (FlowControlError, conn, s')
    else
      var conn' := conn.(highestReceived := conn.highestReceived + (offset - s.base.highestReceived));
      (if conn'.highestReceived > conn'.receiveWindow then FlowControlError else Accepted, conn', s')
  }

  /** The window update of a stream; a larger stream window enlarges the connection's (lines 122-139). */
  function StreamWindowUpdate(conn: Base, s: Stream, rttKnown: bool, tooFast: bool): (nat, Base, Stream) {
    if s.receivedFinalOffset then (0, conn, s)
    else
      var (offset, b) := GetWindowUpdate(s.base, rttKnown, tooFast);
      var grown := b.receiveWindowSize > s.base.receiveWindowSize;
      var conn' := if grown then EnsureMinimum(conn, b.receiveWindowSize * 3 / 2) else conn;
      (offset, conn', s.(base := b))
  }

  /** What is left unread counts as read once reading has ended (lines 98-102). */
  function Abandon(conn: Base, s: Stream): Base {
    if s.base.highestReceived > s.base.bytesRead
    then AddBytesRead(conn, s.base.highestReceived - s.base.bytesRead)
    else conn
  }

  class ConnectionFlowController {
    var base: Base

    constructor (receiveWindow: nat, maxReceiveWindow: nat)
      ensures base == NewBase(receiveWindow, maxReceiveWindow, 0)
    {
      base := NewBase(receiveWindow, maxReceiveWindow, 0);
    }

    method IncrementHighestReceived(increment: nat) returns (ok: bool)
      modifies this
      ensures base == old(base).(highestReceived := old(base).highestReceived + increment)
      ensures ok == (base.highestReceived <= base.receiveWindow)
    {
      base := base.(highestReceived := base.highestReceived + increment);
      ok := base.highestReceived <= base.receiveWindow;
    }

    method EnsureMinimumWindowSize(size: nat)
      modifies this
      ensures base == EnsureMinimum(old(base), size)
    {
      if size > base.receiveWindowSize {
        base := base.(receiveWindowSize := Min(size, base.maxReceiveWindowSize));
        base := base.(epochStartOffset := base.bytesRead);
      }
    }
  }

  class StreamFlowController {
    var base: Base
    var receivedFinalOffset: bool
    const connection: ConnectionFlowController

    constructor (c: ConnectionFlowController, receiveWindow: nat, maxReceiveWindow: nat, sendWindow: nat)
      ensures connection == c && base == NewBase(receiveWindow, maxReceiveWindow, sendWindow) && !receivedFinalOffset
    {
      connection, base, receivedFinalOffset := c, NewBase(receiveWindow, maxReceiveWindow, sendWindow), false;
    }

    ghost function State(): Stream
      reads this
    {
      Stream(base, receivedFinalOffset)
    }

    method OnReceived(offset: nat, final: bool) returns (v: Verdict)
      modifies this, connection
      ensures (v, connection.base, State()) == UpdateHighestReceived(old(connection.base), old(State()), offset, final)
    {
      if receivedFinalOffset {
        if final && offset != base.highestReceived {
          return FinalSizeError;
        }
        if offset > base.highestReceived {
          return FinalSizeError;
        }
      }
      if final {
        receivedFinalOffset := true;
      }
      if offset == base.highestReceived {
        return Accepted;
      }
      if offset <= base.highestReceived {
        return if final then FinalSizeError else Accepted;
      }
      var increment := offset - base.highestReceived;
      base := base.(highestReceived := offset);
      if base.highestReceived > base.receiveWindow {
        return FlowControlError;
      }
      var ok := connection.IncrementHighestReceived(increment);
      v := if ok then Accepted else FlowControlError;
    }

    method OnRead(n: nat)
      modifies this, connection
      ensures base == AddBytesRead(old(base), n) && receivedFinalOffset == old(receivedFinalOffset)
      ensures connection.base == AddBytesRead(old(connection.base), n)
    {
      base := AddBytesRead(base, n);
      connection.base := AddBytesRead(connection.base, n);
    }

    method AbandonStream()
      modifies connection
      ensures connection.base == Abandon(old(connection.base), State())
    {
      if base.highestReceived > base.bytesRead {
        connection.base := AddBytesRead(connection.base, base.highestReceived - base.bytesRead);
      }
    }

    method OnSent(n: nat)
      modifies this, connection
      ensures base == old(base).(bytesSent := old(base).bytesSent + n)
              && receivedFinalOffset == old(receivedFinalOffset)
      ensures connection.base == old(connection.base).(bytesSent := old(connection.base).bytesSent + n)
    {
      base := base.(bytesSent := base.bytesSent + n);
      connection.base := connection.base.(bytesSent := connection.base.bytesSent + n);
    }

    method NextWindowUpdate(rttKnown: bool, tooFast: bool) returns (offset: nat)
      modifies this, connection
      ensures (offset, connection.base, State())
              == StreamWindowUpdate(old(connection.base), old(State()), rttKnown, tooFast)
    {
      if receivedFinalOffset {
        return 0;
      }
      var oldWindowSize := base.receiveWindowSize;
      var u := GetWindowUpdate(base, rttKnown, tooFast);
      offset, base := u.0, u.1;
      if base.receiveWindowSize > oldWindowSize {
        connection.EnsureMinimumWindowSize(base.receiveWindowSize * 3 / 2);
      }
    }
  }
}
