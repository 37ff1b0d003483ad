/** When credit is given, and that it comes back to the sender (quic-go/core/flowcontrol). */
module FlowControlCredit {
  import opened Protocol
  import opened FlowControl
  import opened FlowControlRuns
  import opened FlowControlLink

  /** At most three quarters of the window are left (lines 76-80 of base_flow_controller.go). */
  predicate RunningLow(b: Base) {
    4 * (b.receiveWindow - b.bytesRead) <= 3 * b.receiveWindowSize
  }

  /** More than half of the window was read in this epoch, and the clock says that this was too fast. */
  predicate TooSmall(b: Base, rttKnown: bool, tooFast: bool) {
    2 * (b.bytesRead - b.epochStartOffset) > b.receiveWindowSize && rttKnown && tooFast
  }

  /**
   * A window is advertised if and only if at most three quarters of it are left. It then is a whole window
   * beyond what was read, doubled up to the maximum exactly if it was too small. So after the call more than
   * three quarters are always left.
   */
  lemma {:induction false} UpdateExact(b: Base, rttKnown: bool, tooFast: bool)
    requires BaseOk(b) && b.receiveWindowSize > 0
    ensures var (offset, b') := GetWindowUpdate(b, rttKnown, tooFast);
            && !RunningLow(b') && b'.receiveWindowSize > 0
            && (offset != 0 <==> RunningLow(b))
            && (offset != 0 ==> offset == b'.receiveWindow == b.bytesRead + b'.receiveWindowSize)
            && (offset == 0 ==> b' == b)
            && b'.receiveWindowSize == (if RunningLow(b) && TooSmall(b, rttKnown, tooFast)
                                        then Min(2 * b.receiveWindowSize, b.maxReceiveWindowSize)
                                        else b.receiveWindowSize)
  {
  }

  /**
   * The same for a stream, as long as its final size is not known. The connection's window grows to one and
   * a half times the stream's, up to its own maximum, exactly when the stream's has grown.
   */
  lemma {:induction false} StreamUpdateExact(conn: Base, s: Stream, rttKnown: bool, tooFast: bool)
    requires BaseOk(conn) && BaseOk(s.base) && s.base.receiveWindowSize > 0
    ensures var (offset, conn', s') := StreamWindowUpdate(conn, s, rttKnown, tooFast);
            var size, size' := s.base.receiveWindowSize, s'.base.receiveWindowSize;
            && (offset != 0 <==> !s.receivedFinalOffset && RunningLow(s.base))
            && (offset != 0 ==> offset == s'.base.receiveWindow == s.base.bytesRead + size')
            && (offset == 0 ==> s' == s && conn' == conn)
            && (!s.receivedFinalOffset ==> !RunningLow(s'.base))
            && size' == (if offset != 0 && TooSmall(s.base, rttKnown, tooFast)
                         then Min(2 * size, s.base.maxReceiveWindowSize) else size)
            && conn'.receiveWindow == conn.receiveWindow
            && conn'.receiveWindowSize
               == (if size' > size then Max(conn.receiveWindowSize, Min(size' * 3 / 2, conn.maxReceiveWindowSize))
                   else conn.receiveWindowSize)
  {
    UpdateExact(s.base, rttKnown, tooFast);
  }

  /**
   * Once the receiver has read all that was sent on a stream, its next update, when it arrives, leaves the
   * sender more than three quarters of a window, whatever happened before.
   */
  lemma {:induction false} StreamCreditReturns(l: Link, i: nat, rttKnown: bool, tooFast: bool)
    requires LinkInv(l) && i < |l.a.flows| && l.b.flows[i].s.base.receiveWindowSize > 0
    requires !l.b.flows[i].s.receivedFinalOffset && l.b.flows[i].s.base.bytesRead == l.a.flows[i].s.base.bytesSent
    ensures var update := Local(StreamUpdate(i, rttKnown, tooFast));
            && LinkEnabled(l, update)
            && var l' := LinkNext(l, update);
               var arrival := CreditArrives(i, l'.b.flows[i].s.base.receiveWindow);
               && LinkEnabled(l', arrival)
               && var l'' := LinkNext(l', arrival);
                  4 * SendWindowSize(l''.a.flows[i].s.base) > 3 * l''.b.flows[i].s.base.receiveWindowSize
  {
    assert FlowOk(l.b.flows[i]) && Behind(l.a.flows[i], l.b.flows[i]);
    StreamUpdateExact(l.b.conn, l.b.flows[i].s, rttKnown, tooFast);
  }

  /** The same for the connection. */
  lemma {:induction false} ConnCreditReturns(l: Link, rttKnown: bool, tooFast: bool)
    requires LinkInv(l) && l.b.conn.receiveWindowSize > 0 && l.b.conn.bytesRead == l.a.conn.bytesSent
    ensures var update := Local(ConnUpdate(rttKnown, tooFast));
            && LinkEnabled(l, update)
            && var l' := LinkNext(l, update);
               var arrival := ConnCreditArrives(l'.b.conn.receiveWindow);
               && LinkEnabled(l', arrival)
               && var l'' := LinkNext(l', arrival);
                  4 * SendWindowSize(l''.a.conn) > 3 * l''.b.conn.receiveWindowSize
  {
    UpdateExact(l.b.conn, rttKnown, tooFast);
  }
}
