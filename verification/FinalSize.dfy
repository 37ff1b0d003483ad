/** The highest received offset and the final size of a stream (section 4.5 of RFC 9000). */
module FinalSize {
  // Lines 53-85 of quic-go/core/flowcontrol/stream_flow_controller.go.

  datatype Highest = Highest(received: nat, final: bool)

  datatype Verdict = Unchanged | Raised | FinalSizeError

  function Update(h: Highest, offset: nat, final: bool): (Verdict, Highest) {
    if h.final && ((final && offset != h.received) || offset > h.received) then (FinalSizeError, h)
    else
      var h' := h.(final := h.final || final);
      if offset > h.received then (Raised, h'.(received := offset))
      else if offset < h.received && final then (FinalSizeError, h')
      else (Unchanged, h')
  }
}
