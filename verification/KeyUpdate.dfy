/** One endpoint's packet protection with key updates (quic-go/core/handshake/updatable_aead.go). */
module KeyUpdate {
  import opened Protocol

  /**
   * The key phase stands for the keys in use: packets are opened with the keys of phase `keyPhase`,
   * those of the next phase, and those of phase `prev` as long as they have not been dropped.
   */
  datatype Aead = Aead(
    keyPhase: nat,
    largestAcked: int,
    prev: Option<nat>,
    firstRcvd: int,
    firstSent: int,
    numRcvd: nat,
    numSent: nat)

  const NEW := Aead(0, INVALID_PACKET_NUMBER, None, INVALID_PACKET_NUMBER, INVALID_PACKET_NUMBER, 0, 0)

  predicate Bit(phase: nat) {
    phase % 2 == 1
  }

  function RollKeys(a: Aead): Aead {
    Aead(a.keyPhase + 1, a.largestAcked, Some(a.keyPhase), INVALID_PACKET_NUMBER, INVALID_PACKET_NUMBER, 0, 0)
  }

  datatype Result = Opened | DecryptionFailed | KeysDropped | WrongInitialKeyPhase | UpdatedTooQuickly

  /**
   * Opening packet pn whose header carries `bit` and which was sealed with the keys of phase `sealed`
   * (lines 147-199). `expired` says whether the receive time is past the expiry of the previous keys.
   */
  function Open(a0: Aead, expired: bool, pn: nat, bit: bool, sealed: nat): (Result, Aead) {
    var a := if expired then a0.(prev := None) else a0;
    if bit != Bit(a.keyPhase) then
      if a.firstRcvd == INVALID_PACKET_NUMBER || pn < a.firstRcvd then
        if a.keyPhase == 0 then (WrongInitialKeyPhase, a)
        else if a.prev.None? then (KeysDropped, a)
        else (if a.prev.value == sealed then Opened else DecryptionFailed, a)
      else if sealed != a.keyPhase + 1 then (DecryptionFailed, a)
      else if a.firstSent == INVALID_PACKET_NUMBER then (UpdatedTooQuickly, a)
      else (Opened, RollKeys(a).(firstRcvd := pn))
    else if sealed != a.keyPhase then (DecryptionFailed, a)
    else (Opened, a.(numRcvd := a.numRcvd + 1,
                     firstRcvd := if a.firstRcvd == INVALID_PACKET_NUMBER then pn else a.firstRcvd))
  }

  function Seal(a: Aead, pn: nat): Aead {
    a.(firstSent := if a.firstSent == INVALID_PACKET_NUMBER then pn else a.firstSent, numSent := a.numSent + 1)
  }

  predicate UpdateAllowed(a: Aead) {
    && a.firstSent != INVALID_PACKET_NUMBER
    && a.largestAcked != INVALID_PACKET_NUMBER
    && a.largestAcked >= a.firstSent
  }

  predicate ShouldUpdate(a: Aead, interval: nat) {
    UpdateAllowed(a) && (a.numRcvd >= interval || a.numSent >= interval)
  }

  /** Asking for the key phase of the next packet starts a key update when one is due (lines 242-247). */
  function PollKeyPhase(a: Aead, interval: nat): Aead {
    if ShouldUpdate(a, interval) then RollKeys(a) else a
  }

  class UpdatableAead {
    const keyUpdateInterval: nat
    var keyPhase: nat
    var largestAcked: int
    var prevRcvAead: Option<nat>
    var rcvAead: nat
    var sendAead: nat
    var nextRcvAead: nat
    var nextSendAead: nat
    var firstRcvdWithCurrentKey: int
    var firstSentWithCurrentKey: int
    var numRcvdWithCurrentKey: nat
    var numSentWithCurrentKey: nat

    ghost function State(): Aead
      reads this
    {
      Aead(keyPhase, largestAcked, prevRcvAead, firstRcvdWithCurrentKey, firstSentWithCurrentKey,
           numRcvdWithCurrentKey, numSentWithCurrentKey)
    }

    /** The key slots agree with the key phase. */
    ghost predicate Valid()
      reads this
    {
      rcvAead == sendAead == keyPhase && nextRcvAead == nextSendAead == keyPhase + 1
    }

    constructor (interval: nat)
      ensures Valid() && State() == NEW && keyUpdateInterval == interval
    {
      keyUpdateInterval := interval;
      keyPhase, largestAcked, prevRcvAead := 0, INVALID_PACKET_NUMBER, None;
      rcvAead, sendAead, nextRcvAead, nextSendAead := 0, 0, 1, 1;
      firstRcvdWithCurrentKey, firstSentWithCurrentKey := INVALID_PACKET_NUMBER, INVALID_PACKET_NUMBER;
      numRcvdWithCurrentKey, numSentWithCurrentKey := 0, 0;
    }

    method Roll()
      requires Valid()
      modifies this
      ensures Valid() && State() == RollKeys(old(State()))
    {
      keyPhase := keyPhase + 1;
      firstRcvdWithCurrentKey, firstSentWithCurrentKey := INVALID_PACKET_NUMBER, INVALID_PACKET_NUMBER;
      numRcvdWithCurrentKey, numSentWithCurrentKey := 0, 0;
      prevRcvAead := Some(rcvAead);
      rcvAead, sendAead := nextRcvAead, nextSendAead;
      nextRcvAead, nextSendAead := nextRcvAead + 1, nextSendAead + 1;
    }

    method OpenPacket(expired: bool, pn: nat, bit: bool, sealed: nat) returns (r: Result)
      requires Valid()
      modifies this
      ensures Valid() && (r, State()) == Open(old(State()), expired, pn, bit, sealed)
    {
      if prevRcvAead.Some? && expired {
        prevRcvAead := None;
      }
      if bit != (keyPhase % 2 == 1) {
        if firstRcvdWithCurrentKey == INVALID_PACKET_NUMBER || pn < firstRcvdWithCurrentKey {
          if keyPhase == 0 {
            return WrongInitialKeyPhase;
          }
          if prevRcvAead.None? {
            return KeysDropped;
          }
          return if prevRcvAead.value == sealed then Opened else DecryptionFailed;
        }
        if nextRcvAead != sealed {
          return DecryptionFailed;
        }
        if firstSentWithCurrentKey == INVALID_PACKET_NUMBER {
          return UpdatedTooQuickly;
        }
        Roll();
        firstRcvdWithCurrentKey := pn;
        return Opened;
      }
      if rcvAead != sealed {
        return DecryptionFailed;
      }
      numRcvdWithCurrentKey := numRcvdWithCurrentKey + 1;
      if firstRcvdWithCurrentKey == INVALID_PACKET_NUMBER {
        firstRcvdWithCurrentKey := pn;
      }
      r := Opened;
    }

    /** Returns the phase of the keys the packet is sealed with. */
    method SealPacket(pn: nat) returns (sealed: nat)
      requires Valid()
      modifies this
      ensures Valid() && State() == Seal(old(State()), pn) && sealed == keyPhase
    {
      if firstSentWithCurrentKey == INVALID_PACKET_NUMBER {
        firstSentWithCurrentKey := pn;
      }
      numSentWithCurrentKey := numSentWithCurrentKey + 1;
      sealed := sendAead;
    }

    method SetLargestAcked(pn: nat)
      requires Valid()
      modifies this
      ensures Valid() && State() == old(State()).(largestAcked := pn)
    {
      largestAcked := pn;
    }

    method KeyPhase() returns (bit: bool)
      requires Valid()
      modifies this
      ensures Valid() && State() == PollKeyPhase(old(State()), keyUpdateInterval) && bit == Bit(keyPhase)
    {
      if ShouldUpdate(Aead(keyPhase, largestAcked, prevRcvAead, firstRcvdWithCurrentKey, firstSentWithCurrentKey,
                           numRcvdWithCurrentKey, numSentWithCurrentKey), keyUpdateInterval) {
        Roll();
      }
      bit := keyPhase % 2 == 1;
    }
  }
}
