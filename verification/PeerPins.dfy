/** The enrolled keys: at most one per (network, node), and none shared within a network. */
module PeerPins {
  import opened Vocabulary

  const MAX_RECORDS: nat := 128

  type Pins = map<PeerKey, Key>

  datatype PinError = InvalidIdentity | KeyConflict | UnknownEnrollment | FingerprintMismatch

  datatype Enrollment = Enrolled(pins: Pins) | AlreadyEnrolled | Conflict(why: PinError)

  predicate HeldByAnother(pins: Pins, peer: PeerKey, key: Key) {
    exists other | other in pins :: other.network == peer.network && other != peer && pins[other] == key
  }

  function Enroll(pins: Pins, peer: PeerKey, key: Key): Enrollment {
    if !peer.IsValid() then Conflict(InvalidIdentity)
    else if HeldByAnother(pins, peer, key) then Conflict(KeyConflict)
    else if peer !in pins then Enrolled(pins[peer := key])
    else if pins[peer] == key then AlreadyEnrolled
    else Conflict(KeyConflict)
  }

  function Revoke(pins: Pins, peer: PeerKey): Pins { pins - {peer} }

  /** Real peers only, and within one network the node-to-key relation is one-to-one. */
  ghost predicate Sound(pins: Pins) {
    && (forall p <- pins :: p.IsValid())
    && (forall p, q :: p in pins && q in pins && p.network == q.network && pins[p] == pins[q] ==> p == q)
  }

  /** A key is enrolled exactly when the peer is real, has no key yet, and stays the only holder. */
  lemma EnrollExactly(pins: Pins, peer: PeerKey, key: Key)
    requires Sound(pins)
    ensures Enroll(pins, peer, key).Enrolled? <==> peer !in pins && Sound(pins[peer := key])
    ensures Enroll(pins, peer, key).Enrolled? ==> Enroll(pins, peer, key).pins == pins[peer := key]
    ensures Enroll(pins, peer, key).AlreadyEnrolled? <==> peer in pins && pins[peer] == key
  {
    var grown := pins[peer := key];
    if peer !in pins && HeldByAnother(pins, peer, key) {
      var other :| other in pins && other.network == peer.network && other != peer && pins[other] == key;
      assert grown[other] == grown[peer];
    }
  }

  lemma RevokeKeepsSound(pins: Pins, peer: PeerKey)
    requires Sound(pins)
    ensures Sound(Revoke(pins, peer))
  {
  }
}
