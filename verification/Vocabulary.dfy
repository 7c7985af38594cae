/**
 The words shared by every component of the control plane: identifiers, errors,
 bounded integers and the durable membership registry.
 */
module Vocabulary {

  // ---------------------------------------------------------------- identifiers

  type Byte = b: int | 0 <= b < 256

  /** The sixteen raw bytes behind every identifier. */
  type Id = s: seq<Byte> | |s| == 16 witness
    [0, 0, 0, 0, 0, 0, 0, 0, 0, 0, 0, 0, 0, 0, 0, 0]

  const ZERO_ID: Id :=
    [0, 0, 0, 0, 0, 0, 0, 0, 0, 0, 0, 0, 0, 0, 0, 0]

  datatype NetworkId = NetworkId(bytes: Id)
  datatype NodeId = NodeId(bytes: Id)
  datatype SessionId = SessionId(bytes: Id)

  const ZERO_NETWORK := NetworkId(ZERO_ID)
  const ZERO_NODE := NodeId(ZERO_ID)
  const ZERO_SESSION := SessionId(ZERO_ID)

  predicate AnyNonzero(s: seq<Byte>) {
    s != [] && (s[0] != 0 || AnyNonzero(s[1..]))
  }

  /** SHA-256 of a peer's SubjectPublicKeyInfo; the all-zero digest is not a key. */
  type Key = s: seq<Byte> | |s| == 32 && AnyNonzero(s) witness
    [1, 0, 0, 0, 0, 0, 0, 0, 0, 0, 0, 0, 0, 0, 0, 0, 0, 0, 0, 0, 0, 0, 0, 0, 0, 0, 0, 0, 0, 0, 0, 0]

  /** A logical peer within one network. */
  datatype PeerKey = PeerKey(network: NetworkId, peer: NodeId) {
    predicate IsValid() { network != ZERO_NETWORK && peer != ZERO_NODE }
  }

  // ---------------------------------------------------------------- results

  datatype Option<+T> = None | Some(value: T)

  datatype ErrorKind =
    | UnsupportedRuntime | MissingAdapter | AdapterDisabled | CapabilityUnavailable
    | BluezUnavailable | NetworkBackendUnavailable | PairingFailed | AuthenticationFailed
    | PanFailure | AddressConflict | RouteFailure | TopologyFailure | ProtocolError
    | InvalidState | InvalidInput | PersistenceError | Internal
  {
    /** Another bounded transport attempt may help without new credentials. */
    predicate IsRetryableTransportFailure() {
      BluezUnavailable? || NetworkBackendUnavailable? || PanFailure?
    }
  }

  datatype CoreError = CoreError(kind: ErrorKind, message: string, diagnostic: Option<Diagnostic>)

  /** A free text, or an earlier diagnostic extended with what went wrong while undoing. */
  datatype Diagnostic =
    | Text(text: string)
    | AndRollbackFailures(primary: Option<Diagnostic>, failures: seq<RollbackFailure>)

  datatype RollbackFailure = RollbackFailure(stage: RollbackStage, error: CoreError)

  datatype RollbackStage = ControlRollback | AddressRollback | PanuRollback

  datatype Result<+T> = Ok(value: T) | Err(error: CoreError)

  /** An error raised by the modelled code itself; its wording is not part of the model. */
  function Fail<T>(kind: ErrorKind): Result<T> {
    Err(CoreError(kind, "", None))
  }

  // ---------------------------------------------------------------- bounded integers

  const U64_MAX: int := 0xffff_ffff_ffff_ffff

  type U64 = x: int | 0 <= x <= U64_MAX

  type U32 = x: int | 0 <= x < 0x1_0000_0000

  function SaturatingAdd(a: U64, b: U64): U64 {
    if a + b > U64_MAX then U64_MAX else a + b
  }

  function Pow2(n: nat): (p: nat)
    ensures p > 0
  {
    if n == 0 then 1 else 2 * Pow2(n - 1)
  }

  lemma SmallerWithout<K, V>(m: map<K, V>, k: K)
    ensures |m - {k}| <= |m|
  {
    assert (m - {k}).Keys == m.Keys - {k};
    assert |m - {k}| == |(m - {k}).Keys|;
  }

  // ---------------------------------------------------------------- heartbeats

  /** Both the inbound worker and the outbound supervisor beat every five seconds. */
  const HEARTBEAT_INTERVAL: nat := 5_000_000_000

  // ---------------------------------------------------------------- durable membership

  datatype MembershipState = NotMember | Joining | Member | Leaving {
    function Transition(next: MembershipState): Result<MembershipState> {
      if || (this, next) == (NotMember, Joining)
         || (this, next) == (Joining, Member)
         || (this, next) == (Joining, NotMember)
         || (this, next) == (Member, Leaving)
         || (this, next) == (Leaving, NotMember)
         || (this, next) == (Leaving, Member)
         || this == next
      then Ok(next)
      else Fail(InvalidState)
    }
  }

  datatype PeerFacts = PeerFacts(member: bool, trusted: bool)

  datatype Membership = Membership(name: string, state: MembershipState, peers: map<NodeId, PeerFacts>) {
    predicate Trusts(node: NodeId) { node in peers && peers[node].trusted }
  }

  type Registry = map<NetworkId, Membership>

  function Members(r: Registry): set<NetworkId> {
    set n | n in r && r[n].state == Member
  }

  ghost predicate AtMostOneMember(r: Registry) {
    forall a, b :: a in Members(r) && b in Members(r) ==> a == b
  }

  lemma SingletonsAgree<T>(s: set<T>)
    requires |s| == 1
    ensures forall a, b :: a in s && b in s ==> a == b
  {
    var a :| a in s;
    assert |s - {a}| == 0;
    assert s == {a};
  }

  /** What the membership file can hold: real identifiers and settled states. */
  predicate Storable(r: Registry) {
    && ZERO_NETWORK !in r
    && (forall n <- r :: r[n].state in {NotMember, Member} && ZERO_NODE !in r[n].peers)
  }

  /** The store refuses with its own error, or what it cannot hold. */
  function SaveTo(r: Registry, error: Option<CoreError>): Result<()> {
    if error.Some? then Err(error.value) else if !Storable(r) then Fail(InvalidInput) else Ok(())
  }

  function TheOnly(s: set<NetworkId>): (n: NetworkId)
    requires |s| == 1
    ensures s == {n}
  {
    SingletonsAgree(s);
    var n :| n in s;
    n
  }

  /** The unique `Member` network, if any; two of them are corrupt durable state. */
  function CurrentNetwork(r: Registry): (c: Result<Option<NetworkId>>)
    ensures c.Ok? <==> AtMostOneMember(r)
    ensures c.Ok? && c.value.None? ==> Members(r) == {}
    ensures c.Ok? && c.value.Some? ==> Members(r) == {c.value.value}
    ensures c.Err? ==> c.error.kind == InvalidState
  {
    if |Members(r)| == 0 then
      Ok(None)
    else if |Members(r)| == 1 then
      Ok(Some(TheOnly(Members(r))))
    else
      TwoMembers(r);
      Fail(InvalidState)
  }

  lemma TwoMembers(r: Registry)
    requires |Members(r)| > 1
    ensures !AtMostOneMember(r)
  {
    var a :| a in Members(r);
    assert |Members(r) - {a}| == |Members(r)| - 1;
    var b :| b in Members(r) - {a};
  }
}
