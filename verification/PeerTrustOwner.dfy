/** The pin store over its text file, and the lock-guarded operations over both stores. */
module PeerTrustOwner {
  import opened Vocabulary
  import opened PeerPins
  import opened PinFile
  import Lines
  import Spec = PeerTrust

  // ---------------------------------------------------------------- the pin store

  /** Walks the map once. */
  method Entries(pins: Pins) returns (records: seq<Record>)
    ensures Lists(records, pins)
  {
    records := [];
    var left := pins;
    while left != map[]
      invariant DistinctPeers(records)
      invariant forall p <- left :: p in pins && pins[p] == left[p]
      invariant forall r <- records :: r.peer in pins && pins[r.peer] == r.key && r.peer !in left
      invariant forall p <- pins :: p in left || Record(p, pins[p]) in records
      decreases |left|
    {
      var p :| p in left;
      records := records + [Record(p, left[p])];
      Shrinks(left, p);
      left := left - {p};
    }
  }

  lemma Shrinks(pins: Pins, p: PeerKey)
    requires p in pins
    ensures |pins - {p}| < |pins|
  {
    assert (pins - {p}).Keys == pins.Keys - {p};
    assert |pins| == |pins.Keys| && |pins - {p}| == |(pins - {p}).Keys|;
  }

  method Render(records: seq<Record>, header: string) returns (text: string)
    ensures text == Document(records, header)
  {
    text := header + "\n";
    var i := 0;
    assert text == Document(records[..i], header);
    while i < |records|
      invariant 0 <= i <= |records|
      invariant text == Document(records[..i], header)
    {
      OneMoreLine(records, header, i);
      text := text + RecordLine(records[i]) + "\n";
      i := i + 1;
    }
    assert records[..i] == records;
  }

  lemma OneMoreLine(records: seq<Record>, header: string, i: nat)
    requires i < |records|
    ensures Document(records[..i + 1], header) == Document(records[..i], header) + RecordLine(records[i]) + "\n"
  {
    assert records[..i + 1][..i] == records[..i];
    var line := RecordLine(records[i]);
    assert header + "\n" + (Body(records[..i]) + line + "\n") == header + "\n" + Body(records[..i]) + line + "\n";
  }

  class PeerPinStore {
    var file: Option<string>

    constructor ()
      ensures file == None
    {
      file := None;
    }

    method Load(fault: Option<CoreError>) returns (r: Result<Pins>)
      ensures r == if fault.Some? then Err(fault.value) else Read(file)
    {
      if fault.Some? { return Err(fault.value); }
      if file.None? { return Ok(map[]); }
      if |file.value| > MAX_BYTES { return Fail(PersistenceError); }
      var lines := Lines.Split(file.value);
      if lines == [] || lines[0] != HEADER { return Fail(PersistenceError); }
      var records := lines[1..];
      var pins: Pins := map[];
      var i := 0;
      while i < |records|
        invariant 0 <= i <= |records|
        invariant ReadRecords(records[..i]) == Ok(pins)
      {
        assert records[..i + 1][..i] == records[..i];
        var next := Absorb(Ok(pins), records[i]);
        if next.Err? {
          Refused(records, i + 1);
          return Fail(PersistenceError);
        }
        pins := next.value;
        i := i + 1;
      }
      assert records[..i] == records;
      r := Ok(pins);
    }

    method Save(pins: Pins, fault: Option<CoreError>) returns (r: Result<()>)
      requires Sound(pins)
      modifies this
      ensures r == Spec.SavePins(pins, fault)
      ensures r.Ok? ==> Read(file) == Ok(pins)
      ensures r.Err? ==> file == old(file)
    {
      if |pins| > MAX_RECORDS { return Fail(PersistenceError); }
      var records := Entries(pins);
      RoundTrip(records, pins);
      var text := Render(records, HEADER);
      if |text| > MAX_BYTES { return Fail(PersistenceError); }
      if fault.Some? { return Err(fault.value); }
      file := Some(text);
      r := Ok(());
    }
  }

  /** A bad line condemns the whole file. */
  lemma {:induction false} Refused(lines: seq<string>, i: nat)
    requires i <= |lines| && ReadRecords(lines[..i]) == Fail(PersistenceError)
    ensures ReadRecords(lines) == Fail(PersistenceError)
    decreases |lines| - i
  {
    if i == |lines| {
      assert lines[..i] == lines;
    } else {
      assert lines[..i + 1][..i] == lines[..i];
      Refused(lines, i + 1);
    }
  }

  // ---------------------------------------------------------------- the allowlist

  /** What the handshake accepts as an allowlist: one network, no self, no shared node, no shared key. */
  ghost predicate Unambiguous(network: NetworkId, local: NodeId, allowed: seq<Record>) {
    && network != ZERO_NETWORK && allowed != []
    && (forall r <- allowed :: r.peer.network == network && r.peer.peer != local)
    && (forall i, j :: 0 <= i < j < |allowed| ==>
          allowed[i].peer.peer != allowed[j].peer.peer && allowed[i].key != allowed[j].key)
  }

  /** Two growing sets stand in for the pairwise comparison. */
  method CheckAllowlist(network: NetworkId, local: NodeId, allowed: seq<Record>) returns (ok: bool)
    ensures ok <==> Unambiguous(network, local, allowed)
  {
    if network == ZERO_NETWORK || allowed == [] { return false; }
    var nodes: set<NodeId>, keys: set<Key> := {}, {};
    var i := 0;
    while i < |allowed|
      invariant 0 <= i <= |allowed|
      invariant nodes == set k | 0 <= k < i :: allowed[k].peer.peer
      invariant keys == set k | 0 <= k < i :: allowed[k].key
      invariant forall k :: 0 <= k < i ==> allowed[k].peer.network == network && allowed[k].peer.peer != local
      invariant forall j, k :: 0 <= j < k < i ==>
                  allowed[j].peer.peer != allowed[k].peer.peer && allowed[j].key != allowed[k].key
    {
      var r := allowed[i];
      if r.peer.network != network || r.peer.peer == local || r.peer.peer in nodes || r.key in keys { return false; }
      nodes, keys := nodes + {r.peer.peer}, keys + {r.key};
      i := i + 1;
    }
    ok := true;
  }

  // ---------------------------------------------------------------- the guarded operations

  class DurablePeerTrust {
    var registry: Registry
    const pinStore: PeerPinStore?

    ghost predicate Valid()
      reads this, pinStore
    {
      pinStore != null ==> Read(pinStore.file).Ok?
    }

    /** The two files as values; nothing is cached between operations. */
    ghost function View(): Spec.Files
      reads this, pinStore
      requires Valid()
    {
      Spec.Files(registry, if pinStore == null then None else Some(Read(pinStore.file).value))
    }

    constructor (registry: Registry, pinStore: PeerPinStore?)
      ensures this.registry == registry && this.pinStore == pinStore
    {
      this.registry, this.pinStore := registry, pinStore;
    }

    method EnrollKey(peer: PeerKey, presented: Key, confirmed: Key, x: Spec.Faults) returns (r: Spec.Answer<bool>)
      requires Valid()
      modifies pinStore
      ensures Valid() && (View(), r) == Spec.Enrol(old(View()), peer, presented, confirmed, x)
    {
      if x.lock.Some? { return Spec.Done(Err(x.lock.value)); }
      if x.load.Some? { return Spec.Done(Err(x.load.value)); }
      var approved := Spec.RequireApproved(registry, peer);
      if approved.Err? { return Spec.Done(Err(approved.error)); }
      if presented != confirmed { return Spec.Refusal(AuthenticationFailed); }
      if pinStore == null { return Spec.Refusal(AuthenticationFailed); }
      var pins := pinStore.Load(x.pinLoad);
      if pins.Err? { return Spec.Done(Err(pins.error)); }
      if x.expiredEarly { return Spec.Refusal(AuthenticationFailed); }
      AcceptedIsSound(pinStore.file);
      EnrollExactly(pins.value, peer, presented);
      match Enroll(pins.value, peer, presented)
      case Conflict(_) => return Spec.Refusal(AuthenticationFailed);
      case AlreadyEnrolled => return Spec.Done(Ok(false));
      case Enrolled(grown) =>
        if x.expiredLate { return Spec.Refusal(AuthenticationFailed); }
        var saved := pinStore.Save(grown, x.pinSave);
        if saved.Err? { return Spec.Done(Err(saved.error)); }
        r := if x.crash then Spec.Crashed else Spec.Done(Ok(true));
    }

    method TrustPeer(node: NodeId, x: Spec.Faults) returns (r: Spec.Answer<()>)
      requires Valid()
      modifies this
      ensures Valid() && (View(), r) == Spec.Trust(old(View()), node, x)
    {
      if node == ZERO_NODE { return Spec.Refusal(InvalidInput); }
      if x.lock.Some? { return Spec.Done(Err(x.lock.value)); }
      if x.load.Some? { return Spec.Done(Err(x.load.value)); }
      var current := CurrentNetwork(registry);
      if current.Err? { return Spec.Done(Err(current.error)); }
      if current.value.None? { return Spec.Refusal(InvalidState); }
      var network := current.value.value;
      assert network in Members(registry);
      var peers := registry[network].peers;
      var facts := if node in peers then peers[node] else PeerFacts(false, false);
      if facts.trusted { return Spec.Done(Ok(())); }
      var changed := Spec.WithPeers(registry, network, peers[node := facts.(trusted := true)]);
      var saved := SaveTo(changed, x.save);
      if saved.Err? { return Spec.Done(saved); }
      registry := changed;
      r := if x.crash then Spec.Crashed else Spec.Done(Ok(()));
    }

    /** Two writes, the pin first; a crash is possible in between. */
    method ForgetPeer(node: NodeId, x: Spec.Faults) returns (r: Spec.Answer<()>)
      requires Valid()
      modifies this, pinStore
      ensures Valid() && (View(), r) == Spec.Forget(old(View()), node, x)
      ensures forall n :: Spec.Reaches(old(View()), node, x, n) ==>
                (r == Spec.Done(Ok(())) <==>
                   && Spec.PinGoes(old(View()), PeerKey(n, node), x) && !x.crash
                   && n in old(View()).registry && Spec.EntryGoes(old(View()), n, node, x))
    {
      ghost var before := View();
      forall n | Spec.Reaches(before, node, x, n)
        ensures n in before.registry
        ensures Spec.Forget(before, node, x).1 == Spec.Done(Ok(())) <==>
                && Spec.PinGoes(before, PeerKey(n, node), x) && !x.crash && Spec.EntryGoes(before, n, node, x)
      {
        Spec.ForgetExactly(before, node, x, n);
      }
      if node == ZERO_NODE { return Spec.Refusal(InvalidInput); }
      if x.lock.Some? { return Spec.Done(Err(x.lock.value)); }
      if x.load.Some? { return Spec.Done(Err(x.load.value)); }
      var current := CurrentNetwork(registry);
      if current.Err? { return Spec.Done(Err(current.error)); }
      if current.value.None? { return Spec.Refusal(InvalidState); }
      var network := current.value.value;
      assert network in Members(registry);
      var revoked := RevokePin(PeerKey(network, node), x);
      if revoked.Err? { return Spec.Done(revoked); }
      if x.crash { return Spec.Crashed; }
      var peers := registry[network].peers;
      if node !in peers { return Spec.Done(Ok(())); }
      var changed := Spec.WithPeers(registry, network, peers - {node});
      var saved := SaveTo(changed, x.save);
      if saved.Err? { return Spec.Done(saved); }
      registry := changed;
      r := Spec.Done(Ok(()));
    }

    method RevokePin(peer: PeerKey, x: Spec.Faults) returns (r: Result<()>)
      requires Valid()
      modifies pinStore
      ensures Valid()
      ensures match Spec.ForgetPin(old(View()), peer, x)
              case Err(e) => r == Err(e) && View() == old(View())
              case Ok(f) => r == Ok(()) && View() == f
      ensures r.Ok? <==> Spec.PinGoes(old(View()), peer, x)
      ensures r.Ok? ==> Spec.PinGone(old(View()), View(), peer.network, peer.peer)
    {
      Spec.ForgetPinSucceeds(View(), peer, x);
      Spec.ForgetPinExactly(View(), peer, x);
      if pinStore == null { return Ok(()); }
      var pins := pinStore.Load(x.pinLoad);
      if pins.Err? { return Err(pins.error); }
      if peer !in pins.value { return Ok(()); }
      AcceptedIsSound(pinStore.file);
      RevokeKeepsSound(pins.value, peer);
      r := pinStore.Save(Revoke(pins.value, peer), x.pinSave);
    }

    /** One frame's check, made while the lock is held. */
    method WithApprovedPinnedPeer(peer: PeerKey, key: Key, x: Spec.Faults) returns (r: Result<()>)
      requires Valid()
      ensures r == Spec.Authorize(View(), peer, key, x)
      ensures r.Ok? <==>
              && x.lock.None? && x.load.None? && x.pinLoad.None?
              && Spec.Approved(registry, peer) && peer.IsValid() && Spec.Pinned(View(), peer, key)
    {
      Spec.AuthorizeExactly(View(), peer, key, x);
      if x.lock.Some? { return Err(x.lock.value); }
      if x.load.Some? { return Err(x.load.value); }
      r := Spec.RequireApproved(registry, peer);
      if r.Err? { return; }
      if pinStore == null { return Fail(AuthenticationFailed); }
      var pins := pinStore.Load(x.pinLoad);
      if pins.Err? { return Err(pins.error); }
      if !peer.IsValid() || peer !in pins.value || pins.value[peer] != key { return Fail(AuthenticationFailed); }
    }

    /** The allowlist: the pins of this network whose peers are trusted now, each once. */
    method ApprovedControlPins(network: NetworkId, x: Spec.Faults) returns (r: Result<seq<Record>>)
      requires Valid()
      ensures r.Ok? <==>
                x.lock.None? && x.load.None? && x.pinLoad.None? && Members(registry) == {network} && pinStore != null
      ensures r.Ok? ==> DistinctPeers(r.value)
      ensures r.Ok? ==> forall a: Record :: a in r.value <==>
                a.peer.network == network && Spec.Pinned(View(), a.peer, a.key)
                                                              && Spec.Approved(registry, a.peer)
    {
      if x.lock.Some? { return Err(x.lock.value); }
      if x.load.Some? { return Err(x.load.value); }
      var current := CurrentNetwork(registry);
      assert Members(registry) == {network} ==> AtMostOneMember(registry) && network in Members(registry);
      if current.Err? { return Err(current.error); }
      if current.value != Some(network) { return Fail(InvalidState); }
      if pinStore == null { return Fail(AuthenticationFailed); }
      var pins := pinStore.Load(x.pinLoad);
      if pins.Err? { return Err(pins.error); }
      AcceptedIsSound(pinStore.file);
      var records := Entries(pins.value);
      var approved := Select(records, network, registry[network]);
      r := Ok(approved);
    }
  }

  method Select(records: seq<Record>, network: NetworkId, membership: Membership) returns (approved: seq<Record>)
    requires DistinctPeers(records)
    ensures DistinctPeers(approved)
    ensures forall a :: a in approved <==> a in records && a.peer.network == network && membership.Trusts(a.peer.peer)
  {
    approved := [];
    var i := 0;
    while i < |records|
      invariant 0 <= i <= |records|
      invariant DistinctPeers(approved)
      invariant forall a :: a in approved <==>
                  a in records[..i] && a.peer.network == network && membership.Trusts(a.peer.peer)
      invariant forall a <- approved :: forall k :: i <= k < |records| ==> a.peer != records[k].peer
    {
      assert records[..i + 1] == records[..i] + [records[i]];
      if records[i].peer.network == network && membership.Trusts(records[i].peer.peer) {
        approved := approved + [records[i]];
      }
      i := i + 1;
    }
    assert records[..i] == records;
  }

  /**
   An allowlist drawn from a sound pin file never trips the handshake's ambiguity check: it is
   refused only when it is empty or names the local node.
   */
  lemma AllowlistNeverAmbiguous(f: Spec.Files, network: NetworkId, local: NodeId, allowed: seq<Record>)
    requires Spec.Inv(f) && Members(f.registry) == {network} && network != ZERO_NETWORK
    requires DistinctPeers(allowed)
    requires forall a <- allowed :: a.peer.network == network && Spec.Pinned(f, a.peer, a.key)
    ensures Unambiguous(network, local, allowed) <==> allowed != [] && forall a <- allowed :: a.peer.peer != local
  {
    forall i, j | 0 <= i < j < |allowed|
      ensures allowed[i].peer.peer != allowed[j].peer.peer && allowed[i].key != allowed[j].key
    {
      assert allowed[i] in allowed && allowed[j] in allowed;
      assert allowed[i].peer != allowed[j].peer;
    }
  }
}
