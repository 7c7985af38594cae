/**
 Durable peer authorization over two files: the membership registry with its trust
 flags, and the enrolled key pins. Every operation runs under one lock; each file
 write is atomic, and the daemon may crash between the two writes of a forget.
 */
module PeerTrust {
  import opened Vocabulary
  import opened PeerPins

  /** `pins` is absent when the daemon was built without a pin store. */
  datatype Files = Files(registry: Registry, pins: Option<Pins>)

  /** What may go wrong during one operation, in the order it would be met. */
  datatype Faults = Faults(
    lock: Option<CoreError>, load: Option<CoreError>, pinLoad: Option<CoreError>,
    expiredEarly: bool, expiredLate: bool, pinSave: Option<CoreError>, crash: bool, save: Option<CoreError>)

  /** An operation answers, or the daemon dies and nobody hears anything. */
  datatype Answer<+T> = Done(result: Result<T>) | Crashed

  function Refusal<T>(kind: ErrorKind): Answer<T> { Done(Fail(kind)) }

  // ---------------------------------------------------------------- approval

  function RequireApproved(r: Registry, peer: PeerKey): Result<()> {
    if peer.peer == ZERO_NODE then Fail(InvalidInput)
    else match CurrentNetwork(r)
         case Err(e) => Err(e)
         case Ok(None) => Fail(InvalidState)
         case Ok(Some(current)) =>
           if current != peer.network then Fail(InvalidState)
           else if current in r && r[current].Trusts(peer.peer) then Ok(())
           else Fail(AuthenticationFailed)
  }

  /** Approved: the peer is explicitly trusted on what is uniquely the current network. */
  predicate Approved(r: Registry, peer: PeerKey) {
    && peer.peer != ZERO_NODE && Members(r) == {peer.network}
    && peer.network in r && r[peer.network].Trusts(peer.peer)
  }

  lemma ApprovedExactly(r: Registry, peer: PeerKey)
    ensures RequireApproved(r, peer).Ok? <==> Approved(r, peer)
  {
    if Members(r) == {peer.network} {
      assert AtMostOneMember(r);
      assert peer.network in Members(r);
    }
  }

  /** The check a control frame passes; the frame is handled before the lock is let go. */
  function Authorize(f: Files, peer: PeerKey, key: Key, x: Faults): Result<()> {
    if x.lock.Some? then Err(x.lock.value)
    else if x.load.Some? then Err(x.load.value)
    else if RequireApproved(f.registry, peer).Err? then RequireApproved(f.registry, peer)
    else if f.pins.None? then Fail(AuthenticationFailed)
    else if x.pinLoad.Some? then Err(x.pinLoad.value)
    else if !peer.IsValid() || peer !in f.pins.value || f.pins.value[peer] != key then Fail(AuthenticationFailed)
    else Ok(())
  }

  // ---------------------------------------------------------------- operations

  function SavePins(pins: Pins, error: Option<CoreError>): Result<()> {
    if |pins| > MAX_RECORDS then Fail(PersistenceError)
    else if error.Some? then Err(error.value)
    else Ok(())
  }

  function Enrol(f: Files, peer: PeerKey, presented: Key, confirmed: Key, x: Faults): (Files, Answer<bool>) {
    if x.lock.Some? then (f, Done(Err(x.lock.value)))
    else if x.load.Some? then (f, Done(Err(x.load.value)))
    else if RequireApproved(f.registry, peer).Err? then (f, Done(Err(RequireApproved(f.registry, peer).error)))
    else if presented != confirmed || f.pins.None? then (f, Refusal(AuthenticationFailed))
    else if x.pinLoad.Some? then (f, Done(Err(x.pinLoad.value)))
    else EnrolApproved(f, peer, presented, x)
  }

  function EnrolApproved(f: Files, peer: PeerKey, presented: Key, x: Faults): (Files, Answer<bool>)
    requires f.pins.Some?
  {
    if x.expiredEarly then (f, Refusal(AuthenticationFailed))
    else match Enroll(f.pins.value, peer, presented)
         case Conflict(_) => (f, Refusal(AuthenticationFailed))
         case AlreadyEnrolled => (f, Done(Ok(false)))
         case Enrolled(pins) =>
           if x.expiredLate then (f, Refusal(AuthenticationFailed))
           else if SavePins(pins, x.pinSave).Err? then (f, Done(Err(SavePins(pins, x.pinSave).error)))
           else (f.(pins := Some(pins)), if x.crash then Crashed else Done(Ok(true)))
  }

  function WithPeers(r: Registry, network: NetworkId, peers: map<NodeId, PeerFacts>): Registry
    requires network in r
  {
    r[network := r[network].(peers := peers)]
  }

  function Trust(f: Files, node: NodeId, x: Faults): (Files, Answer<()>) {
    if node == ZERO_NODE then (f, Refusal(InvalidInput))
    else if x.lock.Some? then (f, Done(Err(x.lock.value)))
    else if x.load.Some? then (f, Done(Err(x.load.value)))
    else match CurrentNetwork(f.registry)
         case Err(e) => (f, Done(Err(e)))
         case Ok(None) => (f, Refusal(InvalidState))
         case Ok(Some(network)) =>
           var peers := f.registry[network].peers;
           var facts := if node in peers then peers[node] else PeerFacts(false, false);
           if facts.trusted then (f, Done(Ok(())))
           else
             var r := WithPeers(f.registry, network, peers[node := facts.(trusted := true)]);
             if SaveTo(r, x.save).Err? then (f, Done(SaveTo(r, x.save)))
             else (f.(registry := r), if x.crash then Crashed else Done(Ok(())))
  }

  /** The pin goes first, so that a crash cannot leave a forgotten peer's key behind. */
  function Forget(f: Files, node: NodeId, x: Faults): (Files, Answer<()>) {
    if node == ZERO_NODE then (f, Refusal(InvalidInput))
    else if x.lock.Some? then (f, Done(Err(x.lock.value)))
    else if x.load.Some? then (f, Done(Err(x.load.value)))
    else match CurrentNetwork(f.registry)
         case Err(e) => (f, Done(Err(e)))
         case Ok(None) => (f, Refusal(InvalidState))
         case Ok(Some(network)) =>
           match ForgetPin(f, PeerKey(network, node), x)
           case Err(e) => (f, Done(Err(e)))
           case Ok(revoked) => if x.crash then (revoked, Crashed) else ForgetMember(revoked, network, node, x)
  }

  function ForgetMember(f: Files, network: NetworkId, node: NodeId, x: Faults): (Files, Answer<()>)
    requires network in f.registry
  {
    if node !in f.registry[network].peers then (f, Done(Ok(())))
    else
      var r := WithPeers(f.registry, network, f.registry[network].peers - {node});
      if SaveTo(r, x.save).Err? then (f, Done(SaveTo(r, x.save)))
      else (f.(registry := r), Done(Ok(())))
  }

  function ForgetPin(f: Files, peer: PeerKey, x: Faults): Result<Files> {
    if f.pins.None? then Ok(f)
    else if x.pinLoad.Some? then Err(x.pinLoad.value)
    else if peer !in f.pins.value then Ok(f)
    else
      var pins := Revoke(f.pins.value, peer);
      if SavePins(pins, x.pinSave).Err? then Err(SavePins(pins, x.pinSave).error)
      else Ok(f.(pins := Some(pins)))
  }

  // ---------------------------------------------------------------- runs

  datatype Event =
    | OnTrust(node: NodeId, faults: Faults)
    | OnForget(node: NodeId, faults: Faults)
    | OnEnrol(peer: PeerKey, presented: Key, confirmed: Key, faults: Faults)
    | OnFrame(peer: PeerKey, key: Key, faults: Faults)
    | OnNetworkChange(registry: Registry)

  function Step(f: Files, e: Event): Files {
    match e
    case OnTrust(node, x) => Trust(f, node, x).0
    case OnForget(node, x) => Forget(f, node, x).0
    case OnEnrol(peer, presented, confirmed, x) => Enrol(f, peer, presented, confirmed, x).0
    case OnFrame(_, _, _) => f
    case OnNetworkChange(r) => f.(registry := r)
  }

  function Run(f: Files, events: seq<Event>): Files {
    if events == [] then f else Step(Run(f, events[..|events| - 1]), events[|events| - 1])
  }

  predicate Pinned(f: Files, peer: PeerKey, key: Key) {
    f.pins.Some? && peer in f.pins.value && f.pins.value[peer] == key
  }

  predicate Delivers(f: Files, e: Event, peer: PeerKey, key: Key) {
    e.OnFrame? && e.peer == peer && e.key == key && Authorize(f, peer, key, e.faults).Ok?
  }

  /** This event confirms and stores exactly this key for a peer approved at that moment. */
  ghost predicate Enrols(f: Files, e: Event, peer: PeerKey, key: Key) {
    && e.OnEnrol? && e.peer == peer && e.presented == key && e.confirmed == key
    && Approved(f.registry, peer) && !Pinned(f, peer, key) && Pinned(Step(f, e), peer, key)
  }

  /** This event is a forget of the peer on its network whose pin write lands. */
  ghost predicate Revokes(f: Files, e: Event, peer: PeerKey) {
    && e.OnForget? && e.node == peer.peer && Members(f.registry) == {peer.network}
    && f.pins.Some? && peer in f.pins.value && peer !in Step(f, e).pins.value
  }

  // ---------------------------------------------------------------- single operations

  /** A frame passes exactly, both files being read, for an approved peer presenting the very key enrolled for it. */
  lemma AuthorizeExactly(f: Files, peer: PeerKey, key: Key, x: Faults)
    ensures Authorize(f, peer, key, x).Ok? <==>
            && x.lock.None? && x.load.None? && x.pinLoad.None?
            && Approved(f.registry, peer) && peer.IsValid() && Pinned(f, peer, key)
  {
    ApprovedExactly(f.registry, peer);
  }

  lemma FaultsOnlyRefuse(f: Files, peer: PeerKey, key: Key, x: Faults)
    requires Authorize(f, peer, key, x).Ok?
    ensures Approved(f.registry, peer) && Pinned(f, peer, key)
  {
    ApprovedExactly(f.registry, peer);
  }

  lemma EnrolApprovedExactly(f: Files, peer: PeerKey, key: Key, x: Faults)
    requires f.pins.Some? && Sound(f.pins.value)
    ensures var (t, answer) := EnrolApproved(f, peer, key, x);
            && (t == f || (peer !in f.pins.value && t == f.(pins := Some(f.pins.value[peer := key]))
                           && Sound(t.pins.value) && |t.pins.value| <= MAX_RECORDS))
            && (answer == Done(Ok(true)) ==> t != f) && (answer == Done(Ok(false)) ==> t == f && Pinned(f, peer, key))
  {
    EnrollExactly(f.pins.value, peer, key);
  }

  /** Everything that must hold before the pins are even looked at. */
  ghost predicate MayEnrol(f: Files, peer: PeerKey, presented: Key, confirmed: Key, x: Faults) {
    && x.lock.None? && x.load.None? && Approved(f.registry, peer) && presented == confirmed && f.pins.Some?
    && x.pinLoad.None?
  }

  lemma EnrolShape(f: Files, peer: PeerKey, presented: Key, confirmed: Key, x: Faults)
    ensures if MayEnrol(f, peer, presented, confirmed, x)
            then Enrol(f, peer, presented, confirmed, x) == EnrolApproved(f, peer, presented, x)
            else Enrol(f, peer, presented, confirmed, x).0 == f
                 && Enrol(f, peer, presented, confirmed, x).1.Done?
                 && Enrol(f, peer, presented, confirmed, x).1.result.Err?
  {
    ApprovedExactly(f.registry, peer);
  }

  /** Enrolment adds one pin, of an approved peer and the confirmed key, or changes nothing. */
  lemma EnrolExactly(f: Files, peer: PeerKey, presented: Key, confirmed: Key, x: Faults)
    requires f.pins.Some? ==> Sound(f.pins.value)
    ensures var (t, answer) := Enrol(f, peer, presented, confirmed, x);
            && (t != f ==>
                && Approved(f.registry, peer) && presented == confirmed && f.pins.Some? && peer !in f.pins.value
                && t == f.(pins := Some(f.pins.value[peer := presented]))
                && Sound(t.pins.value) && |t.pins.value| <= MAX_RECORDS)
            && (answer == Done(Ok(true)) ==> t != f)
            && (answer == Done(Ok(false)) ==> t == f && Pinned(f, peer, presented))
  {
    EnrolShape(f, peer, presented, confirmed, x);
    if MayEnrol(f, peer, presented, confirmed, x) { EnrolApprovedExactly(f, peer, presented, x); }
  }

  /** Trusting sets one flag on the current network and touches no key. */
  lemma TrustExactly(f: Files, node: NodeId, x: Faults)
    ensures Trust(f, node, x).0.pins == f.pins
    ensures Trust(f, node, x).0 == f || exists network ::
              && Members(f.registry) == {network} && network in f.registry
              && Trust(f, node, x).0.registry - {network} == f.registry - {network}
              && network in Trust(f, node, x).0.registry
              && var before, after := f.registry[network], Trust(f, node, x).0.registry[network];
              && after.name == before.name && after.state == before.state
              && after.peers - {node} == before.peers - {node}
              && !before.Trusts(node) && after.Trusts(node)
              && after.peers[node].member == (node in before.peers && before.peers[node].member)
    ensures Trust(f, node, x).1 == Done(Ok(())) ==> node != ZERO_NODE && exists network ::
              Members(f.registry) == {network} && Approved(Trust(f, node, x).0.registry, PeerKey(network, node))
  {
    var (t, answer) := Trust(f, node, x);
    if node != ZERO_NODE && x.lock.None? && x.load.None? && CurrentNetwork(f.registry).Ok?
      && CurrentNetwork(f.registry).value.Some? {
      var network := CurrentNetwork(f.registry).value.value;
      SameMembers(f.registry, t.registry, network);
    }
  }

  lemma SameMembers(before: Registry, after: Registry, network: NetworkId)
    requires network in Members(before) && Members(before) == {network}
    requires before == after || (network in after && after[network].state == before[network].state
                                 && after - {network} == before - {network})
    ensures Members(after) == Members(before)
  {
    if before != after {
      assert forall n <- after :: n != network ==> n in after - {network} && after[n] == (after - {network})[n];
      assert forall n <- before :: n != network ==> n in before - {network} && before[n] == (before - {network})[n];
    }
  }

  lemma ForgetPinExactly(f: Files, peer: PeerKey, x: Faults)
    ensures ForgetPin(f, peer, x).Ok? ==>
              ForgetPin(f, peer, x).value == f.(pins := if f.pins.None? then None else Some(f.pins.value - {peer}))
  {
    if f.pins.Some? && peer !in f.pins.value {
      assert f.pins.value - {peer} == f.pins.value;
    }
  }

  lemma ForgetMemberExactly(f: Files, network: NetworkId, node: NodeId, x: Faults)
    requires network in f.registry
    ensures var (t, answer) := ForgetMember(f, network, node, x);
            var without := f.(registry := WithPeers(f.registry, network, f.registry[network].peers - {node}));
            (t == f || t == without) && (answer == Done(Ok(())) ==> t == without)
  {
    var peers := f.registry[network].peers;
    if node !in peers {
      assert peers - {node} == peers;
      assert WithPeers(f.registry, network, peers - {node}) == f.registry;
    }
  }

  /** Both records of the peer are gone from its network; nothing else is touched. */
  ghost predicate Forgotten(f: Files, t: Files, network: NetworkId, node: NodeId)
    requires network in f.registry
  {
    && PinGone(f, t, network, node)
    && t.registry == WithPeers(f.registry, network, f.registry[network].peers - {node})
  }

  ghost predicate PinGone(f: Files, t: Files, network: NetworkId, node: NodeId) {
    t.pins == if f.pins.None? then None else Some(f.pins.value - {PeerKey(network, node)})
  }

  /**
   However a forget ends (refused, failed at either write, or cut off between them) the
   membership changed only if the pin is gone, only this peer of the current network is
   affected, and an Ok means both records are gone.
   */
  lemma ForgetPinFirst(f: Files, node: NodeId, x: Faults)
    ensures var (t, answer) := Forget(f, node, x);
            if CurrentNetwork(f.registry).Err? || CurrentNetwork(f.registry).value.None?
            then t == f && answer != Done(Ok(())) else
              var network := CurrentNetwork(f.registry).value.value;
              && network in f.registry
              && (t == f || Forgotten(f, t, network, node)
                  || (PinGone(f, t, network, node) && t.registry == f.registry))
              && (answer == Done(Ok(())) ==> Forgotten(f, t, network, node))
  {
    if CurrentNetwork(f.registry).Ok? && CurrentNetwork(f.registry).value.Some? {
      var network := CurrentNetwork(f.registry).value.value;
      assert network in Members(f.registry);
      if Reaches(f, node, x, network) { ForgetExactly(f, node, x, network); }
    }
  }

  // ---------------------------------------------------------------- when each succeeds

  /** A call for this peer gets as far as the one current network. */
  ghost predicate Reaches(f: Files, node: NodeId, x: Faults, network: NetworkId) {
    node != ZERO_NODE && x.lock.None? && x.load.None? && Members(f.registry) == {network}
  }

  /** The pin of the peer, if there is one, can be taken out and the rest saved. */
  ghost predicate PinGoes(f: Files, peer: PeerKey, x: Faults) {
    f.pins.Some? ==>
      x.pinLoad.None? && (peer in f.pins.value ==> x.pinSave.None? && |f.pins.value - {peer}| <= MAX_RECORDS)
  }

  /** The peer, if it is listed, can be taken out and the rest saved. */
  ghost predicate EntryGoes(f: Files, network: NetworkId, node: NodeId, x: Faults)
    requires network in f.registry
  {
    node in f.registry[network].peers ==>
      x.save.None? && Storable(WithPeers(f.registry, network, f.registry[network].peers - {node}))
  }

  lemma OneCurrent(r: Registry, network: NetworkId)
    requires Members(r) == {network}
    ensures CurrentNetwork(r) == Ok(Some(network)) && network in r
  {
    assert network in Members(r);
    assert AtMostOneMember(r);
  }

  lemma ForgetPinSucceeds(f: Files, peer: PeerKey, x: Faults)
    ensures ForgetPin(f, peer, x).Ok? <==> PinGoes(f, peer, x)
  {
  }

  /** A forget that does not get to the current network changes nothing and answers an error. */
  lemma ForgetRefused(f: Files, node: NodeId, x: Faults)
    requires forall n :: !Reaches(f, node, x, n)
    ensures Forget(f, node, x).0 == f && Forget(f, node, x).1.Done? && Forget(f, node, x).1.result.Err?
  {
    if node != ZERO_NODE && x.lock.None? && x.load.None?
      && CurrentNetwork(f.registry).Ok? && CurrentNetwork(f.registry).value.Some? {
      assert Reaches(f, node, x, CurrentNetwork(f.registry).value.value);
    }
  }

  /**
   A forget on the current network: it fails with nothing changed if the pin cannot go, is cut off or
   fails with the pin alone gone, and succeeds with both gone exactly when all of it can be done.
   */
  lemma ForgetExactly(f: Files, node: NodeId, x: Faults, network: NetworkId)
    requires Reaches(f, node, x, network)
    ensures network in f.registry
    ensures var (t, answer) := Forget(f, node, x);
            var peer := PeerKey(network, node);
            if !PinGoes(f, peer, x) then t == f && answer.Done? && answer.result.Err?
            else if x.crash then PinGone(f, t, network, node) && t.registry == f.registry && answer.Crashed?
            else if !EntryGoes(f, network, node, x) then
              PinGone(f, t, network, node) && t.registry == f.registry && answer.Done? && answer.result.Err?
            else Forgotten(f, t, network, node) && answer == Done(Ok(()))
  {
    OneCurrent(f.registry, network);
    var peer := PeerKey(network, node);
    ForgetPinSucceeds(f, peer, x);
    ForgetPinExactly(f, peer, x);
    if PinGoes(f, peer, x) { ForgetMemberExactly(ForgetPin(f, peer, x).value, network, node, x); }
  }

  /** The peer is trusted already, or its flag can be set and saved. */
  ghost predicate FlagGoes(f: Files, network: NetworkId, node: NodeId, x: Faults)
    requires network in f.registry
  {
    var peers := f.registry[network].peers;
    var facts := PeerFacts(node in peers && peers[node].member, true);
    f.registry[network].Trusts(node) ||
    (x.save.None? && Storable(WithPeers(f.registry, network, peers[node := facts])))
  }

  /** Trusting succeeds exactly on the one current network when the flag is set or can be; a crash follows the write. */
  lemma TrustSucceeds(f: Files, node: NodeId, x: Faults)
    ensures (forall n :: !Reaches(f, node, x, n)) ==>
              Trust(f, node, x).0 == f && Trust(f, node, x).1.Done? && Trust(f, node, x).1.result.Err?
    ensures forall n :: Reaches(f, node, x, n) ==>
              && n in f.registry
              && var (t, answer) := Trust(f, node, x);
              if !FlagGoes(f, n, node, x) then t == f && answer.Done? && answer.result.Err?
              else && n in t.registry && t.registry[n].Trusts(node)
                   && answer == (if x.crash && !f.registry[n].Trusts(node) then Crashed else Done(Ok(())))
  {
    forall n | Reaches(f, node, x, n)
      ensures n in f.registry && CurrentNetwork(f.registry) == Ok(Some(n))
    {
      OneCurrent(f.registry, n);
    }
    if node != ZERO_NODE && x.lock.None? && x.load.None?
      && CurrentNetwork(f.registry).Ok? && CurrentNetwork(f.registry).value.Some? {
      assert Reaches(f, node, x, CurrentNetwork(f.registry).value.value);
    }
  }

  /** The key can be written: the peer has none, nobody else has it, and the confirmation is still fresh. */
  ghost predicate KeyGoes(f: Files, peer: PeerKey, key: Key, x: Faults)
    requires f.pins.Some?
  {
    && peer !in f.pins.value && Sound(f.pins.value[peer := key]) && !x.expiredEarly && !x.expiredLate
    && |f.pins.value[peer := key]| <= MAX_RECORDS && x.pinSave.None?
  }

  /** An approved enrolment writes the key exactly when it can, and answers that it was there exactly when it was. */
  lemma EnrolSucceeds(f: Files, peer: PeerKey, presented: Key, confirmed: Key, x: Faults)
    requires f.pins.Some? ==> Sound(f.pins.value)
    ensures var (t, answer) := Enrol(f, peer, presented, confirmed, x);
            if !MayEnrol(f, peer, presented, confirmed, x) then t == f && answer.Done? && answer.result.Err?
            else if KeyGoes(f, peer, presented, x) then
              && t == f.(pins := Some(f.pins.value[peer := presented]))
              && answer == (if x.crash then Crashed else Done(Ok(true)))
            else if !x.expiredEarly && Pinned(f, peer, presented) then t == f && answer == Done(Ok(false))
            else t == f && answer.Done? && answer.result.Err?
  {
    EnrolShape(f, peer, presented, confirmed, x);
    if MayEnrol(f, peer, presented, confirmed, x) { EnrollExactly(f.pins.value, peer, presented); }
  }

  // ---------------------------------------------------------------- whole runs

  ghost predicate Inv(f: Files) {
    f.pins.Some? ==> Sound(f.pins.value) && |f.pins.value| <= MAX_RECORDS
  }

  lemma StepKeepsInv(f: Files, e: Event)
    requires Inv(f)
    ensures Inv(Step(f, e))
    ensures f.pins.Some? <==> Step(f, e).pins.Some?
  {
    match e
    case OnTrust(node, x) => TrustExactly(f, node, x);
    case OnForget(node, x) =>
      ForgetPinFirst(f, node, x);
      if f.pins.Some? && CurrentNetwork(f.registry).Ok? && CurrentNetwork(f.registry).value.Some? {
        var peer := PeerKey(CurrentNetwork(f.registry).value.value, node);
        RevokeKeepsSound(f.pins.value, peer);
        SmallerWithout(f.pins.value, peer);
      }
    case OnEnrol(peer, presented, confirmed, x) => EnrolExactly(f, peer, presented, confirmed, x);
    case _ =>
  }

  lemma {:induction false} EveryRunKeepsInv(f: Files, events: seq<Event>)
    requires Inv(f)
    ensures Inv(Run(f, events))
  {
    if events != [] {
      EveryRunKeepsInv(f, events[..|events| - 1]);
      StepKeepsInv(Run(f, events[..|events| - 1]), events[|events| - 1]);
    }
  }

  /** The only ways a key appears or disappears. */
  lemma PinChanges(f: Files, e: Event, peer: PeerKey, key: Key)
    requires Inv(f)
    ensures !Pinned(f, peer, key) && Pinned(Step(f, e), peer, key) ==> Enrols(f, e, peer, key)
    ensures Pinned(f, peer, key) && !Pinned(Step(f, e), peer, key) ==> Revokes(f, e, peer)
    ensures Revokes(f, e, peer) ==> !Pinned(Step(f, e), peer, key)
  {
    StepKeepsInv(f, e);
    match e
    case OnTrust(node, x) => TrustExactly(f, node, x);
    case OnForget(node, x) => ForgetChanges(f, e, peer);
    case OnEnrol(p, presented, confirmed, x) => EnrolChanges(f, e, peer, key);
    case _ =>
  }

  lemma ForgetChanges(f: Files, e: Event, peer: PeerKey)
    requires Inv(f) && e.OnForget?
    ensures f.pins.Some? <==> Step(f, e).pins.Some?
    ensures f.pins.Some? ==> forall p :: p in Step(f, e).pins.value ==>
              p in f.pins.value && Step(f, e).pins.value[p] == f.pins.value[p]
    ensures f.pins.Some? && peer in f.pins.value && peer !in Step(f, e).pins.value ==> Revokes(f, e, peer)
  {
    ForgetPinFirst(f, e.node, e.faults);
  }

  lemma EnrolChanges(f: Files, e: Event, peer: PeerKey, key: Key)
    requires Inv(f) && e.OnEnrol?
    ensures !Pinned(f, peer, key) && Pinned(Step(f, e), peer, key) ==> Enrols(f, e, peer, key)
    ensures Pinned(f, peer, key) ==> Pinned(Step(f, e), peer, key)
  {
    EnrolExactly(f, e.peer, e.presented, e.confirmed, e.faults);
  }

  /** Event `j` of the run stored this key, and no later event's forget has landed its pin write. */
  ghost predicate StandingEnrolment(f: Files, events: seq<Event>, j: nat, peer: PeerKey, key: Key) {
    && j < |events| && Enrols(Run(f, events[..j]), events[j], peer, key)
    && forall m :: j < m < |events| ==> !Revokes(Run(f, events[..m]), events[m], peer)
  }

  lemma StandingOneLonger(f: Files, before: seq<Event>, e: Event, j: nat, peer: PeerKey, key: Key)
    requires StandingEnrolment(f, before, j, peer, key) && !Revokes(Run(f, before), e, peer)
    ensures StandingEnrolment(f, before + [e], j, peer, key)
  {
    var events := before + [e];
    assert forall m :: 0 <= m <= |before| ==> events[..m] == before[..m];
    assert before[..|before|] == before;
  }

  lemma {:induction false} PinHasOrigin(f: Files, events: seq<Event>, peer: PeerKey, key: Key) returns (j: nat)
    requires Inv(f) && !Pinned(f, peer, key) && Pinned(Run(f, events), peer, key)
    ensures StandingEnrolment(f, events, j, peer, key)
  {
    var before, e := events[..|events| - 1], events[|events| - 1];
    EveryRunKeepsInv(f, before);
    PinChanges(Run(f, before), e, peer, key);
    if Pinned(Run(f, before), peer, key) {
      j := PinHasOrigin(f, before, peer, key);
      StandingOneLonger(f, before, e, j, peer, key);
      assert before + [e] == events;
    } else {
      j := |before|;
    }
  }

  /**
   In every run from an empty pin file, a frame is delivered for a peer and key only if the peer
   is approved now, that exact key was enrolled while the peer was approved there, and no forget
   of the peer on that network has landed its pin write since.
   */
  lemma DeliveryNeedsStandingEnrolment(registry: Registry, events: seq<Event>, e: Event, peer: PeerKey, key: Key)
    returns (j: nat)
    requires Delivers(Run(Files(registry, Some(map[])), events), e, peer, key)
    ensures StandingEnrolment(Files(registry, Some(map[])), events, j, peer, key)
    ensures Approved(Run(Files(registry, Some(map[])), events).registry, peer)
  {
    var f := Files(registry, Some(map[]));
    FaultsOnlyRefuse(Run(f, events), peer, key, e.faults);
    j := PinHasOrigin(f, events, peer, key);
  }

  /** Conversely a standing enrolment of an approved peer is enough: nothing else removes a key. */
  lemma {:induction false} StandingEnrolmentSuffices(f: Files, events: seq<Event>, j: nat, peer: PeerKey, key: Key,
                                                     e: Event)
    requires Inv(f) && StandingEnrolment(f, events, j, peer, key)
    requires Approved(Run(f, events).registry, peer)
    requires e == OnFrame(peer, key, Faults(None, None, None, false, false, None, false, None))
    ensures Delivers(Run(f, events), e, peer, key)
  {
    StillPinned(f, events, j, peer, key);
    EveryRunKeepsInv(f, events);
    AuthorizeExactly(Run(f, events), peer, key, e.faults);
  }

  lemma {:induction false} StillPinned(f: Files, events: seq<Event>, j: nat, peer: PeerKey, key: Key)
    requires Inv(f) && StandingEnrolment(f, events, j, peer, key)
    ensures Pinned(Run(f, events), peer, key)
  {
    var n := |events| - 1;
    var before := events[..n];
    EveryRunKeepsInv(f, before);
    PinChanges(Run(f, before), events[n], peer, key);
    if j < n {
      assert before[..j] == events[..j];
      forall m | j < m < n ensures !Revokes(Run(f, before[..m]), before[m], peer) {
        assert before[..m] == events[..m];
      }
      StillPinned(f, before, j, peer, key);
      assert !Revokes(Run(f, events[..n]), events[n], peer);
    }
  }

  /** Whatever else happens, re-trusting included, a key that is gone stays gone until it is enrolled anew. */
  lemma {:induction false} TrustAloneRestoresNothing(f: Files, events: seq<Event>, peer: PeerKey, key: Key)
    requires Inv(f) && !Pinned(f, peer, key)
    requires forall m :: 0 <= m < |events| ==>
               !(events[m].OnEnrol? && events[m].peer == peer && events[m].presented == key)
    ensures !Pinned(Run(f, events), peer, key)
    ensures forall e: Event :: !Delivers(Run(f, events), e, peer, key)
  {
    if Pinned(Run(f, events), peer, key) {
      var j := PinHasOrigin(f, events, peer, key);
      assert false;
    }
    forall e: Event ensures !Delivers(Run(f, events), e, peer, key) {
      if Delivers(Run(f, events), e, peer, key) { FaultsOnlyRefuse(Run(f, events), peer, key, e.faults); }
    }
  }
}
