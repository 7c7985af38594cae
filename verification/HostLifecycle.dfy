/**
 Creating, leaving and restoring the hosted star: a bounded search for a free identity, and a host that
 follows membership.
 */
module HostLifecycle {
  import opened Vocabulary

  const MAX_ADDRESS_CONFLICT_RETRIES: nat := 16
  const MAX_DRAWS: nat := 16

  // ---------------------------------------------------------------- registry changes

  /** The registry with a freshly created network as its member. */
  function Created(r: Registry, network: NetworkId, name: string): Registry {
    r[network := Membership(name, Member, map[])]
  }

  function WithoutMembers(peers: map<NodeId, PeerFacts>): map<NodeId, PeerFacts> {
    map n | n in peers :: peers[n].(member := false)
  }

  /** The registry after the local node left: no longer a member, nor is any peer, but trust is kept. */
  function Left(r: Registry, network: NetworkId): Registry
    requires network in r
  {
    r[network := r[network].(state := NotMember, peers := WithoutMembers(r[network].peers))]
  }

  lemma CreatedExactly(r: Registry, network: NetworkId, name: string)
    requires Members(r) == {} && network !in r
    ensures Members(Created(r, network, name)) == {network}
    ensures Created(r, network, name)[network].name == name && Created(r, network, name)[network].peers == map[]
    ensures Created(r, network, name).Keys == r.Keys + {network}
    ensures forall n <- r :: n in Created(r, network, name) && Created(r, network, name)[n] == r[n]
    ensures Storable(Created(r, network, name)) <==> Storable(r) && network != ZERO_NETWORK
  {
    var t := Created(r, network, name);
    assert forall n <- Members(t) :: n != network ==> n in Members(r);
    assert forall n <- r :: t[n] == r[n];
  }

  /** Leaving ends membership and nothing else: trust flags, names and other networks stay. */
  lemma LeftExactly(r: Registry, network: NetworkId)
    requires Members(r) == {network}
    ensures Members(Left(r, network)) == {} && Left(r, network).Keys == r.Keys
    ensures forall n <- r :: n != network ==> Left(r, network)[n] == r[n]
    ensures Left(r, network)[network].name == r[network].name
    ensures forall p :: Left(r, network)[network].Trusts(p) <==> r[network].Trusts(p)
    ensures forall p <- Left(r, network)[network].peers :: !Left(r, network)[network].peers[p].member
    ensures Storable(r) ==> Storable(Left(r, network))
  {
    assert network in Members(r);
    var t := Left(r, network);
    assert forall n <- Members(t) :: n != network ==> n in Members(r);
  }

  // ---------------------------------------------------------------- the world outside

  /** The identities the generator will draw, the answers to starting a host, stopping it, and the store's write. */
  datatype World = World(
    loadError: Option<CoreError>, drawn: seq<Result<NetworkId>>, starts: seq<Result<()>>,
    stop: Result<()>, saveError: Option<CoreError>, restart: Result<()>)
  {
    function Draw(k: nat): Result<NetworkId> { if k < |drawn| then drawn[k] else Fail(Internal) }

    function Start(k: nat): Result<()> { if k < |starts| then starts[k] else Fail(Internal) }
  }

  // ---------------------------------------------------------------- the search

  predicate Taken(r: Registry, starts: seq<NetworkId>, id: NetworkId) { id in r || id in starts }

  /** Draws until one identity is new, at most `tries` times; answers it and the number of the next draw. */
  function Drawn(r: Registry, starts: seq<NetworkId>, w: World, from: nat, tries: nat): (Result<NetworkId>, nat)
    decreases tries
  {
    if tries == 0 then (Fail(Internal), from)
    else
      var id := w.Draw(from);
      if id.Err? || !Taken(r, starts, id.value) then (id, from + 1) else Drawn(r, starts, w, from + 1, tries - 1)
  }

  /** It ends at the first draw that fails or is new, and never goes beyond its tries. */
  lemma {:induction false} DrawnExactly(r: Registry, starts: seq<NetworkId>, w: World, from: nat, tries: nat)
    ensures var (id, next) := Drawn(r, starts, w, from, tries);
            && from <= next <= from + tries
            && (forall k :: from <= k < next - 1 ==> w.Draw(k).Ok? && Taken(r, starts, w.Draw(k).value))
            && (id.Ok? ==> from < next && w.Draw(next - 1) == id && !Taken(r, starts, id.value))
            && (id.Err? ==>
                  || (from < next && w.Draw(next - 1) == id)
                  || (next == from + tries && forall k :: from <= k < next ==> w.Draw(k).Ok?))
    decreases tries
  {
    if tries > 0 && w.Draw(from).Ok? && Taken(r, starts, w.Draw(from).value) {
      DrawnExactly(r, starts, w, from + 1, tries - 1);
    }
  }

  predicate IsConflict(r: Result<()>) { r.Err? && r.error.kind.AddressConflict? }

  /** Starts a host for one new identity after the other, as long as only the address is in the way. */
  function Search(r: Registry, plan: Result<()>, w: World, starts: seq<NetworkId>, draws: nat)
    : (Result<NetworkId>, seq<NetworkId>, nat)
    decreases MAX_ADDRESS_CONFLICT_RETRIES - |starts|
  {
    if |starts| >= MAX_ADDRESS_CONFLICT_RETRIES then (Fail(AddressConflict), starts, draws)
    else
      var (id, next) := Drawn(r, starts, w, draws, MAX_DRAWS);
      if id.Err? then (id, starts, next)
      else if plan.Err? then (Err(plan.error), starts, next)
      else
        var answer, more := w.Start(|starts|), starts + [id.value];
        if answer.Ok? then (id, more, next)
        else if !IsConflict(answer) then (Err(answer.error), more, next)
        else Search(r, plan, w, more, next)
  }

  /** Pairwise distinct, and none of them remembered. */
  ghost predicate Fresh(ids: seq<NetworkId>, r: Registry) {
    && (forall i, j :: 0 <= i < j < |ids| ==> ids[i] != ids[j])
    && (forall id <- ids :: id !in r)
  }

  /** The first `n` starts all failed because of the address. */
  ghost predicate AllConflicts(w: World, n: int) {
    forall k :: 0 <= k < n ==> IsConflict(w.Start(k))
  }

  lemma OneMoreStart(ids: seq<NetworkId>, r: Registry, id: NetworkId)
    requires Fresh(ids, r) && !Taken(r, ids, id)
    ensures Fresh(ids + [id], r)
  {
  }

  /** At most sixteen starts and 256 draws, of distinct identities never remembered; only the last start may succeed. */
  lemma {:induction false} SearchExactly(r: Registry, plan: Result<()>, w: World, starts: seq<NetworkId>, draws: nat)
    requires Fresh(starts, r) && AllConflicts(w, |starts|) && |starts| <= MAX_ADDRESS_CONFLICT_RETRIES
             && draws <= |starts| * MAX_DRAWS
    ensures var (id, all, next) := Search(r, plan, w, starts, draws);
            && starts <= all && |all| <= MAX_ADDRESS_CONFLICT_RETRIES
            && next <= MAX_ADDRESS_CONFLICT_RETRIES * MAX_DRAWS
            && Fresh(all, r) && AllConflicts(w, |all| - 1)
            && (id.Ok? <==> |all| > |starts| && w.Start(|all| - 1).Ok?)
            && (id.Ok? ==> id.value == all[|all| - 1])
            && (AllConflicts(w, MAX_ADDRESS_CONFLICT_RETRIES) && |all| == MAX_ADDRESS_CONFLICT_RETRIES ==>
                  id == Fail(AddressConflict))
    decreases MAX_ADDRESS_CONFLICT_RETRIES - |starts|
  {
    if |starts| < MAX_ADDRESS_CONFLICT_RETRIES {
      DrawnExactly(r, starts, w, draws, MAX_DRAWS);
      var (id, next) := Drawn(r, starts, w, draws, MAX_DRAWS);
      if id.Ok? && plan.Ok? {
        OneMoreStart(starts, r, id.value);
        if IsConflict(w.Start(|starts|)) { SearchExactly(r, plan, w, starts + [id.value], next); }
      }
    }
  }

  /** Drawing a new identity next to those started fails, having come as far as draw `next`. */
  ghost predicate RunsDry(r: Registry, starts: seq<NetworkId>, w: World, next: nat) {
    exists from: nat :: Drawn(r, starts, w, from, MAX_DRAWS).0.Err? && Drawn(r, starts, w, from, MAX_DRAWS).1 == next
  }

  /**
   The search gives up only without addresses to plan, without new identities, on another error or after
   sixteen conflicts.
   */
  lemma {:induction false} SearchGivesUp(r: Registry, plan: Result<()>, w: World, starts: seq<NetworkId>, draws: nat)
    requires AllConflicts(w, |starts|) && |starts| <= MAX_ADDRESS_CONFLICT_RETRIES
    ensures var (id, all, next) := Search(r, plan, w, starts, draws);
            id.Err? ==>
              || plan.Err?
              || RunsDry(r, all, w, next)
              || (|all| > 0 && w.Start(|all| - 1).Err? && !IsConflict(w.Start(|all| - 1)))
              || (|all| == MAX_ADDRESS_CONFLICT_RETRIES && AllConflicts(w, |all|))
    decreases MAX_ADDRESS_CONFLICT_RETRIES - |starts|
  {
    if |starts| < MAX_ADDRESS_CONFLICT_RETRIES {
      var (id, next) := Drawn(r, starts, w, draws, MAX_DRAWS);
      if id.Ok? && plan.Ok? && IsConflict(w.Start(|starts|)) {
        SearchGivesUp(r, plan, w, starts + [id.value], next);
      }
    }
  }

  // ---------------------------------------------------------------- the operations

  /** The durable store, the host the runtime runs as far as its answers tell, and the transition flag. */
  datatype Star = Star(store: Registry, host: Option<NetworkId>, creating: bool)

  /** What is reported after a failed save: its own error, or a persistence error if undoing failed as well. */
  function Unsaved(e: CoreError, undone: Result<()>): CoreError {
    if undone.Ok? then e else CoreError(PersistenceError, "", None)
  }

  /** Why nothing may be created at all. */
  function CreateFault(s: Star, canHost: Option<bool>, w: World): Option<CoreError> {
    if s.creating then Some(CoreError(InvalidState, "", None))
    else if canHost != Some(true) then Some(CoreError(CapabilityUnavailable, "", None))
    else if w.loadError.Some? then w.loadError
    else match CurrentNetwork(s.store)
         case Err(e) => Some(e)
         case Ok(Some(_)) => Some(CoreError(InvalidState, "", None))
         case Ok(None) => None
  }

  /** Nothing is in the way exactly if no transition runs, hosting is possible, the file loads, nothing is member. */
  lemma CreateFaultExactly(s: Star, canHost: Option<bool>, w: World)
    ensures CreateFault(s, canHost, w).None? <==>
            !s.creating && canHost == Some(true) && w.loadError.None? && Members(s.store) == {}
    ensures CreateFault(s, canHost, w).Some? ==>
              CreateFault(s, canHost, w).value.kind ==
              (if s.creating then InvalidState
               else if canHost != Some(true) then CapabilityUnavailable
               else if w.loadError.Some? then w.loadError.value.kind else InvalidState)
  {
  }

  function Create(s: Star, canHost: Option<bool>, plan: Result<()>, name: string, w: World)
    : (Star, Result<NetworkId>, seq<NetworkId>, nat)
  {
    var fault := CreateFault(s, canHost, w);
    if fault.Some? then (s, Err(fault.value), [], 0)
    else
      var (id, starts, draws) := Search(s.store, plan, w, [], 0);
      if id.Err? then (s, id, starts, draws)
      else
        var registry := Created(s.store, id.value, name);
        var saved := SaveTo(registry, w.saveError);
        if saved.Err? then
          (s.(host := if w.stop.Ok? then None else Some(id.value)), Err(Unsaved(saved.error, w.stop)), starts, draws)
        else (s.(store := registry, host := Some(id.value)), id, starts, draws)
  }

  /**
   Creation succeeds exactly when it is allowed, the search ends in a started host and the result can be
   saved; then exactly that identity is persisted as the one member. Otherwise the store is unchanged, and
   a host that was started is stopped again. At most sixteen starts and 256 draws are made, all of distinct
   identities never remembered.
   */
  lemma CreateExactly(s: Star, canHost: Option<bool>, plan: Result<()>, name: string, w: World)
    ensures var (t, r, starts, draws) := Create(s, canHost, plan, name, w);
            var started := starts != [] && w.Start(|starts| - 1).Ok?;
            && |starts| <= MAX_ADDRESS_CONFLICT_RETRIES && draws <= MAX_ADDRESS_CONFLICT_RETRIES * MAX_DRAWS
            && Fresh(starts, s.store) && AllConflicts(w, |starts| - 1) && t.creating == s.creating
            && (CreateFault(s, canHost, w).Some? ==> starts == [] && draws == 0)
            && (r.Ok? <==> CreateFault(s, canHost, w).None? && started && w.saveError.None?
                           && starts[|starts| - 1] != ZERO_NETWORK && Storable(s.store))
            && (r.Ok? ==> && r.value == starts[|starts| - 1] && t.store == Created(s.store, r.value, name)
                          && Members(t.store) == {r.value} && t.host == Some(r.value))
            && (r.Err? ==> t.store == s.store)
            && (r.Err? ==>
                  t.host == (if !started then s.host else if w.stop.Ok? then None else Some(starts[|starts| - 1])))
  {
    if CreateFault(s, canHost, w).None? {
      SearchExactly(s.store, plan, w, [], 0);
      var (id, starts, draws) := Search(s.store, plan, w, [], 0);
      if id.Ok? {
        assert id.value in starts;
        CreatedExactly(s.store, id.value, name);
      }
    }
  }

  function Leave(s: Star, plan: Result<()>, w: World): (Star, Result<()>) {
    if s.creating then (s, Fail(InvalidState))
    else if w.loadError.Some? then (s, Err(w.loadError.value))
    else match CurrentNetwork(s.store)
         case Err(e) => (s, Err(e))
         case Ok(None) => (s, Ok(()))
         case Ok(Some(network)) =>
           if plan.Err? then (s, Err(plan.error))
           else if w.stop.Err? then (s, Err(w.stop.error))
           else
             var registry := Left(s.store, network);
             var saved := SaveTo(registry, w.saveError);
             if saved.Err? then
               (s.(host := if w.restart.Ok? then Some(network) else None), Err(Unsaved(saved.error, w.restart)))
             else (s.(store := registry, host := None), Ok(()))
  }

  /** Membership ends exactly when the host stopped and the result was saved; a failed save starts the host again. */
  lemma LeaveExactly(s: Star, plan: Result<()>, w: World)
    requires !s.creating && w.loadError.None? && Members(s.store) != {} && CurrentNetwork(s.store).Ok?
    ensures var (t, r) := Leave(s, plan, w);
            var network := CurrentNetwork(s.store).value.value;
            && Members(s.store) == {network} && network in s.store
            && (r.Ok? <==> plan.Ok? && w.stop.Ok? && w.saveError.None? && Storable(Left(s.store, network)))
            && (r.Ok? ==> t.store == Left(s.store, network) && t.host == None)
            && (r.Err? ==> t.store == s.store)
            && (r.Err? ==>
                  t.host == if plan.Err? || w.stop.Err? then s.host else if w.restart.Ok? then Some(network) else None)
  {
    assert CurrentNetwork(s.store).value.value in Members(s.store);
  }

  lemma LeaveRefuses(s: Star, plan: Result<()>, w: World)
    ensures s.creating || w.loadError.Some? || CurrentNetwork(s.store).Err? ==>
              Leave(s, plan, w).1.Err? && Leave(s, plan, w).0 == s
    ensures !s.creating && w.loadError.None? && Members(s.store) == {} ==> Leave(s, plan, w) == (s, Ok(()))
  {
  }

  function Reconcile(s: Star, canHost: Option<bool>, plan: Result<()>, w: World): (Star, Result<()>) {
    if s.creating then (s, Fail(InvalidState))
    else if w.loadError.Some? then (s, Err(w.loadError.value))
    else match CurrentNetwork(s.store)
         case Err(e) => (s, Err(e))
         case Ok(None) => (s, Ok(()))
         case Ok(Some(network)) =>
           if canHost != Some(true) then (s, Fail(CapabilityUnavailable))
           else if plan.Err? then (s, Err(plan.error))
           else (if w.Start(0).Ok? then s.(host := Some(network)) else s, w.Start(0))
  }

  /** Startup writes nothing, and runs a host only for the remembered network. */
  lemma ReconcileExactly(s: Star, canHost: Option<bool>, plan: Result<()>, w: World)
    ensures var (t, r) := Reconcile(s, canHost, plan, w);
            && t.store == s.store && t.creating == s.creating
            && (t.host == s.host || (r.Ok? && t.host.Some? && Members(s.store) == {t.host.value}))
            && (r.Ok? <==> && !s.creating && w.loadError.None? && CurrentNetwork(s.store).Ok?
                           && (Members(s.store) == {} || (canHost == Some(true) && plan.Ok? && w.Start(0).Ok?)))
            && (r.Ok? && Members(s.store) != {} ==> t.host.Some? && Members(s.store) == {t.host.value})
  {
  }
}
