/** The imperative host operations, method by method equal to `HostLifecycle`. */
module SingleStarOwner {
  import opened Vocabulary
  import opened AddressPlan
  import H = HostLifecycle

  /** At most sixteen draws until one is new. */
  method UniqueNetworkId(r: Registry, starts: seq<NetworkId>, w: H.World, from: nat)
    returns (id: Result<NetworkId>, next: nat)
    ensures (id, next) == H.Drawn(r, starts, w, from, H.MAX_DRAWS)
  {
    next := from;
    while next < from + H.MAX_DRAWS
      invariant from <= next <= from + H.MAX_DRAWS
      invariant H.Drawn(r, starts, w, from, H.MAX_DRAWS) == H.Drawn(r, starts, w, next, from + H.MAX_DRAWS - next)
    {
      id := w.Draw(next);
      next := next + 1;
      if id.Err? || !H.Taken(r, starts, id.value) { return; }
    }
    id := Fail(Internal);
  }

  class SingleStar {
    const pool: Pool
    const canHost: Option<bool>
    var creating: bool
    var store: Registry
    var host: Option<NetworkId>

    function View(): H.Star
      reads this
    {
      H.Star(store, host, creating)
    }

    constructor (pool: Pool, canHost: Option<bool>, store: Registry)
      ensures this.pool == pool && this.canHost == canHost && View() == H.Star(store, None, false)
    {
      this.pool, this.canHost, this.store, creating, host := pool, canHost, store, false, None;
    }

    /** The host's address in its segment: it can be planned exactly on a valid pool. */
    method LocalStarAddress(network: NetworkId) returns (r: Result<Prefix>)
      ensures r.Ok? <==> Validate(pool).Ok?
      ensures r.Err? ==> r.error == Validate(pool).error
    {
      PlanExists(network, pool);
      var plan := PlanFor(network, pool);
      r := if plan.Ok? then Ok(plan.value.host) else Err(plan.error);
    }

    /** The search for an identity whose segment is free; the measure is sixteen minus the attempts made. */
    method SelectHost(w: H.World) returns (r: Result<NetworkId>, starts: seq<NetworkId>, draws: nat)
      modifies this`host
      ensures (r, starts, draws) == H.Search(store, Validate(pool), w, [], 0)
      ensures host == if r.Ok? then Some(r.value) else old(host)
    {
      starts, draws := [], 0;
      while |starts| < H.MAX_ADDRESS_CONFLICT_RETRIES
        invariant H.Search(store, Validate(pool), w, [], 0) == H.Search(store, Validate(pool), w, starts, draws)
        invariant host == old(host)
        decreases H.MAX_ADDRESS_CONFLICT_RETRIES - |starts|
      {
        var id, next := UniqueNetworkId(store, starts, w, draws);
        draws := next;
        if id.Err? { return id, starts, draws; }
        var address := LocalStarAddress(id.value);
        if address.Err? { return Err(address.error), starts, draws; }
        var started := w.Start(|starts|);
        starts := starts + [id.value];
        if started.Ok? {
          host := Some(id.value);
          return id, starts, draws;
        }
        if !H.IsConflict(started) { return Err(started.error), starts, draws; }
      }
      r := Fail(AddressConflict);
    }

    method CreateNetwork(name: string, w: H.World) returns (r: Result<NetworkId>, starts: seq<NetworkId>, draws: nat)
      modifies this
      ensures (View(), r, starts, draws) == H.Create(old(View()), canHost, Validate(pool), name, w)
    {
      starts, draws := [], 0;
      if creating { return Fail(InvalidState), starts, draws; }
      creating := true;
      r, starts, draws := CreateClaimed(name, w);
      creating := false;
    }

    method CreateClaimed(name: string, w: H.World) returns (r: Result<NetworkId>, starts: seq<NetworkId>, draws: nat)
      modifies this`store, this`host
      ensures (H.Star(store, host, false), r, starts, draws)
           == H.Create(H.Star(old(store), old(host), false), canHost, Validate(pool), name, w)
    {
      starts, draws := [], 0;
      if canHost != Some(true) { return Fail(CapabilityUnavailable), starts, draws; }
      if w.loadError.Some? { return Err(w.loadError.value), starts, draws; }
      var current := CurrentNetwork(store);
      if current.Err? { return Err(current.error), starts, draws; }
      if current.value.Some? { return Fail(InvalidState), starts, draws; }
      r, starts, draws := SelectHost(w);
      if r.Err? { return; }
      var registry := H.Created(store, r.value, name);
      var saved := SaveTo(registry, w.saveError);
      if saved.Err? {
        if w.stop.Ok? { host := None; }
        return Err(H.Unsaved(saved.error, w.stop)), starts, draws;
      }
      store := registry;
    }

    /** Clears the member flags one peer at a time. */
    method ClearMembers(peers: map<NodeId, PeerFacts>) returns (cleared: map<NodeId, PeerFacts>)
      ensures cleared == H.WithoutMembers(peers)
    {
      cleared := peers;
      var left := peers.Keys;
      while left != {}
        invariant left <= peers.Keys && cleared.Keys == peers.Keys
        invariant forall n <- peers :: cleared[n] == if n in left then peers[n] else peers[n].(member := false)
        decreases |left|
      {
        var n :| n in left;
        cleared := cleared[n := cleared[n].(member := false)];
        left := left - {n};
      }
    }

    /** The flag is claimed for the whole of it. */
    method LeaveNetwork(w: H.World) returns (r: Result<()>)
      modifies this
      ensures (View(), r) == H.Leave(old(View()), Validate(pool), w)
    {
      if creating { return Fail(InvalidState); }
      creating := true;
      r := LeaveClaimed(w);
      creating := false;
    }

    method LeaveClaimed(w: H.World) returns (r: Result<()>)
      modifies this`store, this`host
      ensures (H.Star(store, host, false), r) == H.Leave(H.Star(old(store), old(host), false), Validate(pool), w)
    {
      if w.loadError.Some? { return Err(w.loadError.value); }
      var current := CurrentNetwork(store);
      if current.Err? { return Err(current.error); }
      if current.value.None? { return Ok(()); }
      var network := current.value.value;
      assert network in Members(store);
      var address := LocalStarAddress(network);
      if address.Err? { return Err(address.error); }
      if w.stop.Err? { return Err(w.stop.error); }
      host := None;
      var peers := ClearMembers(store[network].peers);
      var registry := store[network := store[network].(state := NotMember, peers := peers)];
      r := SaveTo(registry, w.saveError);
      if r.Err? {
        if w.restart.Ok? { host := Some(network); }
        return Err(H.Unsaved(r.error, w.restart));
      }
      store := registry;
    }

    /** At startup the host is started again for the remembered network. */
    method ReconcileOnStartup(w: H.World) returns (r: Result<()>)
      modifies this
      ensures (View(), r) == H.Reconcile(old(View()), canHost, Validate(pool), w)
    {
      if creating { return Fail(InvalidState); }
      if w.loadError.Some? { return Err(w.loadError.value); }
      var current := CurrentNetwork(store);
      if current.Err? { return Err(current.error); }
      if current.value.None? { return Ok(()); }
      if canHost != Some(true) { return Fail(CapabilityUnavailable); }
      var address := LocalStarAddress(current.value.value);
      if address.Err? { return Err(address.error); }
      r := w.Start(0);
      if r.Ok? { host := current.value; }
    }
  }
}
