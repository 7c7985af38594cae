/** The service object behind the D-Bus front: one whole request at a time, and its status fields. */
module DaemonService {
  import opened Vocabulary
  import D = Diagnostics
  import Spec = DaemonFront

  const MAX_RECENT: nat := 16

  datatype Failure = Failure(time: nat, operation: string, class_: string)

  datatype Snapshot = Snapshot(facts: D.Facts, network: Option<NetworkId>, recent: seq<Failure>)

  /** The last `MAX_RECENT` of everything recorded. */
  function Recent(all: seq<Failure>): seq<Failure> {
    if |all| <= MAX_RECENT then all else all[|all| - MAX_RECENT..]
  }

  class Service {
    var mutationInProgress: bool
    var store: Registry
    var cached: Option<NetworkId>
    var facts: D.Facts
    var recent: seq<Failure>
    ghost var recorded: seq<Failure>
    /** The updates and snapshots so far, as events of the machine that interleaves them. */
    ghost const first: D.Facts
    ghost var events: seq<D.Event>
    ghost var tasks: map<nat, Spec.Task>
    ghost var next: nat
    ghost var saves: seq<(Spec.Command, NetworkId)>

    ghost function View(): Spec.State
      reads this
    {
      Spec.State(mutationInProgress, store, cached, tasks, next, saves)
    }

    ghost function Machine(): D.State
      reads this`events
    {
      D.Run(first, events)
    }

    /** The fields hold what was published last, and nobody is in between. */
    ghost predicate Published()
      reads this
    {
      D.Quiet(Machine()) && facts == Machine().facts == Machine().published[D.Now(Machine())]
    }

    constructor (store: Registry, cached: Option<NetworkId>, facts: D.Facts)
      ensures View() == Spec.Initial(store, cached) && this.facts == facts && recent == [] && recorded == []
      ensures Published() && first == facts && events == []
    {
      mutationInProgress, this.store, this.cached, this.facts, recent := false, store, cached, facts, [];
      recorded, tasks, next, saves := [], map[], 0, [];
      first, events := facts, [];
    }

    /** A request nobody interrupts. */
    method Request(c: Spec.Command, granted: bool, fails: bool, drawn: NetworkId) returns (ok: bool)
      modifies this
      ensures View() == Spec.Handled(old(View()), c, granted, fails, drawn)
      ensures !ok ==> store == old(store) && cached == old(cached)
      ensures old(Storable(store)) ==> (ok <==> Spec.Succeeds(old(View()), c, granted, fails, drawn))
      ensures old(Storable(store)) && ok && c.IsMutation() ==> Spec.Effect(old(store), store, c, drawn)
      ensures ok && !c.IsMutation() ==> store == old(store) && cached == old(cached)
      ensures unchanged(`facts) && unchanged(`events) && unchanged(`recent) && unchanged(`recorded)
    {
      ghost var before := View();
      if Storable(store) { Spec.RequestExactly(before, c, granted, fails, drawn); }
      next := next + 1;
      if !granted { return false; }
      if !c.IsMutation() { return true; }
      if mutationInProgress { return false; }
      mutationInProgress := true;
      var snapshot := store;
      ok := false;
      if !fails {
        var updated := Spec.Update(snapshot, c, drawn);
        if updated.Ok? && Spec.Savable(snapshot, updated.value) {
          store := updated.value;
          saves := saves + [(c, drawn)];
          cached := Spec.NewStatus(cached, c, drawn);
          ok := true;
        }
      }
      mutationInProgress := false;
    }

    /** One uninterrupted call of the machine: both locks are held throughout. */
    method UpdateRuntimeObservation(observed: D.Facts, ghost thread: nat) returns (changed: bool)
      requires Published() && thread !in Machine().threads
      modifies this`facts, this`events
      ensures Published() && events == old(events) + D.Call(D.OnUpdate(thread, observed), 6)
      ensures Machine().published == old(Machine()).published + [observed]
      ensures changed <==> observed != old(Machine()).published[D.Now(old(Machine()))]
    {
      D.UpdateAlone(Machine(), thread, observed);
      D.CallIsARun(first, events, D.OnUpdate(thread, observed), 6);
      changed := facts.health != observed.health || facts.capabilities != observed.capabilities
                 || facts.system != observed.system;
      facts := facts.(health := observed.health);
      facts := facts.(capabilities := observed.capabilities);
      facts := facts.(system := observed.system);
      events := events + D.Call(D.OnUpdate(thread, observed), 6);
    }

    /** The same for the health: what is published next differs from what was in the health alone. */
    method UpdateRuntimeHealth(health: nat, ghost thread: nat) returns (changed: bool)
      requires Published() && thread !in Machine().threads
      modifies this`facts, this`events
      ensures Published() && events == old(events) + D.Call(D.OnHealth(thread, health), 2)
      ensures D.Now(Machine()) == D.Now(old(Machine())) + 1
      ensures changed <==> Machine().published[D.Now(Machine())] != old(Machine()).published[D.Now(old(Machine()))]
    {
      D.HealthAlone(Machine(), thread, health);
      D.CallIsARun(first, events, D.OnHealth(thread, health), 2);
      changed := facts.health != health;
      facts := facts.(health := health);
      events := events + D.Call(D.OnHealth(thread, health), 2);
    }

    /** Keeps the latest failures: what is shown is always the tail of all that was recorded. */
    method RecordRecentFailure(f: Failure)
      requires recent == Recent(recorded)
      modifies this`recent, this`recorded
      ensures recorded == old(recorded) + [f]
      ensures recent == Recent(recorded) && |recent| <= MAX_RECENT && recent[|recent| - 1] == f
    {
      recorded := recorded + [f];
      recent := recent + [f];
      if |recent| > MAX_RECENT { recent := recent[1..]; }
    }

    /** One uninterrupted snapshot: the state published last, in full, and the tail of all failures recorded. */
    method DiagnosticsSnapshot(ghost thread: nat) returns (s: Snapshot)
      requires Published() && thread !in Machine().threads && recent == Recent(recorded)
      modifies this`events
      ensures Published() && events == old(events) + D.Call(D.OnSnapshot(thread), 4)
      ensures Machine().published == old(Machine()).published && s.facts == Machine().published[D.Now(Machine())]
      ensures thread in Machine().threads && Machine().threads[thread].Finished?
              && Machine().threads[thread].snapshot == s.facts
      ensures s.network == cached && s.recent == Recent(recorded)
    {
      D.SnapshotInARun(first, events, thread);
      var status, network := facts, cached;
      s := Snapshot(status, network, recent);
      events := events + D.Call(D.OnSnapshot(thread), 4);
    }
  }
}
