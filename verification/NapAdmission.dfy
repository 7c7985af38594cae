/**
 Owners that bind one TLS session to one radio slot. A slot whose attachment was seen
 outlives the session: only the matching detach, its own ticket or closing the NAP
 gives it back.
 */
module NapAdmission {
  import opened Vocabulary
  import L = NapLedger

  /** The reservation of one TLS generation; dropping it gives the slot back unless told otherwise. */
  datatype Lease = Lease(ticket: L.Ticket, session: SessionId, releaseOnDrop: bool)

  datatype Owner = Owner(network: NetworkId, peer: NodeId, session: SessionId, open: bool, lease: Option<Lease>,
                         attached: bool)

  datatype Effect = Granted(ticket: L.Ticket) | Freed(ticket: L.Ticket) | ClosedAll

  datatype World = World(ledger: L.Ledger, owners: map<nat, Owner>, next: nat, log: seq<Effect>)

  function Initial(network: NetworkId, scope: nat, host: L.Capabilities): World {
    World(L.Ledger(network, scope, host, map[], map[], 0, false), map[], 0, [])
  }

  // ---------------------------------------------------------------- operations

  predicate SameSession(network: NetworkId, peer: NodeId, session: SessionId, lease: Lease) {
    network == lease.ticket.network && peer == lease.ticket.candidate && session == lease.session
  }

  function Retire(w: World, t: L.Ticket): World {
    var (ledger, freed) := L.Retire(w.ledger, t);
    if freed then w.(ledger := ledger, log := w.log + [Freed(t)]) else w.(ledger := ledger)
  }

  function DropLease(w: World, lease: Lease): World {
    if lease.releaseOnDrop then Retire(w, lease.ticket) else w
  }

  /** A registered session of this network asks for a slot; on refusal the session is dropped. */
  function Reserve(w: World, network: NetworkId, peer: NodeId, session: SessionId, approved: bool)
    : (World, Result<nat>)
  {
    if network != w.ledger.network then (w, Fail(InvalidState))
    else if !approved then (w, Fail(AuthenticationFailed))
    else
      var (ledger, ticket) := L.Reserve(w.ledger, peer);
      if ticket.Err? then (w, Err(ticket.error)) else
      var owner := Owner(network, peer, session, true, Some(Lease(ticket.value, session, true)), false);
      (World(ledger, w.owners[w.next := owner], w.next + 1, w.log + [Granted(ticket.value)]), Ok(w.next))
  }

  /** The session closes; a slot whose attachment was not seen goes with it. */
  function TransportLoss(w: World, i: nat): World
    requires i in w.owners
  {
    var o := w.owners[i];
    if o.attached || o.lease.None? then w.(owners := w.owners[i := o.(open := false)])
    else DropLease(w.(owners := w.owners[i := o.(open := false, lease := None)]), o.lease.value)
  }

  /** The attachment has been seen: whatever follows, the slot stays until a detach is seen. */
  function ActivateAttached(w: World, i: nat, approved: bool): (World, Result<()>)
    requires i in w.owners
  {
    var o := w.owners[i];
    if o.lease.None? then (w, Fail(InvalidState))
    else
      var seen := w.(owners := w.owners[i := o.(attached := true)]);
      if !SameSession(o.network, o.peer, o.session, o.lease.value) || !(o.open && approved) then
        (TransportLoss(seen, i), Fail(AuthenticationFailed))
      else
        var (ledger, r) := L.Activate(w.ledger, o.lease.value.ticket);
        if r == Ok(true) then (seen.(ledger := ledger), Ok(()))
        else (TransportLoss(seen, i), if r.Ok? then Fail(InvalidState) else Err(r.error))
  }

  /** A detach must name network, peer and generation; anything else changes nothing. */
  function ConfirmDetach(w: World, i: nat, network: NetworkId, peer: NodeId, session: SessionId): (World, bool)
    requires i in w.owners
  {
    var o := w.owners[i];
    if !o.attached || o.network != network || o.peer != peer || o.lease.None?
       || !SameSession(network, peer, session, o.lease.value) then (w, false)
    else if o.session != session then (w, false)
    else
      var closed := w.(owners := w.owners[i := o.(open := false, attached := false, lease := None)]);
      (DropLease(closed, o.lease.value), true)
  }

  function CancelIfCurrent(w: World, i: nat, session: SessionId): (World, bool)
    requires i in w.owners
  {
    if w.owners[i].session != session then (w, false) else (TransportLoss(w, i), true)
  }

  /** Dropping an owner is no proof of detachment: an attached slot is kept. */
  function DropOwner(w: World, i: nat): World
    requires i in w.owners
  {
    var o := w.owners[i];
    var gone := w.(owners := w.owners - {i});
    if o.lease.None? || o.attached then gone else DropLease(gone, o.lease.value)
  }

  function CloseAll(w: World): World {
    w.(ledger := L.Close(w.ledger), log := w.log + [ClosedAll])
  }

  // ---------------------------------------------------------------- runs

  datatype Event =
    | OnReserve(network: NetworkId, peer: NodeId, session: SessionId, approved: bool)
    | OnAttachment(owner: nat, approved: bool)
    | OnTraffic(owner: nat, failed: bool)
    | OnCancel(owner: nat, session: SessionId)
    | OnDetach(owner: nat, network: NetworkId, peer: NodeId, session: SessionId)
    | OnDropOwner(owner: nat)
    | OnRetire(ticket: L.Ticket)
    | OnUpdate(host: L.Capabilities)
    | OnClose

  function Step(w: World, e: Event): World {
    match e
    case OnReserve(network, peer, session, approved) => Reserve(w, network, peer, session, approved).0
    case OnAttachment(i, approved) => if i in w.owners then ActivateAttached(w, i, approved).0 else w
    case OnTraffic(i, failed) => if i in w.owners && failed then TransportLoss(w, i) else w
    case OnCancel(i, session) => if i in w.owners then CancelIfCurrent(w, i, session).0 else w
    case OnDetach(i, network, peer, session) =>
      if i in w.owners then ConfirmDetach(w, i, network, peer, session).0 else w
    case OnDropOwner(i) => if i in w.owners then DropOwner(w, i) else w
    case OnRetire(t) => Retire(w, t)
    case OnUpdate(host) => w.(ledger := L.UpdateCapabilities(w.ledger, host))
    case OnClose => CloseAll(w)
  }

  function Run(w: World, events: seq<Event>): World {
    if events == [] then w else Step(Run(w, events[..|events| - 1]), events[|events| - 1])
  }

  // ---------------------------------------------------------------- what the log means

  function After(live: set<L.Ticket>, e: Effect): set<L.Ticket> {
    match e
    case Granted(t) => live + {t}
    case Freed(t) => live - {t}
    case ClosedAll => {}
  }

  function Live(log: seq<Effect>): set<L.Ticket> {
    if log == [] then {} else After(Live(log[..|log| - 1]), log[|log| - 1])
  }

  function Times(log: seq<Effect>, e: Effect): nat {
    if log == [] then 0 else Times(log[..|log| - 1], e) + (if log[|log| - 1] == e then 1 else 0)
  }

  ghost predicate Allowed(log: seq<Effect>, e: Effect) {
    match e
    case Granted(t) => Times(log, e) == 0
    case Freed(t) => t in Live(log)
    case ClosedAll => true
  }

  /** Every ticket is granted at most once, and freed only while it is live. */
  ghost predicate Orderly(log: seq<Effect>) {
    log == [] || (Orderly(log[..|log| - 1]) && Allowed(log[..|log| - 1], log[|log| - 1]))
  }

  lemma OneMore(log: seq<Effect>, e: Effect)
    ensures Live(log + [e]) == After(Live(log), e)
    ensures forall f :: Times(log + [e], f) == Times(log, f) + (if e == f then 1 else 0)
    ensures Orderly(log + [e]) <==> Orderly(log) && Allowed(log, e)
  {
    assert (log + [e])[..|log|] == log;
  }

  /** Granted once, so freed once at most. */
  lemma {:induction false} FreedAtMostOnce(log: seq<Effect>, t: L.Ticket)
    requires Orderly(log)
    ensures Times(log, Freed(t)) + (if t in Live(log) then 1 else 0) <= Times(log, Granted(t)) <= 1
  {
    if log != [] { FreedAtMostOnce(log[..|log| - 1], t); }
  }

  // ---------------------------------------------------------------- the invariant

  ghost predicate LeaseInv(w: World, o: Owner) {
    && (o.attached ==> o.lease.Some?)
    && (o.lease.Some? ==>
          && SameSession(o.network, o.peer, o.session, o.lease.value) && o.lease.value.releaseOnDrop
          && L.Owns(w.ledger, o.lease.value.ticket) && o.lease.value.ticket.generation <= w.ledger.generation)
  }

  ghost predicate Unshared(owners: map<nat, Owner>) {
    forall i, j :: i in owners && j in owners && i != j && owners[i].lease.Some? && owners[j].lease.Some? ==>
      owners[i].lease.value.ticket != owners[j].lease.value.ticket
  }

  /** What the log says is live is what the ledger holds. */
  ghost predicate Mirrors(ledger: L.Ledger, live: set<L.Ticket>) {
    forall t: L.Ticket :: t in live <==> L.Occupied(ledger, t)
  }

  /** No ticket of a generation yet to come was ever granted. */
  ghost predicate Unissued(generation: U64, log: seq<Effect>) {
    forall t: L.Ticket :: t.generation > generation ==> Times(log, Granted(t)) == 0
  }

  ghost predicate LogInv(ledger: L.Ledger, log: seq<Effect>) {
    Orderly(log) && Mirrors(ledger, Live(log)) && Unissued(ledger.generation, log)
  }

  ghost predicate Inv(w: World) {
    && L.Sound(w.ledger) && LogInv(w.ledger, w.log)
    && (forall i <- w.owners :: i < w.next && LeaseInv(w, w.owners[i]))
    && Unshared(w.owners)
  }

  // ---------------------------------------------------------------- what each operation keeps

  lemma RetireKeepsLog(ledger: L.Ledger, log: seq<Effect>, t: L.Ticket)
    requires L.Sound(ledger) && LogInv(ledger, log) && L.Occupied(ledger, t)
    ensures LogInv(L.Retire(ledger, t).0, log + [Freed(t)])
  {
    L.RetireExactly(ledger, t);
    OneMore(log, Freed(t));
    assert Mirrors(L.Retire(ledger, t).0, Live(log) - {t});
    assert Unissued(ledger.generation, log + [Freed(t)]);
  }

  lemma RetireKeepsInv(w: World, t: L.Ticket)
    requires Inv(w)
    ensures Inv(Retire(w, t))
    ensures forall u: L.Ticket :: L.Occupied(Retire(w, t).ledger, u) <==> L.Occupied(w.ledger, u) && u != t
    ensures Retire(w, t).owners == w.owners && L.Taken(Retire(w, t).ledger) <= L.Taken(w.ledger)
  {
    L.RetireExactly(w.ledger, t);
    if L.Occupied(w.ledger, t) { RetireKeepsLog(w.ledger, w.log, t); }
    var r := Retire(w, t);
    assert forall i <- w.owners :: LeaseInv(r, w.owners[i]);
  }

  /** Owners may lose leases or close sessions freely. */
  lemma FewerLeases(w: World, owners: map<nat, Owner>)
    requires Inv(w) && owners.Keys <= w.owners.Keys
    requires forall i <- owners :: owners[i].lease.None? || owners[i].lease == w.owners[i].lease
    requires forall i <- owners :: LeaseInv(w, owners[i])
    ensures Inv(w.(owners := owners))
  {
  }

  lemma LossKeepsInv(w: World, i: nat)
    requires Inv(w) && i in w.owners
    ensures Inv(TransportLoss(w, i))
  {
    var o := w.owners[i];
    if o.attached || o.lease.None? {
      FewerLeases(w, w.owners[i := o.(open := false)]);
    } else {
      FewerLeases(w, w.owners[i := o.(open := false, lease := None)]);
      RetireKeepsInv(w.(owners := w.owners[i := o.(open := false, lease := None)]), o.lease.value.ticket);
    }
  }

  lemma GrantKeepsLog(ledger: L.Ledger, log: seq<Effect>, peer: NodeId)
    requires L.Sound(ledger) && LogInv(ledger, log) && L.Reserve(ledger, peer).1.Ok?
    ensures LogInv(L.Reserve(ledger, peer).0, log + [Granted(L.Reserve(ledger, peer).1.value)])
  {
    var (after, ticket) := L.Reserve(ledger, peer);
    L.ReserveTakesOne(ledger, peer);
    OneMore(log, Granted(ticket.value));
    GrantMirrors(ledger, after, Live(log), ticket.value);
    GrantUnissued(ledger.generation, log, ticket.value);
  }

  lemma GrantMirrors(ledger: L.Ledger, after: L.Ledger, live: set<L.Ticket>, t: L.Ticket)
    requires Mirrors(ledger, live)
    requires forall u: L.Ticket :: L.Occupied(after, u) <==> L.Occupied(ledger, u) || u == t
    ensures Mirrors(after, live + {t})
  {
  }

  lemma GrantUnissued(generation: U64, log: seq<Effect>, t: L.Ticket)
    requires Unissued(generation, log) && generation < U64_MAX && t.generation == generation + 1
    ensures Unissued(generation + 1, log + [Granted(t)]) && Times(log, Granted(t)) == 0
  {
    OneMore(log, Granted(t));
  }

  lemma NewOwnerIsUnshared(w: World, owner: Owner)
    requires Inv(w) && owner.lease.Some? && owner.lease.value.ticket.generation > w.ledger.generation
    ensures Unshared(w.owners[w.next := owner])
  {
  }

  lemma ReserveKeepsInv(w: World, network: NetworkId, peer: NodeId, session: SessionId, approved: bool)
    requires Inv(w)
    ensures Inv(Reserve(w, network, peer, session, approved).0)
  {
    var (t, r) := Reserve(w, network, peer, session, approved);
    if r.Ok? {
      GrantKeepsLog(w.ledger, w.log, peer);
      L.ReserveTakesOne(w.ledger, peer);
      NewOwnerIsUnshared(w, t.owners[w.next]);
      assert forall i <- w.owners :: LeaseInv(t, w.owners[i]);
    }
  }

  lemma ActivateKeepsInv(w: World, i: nat, approved: bool)
    requires Inv(w) && i in w.owners
    ensures Inv(ActivateAttached(w, i, approved).0)
  {
    var o := w.owners[i];
    if o.lease.Some? {
      var seen := w.(owners := w.owners[i := o.(attached := true)]);
      FewerLeases(w, seen.owners);
      LossKeepsInv(seen, i);
      L.ActivateKeepsSlots(w.ledger, o.lease.value.ticket);
      PromotedKeepsInv(seen, o.lease.value.ticket);
    }
  }

  lemma PromotedKeepsInv(w: World, t: L.Ticket)
    requires Inv(w)
    ensures Inv(w.(ledger := L.Activate(w.ledger, t).0))
  {
    L.ActivateKeepsSlots(w.ledger, t);
  }

  lemma DetachKeepsInv(w: World, i: nat, network: NetworkId, peer: NodeId, session: SessionId)
    requires Inv(w) && i in w.owners
    ensures Inv(ConfirmDetach(w, i, network, peer, session).0)
  {
    var o := w.owners[i];
    if ConfirmDetach(w, i, network, peer, session).1 {
      var closed := w.owners[i := o.(open := false, attached := false, lease := None)];
      FewerLeases(w, closed);
      RetireKeepsInv(w.(owners := closed), o.lease.value.ticket);
    }
  }

  lemma DropKeepsInv(w: World, i: nat)
    requires Inv(w) && i in w.owners
    ensures Inv(DropOwner(w, i))
  {
    FewerLeases(w, w.owners - {i});
    if w.owners[i].lease.Some? { RetireKeepsInv(w.(owners := w.owners - {i}), w.owners[i].lease.value.ticket); }
  }

  lemma CloseKeepsInv(w: World)
    requires Inv(w)
    ensures Inv(CloseAll(w))
  {
    OneMore(w.log, ClosedAll);
  }

  lemma StepKeepsInv(w: World, e: Event)
    requires Inv(w)
    ensures Inv(Step(w, e))
  {
    match e
    case OnReserve(network, peer, session, approved) => ReserveKeepsInv(w, network, peer, session, approved);
    case OnAttachment(i, approved) => if i in w.owners { ActivateKeepsInv(w, i, approved); }
    case OnTraffic(i, _) => if i in w.owners { LossKeepsInv(w, i); }
    case OnCancel(i, _) => if i in w.owners { LossKeepsInv(w, i); }
    case OnDetach(i, network, peer, session) => if i in w.owners { DetachKeepsInv(w, i, network, peer, session); }
    case OnDropOwner(i) => if i in w.owners { DropKeepsInv(w, i); }
    case OnRetire(t) => RetireKeepsInv(w, t);
    case OnUpdate(_) =>
    case OnClose => CloseKeepsInv(w);
  }

  lemma {:induction false} EveryRunKeepsInv(network: NetworkId, scope: nat, host: L.Capabilities, events: seq<Event>)
    ensures Inv(Run(Initial(network, scope, host), events))
  {
    if events != [] {
      EveryRunKeepsInv(network, scope, host, events[..|events| - 1]);
      StepKeepsInv(Run(Initial(network, scope, host), events[..|events| - 1]), events[|events| - 1]);
    }
  }

  // ---------------------------------------------------------------- what runs guarantee

  /** A live slot that no owner could give back by merely going away. */
  ghost predicate Protected(w: World, t: L.Ticket) {
    && L.Occupied(w.ledger, t)
    && forall i <- w.owners :: w.owners[i].lease.Some? && w.owners[i].lease.value.ticket == t ==> w.owners[i].attached
  }

  /** The three things that may free a protected slot. */
  predicate MayFree(w: World, e: Event, t: L.Ticket) {
    || e == OnRetire(t)
    || e == OnClose
    || (&& e.OnDetach? && e.owner in w.owners && w.owners[e.owner].lease.Some?
        && w.owners[e.owner].lease.value.ticket == t
        && SameSession(e.network, e.peer, e.session, w.owners[e.owner].lease.value))
  }

  /** Seeing an attachment protects the slot at once, whether or not activation then succeeds. */
  lemma AttachmentProtects(w: World, i: nat, approved: bool)
    requires Inv(w) && i in w.owners && w.owners[i].lease.Some? && L.Occupied(w.ledger, w.owners[i].lease.value.ticket)
    ensures var t := ActivateAttached(w, i, approved).0;
            && Protected(t, w.owners[i].lease.value.ticket)
            && t.owners[i].attached && t.owners[i].lease == w.owners[i].lease
  {
    L.ActivateKeepsSlots(w.ledger, w.owners[i].lease.value.ticket);
  }

  /** Session loss, failed activation, owner drop and stale callbacks keep a protected slot. */
  lemma ProtectedStays(w: World, e: Event, t: L.Ticket)
    requires Inv(w) && Protected(w, t) && !MayFree(w, e, t)
    ensures Protected(Step(w, e), t)
  {
    match e
    case OnReserve(network, peer, session, approved) =>
      if Reserve(w, network, peer, session, approved).1.Ok? { L.ReserveTakesOne(w.ledger, peer); }
    case OnAttachment(i, approved) => if i in w.owners { AttachmentSpares(w, i, approved, t); }
    case OnTraffic(i, failed) => if i in w.owners { LossSpares(w, i, t); }
    case OnCancel(i, _) => if i in w.owners { LossSpares(w, i, t); }
    case OnDetach(i, network, peer, session) => if i in w.owners { DetachSpares(w, e, t); }
    case OnDropOwner(i) => if i in w.owners { DropSpares(w, i, t); }
    case OnRetire(u) => L.RetireExactly(w.ledger, u);
    case OnUpdate(_) =>
    case OnClose =>
  }

  lemma LossSpares(w: World, i: nat, t: L.Ticket)
    requires Inv(w) && i in w.owners && Protected(w, t)
    ensures Protected(TransportLoss(w, i), t)
  {
    if w.owners[i].lease.Some? { L.RetireExactly(w.ledger, w.owners[i].lease.value.ticket); }
  }

  lemma AttachmentSpares(w: World, i: nat, approved: bool, t: L.Ticket)
    requires Inv(w) && i in w.owners && Protected(w, t)
    ensures Protected(ActivateAttached(w, i, approved).0, t)
  {
    var o := w.owners[i];
    if o.lease.Some? { L.ActivateKeepsSlots(w.ledger, o.lease.value.ticket); }
  }

  lemma DetachSpares(w: World, e: Event, t: L.Ticket)
    requires Inv(w) && e.OnDetach? && e.owner in w.owners && Protected(w, t) && !MayFree(w, e, t)
    ensures Protected(ConfirmDetach(w, e.owner, e.network, e.peer, e.session).0, t)
  {
    if w.owners[e.owner].lease.Some? { L.RetireExactly(w.ledger, w.owners[e.owner].lease.value.ticket); }
  }

  lemma DropSpares(w: World, i: nat, t: L.Ticket)
    requires Inv(w) && i in w.owners && Protected(w, t)
    ensures Protected(DropOwner(w, i), t)
  {
    if w.owners[i].lease.Some? { L.RetireExactly(w.ledger, w.owners[i].lease.value.ticket); }
  }

  /** Over any run without one of the three, the slot stays taken, even after its owner is gone. */
  lemma {:induction false} SlotOutlivesSession(w: World, events: seq<Event>, t: L.Ticket)
    requires Inv(w) && Protected(w, t)
    requires forall k :: 0 <= k < |events| ==> !MayFree(Run(w, events[..k]), events[k], t)
    ensures Inv(Run(w, events)) && Protected(Run(w, events), t)
  {
    if events != [] {
      var n := |events| - 1;
      forall k | 0 <= k < n ensures !MayFree(Run(w, events[..n][..k]), events[..n][k], t) {
        assert events[..n][..k] == events[..k];
      }
      SlotOutlivesSession(w, events[..n], t);
      StepKeepsInv(Run(w, events[..n]), events[n]);
      ProtectedStays(Run(w, events[..n]), events[n], t);
    }
  }

  /** In every run, for every owner: a seen attachment means its lease is held, and leases are never shared. */
  lemma AttachedMeansLeased(network: NetworkId, scope: nat, host: L.Capabilities, events: seq<Event>)
    ensures var w := Run(Initial(network, scope, host), events);
            && (forall i <- w.owners :: w.owners[i].attached ==> w.owners[i].lease.Some?)
            && Unshared(w.owners)
            && (forall t: L.Ticket :: Times(w.log, Freed(t)) <= Times(w.log, Granted(t)) <= 1)
  {
    EveryRunKeepsInv(network, scope, host, events);
    var w := Run(Initial(network, scope, host), events);
    forall t: L.Ticket ensures Times(w.log, Freed(t)) <= Times(w.log, Granted(t)) <= 1 {
      FreedAtMostOnce(w.log, t);
    }
  }

  /** A detach confirmation closes the session and frees the slot, or changes nothing at all. */
  lemma DetachAllOrNothing(w: World, i: nat, network: NetworkId, peer: NodeId, session: SessionId)
    requires Inv(w) && i in w.owners
    ensures var (t, done) := ConfirmDetach(w, i, network, peer, session);
            var o := w.owners[i];
            && (done <==> o.attached && (o.network, o.peer, o.session) == (network, peer, session))
            && (!done ==> t == w)
            && (done ==> && t.owners == w.owners[i := o.(open := false, attached := false, lease := None)]
                         && (forall u :: L.Occupied(t.ledger, u) <==>
                               L.Occupied(w.ledger, u) && u != o.lease.value.ticket)
                         && t.log == w.log + (if L.Occupied(w.ledger, o.lease.value.ticket)
                                              then [Freed(o.lease.value.ticket)] else []))
  {
    if w.owners[i].lease.Some? { L.RetireExactly(w.ledger, w.owners[i].lease.value.ticket); }
  }

  /** Activation succeeds exactly for a live, approved session whose own generation is still pending. */
  lemma ActivationExactly(w: World, i: nat, approved: bool)
    requires Inv(w) && i in w.owners
    ensures var o := w.owners[i];
            ActivateAttached(w, i, approved).1.Ok? <==>
              && o.lease.Some? && o.open && approved && L.IsPending(w.ledger, o.lease.value.ticket)
              && L.Usable(w.ledger.host) && L.Taken(w.ledger) <= w.ledger.host.ceiling.value
              && L.Taken(w.ledger) <= L.U16_MAX
  {
    if w.owners[i].lease.Some? { L.ActivateExactly(w.ledger, w.owners[i].lease.value.ticket); }
  }

  /**
   Reporting the same attachment twice keeps the slot but costs the session, though the ledger calls it
   idempotent.
   */
  lemma SecondReportClosesSession(w: World, i: nat)
    requires Inv(w) && i in w.owners && ActivateAttached(w, i, true).1.Ok?
    ensures var (t, r) := ActivateAttached(ActivateAttached(w, i, true).0, i, true);
            && r.Err? && !t.owners[i].open && w.owners[i].open
            && t.owners[i].attached && Protected(t, w.owners[i].lease.value.ticket)
            && L.Activate(ActivateAttached(w, i, true).0.ledger, w.owners[i].lease.value.ticket).1 == Ok(false)
  {
    var ticket := w.owners[i].lease.value.ticket;
    L.ActivateExactly(w.ledger, ticket);
    L.ActivateKeepsSlots(w.ledger, ticket);
    ActivateKeepsInv(w, i, true);
    var once := ActivateAttached(w, i, true).0;
    L.ActivateExactly(once.ledger, ticket);
    AttachmentProtects(once, i, true);
  }

  // ---------------------------------------------------------------- who gets a slot, and who gives it back

  /** A session of this NAP's network, approved now, whose peer the ledger has room for and does not know yet. */
  ghost predicate MayHave(w: World, network: NetworkId, peer: NodeId, approved: bool) {
    && network == w.ledger.network && approved
    && !w.ledger.closed && L.Real(peer) && peer !in w.ledger.active && peer !in w.ledger.pending
    && L.Usable(w.ledger.host) && L.Taken(w.ledger) < w.ledger.host.ceiling.value
    && L.Taken(w.ledger) <= L.U16_MAX && w.ledger.generation < U64_MAX
  }

  /** A slot goes exactly to such a session, with one new owner for it; a refusal changes nothing. */
  lemma ReserveExactly(w: World, network: NetworkId, peer: NodeId, session: SessionId, approved: bool)
    requires L.Sound(w.ledger)
    ensures var (t, r) := Reserve(w, network, peer, session, approved);
            && (r.Ok? <==> MayHave(w, network, peer, approved))
            && (r.Err? ==> t == w)
            && (r.Err? && network == w.ledger.network && !approved ==> r.error.kind == AuthenticationFailed)
            && (r.Ok? ==>
                  var ticket := L.Ticket(network, w.ledger.scope, peer, w.ledger.generation + 1);
                  && r.value == w.next && t.next == w.next + 1 && t.log == w.log + [Granted(ticket)]
                  && t.owners == w.owners[w.next := Owner(network, peer, session, true,
                                                          Some(Lease(ticket, session, true)), false)]
                  && L.IsPending(t.ledger, ticket) && L.Taken(t.ledger) == L.Taken(w.ledger) + 1)
  {
    L.ReserveExactly(w.ledger, peer);
    if L.Reserve(w.ledger, peer).1.Ok? { L.ReserveTakesOne(w.ledger, peer); }
  }

  /** What becomes of an owner's slot when its session is lost or it is dropped: gone unless the attachment was seen. */
  ghost predicate SlotFollows(w: World, t: World, o: Owner) {
    o.lease.Some? ==>
      forall u: L.Ticket ::
        L.Occupied(t.ledger, u) <==> L.Occupied(w.ledger, u) && (o.attached || u != o.lease.value.ticket)
  }

  /** A lost session is closed, and an unattached slot is free again, its owner holding nothing. */
  lemma LossFreesExactly(w: World, i: nat)
    requires Inv(w) && i in w.owners
    ensures var t, o := TransportLoss(w, i), w.owners[i];
            && i in t.owners && SlotFollows(w, t, o)
            && t.owners == w.owners[i := o.(open := false, lease := if o.attached then o.lease else None)]
  {
    if w.owners[i].lease.Some? { L.RetireExactly(w.ledger, w.owners[i].lease.value.ticket); }
  }

  lemma DropFreesExactly(w: World, i: nat)
    requires Inv(w) && i in w.owners
    ensures DropOwner(w, i).owners == w.owners - {i} && SlotFollows(w, DropOwner(w, i), w.owners[i])
  {
    if w.owners[i].lease.Some? { L.RetireExactly(w.ledger, w.owners[i].lease.value.ticket); }
  }

  /** A cancel for this very generation and a failed read or write end the session; nothing else of theirs does. */
  lemma CancelFreesExactly(w: World, i: nat, e: Event)
    requires Inv(w) && i in w.owners && (e.OnTraffic? || e.OnCancel?) && e.owner == i
    ensures var t, o := Step(w, e), w.owners[i];
            if (e.OnTraffic? && e.failed) || (e.OnCancel? && e.session == o.session)
            then && i in t.owners && SlotFollows(w, t, o) && !t.owners[i].open
                 && t.owners - {i} == w.owners - {i}
            else t == w
    ensures e.OnCancel? ==> (CancelIfCurrent(w, i, e.session).1 <==> e.session == w.owners[i].session)
  {
    LossFreesExactly(w, i);
  }

  // ---------------------------------------------------------------- within the ceiling

  /** No more slots are taken than the ceiling in force allows. */
  predicate Within(l: L.Ledger) { l.host.ceiling.Some? ==> L.Taken(l) <= l.host.ceiling.value }

  /** An update that sets a ceiling below what is taken at that moment. */
  predicate Undercuts(w: World, e: Event) {
    e.OnUpdate? && e.host.ceiling.Some? && L.Taken(w.ledger) > e.host.ceiling.value
  }

  /** A step that takes a slot takes one, on a usable NAP, up to the ceiling in force. */
  ghost predicate TakesAtMostOne(before: L.Ledger, after: L.Ledger) {
    && after.host == before.host
    && (L.Taken(after) > L.Taken(before) ==>
          L.Usable(after.host) && L.Taken(after) == L.Taken(before) + 1 <= after.host.ceiling.value)
  }

  /** No grant ever goes past the ceiling in force, in whatever state updates have left the ledger. */
  lemma GrantsStayWithin(w: World, e: Event)
    requires Inv(w)
    ensures !e.OnUpdate? ==> TakesAtMostOne(w.ledger, Step(w, e).ledger)
    ensures e.OnUpdate? ==> L.Taken(Step(w, e).ledger) == L.Taken(w.ledger)
  {
    match e
    case OnReserve(network, peer, session, approved) => ReserveTakesAtMostOne(w, network, peer, session, approved);
    case OnRetire(t) => L.RetireExactly(w.ledger, t);
    case OnClose =>
    case OnUpdate(_) =>
    case OnAttachment(i, approved) => if i in w.owners { AttachmentTakesNothing(w, i, approved); }
    case OnDropOwner(i) => if i in w.owners { LossTakesNothing(w, i); }
    case OnTraffic(i, _) => if i in w.owners { LossTakesNothing(w, i); }
    case OnCancel(i, _) => if i in w.owners { LossTakesNothing(w, i); }
    case OnDetach(i, network, peer, session) => if i in w.owners { DetachTakesNothing(w, i, network, peer, session); }
  }

  lemma ReserveTakesAtMostOne(w: World, network: NetworkId, peer: NodeId, session: SessionId, approved: bool)
    requires Inv(w)
    ensures TakesAtMostOne(w.ledger, Reserve(w, network, peer, session, approved).0.ledger)
  {
    if Reserve(w, network, peer, session, approved).1.Ok? {
      L.ReserveExactly(w.ledger, peer);
      L.ReserveTakesOne(w.ledger, peer);
    }
  }

  /** From a ledger within its ceiling a step leads out exactly if it undercuts what is taken. */
  lemma StepStaysWithin(w: World, e: Event)
    requires Inv(w) && Within(w.ledger)
    ensures Within(Step(w, e).ledger) <==> !Undercuts(w, e)
  {
    GrantsStayWithin(w, e);
  }

  /** Within its ceiling after every event of the run, and before the first. */
  predicate AllWithin(start: World, events: seq<Event>) {
    Within(Run(start, events).ledger) && (events != [] ==> AllWithin(start, events[..|events| - 1]))
  }

  predicate NeverUndercut(start: World, events: seq<Event>) {
    events != [] ==>
      var before := events[..|events| - 1];
      NeverUndercut(start, before) && !Undercuts(Run(start, before), events[|events| - 1])
  }

  /**
   In every run, updates included, the slots taken stay within the ceiling in force at each point
   exactly as long as no update sets a ceiling below what is taken at that moment.
   */
  lemma {:induction false} NeverOverbooked(network: NetworkId, scope: nat, host: L.Capabilities, events: seq<Event>)
    ensures AllWithin(Initial(network, scope, host), events) <==> NeverUndercut(Initial(network, scope, host), events)
  {
    var start := Initial(network, scope, host);
    if events == [] {
      assert Within(start.ledger);
    } else {
      var before, e := events[..|events| - 1], events[|events| - 1];
      NeverOverbooked(network, scope, host, before);
      EveryRunKeepsInv(network, scope, host, before);
      if AllWithin(start, before) { StepStaysWithin(Run(start, before), e); }
    }
  }

  lemma DetachTakesNothing(w: World, i: nat, network: NetworkId, peer: NodeId, session: SessionId)
    requires Inv(w) && i in w.owners
    ensures var t := ConfirmDetach(w, i, network, peer, session).0.ledger;
            t.host == w.ledger.host && L.Taken(t) <= L.Taken(w.ledger)
  {
    if w.owners[i].lease.Some? { L.RetireExactly(w.ledger, w.owners[i].lease.value.ticket); }
  }

  lemma LossTakesNothing(w: World, i: nat)
    requires Inv(w) && i in w.owners
    ensures TransportLoss(w, i).ledger.host == w.ledger.host && L.Taken(TransportLoss(w, i).ledger) <= L.Taken(w.ledger)
    ensures DropOwner(w, i).ledger.host == w.ledger.host && L.Taken(DropOwner(w, i).ledger) <= L.Taken(w.ledger)
  {
    if w.owners[i].lease.Some? { L.RetireExactly(w.ledger, w.owners[i].lease.value.ticket); }
  }

  lemma AttachmentTakesNothing(w: World, i: nat, approved: bool)
    requires Inv(w) && i in w.owners
    ensures ActivateAttached(w, i, approved).0.ledger.host == w.ledger.host
    ensures L.Taken(ActivateAttached(w, i, approved).0.ledger) == L.Taken(w.ledger)
  {
    if w.owners[i].lease.Some? { L.ActivateKeepsSlots(w.ledger, w.owners[i].lease.value.ticket); }
  }
}
