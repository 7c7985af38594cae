/** The imperative owner of one session and its slot, method by method equal to `NapAdmission`. */
module NapControlOwner {
  import opened Vocabulary
  import L = NapLedger
  import Spec = NapAdmission

  /** The lock-guarded ledger every owner of one NAP shares. */
  class Admission {
    var ledger: L.Ledger
    ghost var log: seq<Spec.Effect>

    constructor (network: NetworkId, scope: nat, host: L.Capabilities)
      ensures Spec.World(ledger, map[], 0, log) == Spec.Initial(network, scope, host)
    {
      ledger := L.Ledger(network, scope, host, map[], map[], 0, false);
      log := [];
    }

    method Retire(t: L.Ticket)
      modifies this
      ensures forall owners, next ::
                Spec.World(ledger, owners, next, log) == Spec.Retire(old(Spec.World(ledger, owners, next, log)), t)
    {
      var (changed, freed) := L.Retire(ledger, t);
      ledger := changed;
      if freed { log := log + [Spec.Freed(t)]; }
    }
  }

  const ME: nat := 0

  class RegisteredNapControlOwner {
    const admission: Admission
    const network: NetworkId
    const peer: NodeId
    const session: SessionId
    var open: bool
    var lease: Option<Spec.Lease>
    var attached: bool
    var dropped: bool

    ghost function View(): Spec.World
      reads this, admission
    {
      var owner := Spec.Owner(network, peer, session, open, lease, attached);
      Spec.World(admission.ledger, if dropped then map[] else map[ME := owner], 1, admission.log)
    }

    constructor (admission: Admission, network: NetworkId, peer: NodeId, session: SessionId, lease: Spec.Lease)
      ensures this.admission == admission
      ensures var owner := Spec.Owner(network, peer, session, true, Some(lease), false);
              View() == Spec.World(admission.ledger, map[ME := owner], 1, admission.log)
    {
      this.admission, this.network, this.peer, this.session := admission, network, peer, session;
      this.lease, open, attached, dropped := Some(lease), true, false, false;
    }

    /** Consumes a registered session; a refused one is dropped. */
    static method Reserve(admission: Admission, network: NetworkId, peer: NodeId, session: SessionId, approved: bool)
      returns (owner: RegisteredNapControlOwner?, r: Result<()>)
      modifies admission
      ensures owner != null <==> r.Ok?
      ensures owner != null ==> fresh(owner) && owner.admission == admission
      ensures var before := old(Spec.World(admission.ledger, map[], ME, admission.log));
              var (w, id) := Spec.Reserve(before, network, peer, session, approved);
              && (r.Ok? <==> id.Ok?) && admission.ledger == w.ledger && admission.log == w.log
              && (owner != null ==> owner.View() == w)
      ensures old(L.Sound(admission.ledger)) ==>
                var before := old(Spec.World(admission.ledger, map[], ME, admission.log));
                && (r.Ok? <==> Spec.MayHave(before, network, peer, approved))
                && (r.Err? ==> admission.ledger == old(admission.ledger) && admission.log == old(admission.log))
                && (owner != null ==>
                      var ticket := L.Ticket(network, before.ledger.scope, peer, before.ledger.generation + 1);
                      && ME in owner.View().owners && L.IsPending(admission.ledger, ticket)
                      && owner.View().owners[ME]
                         == Spec.Owner(network, peer, session, true, Some(Spec.Lease(ticket, session, true)), false))
    {
      owner := null;
      ghost var before := Spec.World(admission.ledger, map[], ME, admission.log);
      if L.Sound(before.ledger) { Spec.ReserveExactly(before, network, peer, session, approved); }
      if network != admission.ledger.network { return null, Fail(InvalidState); }
      if !approved { return null, Fail(AuthenticationFailed); }
      var (ledger, ticket) := L.Reserve(admission.ledger, peer);
      if ticket.Err? { return null, Err(ticket.error); }
      admission.ledger := ledger;
      admission.log := admission.log + [Spec.Granted(ticket.value)];
      owner := new RegisteredNapControlOwner(admission, network, peer, session,
                                             Spec.Lease(ticket.value, session, true));
      r := Ok(());
    }

    /** Takes the lease out; dropping it gives the slot back. */
    method TakeLease()
      requires lease.Some? && !dropped
      modifies this`lease, admission
      ensures lease == None
      ensures var owner := Spec.Owner(network, peer, session, open, None, attached);
              View() == Spec.DropLease(old(View()).(owners := map[ME := owner]), old(lease).value)
    {
      var taken := lease.value;
      lease := None;
      if taken.releaseOnDrop { admission.Retire(taken.ticket); }
    }

    method OnTransportLoss()
      requires !dropped
      modifies this`open, this`lease, admission
      ensures View() == Spec.TransportLoss(old(View()), ME)
    {
      open := false;
      if !attached && lease.Some? { TakeLease(); }
    }

    method ActivateAfterObservedAttachment(approved: bool) returns (r: Result<()>)
      requires !dropped
      modifies this`open, this`lease, this`attached, admission
      ensures (View(), r) == Spec.ActivateAttached(old(View()), ME, approved)
    {
      if lease.None? { return Fail(InvalidState); }
      attached := true;
      ghost var before := old(View());
      assert View() == before.(owners := before.owners[ME := before.owners[ME].(attached := true)]);
      if !Spec.SameSession(network, peer, session, lease.value) || !(open && approved) {
        OnTransportLoss();
        return Fail(AuthenticationFailed);
      }
      var (ledger, promoted) := L.Activate(admission.ledger, lease.value.ticket);
      if promoted == Ok(true) {
        admission.ledger := ledger;
        return Ok(());
      }
      OnTransportLoss();
      r := if promoted.Ok? then Fail(InvalidState) else Err(promoted.error);
    }

    method ConfirmObservedDetachIfCurrent(expectedNetwork: NetworkId, expectedPeer: NodeId, expectedSession: SessionId)
      returns (done: bool)
      requires !dropped
      modifies this`open, this`lease, this`attached, admission
      ensures (View(), done) == Spec.ConfirmDetach(old(View()), ME, expectedNetwork, expectedPeer, expectedSession)
    {
      if !attached || network != expectedNetwork || peer != expectedPeer || lease.None? { return false; }
      if !Spec.SameSession(expectedNetwork, expectedPeer, expectedSession, lease.value) { return false; }
      if session != expectedSession { return false; }
      open := false;
      attached := false;
      ghost var before := old(View());
      assert before.owners[ME := before.owners[ME].(open := false, attached := false, lease := None)]
          == map[ME := Spec.Owner(network, peer, session, open, None, attached)];
      TakeLease();
      done := true;
    }

    method CancelIfCurrent(expected: SessionId) returns (done: bool)
      requires !dropped
      modifies this`open, this`lease, admission
      ensures (View(), done) == Spec.CancelIfCurrent(old(View()), ME, expected)
    {
      if session != expected { return false; }
      OnTransportLoss();
      done := true;
    }

    /** A read, heartbeat or recheck; failure or end of stream counts as loss. */
    method Traffic(failed: bool)
      requires !dropped
      modifies this`open, this`lease, admission
      ensures View() == Spec.Step(old(View()), Spec.OnTraffic(ME, failed))
    {
      if failed { OnTransportLoss(); }
    }

    method Drop()
      requires !dropped
      modifies this, admission
      ensures View() == Spec.DropOwner(old(View()), ME)
    {
      if attached && lease.Some? { lease := Some(lease.value.(releaseOnDrop := false)); }
      open := false;
      if lease.Some? { TakeLease(); }
      dropped := true;
    }
  }
}
