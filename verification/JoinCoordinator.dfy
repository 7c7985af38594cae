/** The imperative join coordinator, one method per request, equal to playing the steps of `JoinTransaction`. */
module JoinCoordinator {
  import opened Vocabulary
  import opened AddressPlan
  import opened ControlEndpoints
  import Spec = JoinTransaction
  import JoinOutcome

  class TransactionalJoin {
    const pool: Pool
    var claimed: bool
    var store: Registry
    ghost var calls: seq<Spec.Call>
    ghost var finished: seq<Spec.Attempt>
    ghost var refused: seq<(NetworkId, CoreError)>

    ghost function View(): Spec.State
      reads this
    {
      Spec.State(pool, claimed, store, None, finished, refused)
    }

    constructor (pool: Pool, store: Registry)
      ensures View() == Spec.Initial(pool, store)
    {
      this.pool, this.store, claimed := pool, store, false;
      calls, finished, refused := [], [], [];
    }

    method Refuse(network: NetworkId, error: CoreError) returns (outcome: Spec.Outcome)
      modifies this`refused
      ensures View() == Spec.Refuse(old(View()), network, error)
      ensures outcome == Spec.Returned(Err(error))
    {
      refused := refused + [(network, error)];
      outcome := Spec.Returned(Err(error));
    }

    method JoinNetwork(network: NetworkId, w: Spec.Script) returns (outcome: Spec.Outcome)
      modifies this
      ensures View() == Spec.Attempted(old(View()), network, w)
      ensures outcome == if old(refused) != refused then Spec.Returned(Err(refused[|refused| - 1].1))
                         else finished[|finished| - 1].outcome
      ensures var starts := JoinOutcome.MayStart(old(View()), network, w.firstLoadError);
              && (!starts ==> finished == old(finished) && store == old(store) && claimed == old(claimed)
                              && |refused| == |old(refused)| + 1)
              && (starts ==> |finished| == |old(finished)| + 1 && refused == old(refused))
              && (outcome == Spec.Returned(Ok(())) <==>
                    starts && JoinOutcome.AllGood(JoinOutcome.TermsOf(pool, network), old(store), w))
    {
      JoinOutcome.AttemptedExactly(View(), network, w);
      if network == ZERO_NETWORK { outcome := Refuse(network, CoreError(InvalidState, "", None)); return; }
      if claimed { outcome := Refuse(network, CoreError(InvalidState, "", None)); return; }
      if w.firstLoadError.Some? { outcome := Refuse(network, w.firstLoadError.value); return; }
      var current := CurrentNetwork(store);
      if current.Err? { outcome := Refuse(network, current.error); return; }
      if current.value.Some? { outcome := Refuse(network, CoreError(InvalidState, "", None)); return; }
      var plan := PlanFor(network, pool);
      if plan.Err? { outcome := Refuse(network, plan.error); return; }
      claimed := true;
      var terms := Spec.Terms(network, plan.value.firstClient);
      var mayHaveLiveResources;
      outcome, mayHaveLiveResources := Transact(terms, w);
      if !mayHaveLiveResources { claimed := false; }
      finished := finished + [Spec.Attempt(terms, calls, outcome)];
    }

    /** From the first await to the end of the request; answers whether the guard must keep the flag. */
    method Transact(terms: Spec.Terms, w: Spec.Script) returns (outcome: Spec.Outcome, mayHaveLiveResources: bool)
      modifies this`store, this`calls
      ensures Spec.Play(old(store), Spec.Frame(terms, Spec.AtPreflight, []), w)
              == Spec.Ending(store, calls, outcome, !mayHaveLiveResources)
    {
      ghost var f := Spec.Frame(terms, Spec.AtPreflight, []);
      calls := f.calls + [Spec.Preflight(w.ready)];
      if w.ready.Dropped? { return Spec.Abandoned, false; }
      if w.ready.result.Err? { return Spec.Returned(Err(w.ready.result.error)), false; }
      f := Spec.Frame(terms, Spec.AtPanu, calls);
      assert Spec.Play(store, Spec.Frame(terms, Spec.AtPreflight, []), w) == Spec.Play(store, f, w);
      calls := calls + [Spec.EstablishPanu(w.attached)];
      if w.attached.Dropped? { return Spec.Abandoned, true; }
      if w.attached.result.Err? { return Spec.Returned(Err(w.attached.result.error)), true; }
      outcome, mayHaveLiveResources := Configure(terms, w.attached.result.value, w);
    }

    method Configure(terms: Spec.Terms, link: PanLink, w: Spec.Script)
      returns (outcome: Spec.Outcome, mayHaveLiveResources: bool)
      modifies this`store, this`calls
      ensures Spec.Play(old(store), Spec.Frame(terms, Spec.AtIp(link), old(calls)), w)
              == Spec.Ending(store, calls, outcome, !mayHaveLiveResources)
    {
      calls := calls + [Spec.ConfigureIp(link, w.configured)];
      if w.configured.Dropped? { return Spec.Abandoned, true; }
      if w.configured.result.Err? {
        outcome := Disconnect(terms, w.configured.result.error, link, Ok(()), Ok(()), false, w);
        return outcome, true;
      }
      var lease := w.configured.result.value;
      var fault := Spec.LeaseFault(terms, link, lease);
      if fault.Some? {
        outcome := Disconnect(terms, CoreError(fault.value, "", None), link, Ok(()), Ok(()), false, w);
        return outcome, true;
      }
      outcome, mayHaveLiveResources := Authenticate(terms, link, lease, w);
    }

    method Authenticate(terms: Spec.Terms, link: PanLink, lease: Lease, w: Spec.Script)
      returns (outcome: Spec.Outcome, mayHaveLiveResources: bool)
      modifies this`store, this`calls
      ensures Spec.Play(old(store), Spec.Frame(terms, Spec.AtControl(link, lease), old(calls)), w)
              == Spec.Ending(store, calls, outcome, !mayHaveLiveResources)
    {
      if w.meanwhile.Some? { store := w.meanwhile.value; }
      calls := calls + [Spec.StartControl(link, lease, w.started)];
      if w.started.Dropped? { return Spec.Abandoned, true; }
      if w.started.result.Err? {
        outcome := RollbackAfterIp(terms, w.started.result.error, lease, link, w);
        return outcome, true;
      }
      var session := w.started.result.value;
      ghost var f := Spec.Frame(terms, Spec.AtControl(link, lease), old(calls));
      var committed := Commit(f, terms, link, lease, session, w);
      if committed.Err? {
        outcome, mayHaveLiveResources := RollbackAfterControl(terms, committed.error, session, lease, link, w);
        return;
      }
      return Spec.Returned(Ok(())), false;
    }

    /** The synchronous tail: check the session, load, mark and save. */
    method Commit(ghost f: Spec.Frame, terms: Spec.Terms, link: PanLink, lease: Lease, session: Spec.Session,
                  w: Spec.Script)
      returns (r: Result<()>)
      requires f.terms == terms
      modifies this`store, this`calls
      ensures Spec.Commit(old(store), f, old(calls), link, lease, session, w.secondLoadError, w.saveError)
              == (if r.Ok? then Spec.Commits(store, calls)
                  else Spec.Waits(Spec.AtStop(r.error, session, lease, link), calls))
      ensures r.Err? ==> store == old(store)
    {
      if session.network != terms.network { return Fail(AuthenticationFailed); }
      if w.secondLoadError.Some? {
        calls := calls + [Spec.Load(Err(w.secondLoadError.value))];
        return Err(w.secondLoadError.value);
      }
      var registry := store;
      calls := calls + [Spec.Load(Ok(registry))];
      var joined := Spec.Joined(registry, terms.network);
      if joined.Err? { return Err(joined.error); }
      r := SaveTo(joined.value, w.saveError);
      calls := calls + [Spec.Save(joined.value, r)];
      if r.Ok? { store := joined.value; }
    }

    method RollbackAfterControl(terms: Spec.Terms, primary: CoreError, session: Spec.Session, lease: Lease,
                                link: PanLink, w: Spec.Script)
      returns (outcome: Spec.Outcome, mayHaveLiveResources: bool)
      modifies this`calls
      ensures Spec.Play(store, Spec.Frame(terms, Spec.AtStop(primary, session, lease, link), old(calls)), w)
              == Spec.Ending(store, calls, outcome, !mayHaveLiveResources)
    {
      calls := calls + [Spec.StopControl(session, w.stopped)];
      if w.stopped.Dropped? { return Spec.Abandoned, true; }
      calls := calls + [Spec.RemoveIp(lease, w.removed)];
      if w.removed.Dropped? { return Spec.Abandoned, true; }
      outcome := Disconnect(terms, primary, link, w.stopped.result, w.removed.result, true, w);
      var clean := w.stopped.result.Ok? && w.removed.result.Ok? && w.disconnected.Answer? && w.disconnected.result.Ok?;
      mayHaveLiveResources := !clean;
    }

    method RollbackAfterIp(terms: Spec.Terms, primary: CoreError, lease: Lease, link: PanLink, w: Spec.Script)
      returns (outcome: Spec.Outcome)
      modifies this`calls
      ensures Spec.Play(store, Spec.Frame(terms, Spec.AtRemove(primary, lease, link, Ok(()), false), old(calls)), w)
              == Spec.Ending(store, calls, outcome, false)
    {
      calls := calls + [Spec.RemoveIp(lease, w.removed)];
      if w.removed.Dropped? { return Spec.Abandoned; }
      outcome := Disconnect(terms, primary, link, Ok(()), w.removed.result, false, w);
    }

    method Disconnect(terms: Spec.Terms, primary: CoreError, link: PanLink, control: Result<()>, address: Result<()>,
                      mayReconcile: bool, w: Spec.Script) returns (outcome: Spec.Outcome)
      modifies this`calls
      ensures var phase := Spec.AtDisconnect(primary, link, control, address, mayReconcile);
              Spec.Play(store, Spec.Frame(terms, phase, old(calls)), w)
              == Spec.Ending(store, calls, outcome,
                             && mayReconcile && control.Ok? && address.Ok? && w.disconnected.Answer?
                             && w.disconnected.result.Ok?)
    {
      calls := calls + [Spec.DisconnectPanu(link, w.disconnected)];
      if w.disconnected.Dropped? { return Spec.Abandoned; }
      outcome := Spec.Returned(Err(Spec.CombineRollback(primary, control, address, w.disconnected.result)));
    }
  }
}
