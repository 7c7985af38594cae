/** What every run of the join coordinator keeps. */
module JoinSafety {
  import opened Vocabulary
  import opened AddressPlan
  import opened ControlEndpoints
  import opened JoinTransaction

  /** The coordinator is held exactly while a request runs or some past attempt is not settled. */
  ghost predicate Inv(s: State) {
    && (s.claimed <==> s.current.Some? || !AllSettled(s.finished))
    && (s.current.Some? ==> AllSettled(s.finished) && FrameInv(s.current.value))
    && (forall a <- s.finished :: AttemptInv(a))
  }

  ghost predicate AllSettled(finished: seq<Attempt>) {
    forall a <- finished :: Settled(a.calls)
  }

  // ---------------------------------------------------------------- one more call

  lemma OneMoreCall(terms: Terms, calls: seq<Call>, c: Call)
    ensures Unreturned(calls + [c]) ==
            if Obtained(c).Some? then Unreturned(calls) + {Obtained(c).value}
            else if GivenBack(c).Some? then Unreturned(calls) - {GivenBack(c).value}
            else Unreturned(calls)
    ensures Leaky(calls + [c]) <==> MayHaveLeaked(c) || Leaky(calls)
    ensures Committed(calls + [c]) <==> c.Save? && c.saved.Ok?
    ensures CleanupFailures(calls + [c]) == CleanupFailures(calls) + CleanupFailure(c)
    ensures Monitored(terms, calls + [c]) ==
            if Monitored(terms, calls).None? then None else Watch(terms, Monitored(terms, calls).value, c)
  {
    assert (calls + [c])[..|calls|] == calls;
  }

  lemma OneMoreFault(terms: Terms, calls: seq<Call>, c: Call, e: CoreError)
    ensures Primary(terms, calls + [c], e) <==>
            if c.StopControl? || c.RemoveIp? || c.DisconnectPanu? then Primary(terms, calls, e)
            else AllWell(terms, calls) &&
                 if ForwardError(c).Some? then e == ForwardError(c).value
                 else Verdict(terms, c).Some? && e.kind == Verdict(terms, c).value
  {
    assert (calls + [c])[..|calls|] == calls;
  }

  lemma StillWell(terms: Terms, calls: seq<Call>, c: Call)
    requires AllWell(terms, calls) && ForwardError(c).None? && Verdict(terms, c).None?
    ensures AllWell(terms, calls + [c])
  {
    assert (calls + [c])[..|calls|] == calls;
  }

  /** A forward call that obtained a resource puts it on top. */
  lemma AdvanceStep(terms: Terms, calls: seq<Call>, next: nat, stack: seq<Resource>, c: Call, r: Resource)
    requires Holding(terms, calls, next, stack)
    requires Obtained(c) == Some(r)
    requires Watch(terms, Monitor(next, stack, false, false), c) == Some(Monitor(next + 1, stack + [r], false, false))
    ensures Holding(terms, calls + [c], next + 1, stack + [r])
  {
    OneMoreCall(terms, calls, c);
    assert (set x | x in stack + [r]) == (set x | x in stack) + {r};
  }

  /** What ending a request needs of its attempt, whichever way it ends. */
  lemma FinishKeepsInv(s: State, f: Frame, calls: seq<Call>, outcome: Outcome, free: bool)
    requires Inv(s) && s.current == Some(f)
    requires AttemptInv(Attempt(f.terms, calls, outcome))
    requires free <==> Settled(calls)
    ensures Inv(Finish(s, f, calls, outcome, free))
  {
    var t, a := Finish(s, f, calls, outcome, free), Attempt(f.terms, calls, outcome);
    assert t.finished[|s.finished|] == a;
    assert forall b <- t.finished :: b in s.finished || b == a;
    assert forall b <- s.finished :: b in t.finished;
  }

  lemma SuspendKeepsInv(s: State, f: Frame, phase: Phase, calls: seq<Call>)
    requires Inv(s) && s.current == Some(f)
    requires FrameInv(Frame(f.terms, phase, calls))
    ensures Inv(Suspend(s, f, phase, calls))
  {
  }

  // ---------------------------------------------------------------- acquiring

  lemma JoinKeepsInv(s: State, network: NetworkId, loadError: Option<CoreError>)
    requires Inv(s)
    ensures Inv(Join(s, network, loadError))
  {
  }

  lemma PreflightKeepsInv(s: State, f: Frame, reply: Reply<()>)
    requires Inv(s) && s.current == Some(f) && f.phase.AtPreflight?
    ensures Inv(Apply(s, f, AfterPreflight(f, reply)))
  {
    var c := Preflight(reply);
    OneMoreCall(f.terms, [], c);
    assert f.calls + [c] == [] + [c];
    match reply
    case Dropped => FinishKeepsInv(s, f, f.calls + [c], Abandoned, true);
    case Answer(Err(e)) =>
      OneMoreFault(f.terms, [], c, e);
      assert FailureInv(Attempt(f.terms, f.calls + [c], Returned(Err(e))), e);
      FinishKeepsInv(s, f, f.calls + [c], Returned(Err(e)), true);
    case Answer(Ok(_)) =>
      StillWell(f.terms, [], c);
      SuspendKeepsInv(s, f, AtPanu, f.calls + [c]);
  }

  lemma PanuKeepsInv(s: State, f: Frame, reply: Reply<PanLink>)
    requires Inv(s) && s.current == Some(f) && f.phase.AtPanu?
    ensures Inv(Apply(s, f, AfterPanu(f, reply)))
  {
    var c := EstablishPanu(reply);
    OneMoreCall(f.terms, f.calls, c);
    match reply
    case Dropped => FinishKeepsInv(s, f, f.calls + [c], Abandoned, false);
    case Answer(Err(e)) =>
      OneMoreFault(f.terms, f.calls, c, e);
      assert FailureInv(Attempt(f.terms, f.calls + [c], Returned(Err(e))), e);
      FinishKeepsInv(s, f, f.calls + [c], Returned(Err(e)), false);
    case Answer(Ok(link)) =>
      AdvanceStep(f.terms, f.calls, 1, [], c, Link(link));
      StillWell(f.terms, f.calls, c);
      assert [] + [Link(link)] == [Link(link)];
      SuspendKeepsInv(s, f, AtIp(link), f.calls + [c]);
  }

  lemma IpKeepsInv(s: State, f: Frame, link: PanLink, reply: Reply<Lease>)
    requires Inv(s) && s.current == Some(f) && f.phase == AtIp(link)
    ensures Inv(Apply(s, f, AfterIp(f, link, reply)))
  {
    var c := ConfigureIp(link, reply);
    OneMoreCall(f.terms, f.calls, c);
    match reply
    case Dropped => FinishKeepsInv(s, f, f.calls + [c], Abandoned, false);
    case Answer(Err(e)) =>
      OneMoreFault(f.terms, f.calls, c, e);
      SuspendKeepsInv(s, f, AtDisconnect(e, link, Ok(()), Ok(()), false), f.calls + [c]);
    case Answer(Ok(lease)) => LeaseKeepsInv(s, f, link, lease);
  }

  lemma LeaseKeepsInv(s: State, f: Frame, link: PanLink, lease: Lease)
    requires Inv(s) && s.current == Some(f) && f.phase == AtIp(link)
    ensures Inv(Apply(s, f, AfterIp(f, link, Answer(Ok(lease)))))
  {
    var c := ConfigureIp(link, Answer(Ok(lease)));
    match LeaseFault(f.terms, link, lease)
    case Some(kind) =>
      OneMoreCall(f.terms, f.calls, c);
      OneMoreFault(f.terms, f.calls, c, CoreError(kind, "", None));
      assert Address(lease) in Unreturned(f.calls + [c]);
      SuspendKeepsInv(s, f, AtDisconnect(CoreError(kind, "", None), link, Ok(()), Ok(()), false), f.calls + [c]);
    case None =>
      AdvanceStep(f.terms, f.calls, 2, [Link(link)], c, Address(lease));
      StillWell(f.terms, f.calls, c);
      assert [Link(link)] + [Address(lease)] == [Link(link), Address(lease)];
      SuspendKeepsInv(s, f, AtControl(link, lease), f.calls + [c]);
  }

  lemma ControlKeepsInv(s: State, f: Frame, link: PanLink, lease: Lease, reply: Reply<Session>,
                        loadError: Option<CoreError>, saveError: Option<CoreError>)
    requires Inv(s) && s.current == Some(f) && f.phase == AtControl(link, lease)
    ensures Inv(Apply(s, f, AfterControl(s.store, f, link, lease, reply, loadError, saveError)))
  {
    var c := StartControl(link, lease, reply);
    OneMoreCall(f.terms, f.calls, c);
    match reply
    case Dropped => FinishKeepsInv(s, f, f.calls + [c], Abandoned, false);
    case Answer(Err(e)) =>
      OneMoreFault(f.terms, f.calls, c, e);
      SuspendKeepsInv(s, f, AtRemove(e, lease, link, Ok(()), false), f.calls + [c]);
    case Answer(Ok(session)) =>
      AdvanceStep(f.terms, f.calls, 3, [Link(link), Address(lease)], c, Control(session));
      assert [Link(link), Address(lease)] + [Control(session)] == [Link(link), Address(lease), Control(session)];
      CommitKeepsInv(s, f, f.calls + [c], c, link, lease, session, loadError, saveError);
  }

  /** Everything is held. */
  ghost predicate Ready(f: Frame, calls: seq<Call>, link: PanLink, lease: Lease, session: Session, next: nat) {
    Holding(f.terms, calls, next, [Link(link), Address(lease), Control(session)])
  }

  lemma StopNext(s: State, f: Frame, calls: seq<Call>, link: PanLink, lease: Lease, session: Session, next: nat,
                 e: CoreError)
    requires Inv(s) && s.current == Some(f)
    requires Ready(f, calls, link, lease, session, next) && !Committed(calls)
    requires Primary(f.terms, calls, e)
    ensures Inv(Suspend(s, f, AtStop(e, session, lease, link), calls))
  {
    SuspendKeepsInv(s, f, AtStop(e, session, lease, link), calls);
  }

  lemma CommitKeepsInv(s: State, f: Frame, calls: seq<Call>, c: Call, link: PanLink, lease: Lease, session: Session,
                       loadError: Option<CoreError>, saveError: Option<CoreError>)
    requires Inv(s) && s.current == Some(f)
    requires c == StartControl(link, lease, Answer(Ok(session))) && calls == f.calls + [c]
    requires Ready(f, calls, link, lease, session, 4) && AllWell(f.terms, f.calls)
    ensures Inv(Apply(s, f, Commit(s.store, f, calls, link, lease, session, loadError, saveError)))
  {
    if session.network != f.terms.network {
      var e := CoreError(AuthenticationFailed, "", None);
      OneMoreFault(f.terms, f.calls, c, e);
      StopNext(s, f, calls, link, lease, session, 4, e);
    } else {
      StillWell(f.terms, f.calls, c);
      if loadError.Some? {
        UnloadedKeepsInv(s, f, calls, link, lease, session, loadError.value);
      } else {
        LoadKeepsInv(s, f, calls, link, lease, session, saveError);
      }
    }
  }

  lemma UnloadedKeepsInv(s: State, f: Frame, calls: seq<Call>, link: PanLink, lease: Lease, session: Session,
                         e: CoreError)
    requires Inv(s) && s.current == Some(f) && session.network == f.terms.network
    requires Ready(f, calls, link, lease, session, 4) && AllWell(f.terms, calls)
    ensures Inv(Suspend(s, f, AtStop(e, session, lease, link), calls + [Load(Err(e))]))
  {
    OneMoreCall(f.terms, calls, Load(Err(e)));
    OneMoreFault(f.terms, calls, Load(Err(e)), e);
    StopNext(s, f, calls + [Load(Err(e))], link, lease, session, 5, e);
  }

  lemma LoadKeepsInv(s: State, f: Frame, calls: seq<Call>, link: PanLink, lease: Lease, session: Session,
                     saveError: Option<CoreError>)
    requires Inv(s) && s.current == Some(f) && session.network == f.terms.network
    requires Ready(f, calls, link, lease, session, 4) && AllWell(f.terms, calls)
    ensures var loaded, joined := calls + [Load(Ok(s.store))], Joined(s.store, f.terms.network);
            Inv(Apply(s, f, CommitLoaded(loaded, link, lease, session, joined, saveError)))
  {
    var load, joined := Load(Ok(s.store)), Joined(s.store, f.terms.network);
    OneMoreCall(f.terms, calls, load);
    if joined.Err? {
      OneMoreFault(f.terms, calls, load, joined.error);
      RefusedJoin(s.store, f.terms.network);
    } else {
      StillWell(f.terms, calls, load);
    }
    LoadedKeepsInv(s, f, calls + [load], link, lease, session, joined, saveError);
  }

  lemma RefusedJoin(r: Registry, network: NetworkId)
    requires Joined(r, network).Err?
    ensures Joined(r, network).error.kind == InvalidState
  {
  }

  lemma LoadedKeepsInv(s: State, f: Frame, loaded: seq<Call>, link: PanLink, lease: Lease, session: Session,
                       joined: Result<Registry>, saveError: Option<CoreError>)
    requires Inv(s) && s.current == Some(f) && session.network == f.terms.network
    requires Ready(f, loaded, link, lease, session, 5) && !Committed(loaded)
    requires if joined.Err? then Primary(f.terms, loaded, joined.error) else AllWell(f.terms, loaded)
    ensures Inv(Apply(s, f, CommitLoaded(loaded, link, lease, session, joined, saveError)))
  {
    match joined
    case Err(e) => StopNext(s, f, loaded, link, lease, session, 5, e);
    case Ok(r) => SaveKeepsInv(s, f, loaded, link, lease, session, r, SaveTo(r, saveError));
  }

  lemma SaveKeepsInv(s: State, f: Frame, loaded: seq<Call>, link: PanLink, lease: Lease, session: Session,
                     joined: Registry, saved: Result<()>)
    requires Inv(s) && s.current == Some(f) && session.network == f.terms.network
    requires Ready(f, loaded, link, lease, session, 5) && AllWell(f.terms, loaded)
    ensures saved.Err? ==> Inv(Suspend(s, f, AtStop(saved.error, session, lease, link), loaded + [Save(joined, saved)]))
    ensures saved.Ok? ==> Inv(Finish(s.(store := joined), f, loaded + [Save(joined, saved)], Returned(Ok(())), true))
  {
    var save := Save(joined, saved);
    var calls := loaded + [save];
    OneMoreCall(f.terms, loaded, save);
    match saved
    case Err(e) =>
      OneMoreFault(f.terms, loaded, save, e);
      SuspendKeepsInv(s, f, AtStop(e, session, lease, link), calls);
    case Ok(_) =>
      assert CommitInv(Attempt(f.terms, calls, Returned(Ok(()))));
      FinishKeepsInv(s.(store := joined), f, calls, Returned(Ok(())), true);
  }

  // ---------------------------------------------------------------- undoing

  /** Releasing the top of the stack. */
  lemma ReleaseStep(terms: Terms, calls: seq<Call>, rest: seq<Resource>, r: Resource, c: Call,
                    primary: CoreError, failures: seq<RollbackFailure>, clean: bool)
    requires r !in rest
    requires Undoing(terms, calls, rest + [r], primary, failures, clean)
    requires || (r.Control? && c.StopControl? && c.session == r.session)
             || (r.Address? && c.RemoveIp? && c.lease == r.lease)
             || (r.Link? && c.DisconnectPanu? && c.link == r.link)
    ensures Undoing(terms, calls + [c], rest, primary, failures + CleanupFailure(c), clean && GivenBack(c).Some?)
  {
    OneMoreCall(terms, calls, c);
    OneMoreFault(terms, calls, c, primary);
    var m := Monitored(terms, calls).value;
    assert m.stack[..|m.stack| - 1] == rest;
    if clean {
      assert r in rest + [r];
      assert r in Unreturned(calls);
      if GivenBack(c).Some? {
        assert Unreturned(calls + [c]) == (set x | x in rest);
      } else {
        assert r in Unreturned(calls + [c]);
      }
    } else if !Leaky(calls) {
      var lost :| lost in Unreturned(calls) && lost !in rest + [r];
      assert lost != r by { assert r in rest + [r]; }
      assert lost in Unreturned(calls + [c]) && lost !in rest;
    }
  }

  lemma StopKeepsInv(s: State, f: Frame, reply: Reply<()>)
    requires Inv(s) && s.current == Some(f) && f.phase.AtStop?
    ensures Inv(Apply(s, f, AfterStop(f, f.phase, reply)))
  {
    var p := f.phase;
    var c := StopControl(p.session, reply);
    assert [Link(p.link), Address(p.lease), Control(p.session)]
           == [Link(p.link), Address(p.lease)] + [Control(p.session)];
    ReleaseStep(f.terms, f.calls, [Link(p.link), Address(p.lease)], Control(p.session), c, p.primary, [], true);
    match reply
    case Dropped =>
      NotSettled(f.terms, f.calls + [c], [Link(p.link), Address(p.lease)], p.primary, CleanupFailures(f.calls + [c]),
                 false);
      FinishKeepsInv(s, f, f.calls + [c], Abandoned, false);
    case Answer(control) => SuspendKeepsInv(s, f, AtRemove(p.primary, p.lease, p.link, control, true), f.calls + [c]);
  }

  lemma NotSettled(terms: Terms, calls: seq<Call>, stack: seq<Resource>, primary: CoreError,
                   failures: seq<RollbackFailure>, clean: bool)
    requires Undoing(terms, calls, stack, primary, failures, clean) && !clean
    ensures !Settled(calls)
  {
  }

  lemma RemoveKeepsInv(s: State, f: Frame, reply: Reply<()>)
    requires Inv(s) && s.current == Some(f) && f.phase.AtRemove?
    ensures Inv(Apply(s, f, AfterRemove(f, f.phase, reply)))
  {
    var p := f.phase;
    var c := RemoveIp(p.lease, reply);
    var clean := p.mayReconcile && p.control.Ok?;
    assert [Link(p.link), Address(p.lease)] == [Link(p.link)] + [Address(p.lease)];
    ReleaseStep(f.terms, f.calls, [Link(p.link)], Address(p.lease), c, p.primary,
                FailureOf(ControlRollback, p.control), clean);
    match reply
    case Dropped =>
      NotSettled(f.terms, f.calls + [c], [Link(p.link)], p.primary, CleanupFailures(f.calls + [c]), false);
      FinishKeepsInv(s, f, f.calls + [c], Abandoned, false);
    case Answer(address) =>
      SuspendKeepsInv(s, f, AtDisconnect(p.primary, p.link, p.control, address, p.mayReconcile), f.calls + [c]);
  }

  lemma DisconnectKeepsInv(s: State, f: Frame, reply: Reply<()>)
    requires Inv(s) && s.current == Some(f) && f.phase.AtDisconnect?
    ensures Inv(Apply(s, f, AfterDisconnect(f, f.phase, reply)))
  {
    var p := f.phase;
    var c := DisconnectPanu(p.link, reply);
    var clean := p.mayReconcile && p.control.Ok? && p.address.Ok?;
    var failures := FailureOf(ControlRollback, p.control) + FailureOf(AddressRollback, p.address);
    assert [Link(p.link)] == [] + [Link(p.link)];
    ReleaseStep(f.terms, f.calls, [], Link(p.link), c, p.primary, failures, clean);
    match reply
    case Dropped => FinishKeepsInv(s, f, f.calls + [c], Abandoned, false);
    case Answer(panu) =>
      var e := CombineRollback(p.primary, p.control, p.address, panu);
      assert FailureInv(Attempt(f.terms, f.calls + [c], Returned(Err(e))), e);
      FinishKeepsInv(s, f, f.calls + [c], Returned(Err(e)), clean && panu.Ok?);
  }

  // ---------------------------------------------------------------- runs

  /** An answer to another await than the current one changes nothing. */
  lemma WaitingKeepsInv(s: State, f: Frame)
    requires Inv(s) && s.current == Some(f)
    ensures Inv(Apply(s, f, Waits(f.phase, f.calls)))
  {
    assert Apply(s, f, Waits(f.phase, f.calls)) == s;
  }

  predicate Awaited(p: Phase, e: Event) {
    match p
    case AtPreflight => e.OnPreflight?
    case AtPanu => e.OnPanu?
    case AtIp(_) => e.OnIp?
    case AtControl(_, _) => e.OnControl?
    case _ => e.OnRelease?
  }

  lemma DecideKeepsInv(s: State, f: Frame, e: Event)
    requires Inv(s) && s.current == Some(f)
    ensures Inv(Apply(s, f, Decide(s.store, f, e)))
  {
    if !Awaited(f.phase, e) {
      WaitingKeepsInv(s, f);
    } else if e.OnRelease? {
      ReleaseKeepsInv(s, f, e.released);
    } else {
      match f.phase
      case AtPreflight => PreflightKeepsInv(s, f, e.ready);
      case AtPanu => PanuKeepsInv(s, f, e.attached);
      case AtIp(link) => IpKeepsInv(s, f, link, e.configured);
      case AtControl(link, lease) => ControlKeepsInv(s, f, link, lease, e.started, e.loadError, e.saveError);
    }
  }

  lemma ReleaseKeepsInv(s: State, f: Frame, reply: Reply<()>)
    requires Inv(s) && s.current == Some(f) && Awaited(f.phase, OnRelease(reply))
    ensures Inv(Apply(s, f, Decide(s.store, f, OnRelease(reply))))
  {
    match f.phase
    case AtStop(_, _, _, _) => StopKeepsInv(s, f, reply);
    case AtRemove(_, _, _, _, _) => RemoveKeepsInv(s, f, reply);
    case AtDisconnect(_, _, _, _, _) => DisconnectKeepsInv(s, f, reply);
  }

  lemma StepKeepsInv(s: State, e: Event)
    requires Inv(s)
    ensures Inv(Step(s, e))
  {
    match e
    case OnJoin(network, loadError) => JoinKeepsInv(s, network, loadError);
    case OnStoreChange(r) =>
    case _ => if s.current.Some? { DecideKeepsInv(s, s.current.value, e); }
  }

  lemma StepKeepsPool(s: State, e: Event)
    ensures Step(s, e).pool == s.pool
  {
  }

  lemma {:induction false} EveryRunKeepsInv(pool: Pool, store: Registry, events: seq<Event>)
    ensures Inv(Run(Initial(pool, store), events))
    ensures Run(Initial(pool, store), events).pool == pool
  {
    if events != [] {
      var before := Run(Initial(pool, store), events[..|events| - 1]);
      EveryRunKeepsInv(pool, store, events[..|events| - 1]);
      StepKeepsInv(before, events[|events| - 1]);
      StepKeepsPool(before, events[|events| - 1]);
    }
  }

  /**
   Whenever the coordinator is free, every link, lease and session any past attempt obtained was
   given back by a cleanup call that answered Ok, or belongs to an attempt whose save succeeded, and
   no acquisition failed or was cancelled; and it is held for no other reason.
   */
  lemma FreeExactlyWhenSettled(pool: Pool, store: Registry, events: seq<Event>)
    ensures var s := Run(Initial(pool, store), events);
            !s.claimed <==> s.current.None? && forall a <- s.finished :: Settled(a.calls)
  {
    EveryRunKeepsInv(pool, store, events);
  }

  /** Once an attempt ended unsettled, no later request reaches the runtime at all. */
  lemma {:induction false} NeverFreedAgain(s: State, events: seq<Event>)
    requires s.claimed && s.current.None?
    ensures Run(s, events).claimed && Run(s, events).current.None?
    ensures Run(s, events).finished == s.finished
  {
    if events != [] { NeverFreedAgain(s, events[..|events| - 1]); }
  }

  /** Playing a request to its end is a run of the machine, so every theorem here holds of it. */
  lemma {:induction false} PlayIsARun(s: State, f: Frame, w: Script) returns (events: seq<Event>)
    requires s.current == Some(f)
    ensures var end := Play(s.store, f, w);
            Run(s, events) == Finish(s.(store := end.store), f, end.calls, end.outcome, end.free)
    decreases Rank(f.phase)
  {
    var s' := s.(store := StoreAt(s.store, f.phase, w));
    var cue := Cue(f.phase, w);
    var next := Decide(s'.store, f, cue);
    var t := Apply(s', f, next);
    events := [];
    if next.Waits? { events := PlayIsARun(t, t.current.value, w); }
    Prepend(s, s', f, cue, events);
    events := [OnStoreChange(s'.store)] + ([cue] + events);
  }

  lemma Prepend(s: State, s': State, f: Frame, cue: Event, rest: seq<Event>)
    requires s.current == Some(f) && s' == s.(store := s'.store) && !cue.OnJoin? && !cue.OnStoreChange?
    ensures Run(s, [OnStoreChange(s'.store)] + ([cue] + rest)) == Run(Apply(s', f, Decide(s'.store, f, cue)), rest)
  {
    RunFirst(s, OnStoreChange(s'.store), [cue] + rest);
    RunFirst(s', cue, rest);
  }

  lemma {:induction false} RunFirst(s: State, a: Event, rest: seq<Event>)
    ensures Run(s, [a] + rest) == Run(Step(s, a), rest)
  {
    var all := [a] + rest;
    if rest == [] {
      assert all == [a] && all[..0] == [];
    } else {
      RunFirst(s, a, rest[..|rest| - 1]);
      assert all[..|all| - 1] == [a] + rest[..|rest| - 1];
    }
  }

  /** The store changes only under a commit, which writes exactly the joined registry it just loaded. */
  lemma StoreChangesOnlyByCommit(s: State, e: Event)
    requires !e.OnStoreChange?
    ensures Step(s, e).store != s.store ==>
              && s.current.Some? && Step(s, e).current.None?
              && Joined(s.store, s.current.value.terms.network) == Ok(Step(s, e).store) && Storable(Step(s, e).store)
              && Step(s, e).finished != [] && Step(s, e).finished[|s.finished|].outcome == Returned(Ok(()))
    ensures |Step(s, e).finished| > |s.finished| && Step(s, e).finished[|s.finished|].outcome == Returned(Ok(())) ==>
              Joined(s.store, s.current.value.terms.network) == Ok(Step(s, e).store)
  {
    if s.current.Some? && !e.OnJoin? {
      var f := s.current.value;
      var next := Decide(s.store, f, e);
      CommitsJoined(s.store, f, e);
      assert Step(s, e) == Apply(s, f, next);
    }
  }

  lemma CommitsJoined(store: Registry, f: Frame, e: Event)
    ensures var next := Decide(store, f, e);
            && (next.Commits? ==> Joined(store, f.terms.network) == Ok(next.registry) && Storable(next.registry))
            && (next.Ends? ==> next.outcome != Returned(Ok(())))
  {
  }

  // ---------------------------------------------------------------- shape of a trace

  function KeptBy(terms: Terms, c: Call): seq<Resource> {
    if Obtained(c).None? || (c.ConfigureIp? && Verdict(terms, c).Some?) then [] else [Obtained(c).value]
  }

  /** The verified resources a trace obtained, in order. */
  function Kept(terms: Terms, calls: seq<Call>): seq<Resource> {
    if calls == [] then [] else Kept(terms, calls[..|calls| - 1]) + KeptBy(terms, calls[|calls| - 1])
  }

  function Named(c: Call): Option<Resource> {
    match c
    case StopControl(session, _) => Some(Control(session))
    case RemoveIp(lease, _) => Some(Address(lease))
    case DisconnectPanu(link, _) => Some(Link(link))
    case _ => None
  }

  /** The resources its cleanup calls named, latest first. */
  function Freed(calls: seq<Call>): seq<Resource> {
    if calls == [] then [] else
      var c := calls[|calls| - 1];
      if Named(c).None? then Freed(calls[..|calls| - 1]) else [Named(c).value] + Freed(calls[..|calls| - 1])
  }

  predicate ReleasesOnlyAfter(calls: seq<Call>, k: nat) {
    && k <= |calls|
    && (forall i :: 0 <= i < k ==> Named(calls[i]).None?)
    && (forall i :: k <= i < |calls| ==> Named(calls[i]).Some?)
  }

  lemma PopTakesTheTop(m: Monitor, r: Resource)
    requires Pop(m, r).Some?
    ensures m.stack == Pop(m, r).value.stack + [r] && Pop(m, r).value.releasing
  {
  }

  lemma WatchRelease(terms: Terms, m: Monitor, c: Call)
    requires Watch(terms, m, c).Some? && Named(c).Some?
    ensures Watch(terms, m, c) == Pop(m, Named(c).value) && Obtained(c).None?
  {
  }

  lemma WatchForward(terms: Terms, m: Monitor, c: Call)
    requires Watch(terms, m, c).Some? && Named(c).None?
    ensures !m.releasing && !Watch(terms, m, c).value.releasing
    ensures Watch(terms, m, c).value.stack == m.stack + KeptBy(terms, c)
  {
    assert m.stack + [] == m.stack;
  }

  /** One call seen by the monitor: a release takes the top of the stack, anything else comes before all releases. */
  lemma LastCall(terms: Terms, calls: seq<Call>, before: seq<Call>, c: Call)
    requires calls == before + [c] && Monitored(terms, calls).Some?
    ensures Monitored(terms, before).Some?
    ensures var m, m' := Monitored(terms, before).value, Monitored(terms, calls).value;
            if Named(c).Some? then m'.releasing && m.stack == m'.stack + [Named(c).value] && Obtained(c).None?
            else !m.releasing && !m'.releasing && m'.stack == m.stack + KeptBy(terms, c)
  {
    OneMoreCall(terms, before, c);
    var m := Monitored(terms, before).value;
    if Named(c).Some? {
      WatchRelease(terms, m, c);
      PopTakesTheTop(m, Named(c).value);
    } else {
      WatchForward(terms, m, c);
    }
  }

  lemma {:induction false} ReleasesComeLast(terms: Terms, calls: seq<Call>) returns (k: nat)
    requires Monitored(terms, calls).Some?
    ensures ReleasesOnlyAfter(calls, k)
    ensures Monitored(terms, calls).value.releasing <==> k < |calls|
  {
    if calls == [] { return 0; }
    var before, c := calls[..|calls| - 1], calls[|calls| - 1];
    LastCall(terms, calls, before, c);
    k := ReleasesComeLast(terms, before);
    k := Later(calls, before, c, k);
  }

  lemma Later(calls: seq<Call>, before: seq<Call>, c: Call, k: nat) returns (k': nat)
    requires calls == before + [c] && ReleasesOnlyAfter(before, k)
    requires Named(c).None? ==> k == |before|
    ensures ReleasesOnlyAfter(calls, k') && (k' < |calls| <==> Named(c).Some?)
  {
    k' := if Named(c).None? then |calls| else k;
  }

  lemma LastKept(terms: Terms, calls: seq<Call>, before: seq<Call>, c: Call)
    requires calls == before + [c]
    ensures Kept(terms, calls) == Kept(terms, before) + KeptBy(terms, c)
    ensures Freed(calls) == if Named(c).None? then Freed(before) else [Named(c).value] + Freed(before)
  {
    assert calls[..|calls| - 1] == before;
  }

  /** What is still held and what was given back make up, in order, all that was kept. */
  lemma {:induction false} ReverseOrder(terms: Terms, calls: seq<Call>)
    requires Monitored(terms, calls).Some?
    ensures Kept(terms, calls) == Monitored(terms, calls).value.stack + Freed(calls)
  {
    if calls != [] {
      var before, c := calls[..|calls| - 1], calls[|calls| - 1];
      LastCall(terms, calls, before, c);
      ReverseOrder(terms, before);
      if Named(c).None? {
        var k := ReleasesComeLast(terms, before);
        NothingFreed(before, k);
      }
      LastKept(terms, calls, before, c);
      Rebalance(Kept(terms, before), Monitored(terms, before).value.stack, Freed(before),
                Monitored(terms, calls).value.stack, Named(c), KeptBy(terms, c));
    }
  }

  lemma Rebalance(kept: seq<Resource>, stack: seq<Resource>, freed: seq<Resource>, stack': seq<Resource>,
                  named: Option<Resource>, more: seq<Resource>)
    requires kept == stack + freed
    requires named.Some? ==> stack == stack' + [named.value] && more == []
    requires named.None? ==> stack' == stack + more && freed == []
    ensures kept + more == stack' + (if named.None? then freed else [named.value] + freed)
  {
  }

  lemma {:induction false} NothingFreed(calls: seq<Call>, k: nat)
    requires ReleasesOnlyAfter(calls, k) && k == |calls|
    ensures Freed(calls) == []
  {
    if calls != [] { NothingFreed(calls[..|calls| - 1], k - 1); }
  }

  /** An address comes onto the stack only when the runtime answers it and it has no fault. */
  lemma NewAddress(terms: Terms, m: Monitor, c: Call, lease: Lease)
    requires Watch(terms, m, c).Some? && Address(lease) !in m.stack
    requires Address(lease) in Watch(terms, m, c).value.stack || (c.RemoveIp? && c.lease == lease)
    ensures c.ConfigureIp? && c == ConfigureIp(c.link, Answer(Ok(lease))) && LeaseFault(terms, c.link, lease).None?
  {
  }

  /** Whatever a cleanup removed or the stack holds as an address was answered by the runtime and verified. */
  lemma {:induction false} AddressesAreVerified(terms: Terms, calls: seq<Call>, lease: Lease)
    requires Monitored(terms, calls).Some?
    requires || Address(lease) in Monitored(terms, calls).value.stack
             || exists c <- calls :: c.RemoveIp? && c.lease == lease
    ensures exists link :: ConfigureIp(link, Answer(Ok(lease))) in calls && LeaseFault(terms, link, lease).None?
  {
    var n := |calls| - 1;
    var c, before := calls[n], calls[..n];
    var m := Monitored(terms, before).value;
    assert c in calls && forall d <- calls :: d in before || d == c;
    if Address(lease) in m.stack || exists d <- before :: d.RemoveIp? && d.lease == lease {
      AddressesAreVerified(terms, before, lease);
      var link :| ConfigureIp(link, Answer(Ok(lease))) in before && LeaseFault(terms, link, lease).None?;
      assert ConfigureIp(link, Answer(Ok(lease))) in calls;
    } else {
      NewAddress(terms, m, c, lease);
    }
  }

  function Saves(calls: seq<Call>): nat {
    if calls == [] then 0 else Saves(calls[..|calls| - 1]) + (if calls[|calls| - 1].Save? then 1 else 0)
  }

  lemma {:induction false} SavesAtMostOnce(terms: Terms, calls: seq<Call>)
    requires Monitored(terms, calls).Some?
    ensures Saves(calls) == if Monitored(terms, calls).value.saved then 1 else 0
    ensures Monitored(terms, calls).value.saved <==> Monitored(terms, calls).value.next == 6
    ensures Monitored(terms, calls).value.next <= 6
  {
    if calls != [] { SavesAtMostOnce(terms, calls[..|calls| - 1]); }
  }

  /**
   Every finished attempt of every run: releases follow acquisitions and name exactly the kept
   resources in reverse; membership is written at most once; every removed lease was verified.
   */
  lemma EveryTraceIsDisciplined(pool: Pool, store: Registry, events: seq<Event>, a: Attempt) returns (k: nat)
    requires a in Run(Initial(pool, store), events).finished
    ensures ReleasesOnlyAfter(a.calls, k) && Saves(a.calls) <= 1
    ensures a.outcome.Returned? && a.outcome.result.Err? ==>
              Freed(a.calls) == Kept(a.terms, a.calls) && !Committed(a.calls)
    ensures a.outcome == Returned(Ok(())) ==>
              Freed(a.calls) == [] && |Kept(a.terms, a.calls)| == 3 && Committed(a.calls)
    ensures forall i :: 0 <= i < |a.calls| && a.calls[i].RemoveIp? ==>
              exists link :: ConfigureIp(link, Answer(Ok(a.calls[i].lease))) in a.calls
                             && LeaseFault(a.terms, link, a.calls[i].lease).None?
  {
    EveryRunKeepsInv(pool, store, events);
    k := ReleasesComeLast(a.terms, a.calls);
    ReverseOrder(a.terms, a.calls);
    SavesAtMostOnce(a.terms, a.calls);
    if a.outcome == Returned(Ok(())) { NothingFreed(a.calls, k); }
    forall i | 0 <= i < |a.calls| && a.calls[i].RemoveIp?
      ensures exists link :: ConfigureIp(link, Answer(Ok(a.calls[i].lease))) in a.calls
                             && LeaseFault(a.terms, link, a.calls[i].lease).None?
    {
      AddressesAreVerified(a.terms, a.calls, a.calls[i].lease);
    }
  }

  lemma {:induction false} AllWellMeans(terms: Terms, calls: seq<Call>)
    ensures AllWell(terms, calls) <==>
            forall i :: 0 <= i < |calls| ==> ForwardError(calls[i]).None? && Verdict(terms, calls[i]).None?
  {
    if calls != [] {
      var n := |calls| - 1;
      AllWellMeans(terms, calls[..n]);
      assert forall i :: 0 <= i < n ==> calls[..n][i] == calls[i];
    }
  }

  /** Call `k` went wrong with this error; every call before it went well, and every call after it is a release. */
  ghost predicate FirstFault(terms: Terms, calls: seq<Call>, k: nat, e: CoreError) {
    && k < |calls|
    && (forall i :: 0 <= i < k ==> ForwardError(calls[i]).None? && Verdict(terms, calls[i]).None?)
    && (forall i :: k < i < |calls| ==> calls[i].StopControl? || calls[i].RemoveIp? || calls[i].DisconnectPanu?)
    && if ForwardError(calls[k]).Some? then e == ForwardError(calls[k]).value
       else Verdict(terms, calls[k]).Some? && e.kind == Verdict(terms, calls[k]).value
  }

  lemma {:induction false} PrimaryIsFirst(terms: Terms, calls: seq<Call>, e: CoreError) returns (k: nat)
    requires Primary(terms, calls, e)
    ensures FirstFault(terms, calls, k, e)
  {
    var n := |calls| - 1;
    var c, before := calls[n], calls[..n];
    if c.StopControl? || c.RemoveIp? || c.DisconnectPanu? {
      k := PrimaryIsFirst(terms, before, e);
      assert forall i :: 0 <= i < n ==> before[i] == calls[i];
    } else {
      k := n;
      AllWellMeans(terms, before);
      assert forall i :: 0 <= i < n ==> before[i] == calls[i];
    }
  }

  /** Cleanup failures never replace what went wrong first: they only extend its diagnostic. */
  lemma PrimaryErrorSurvives(pool: Pool, store: Registry, events: seq<Event>, a: Attempt)
    returns (primary: CoreError, k: nat)
    requires a in Run(Initial(pool, store), events).finished
    requires a.outcome.Returned? && a.outcome.result.Err?
    ensures FirstFault(a.terms, a.calls, k, primary)
    ensures a.outcome.result.error.kind == primary.kind && a.outcome.result.error.message == primary.message
    ensures a.outcome.result.error.diagnostic ==
            if CleanupFailures(a.calls) == [] then primary.diagnostic
            else Some(AndRollbackFailures(primary.diagnostic, CleanupFailures(a.calls)))
  {
    EveryRunKeepsInv(pool, store, events);
    var e := a.outcome.result.error;
    assert FailureInv(a, e);
    primary :| Primary(a.terms, a.calls, primary) && e == WithFailures(primary, CleanupFailures(a.calls));
    k := PrimaryIsFirst(a.terms, a.calls, primary);
  }

  // ---------------------------------------------------------------- what is committed

  ghost predicate AllTerms(s: State) {
    && (s.current.Some? ==> TermsInv(s.current.value.terms, s.pool))
    && (forall a <- s.finished :: TermsInv(a.terms, s.pool))
  }

  lemma ApplyKeepsTerms(s: State, f: Frame, next: Next)
    requires AllTerms(s) && s.current == Some(f)
    ensures AllTerms(Apply(s, f, next))
  {
  }

  lemma StepKeepsTerms(s: State, e: Event)
    requires AllTerms(s)
    ensures AllTerms(Step(s, e))
  {
    if s.current.Some? { ApplyKeepsTerms(s, s.current.value, Decide(s.store, s.current.value, e)); }
  }

  lemma {:induction false} EveryRunKeepsTerms(pool: Pool, store: Registry, events: seq<Event>)
    ensures AllTerms(Run(Initial(pool, store), events))
  {
    if events != [] {
      EveryRunKeepsTerms(pool, store, events[..|events| - 1]);
      StepKeepsTerms(Run(Initial(pool, store), events[..|events| - 1]), events[|events| - 1]);
    }
  }

  /** The coordinator's lease checks and the dialler's guard accept the same leases. */
  lemma LeaseChecksAgree(terms: Terms, pool: Pool, link: PanLink, lease: Lease)
    requires TermsInv(terms, pool)
    ensures LeaseFault(terms, link, lease).None? <==> PlannedEndpoint(terms.network, link, lease, pool).Ok?
  {
    PlanExists(terms.network, pool);
  }

  /** A committed attempt holds a link, a lease the dial guard accepts, and a session of this very network. */
  lemma CommitHoldsAllThree(pool: Pool, store: Registry, events: seq<Event>, a: Attempt)
    returns (link: PanLink, lease: Lease, session: Session)
    requires a in Run(Initial(pool, store), events).finished && a.outcome == Returned(Ok(()))
    ensures Kept(a.terms, a.calls) == [Link(link), Address(lease), Control(session)]
    ensures session.network == a.terms.network && PlannedEndpoint(a.terms.network, link, lease, pool).Ok?
    ensures Unreturned(a.calls) == {Link(link), Address(lease), Control(session)}
  {
    EveryRunKeepsInv(pool, store, events);
    var k := ReleasesComeLast(a.terms, a.calls);
    ReverseOrder(a.terms, a.calls);
    NothingFreed(a.calls, k);
    var m := Monitored(a.terms, a.calls).value;
    link, lease, session := m.stack[0].link, m.stack[1].lease, m.stack[2].session;
    assert m.stack == [Link(link), Address(lease), Control(session)];
    LeaseOfTheLink(a.terms, a.calls);
    EveryRunKeepsTerms(pool, store, events);
    LeaseChecksAgree(a.terms, pool, link, lease);
    NothingReturned(a.terms, a.calls);
  }

  /** The bottom of the stack is the link, and the address above it was verified on that link. */
  ghost predicate WellStacked(terms: Terms, m: Monitor) {
    && (m.next <= 1 ==> m.stack == [])
    && (m.next == 2 ==> |m.stack| <= 1)
    && (|m.stack| > 0 ==> m.stack[0].Link?)
    && (|m.stack| > 1 ==> m.stack[1].Address? && LeaseFault(terms, m.stack[0].link, m.stack[1].lease).None?)
  }

  lemma WatchKeepsStack(terms: Terms, m: Monitor, c: Call)
    requires WellStacked(terms, m) && Watch(terms, m, c).Some?
    ensures WellStacked(terms, Watch(terms, m, c).value)
  {
  }

  lemma {:induction false} LeaseOfTheLink(terms: Terms, calls: seq<Call>)
    requires Monitored(terms, calls).Some?
    ensures WellStacked(terms, Monitored(terms, calls).value)
  {
    if calls != [] {
      var before := calls[..|calls| - 1];
      LeaseOfTheLink(terms, before);
      WatchKeepsStack(terms, Monitored(terms, before).value, calls[|calls| - 1]);
    }
  }

  /** No refused lease is left out of the stack. */
  predicate Complete(m: Monitor) { |m.stack| > 1 || m.next <= 2 }

  lemma WatchKeepsAll(terms: Terms, m: Monitor, c: Call)
    requires WellStacked(terms, m) && Watch(terms, m, c).Some?
    requires !Watch(terms, m, c).value.releasing && Complete(Watch(terms, m, c).value)
    ensures !m.releasing && Complete(m) && (Obtained(c).None? ==> GivenBack(c).None?)
    ensures Watch(terms, m, c).value.stack == if Obtained(c).Some? then m.stack + [Obtained(c).value] else m.stack
  {
  }

  lemma {:induction false} NothingReturned(terms: Terms, calls: seq<Call>)
    requires Monitored(terms, calls).Some? && !Monitored(terms, calls).value.releasing
    requires Complete(Monitored(terms, calls).value)
    ensures Unreturned(calls) == (set r | r in Monitored(terms, calls).value.stack)
  {
    if calls != [] {
      var before, c := calls[..|calls| - 1], calls[|calls| - 1];
      LeaseOfTheLink(terms, before);
      var m := Monitored(terms, before).value;
      WatchKeepsAll(terms, m, c);
      NothingReturned(terms, before);
      if Obtained(c).Some? {
        var r := Obtained(c).value;
        assert (set x | x in m.stack + [r]) == (set x | x in m.stack) + {r};
      }
    }
  }

  /** Joining is refused unless there is no current network; then exactly this one becomes `Member`. */
  lemma JoinedExactly(r: Registry, network: NetworkId)
    ensures Joined(r, network).Ok? <==> Members(r) == {} && (network in r ==> r[network].state in {NotMember, Joining})
    ensures Joined(r, network).Ok? ==>
              && Members(Joined(r, network).value) == {network}
              && Joined(r, network).value - {network} == r - {network}
              && (network in r ==> Joined(r, network).value[network].peers == r[network].peers
                                   && Joined(r, network).value[network].name == r[network].name)
              && (network !in r ==> Joined(r, network).value[network]
                                    == Membership(DiscoveredName(network), Member, map[]))
  {
    if Joined(r, network).Ok? {
      var t := Joined(r, network).value;
      assert forall n <- t :: n != network ==> n in r && t[n] == r[n];
      assert forall n <- Members(t) :: n != network ==> n in Members(r);
    }
  }
}
