/**
 Supervising an outbound session until stop or failure: ownership is rechecked every tick,
 heartbeats follow a schedule, and the exact session is cancelled on every way out.
 */
module OutboundSupervision {
  import opened Vocabulary
  import opened AddressPlan
  import opened ControlEndpoints
  import T = PeerTrust

  // ---------------------------------------------------------------- the ownership recheck

  /** The session with the key it authenticated with, the peer and pin expected, and the route in use. */
  datatype Route = Route(
    session: PeerKey, key: Key, expected: PeerKey, pin: Key, link: PanLink, lease: Lease, pool: Pool)

  /** What one check of the session meets: is it still registered, and the trust files at that moment. */
  datatype Moment = Moment(registered: bool, files: T.Files, faults: T.Faults)

  /** One recheck in order: approval, both address lists, the PAN link, the expected pin, approval again. */
  datatype Observed = Observed(
    first: Moment, owned: Result<seq<InterfaceAddress>>, active: Result<seq<ActivePrefix>>,
    panu: Result<()>, middle: Moment, last: Moment)

  function Revalidate(r: Route, m: Moment): Result<()> {
    if !m.registered || T.Authorize(m.files, r.session, r.key, m.faults).Err? then Fail(AuthenticationFailed)
    else Ok(())
  }

  function Recheck(r: Route, o: Observed): Result<()> {
    if r.session != r.expected then Fail(AuthenticationFailed)
    else if PlannedEndpoint(r.session.network, r.link, r.lease, r.pool).Err? then
      Err(PlannedEndpoint(r.session.network, r.link, r.lease, r.pool).error)
    else if Revalidate(r, o.first).Err? then Revalidate(r, o.first)
    else if o.owned.Err? then Err(o.owned.error)
    else if o.active.Err? then Err(o.active.error)
    else if RequireLiveLease(r.lease, o.owned.value, o.active.value).Err? then
      RequireLiveLease(r.lease, o.owned.value, o.active.value)
    else if o.panu.Err? then o.panu
    else if T.Authorize(o.middle.files, r.session, r.pin, o.middle.faults).Err? then
      T.Authorize(o.middle.files, r.session, r.pin, o.middle.faults)
    else Revalidate(r, o.last)
  }

  /** The session's peer is approved and its key enrolled, and the session is registered. */
  ghost predicate InForce(r: Route, m: Moment) {
    m.registered && T.Approved(m.files.registry, r.session) && T.Pinned(m.files, r.session, r.key)
  }

  /** The lease is the planned one, and in both lists the only entry with its address. */
  ghost predicate LeaseIsOurs(r: Route, owned: seq<InterfaceAddress>, active: seq<ActivePrefix>) {
    && Validate(r.pool).Ok? && r.lease.owner == r.session.network && r.lease.interface == r.link.interface
    && r.lease.prefix.length == r.pool.segmentLength
    && r.lease.prefix.address.V4? && r.lease.prefix.address.value == SegmentStart(r.session.network, r.pool) + 2
    && (set a | a in owned && a.prefix.address == r.lease.prefix.address) == {r.lease}
    && (set p | p in active && p.prefix.address == r.lease.prefix.address)
       == {ActivePrefix(Some(r.lease.interface), r.lease.prefix)}
  }

  /** Everything a passed recheck stands for. */
  ghost predicate Confirmed(r: Route, o: Observed) {
    && r.session == r.expected && InForce(r, o.first) && InForce(r, o.last) && o.panu.Ok?
    && T.Approved(o.middle.files.registry, r.session) && T.Pinned(o.middle.files, r.session, r.pin)
    && o.owned.Ok? && o.active.Ok? && LeaseIsOurs(r, o.owned.value, o.active.value)
  }

  /**
   A recheck passes only if the session is the expected peer's, its lease is the planned one and its
   alone, the PAN link is there, and peer and key are in force both before the slow observations and
   after them, the key being the pinned one.
   */
  lemma RecheckMeans(r: Route, o: Observed)
    requires Recheck(r, o).Ok?
    ensures Confirmed(r, o)
  {
    DialExactly(r.session.network, r.link, r.lease, r.pool);
    LiveExactly(r.lease, o.owned.value, o.active.value);
    T.FaultsOnlyRefuse(o.first.files, r.session, r.key, o.first.faults);
    T.FaultsOnlyRefuse(o.middle.files, r.session, r.pin, o.middle.faults);
    T.FaultsOnlyRefuse(o.last.files, r.session, r.key, o.last.faults);
  }

  predicate Faultless(m: Moment) { m.faults.lock.None? && m.faults.load.None? && m.faults.pinLoad.None? }

  /** And where the files can be read, nothing more is asked. */
  lemma RecheckSuffices(r: Route, o: Observed)
    requires Faultless(o.first) && Faultless(o.middle) && Faultless(o.last)
    requires r.session.IsValid() && Confirmed(r, o)
    ensures Recheck(r, o).Ok?
  {
    DialExactly(r.session.network, r.link, r.lease, r.pool);
    LiveExactly(r.lease, o.owned.value, o.active.value);
    T.AuthorizeExactly(o.first.files, r.session, r.key, o.first.faults);
    T.AuthorizeExactly(o.middle.files, r.session, r.pin, o.middle.faults);
    T.AuthorizeExactly(o.last.files, r.session, r.key, o.last.faults);
  }

  // ---------------------------------------------------------------- heartbeats

  const HEARTBEAT_BUDGET: nat := 100_000_000

  /** A heartbeat that went out: when it was started and when its write had completed. */
  datatype Beat = Beat(started: nat, completed: nat)

  /** One tick: the ownership recheck, then the clock, the write and the clock after it. */
  datatype Tick = Tick(observed: Observed, now: nat, written: Result<()>, completed: nat)

  /** Due exactly when a whole interval has passed; a clock that went back is an error. */
  function Beaten(lastSent: nat, t: Tick): Result<Option<Beat>> {
    if t.now < lastSent then Fail(InvalidState)
    else if t.now - lastSent < HEARTBEAT_INTERVAL then Ok(None)
    else if t.written.Err? then Err(t.written.error)
    else if t.completed > t.now + HEARTBEAT_BUDGET then Fail(PanFailure)
    else Ok(Some(Beat(t.now, t.completed)))
  }

  /** A tick sends exactly if it comes a full interval after the last heartbeat and its write is good and in time. */
  lemma BeatenExactly(lastSent: nat, t: Tick)
    ensures Beaten(lastSent, t) == Ok(Some(Beat(t.now, t.completed))) <==>
            t.now >= lastSent + 5_000_000_000 && t.written.Ok? && t.completed <= t.now + 100_000_000
    ensures Beaten(lastSent, t) == Ok(None) <==> lastSent <= t.now < lastSent + 5_000_000_000
    ensures Beaten(lastSent, t).Ok? && Beaten(lastSent, t).value.Some? ==>
              Beaten(lastSent, t).value.value == Beat(t.now, t.completed)
    ensures t.now < lastSent ==> Beaten(lastSent, t).Err? && Beaten(lastSent, t).error.kind == InvalidState
  {
  }

  /** Every heartbeat starts a full interval after the one before completed, and ends within its budget. */
  ghost predicate Spaced(start: nat, beats: seq<Beat>) {
    && (forall b <- beats :: b.completed <= b.started + HEARTBEAT_BUDGET)
    && (beats != [] ==> beats[0].started >= start + HEARTBEAT_INTERVAL)
    && (forall i :: 0 < i < |beats| ==> beats[i].started >= beats[i - 1].completed + HEARTBEAT_INTERVAL)
  }

  /** The schedule: when the last heartbeat completed, or when supervision began. */
  function LastSent(start: nat, beats: seq<Beat>): nat {
    if beats == [] then start else beats[|beats| - 1].completed
  }

  /** The heartbeats that go out over the given ticks. */
  ghost function Sent(start: nat, ticks: seq<Tick>): seq<Beat> {
    if ticks == [] then []
    else
      var before := Sent(start, ticks[..|ticks| - 1]);
      var beaten := Beaten(LastSent(start, before), ticks[|ticks| - 1]);
      if beaten.Ok? && beaten.value.Some? then before + [beaten.value.value] else before
  }

  lemma KeepsDistance(start: nat, beats: seq<Beat>, b: Beat)
    requires Spaced(start, beats) && b.completed <= b.started + HEARTBEAT_BUDGET
    requires b.started >= (if beats == [] then start else beats[|beats| - 1].completed) + HEARTBEAT_INTERVAL
    ensures Spaced(start, beats + [b])
  {
    assert forall x <- beats + [b] :: x in beats || x == b;
  }

  /** No heartbeat is left out: a good tick a full interval after the last one adds one more. */
  lemma DueIsSent(start: nat, ticks: seq<Tick>, t: Tick)
    ensures var before := Sent(start, ticks);
            Sent(start, ticks + [t]) ==
            if t.now >= LastSent(start, before) + 5_000_000_000 && t.written.Ok? && t.completed <= t.now + 100_000_000
            then before + [Beat(t.now, t.completed)] else before
  {
    assert (ticks + [t])[..|ticks|] == ticks;
    BeatenExactly(LastSent(start, Sent(start, ticks)), t);
  }

  lemma {:induction false} SentIsSpaced(start: nat, ticks: seq<Tick>)
    ensures Spaced(start, Sent(start, ticks)) && |Sent(start, ticks)| <= |ticks|
  {
    if ticks != [] {
      var before := Sent(start, ticks[..|ticks| - 1]);
      SentIsSpaced(start, ticks[..|ticks| - 1]);
      if Sent(start, ticks) != before {
        KeepsDistance(start, before, Sent(start, ticks)[|before|]);
      }
    }
  }

  /** The tick passes: its owner is confirmed and, unless stop is seen, its heartbeat is sent or not due. */
  ghost predicate Passes(check: Observed -> Result<()>, start: nat, ticks: seq<Tick>, k: nat, stopDuring: nat)
    requires k < |ticks|
  {
    check(ticks[k].observed).Ok? && (k < stopDuring ==> Beaten(LastSent(start, Sent(start, ticks[..k])), ticks[k]).Ok?)
  }

  /** What a tick that does not pass fails with. */
  ghost function Failure(check: Observed -> Result<()>, start: nat, ticks: seq<Tick>, k: nat): CoreError
    requires k < |ticks| && exists stopDuring :: !Passes(check, start, ticks, k, stopDuring)
  {
    if check(ticks[k].observed).Err? then check(ticks[k].observed).error
    else Beaten(LastSent(start, Sent(start, ticks[..k])), ticks[k]).error
  }

  class Owner {
    /** The registered session; cancelling closes its socket and retires its generation. */
    var open: bool
    ghost var checks: nat
    ghost var beats: seq<Beat>

    constructor ()
      ensures open && checks == 0 && beats == []
    {
      open, checks, beats := true, 0, [];
    }

    method Cancel()
      modifies this`open
      ensures !open
    {
      open := false;
    }

    /** One recheck, check by check; any that fails closes the session. */
    method Supervise(route: Route, o: Observed) returns (r: Result<()>)
      modifies this`open
      ensures r == Recheck(route, o)
      ensures open == (old(open) && r.Ok?)
    {
      r := Validated(route, o);
      if r.Err? { Cancel(); }
    }

    method Validated(route: Route, o: Observed) returns (r: Result<()>)
      ensures r == Recheck(route, o)
    {
      if route.session != route.expected { return Fail(AuthenticationFailed); }
      var endpoint := PlannedEndpoint(route.session.network, route.link, route.lease, route.pool);
      if endpoint.Err? { return Err(endpoint.error); }
      r := Revalidate(route, o.first);
      if r.Err? { return; }
      if o.owned.Err? { return Err(o.owned.error); }
      if o.active.Err? { return Err(o.active.error); }
      r := RequireLiveLease(route.lease, o.owned.value, o.active.value);
      if r.Err? { return; }
      r := o.panu;
      if r.Err? { return; }
      r := T.Authorize(o.middle.files, route.session, route.pin, o.middle.faults);
      if r.Err? { return; }
      r := Revalidate(route, o.last);
    }

    /** The schedule moves only with a heartbeat that completed in time. */
    method SendHeartbeatIfDue(lastSent: nat, t: Tick) returns (r: Result<()>, sent: nat)
      modifies this`beats
      ensures r.Err? <==> Beaten(lastSent, t).Err?
      ensures r.Err? ==> r.error == Beaten(lastSent, t).error
      ensures r.Err? || Beaten(lastSent, t).value.None? ==> sent == lastSent && beats == old(beats)
      ensures r.Ok? && Beaten(lastSent, t).value.Some? ==>
                sent == t.completed && beats == old(beats) + [Beaten(lastSent, t).value.value]
    {
      sent := lastSent;
      if t.now < lastSent { return Fail(InvalidState), sent; }
      if t.now - lastSent < HEARTBEAT_INTERVAL { return Ok(()), sent; }
      var deadline := t.now + HEARTBEAT_BUDGET;
      if t.written.Err? { return Err(t.written.error), sent; }
      if t.completed > deadline { return Fail(PanFailure), sent; }
      beats := beats + [Beat(t.now, t.completed)];
      return Ok(()), t.completed;
    }

    /**
     Runs tick by tick. `stopBefore` and `stopDuring` are the first ticks before and during which
     stop is found set. Whatever ends the loop, the session is cancelled. It ends at the first tick that
     does not pass, in an error, or with the tick in which stop is seen; the heartbeats sent are
     exactly those due.
     */
    method SuperviseUntilStopped(check: Observed -> Result<()>, start: nat, ticks: seq<Tick>, stopBefore: nat,
                                 stopDuring: nat)
      returns (r: Result<()>, done: nat)
      requires beats == [] && checks == 0
      modifies this
      ensures !open
      ensures done <= |ticks| && done <= stopBefore && done <= stopDuring + 1
      ensures forall k :: 0 <= k < done ==> Passes(check, start, ticks, k, stopDuring)
      ensures r.Err? <==> done < |ticks| && done < stopBefore && done <= stopDuring
      ensures r.Err? ==> !Passes(check, start, ticks, done, stopDuring) && r.error == Failure(check, start, ticks, done)
      ensures checks == if r.Err? then done + 1 else done
      ensures beats == Sent(start, ticks[..if done > stopDuring then stopDuring else done]) && Spaced(start, beats)
    {
      var lastSent := start;
      done, r := 0, Ok(());
      while done < |ticks|
        invariant 0 <= done <= |ticks| && done <= stopBefore && done <= stopDuring && r.Ok? && checks == done
        invariant forall k :: 0 <= k < done ==> Passes(check, start, ticks, k, stopDuring)
        invariant beats == Sent(start, ticks[..done]) && lastSent == LastSent(start, beats)
      {
        if done >= stopBefore { break; }
        var t := ticks[done];
        checks := checks + 1;
        r := check(t.observed);
        if r.Err? { break; }
        if done >= stopDuring { done := done + 1; break; }
        r, lastSent := SendHeartbeatIfDue(lastSent, t);
        if r.Err? { break; }
        assert ticks[..done + 1][..done] == ticks[..done];
        done := done + 1;
      }
      SentIsSpaced(start, ticks[..if done > stopDuring then stopDuring else done]);
      Cancel();
    }

    /**
     Supervision of one route. Every tick it goes through, and so every heartbeat it sends, has the
     peer in force and the lease its own; the first tick that has not ends it, and the session is closed.
     */
    method RunPanuSupervision(route: Route, start: nat, ticks: seq<Tick>, stopBefore: nat, stopDuring: nat)
      returns (r: Result<()>, done: nat)
      requires beats == [] && checks == 0
      modifies this
      ensures !open && done <= |ticks|
      ensures forall k :: 0 <= k < done ==> Confirmed(route, ticks[k].observed)
      ensures beats == Sent(start, ticks[..if done > stopDuring then stopDuring else done]) && Spaced(start, beats)
      ensures r.Err? <==> done < |ticks| && done < stopBefore && done <= stopDuring
      ensures r.Err? ==>
                || Recheck(route, ticks[done].observed) == r
                || Beaten(LastSent(start, beats), ticks[done]) == Err(r.error)
    {
      var check := o => Recheck(route, o);
      r, done := SuperviseUntilStopped(check, start, ticks, stopBefore, stopDuring);
      forall k | 0 <= k < done ensures Confirmed(route, ticks[k].observed) {
        assert Passes(check, start, ticks, k, stopDuring);
        RecheckMeans(route, ticks[k].observed);
      }
    }
  }
}
