/**
 The guarded NAP listener: every candidate is bracketed by fresh observations of durable
 membership and the owned endpoint, and any loss of ownership retires the socket for good.
 */
module ControlListener {
  import opened Vocabulary
  import opened AddressPlan

  // ---------------------------------------------------------------- observations

  /** Membership before, endpoint, membership after; or the wait was cut short. */
  datatype Glimpse =
    | Glimpse(before: Result<Option<NetworkId>>, endpoint: Result<Option<Endpoint>>, after: Result<Option<NetworkId>>)
    | CutShort

  /** What one observation tells: a network and an endpoint, an error, or nothing because it was cancelled. */
  datatype Observation =
    | Seen(network: Option<NetworkId>, endpoint: Option<Endpoint>)
    | Failing(error: CoreError)
    | Cancelled

  function Observe(expected: NetworkId, g: Glimpse): Observation {
    match g
    case CutShort => Cancelled
    case Glimpse(before, endpoint, after) =>
      if before.Err? then Failing(before.error)
      else if before.value != Some(expected) then Seen(before.value, None)
      else if endpoint.Err? then Failing(endpoint.error)
      else if after.Err? then Failing(after.error)
      else if before.value != after.value then Failing(CoreError(InvalidState, "", None))
      else Seen(after.value, endpoint.value)
  }

  /** The durable network is the listener's on both sides of an endpoint read that gave the listener's endpoint. */
  predicate Confirms(l: Listener, g: Glimpse) {
    && g.Glimpse? && g.before == Ok(Some(l.network)) && g.endpoint == Ok(Some(l.endpoint))
    && g.after == Ok(Some(l.network))
  }

  datatype Listener = Listener(network: NetworkId, endpoint: Endpoint, live: bool)

  function Retired(l: Listener): Listener { l.(live := false) }

  predicate Matches(l: Listener, o: Observation) { o == Seen(Some(l.network), Some(l.endpoint)) }

  /** An observation matches exactly when membership agreed twice around the right endpoint. */
  lemma MatchesExactly(l: Listener, g: Glimpse)
    ensures Matches(l, Observe(l.network, g)) <==> Confirms(l, g)
  {
  }

  // ---------------------------------------------------------------- accepting

  datatype Accept = NonePending | Candidate(socket: nat, prepared: bool) | AcceptFails

  datatype Answer<+T> = Yields(value: T) | Nothing | Refuses(error: CoreError) | Interrupted

  function AcceptIfCurrent(l: Listener, o: Observation, accept: Accept): (Listener, Answer<nat>)
    requires o.Seen?
  {
    if !l.live then (l, Refuses(CoreError(InvalidState, "", None)))
    else if !Matches(l, o) then (Retired(l), Refuses(CoreError(InvalidState, "", None)))
    else match accept
         case NonePending => (l, Nothing)
         case Candidate(socket, prepared) =>
           (l, if prepared then Yields(socket) else Refuses(CoreError(PanFailure, "", None)))
         case AcceptFails => (Retired(l), Refuses(CoreError(PanFailure, "", None)))
  }

  /** The second observation, once a candidate is in hand. */
  function FinishAccepted(l: Listener, socket: nat, o: Observation): (Listener, Answer<nat>) {
    if o.Cancelled? then (l, Interrupted)
    else if Matches(l, o) then (l, Yields(socket))
    else (Retired(l), Refuses(if o.Failing? then o.error else CoreError(InvalidState, "", None)))
  }

  /** An observation the caller made itself, then the accept, then an observation after it. */
  function AcceptRevalidated(l: Listener, o: Observation, accept: Accept, again: Observation): (Listener, Answer<nat>)
    requires o.Seen?
  {
    var (t, got) := AcceptIfCurrent(l, o, accept);
    if got.Yields? then FinishAccepted(t, got.value, again) else (t, got)
  }

  function Poll(l: Listener, first: Glimpse, accept: Accept, second: Glimpse): (Listener, Answer<nat>) {
    if !l.live then (l, Refuses(CoreError(InvalidState, "", None)))
    else match Observe(l.network, first)
         case Cancelled => (l, Interrupted)
         case Failing(e) => (Retired(l), Refuses(e))
         case Seen(network, endpoint) =>
           AcceptRevalidated(l, Seen(network, endpoint), accept, Observe(l.network, second))
  }

  // ---------------------------------------------------------------- releasing a session

  /** An authenticated, registered session; `approved` is what a recheck of it would answer now. */
  datatype Session = Session(key: PeerKey, id: SessionId)

  function Release(l: Listener, s: Session, third: Glimpse, approved: bool): (Listener, Answer<Session>) {
    if !l.live then (l, Refuses(CoreError(InvalidState, "", None)))
    else if s.key.network != l.network then (Retired(l), Refuses(CoreError(InvalidState, "", None)))
    else match Observe(l.network, third)
         case Cancelled => (l, Interrupted)
         case Failing(e) => (Retired(l), Refuses(e))
         case Seen(network, endpoint) =>
           if !Matches(l, Seen(network, endpoint)) then (Retired(l), Refuses(CoreError(InvalidState, "", None)))
           else if !approved then (l, Refuses(CoreError(AuthenticationFailed, "", None)))
           else (l, Yields(s))
  }

  /** Everything one inbound poll may meet. */
  datatype Attempt = Attempt(
    network: NetworkId, first: Glimpse, accept: Accept, second: Glimpse,
    handshake: Option<Session>, third: Glimpse, approved: bool)

  function PollRegistered(l: Listener, x: Attempt): (Listener, Answer<Session>) {
    if x.network != l.network then (Retired(l), Refuses(CoreError(InvalidInput, "", None)))
    else
      var (t, got) := Poll(l, x.first, x.accept, x.second);
      match got
      case Yields(_) =>
        if x.handshake.None? then (t, Refuses(CoreError(AuthenticationFailed, "", None)))
        else Release(t, x.handshake.value, x.third, x.approved)
      case Nothing => (t, Nothing)
      case Refuses(e) => (t, Refuses(e))
      case Interrupted => (t, Interrupted)
  }

  // ---------------------------------------------------------------- supervising sessions

  function Surviving(l: Listener, sessions: seq<Session>, approved: SessionId -> bool): seq<Session> {
    if sessions == [] then [] else
      var s := sessions[|sessions| - 1];
      var before := Surviving(l, sessions[..|sessions| - 1], approved);
      if s.key.network == l.network && approved(s.id) then before + [s] else before
  }

  /** The sessions are moved into the tick before it waits, so whatever ends it early drops them all. */
  function Supervise(l: Listener, sessions: seq<Session>, g: Glimpse, approved: SessionId -> bool)
    : (Listener, seq<Session>, Answer<nat>)
  {
    if !l.live then (l, [], Refuses(CoreError(InvalidState, "", None)))
    else match Observe(l.network, g)
         case Cancelled => (l, [], Interrupted)
         case Failing(e) => (Retired(l), [], Refuses(e))
         case Seen(network, endpoint) =>
           if !Matches(l, Seen(network, endpoint)) then (Retired(l), [], Refuses(CoreError(InvalidState, "", None)))
           else (l, Surviving(l, sessions, approved), Yields(|Surviving(l, sessions, approved)|))
  }

  // ---------------------------------------------------------------- theorems

  /** A socket leaves the listener exactly when ownership was confirmed before and after a ready candidate. */
  lemma PollExactly(l: Listener, first: Glimpse, accept: Accept, second: Glimpse)
    ensures Poll(l, first, accept, second).1.Yields? <==>
            l.live && Confirms(l, first) && accept.Candidate? && accept.prepared && Confirms(l, second)
    ensures Poll(l, first, accept, second).1.Yields? ==>
              Poll(l, first, accept, second) == (l, Yields(accept.socket))
  {
    MatchesExactly(l, first);
    MatchesExactly(l, second);
  }

  /**
   A session leaves it exactly when ownership was confirmed three times and the session is this network's and
   approved.
   */
  lemma PollRegisteredExactly(l: Listener, x: Attempt)
    ensures PollRegistered(l, x).1.Yields? <==>
            && l.live && x.network == l.network && x.accept.Candidate? && x.accept.prepared && x.handshake.Some?
            && x.handshake.value.key.network == l.network && x.approved
            && Confirms(l, x.first) && Confirms(l, x.second) && Confirms(l, x.third)
    ensures PollRegistered(l, x).1.Yields? ==> PollRegistered(l, x) == (l, Yields(x.handshake.value))
  {
    PollExactly(l, x.first, x.accept, x.second);
    MatchesExactly(l, x.third);
  }

  /** Both observations and a ready candidate between them, so the handshake is attempted. */
  predicate GetsThrough(l: Listener, x: Attempt) {
    && l.live && x.network == l.network && Confirms(l, x.first)
    && x.accept.Candidate? && x.accept.prepared && Confirms(l, x.second)
  }

  /** Nothing is answered exactly when nobody waits, and an interruption exactly when an observation is cut short. */
  lemma QuietAnswersExactly(l: Listener, x: Attempt)
    ensures var (t, r) := PollRegistered(l, x);
            && (r.Nothing? <==> && l.live && x.network == l.network && Confirms(l, x.first)
                                && x.accept.NonePending?)
            && (r.Interrupted? <==>
                || (l.live && x.network == l.network && x.first.CutShort?)
                || (&& l.live && x.network == l.network && Confirms(l, x.first)
                    && x.accept.Candidate? && x.accept.prepared && x.second.CutShort?)
                || (GetsThrough(l, x) && x.handshake.Some? && x.handshake.value.key.network == l.network
                    && x.third.CutShort?))
            && (r.Nothing? || r.Interrupted? ==> t == l)
  {
    MatchesExactly(l, x.first);
    MatchesExactly(l, x.second);
    MatchesExactly(l, x.third);
  }

  lemma {:induction false} SurvivingExactly(l: Listener, sessions: seq<Session>, approved: SessionId -> bool)
    ensures forall s :: s in Surviving(l, sessions, approved) <==>
            s in sessions && s.key.network == l.network && approved(s.id)
    ensures |Surviving(l, sessions, approved)| <= |sessions|
  {
    if sessions != [] {
      var n := |sessions| - 1;
      SurvivingExactly(l, sessions[..n], approved);
      assert forall s :: s in sessions <==> s in sessions[..n] || s == sessions[n];
    }
  }

  /** A tick keeps exactly the sessions that pass their recheck, or none at all. */
  lemma SuperviseExactly(l: Listener, sessions: seq<Session>, g: Glimpse, approved: SessionId -> bool)
    ensures var (t, kept, r) := Supervise(l, sessions, g, approved);
            && (r.Yields? <==> l.live && Confirms(l, g))
            && (!r.Yields? ==> kept == [])
            && (r.Yields? ==> t == l && r.value == |kept|
                              && forall s :: s in kept <==>
                                s in sessions && s.key.network == l.network && approved(s.id))
            && (!r.Yields? && !r.Interrupted? ==> !t.live)
  {
    MatchesExactly(l, g);
    SurvivingExactly(l, sessions, approved);
  }

  // ---------------------------------------------------------------- runs

  datatype Event =
    | OnAccept(network: Option<NetworkId>, endpoint: Option<Endpoint>, accept: Accept)
    | OnAcceptRevalidated(network: Option<NetworkId>, endpoint: Option<Endpoint>, accept: Accept, again: Observation)
    | OnPoll(first: Glimpse, accept: Accept, second: Glimpse)
    | OnPollRegistered(attempt: Attempt)
    | OnRelease(session: Session, third: Glimpse, approved: bool)
    | OnSupervise(sessions: seq<Session>, glimpse: Glimpse, approvals: SessionId -> bool)

  /** What an operation lets out: sockets, sessions, or sessions it keeps. */
  function Out(l: Listener, e: Event): (Listener, nat) {
    match e
    case OnAccept(network, endpoint, accept) =>
      var (t, r) := AcceptIfCurrent(l, Seen(network, endpoint), accept);
      (t, if r.Yields? then 1 else 0)
    case OnAcceptRevalidated(network, endpoint, accept, again) =>
      var (t, r) := AcceptRevalidated(l, Seen(network, endpoint), accept, again);
      (t, if r.Yields? then 1 else 0)
    case OnPoll(first, accept, second) =>
      var (t, r) := Poll(l, first, accept, second);
      (t, if r.Yields? then 1 else 0)
    case OnPollRegistered(x) =>
      var (t, r) := PollRegistered(l, x);
      (t, if r.Yields? then 1 else 0)
    case OnRelease(s, third, approved) =>
      var (t, r) := Release(l, s, third, approved);
      (t, if r.Yields? then 1 else 0)
    case OnSupervise(sessions, g, approvals) =>
      var (t, kept, _) := Supervise(l, sessions, g, approvals);
      (t, |kept|)
  }

  /** The listener after a run, and how much it let out in all. */
  function Run(l: Listener, events: seq<Event>): (Listener, nat) {
    if events == [] then (l, 0) else
      var (before, count) := Run(l, events[..|events| - 1]);
      var (t, more) := Out(before, events[|events| - 1]);
      (t, count + more)
  }

  /** Retirement is absorbing: whatever is called afterwards, nothing gets out any more. */
  lemma {:induction false} RetiredForever(l: Listener, events: seq<Event>)
    requires !l.live
    ensures Run(l, events) == (l, 0)
  {
    if events != [] { RetiredForever(l, events[..|events| - 1]); }
  }

  /** One of the two observations of a poll completes and does not confirm ownership. */
  predicate LosesInPoll(l: Listener, first: Glimpse, accept: Accept, second: Glimpse) {
    || (first.Glimpse? && !Confirms(l, first))
    || (Confirms(l, first) && accept.Candidate? && accept.prepared && second.Glimpse? && !Confirms(l, second))
  }

  /** The third one, after TLS, is reached and does not. */
  predicate LosesAfterTls(l: Listener, x: Attempt) {
    && Confirms(l, x.first) && x.accept.Candidate? && x.accept.prepared && Confirms(l, x.second)
    && x.handshake.Some? && x.third.Glimpse? && !Confirms(l, x.third)
  }

  /** Some observation that is made completes and does not confirm ownership. */
  predicate Loses(l: Listener, e: Event) {
    match e
    case OnAccept(network, endpoint, _) => !Matches(l, Seen(network, endpoint))
    case OnAcceptRevalidated(network, endpoint, accept, again) =>
      || !Matches(l, Seen(network, endpoint))
      || (accept.Candidate? && accept.prepared && !again.Cancelled? && !Matches(l, again))
    case OnPoll(first, accept, second) => LosesInPoll(l, first, accept, second)
    case OnPollRegistered(x) => LosesInPoll(l, x.first, x.accept, x.second) || LosesAfterTls(l, x)
    case OnRelease(_, third, _) => third.Glimpse? && !Confirms(l, third)
    case OnSupervise(_, g, _) => g.Glimpse? && !Confirms(l, g)
  }

  /** The call is for another network, or accepting itself fails. */
  predicate Misused(l: Listener, e: Event) {
    match e
    case OnAccept(network, endpoint, accept) => Matches(l, Seen(network, endpoint)) && accept.AcceptFails?
    case OnAcceptRevalidated(network, endpoint, accept, _) =>
      Matches(l, Seen(network, endpoint)) && accept.AcceptFails?
    case OnPoll(first, accept, _) => Confirms(l, first) && accept.AcceptFails?
    case OnPollRegistered(x) =>
      || x.network != l.network
      || (Confirms(l, x.first) && x.accept.AcceptFails?)
      || (&& Confirms(l, x.first) && x.accept.Candidate? && x.accept.prepared && Confirms(l, x.second)
          && x.handshake.Some? && x.handshake.value.key.network != l.network)
    case OnRelease(s, _, _) => s.key.network != l.network
    case OnSupervise(_, _, _) => false
  }

  lemma PollRetiresExactly(l: Listener, first: Glimpse, accept: Accept, second: Glimpse)
    requires l.live
    ensures Poll(l, first, accept, second).0.live <==>
            !LosesInPoll(l, first, accept, second) && !(Confirms(l, first) && accept.AcceptFails?)
  {
    MatchesExactly(l, first);
    MatchesExactly(l, second);
  }

  /** A call retires the listener exactly when an observation it makes shows a loss, or it is misused. */
  lemma RetiresExactly(l: Listener, e: Event)
    requires l.live
    ensures !Out(l, e).0.live <==> Loses(l, e) || Misused(l, e)
    ensures !Out(l, e).0.live ==> Out(l, e).1 == 0
  {
    match e
    case OnAccept(_, _, _) =>
    case OnAcceptRevalidated(_, _, _, _) =>
    case OnPoll(first, accept, second) =>
      PollRetiresExactly(l, first, accept, second);
      PollExactly(l, first, accept, second);
    case OnPollRegistered(x) =>
      PollRetiresExactly(l, x.first, x.accept, x.second);
      PollExactly(l, x.first, x.accept, x.second);
      MatchesExactly(l, x.third);
    case OnRelease(_, third, _) => MatchesExactly(l, third);
    case OnSupervise(_, g, _) => MatchesExactly(l, g);
  }

  /**
   Ownership lost before the accept, between accept and hand-over, after TLS or during supervision:
   the call lets nothing out, and no later call does.
   */
  lemma LossRetires(l: Listener, e: Event, events: seq<Event>)
    requires Loses(l, e)
    ensures Out(l, e).1 == 0 && Run(Out(l, e).0, events).1 == 0
  {
    if l.live { RetiresExactly(l, e); }
    RetiredForever(Out(l, e).0, events);
  }

  // ---------------------------------------------------------------- the imperative listener

  class ObservedControlListener {
    const network: NetworkId
    const endpoint: Endpoint
    /** The bound socket; taken out on retirement. */
    var listener: Option<nat>

    function View(): Listener
      reads this
    {
      Listener(network, endpoint, listener.Some?)
    }

    constructor (network: NetworkId, endpoint: Endpoint, socket: nat)
      ensures View() == Listener(network, endpoint, true)
    {
      this.network, this.endpoint, listener := network, endpoint, Some(socket);
    }

    method AcceptCurrent(o: Observation, accept: Accept) returns (r: Answer<nat>)
      requires o.Seen?
      modifies this
      ensures (View(), r) == AcceptIfCurrent(old(View()), o, accept)
    {
      if listener.None? { return Refuses(CoreError(InvalidState, "", None)); }
      if o.network != Some(network) || o.endpoint != Some(endpoint) {
        listener := None;
        return Refuses(CoreError(InvalidState, "", None));
      }
      match accept
      case NonePending => r := Nothing;
      case Candidate(socket, prepared) =>
        r := if prepared then Yields(socket) else Refuses(CoreError(PanFailure, "", None));
      case AcceptFails =>
        listener := None;
        r := Refuses(CoreError(PanFailure, "", None));
    }

    method AcceptWithRevalidation(o: Observation, accept: Accept, again: Observation) returns (r: Answer<nat>)
      requires o.Seen?
      modifies this
      ensures (View(), r) == AcceptRevalidated(old(View()), o, accept, again)
    {
      r := AcceptCurrent(o, accept);
      if r.Yields? { r := FinishAcceptedObservation(r.value, again); }
    }

    /** The gate both kinds of polls share. */
    method FinishAcceptedObservation(socket: nat, again: Observation) returns (r: Answer<nat>)
      modifies this
      ensures (View(), r) == FinishAccepted(old(View()), socket, again)
    {
      if again.Cancelled? { return Interrupted; }
      if again == Seen(Some(network), Some(endpoint)) { return Yields(socket); }
      listener := None;
      r := Refuses(if again.Failing? then again.error else CoreError(InvalidState, "", None));
    }

    method PollWithObservations(first: Glimpse, accept: Accept, second: Glimpse) returns (r: Answer<nat>)
      modifies this
      ensures (View(), r) == Poll(old(View()), first, accept, second)
    {
      if listener.None? { return Refuses(CoreError(InvalidState, "", None)); }
      var before := Observe(network, first);
      if before.Cancelled? { return Interrupted; }
      if before.Failing? { listener := None; return Refuses(before.error); }
      r := AcceptWithRevalidation(before, accept, Observe(network, second));
    }

    method ReleaseRegistered(s: Session, third: Glimpse, approved: bool) returns (r: Answer<Session>)
      modifies this
      ensures (View(), r) == Release(old(View()), s, third, approved)
    {
      if listener.None? { return Refuses(CoreError(InvalidState, "", None)); }
      if s.key.network != network { listener := None; return Refuses(CoreError(InvalidState, "", None)); }
      var seen := Observe(network, third);
      if seen.Cancelled? { return Interrupted; }
      if seen.Failing? { listener := None; return Refuses(seen.error); }
      if seen != Seen(Some(network), Some(endpoint)) {
        listener := None;
        return Refuses(CoreError(InvalidState, "", None));
      }
      r := if approved then Yields(s) else Refuses(CoreError(AuthenticationFailed, "", None));
    }

    method PollRegisteredSession(x: Attempt) returns (r: Answer<Session>)
      modifies this
      ensures (View(), r) == PollRegistered(old(View()), x)
    {
      if x.network != network { listener := None; return Refuses(CoreError(InvalidInput, "", None)); }
      var got := PollWithObservations(x.first, x.accept, x.second);
      match got
      case Yields(_) =>
        if x.handshake.None? { return Refuses(CoreError(AuthenticationFailed, "", None)); }
        r := ReleaseRegistered(x.handshake.value, x.third, x.approved);
      case Nothing => r := Nothing;
      case Refuses(e) => r := Refuses(e);
      case Interrupted => r := Interrupted;
    }

    /** `retain_mut` over the sessions moved in. */
    method SuperviseRegistered(sessions: seq<Session>, g: Glimpse, approved: SessionId -> bool)
      returns (kept: seq<Session>, r: Answer<nat>)
      modifies this
      ensures (View(), kept, r) == Supervise(old(View()), sessions, g, approved)
    {
      kept := [];
      if listener.None? { return [], Refuses(CoreError(InvalidState, "", None)); }
      var seen := Observe(network, g);
      if seen.Cancelled? { return [], Interrupted; }
      if seen.Failing? { listener := None; return [], Refuses(seen.error); }
      if seen != Seen(Some(network), Some(endpoint)) {
        listener := None;
        return [], Refuses(CoreError(InvalidState, "", None));
      }
      var i := 0;
      while i < |sessions|
        invariant 0 <= i <= |sessions|
        invariant kept == Surviving(View(), sessions[..i], approved)
      {
        assert sessions[..i + 1][..i] == sessions[..i];
        if sessions[i].key.network == network && approved(sessions[i].id) { kept := kept + [sessions[i]]; }
        i := i + 1;
      }
      assert sessions[..i] == sessions;
      r := Yields(|kept|);
    }
  }
}
