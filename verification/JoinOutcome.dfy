/** When a join starts, when it commits, and how it ends otherwise. */
module JoinOutcome {
  import opened Vocabulary
  import opened AddressPlan
  import opened ControlEndpoints
  import opened JoinTransaction
  import JoinSafety

  // ---------------------------------------------------------------- starting

  /** A request for this network may be started now. */
  ghost predicate MayStart(s: State, network: NetworkId, loadError: Option<CoreError>) {
    network != ZERO_NETWORK && !s.claimed && loadError.None? && Members(s.store) == {} && Validate(s.pool).Ok?
  }

  /** What a request that may not start is answered, in the order of the checks. */
  ghost predicate Refusal(s: State, network: NetworkId, loadError: Option<CoreError>, e: CoreError) {
    if network == ZERO_NETWORK || s.claimed then e.kind == InvalidState
    else if loadError.Some? then e == loadError.value
    else if Members(s.store) != {} then e.kind == InvalidState
    else Validate(s.pool).Err? && e == Validate(s.pool).error
  }

  /**
   A join starts exactly for a real network, with the flag free, a registry that loads and has no
   member network, and a valid pool; it takes the flag and goes to its first await. Any other request
   adds one refusal and changes nothing else.
   */
  lemma JoinStartsExactly(s: State, network: NetworkId, loadError: Option<CoreError>)
    requires s.current.None?
    ensures var t := Join(s, network, loadError);
            && (t.current.Some? <==> MayStart(s, network, loadError))
            && (t.current.Some? ==>
                  && t == s.(claimed := true, current := t.current)
                  && t.current.value.terms.network == network && t.current.value.phase == AtPreflight
                  && t.current.value.calls == []
                  && t.current.value.terms.client
                     == Prefix(V4(SegmentStart(network, s.pool) + 2), s.pool.segmentLength))
            && (t.current.None? ==>
                  && |t.refused| == |s.refused| + 1 && t == s.(refused := s.refused + [t.refused[|s.refused|]])
                  && t.refused[|s.refused|].0 == network
                  && Refusal(s, network, loadError, t.refused[|s.refused|].1))
  {
    PlanExists(network, s.pool);
  }

  // ---------------------------------------------------------------- committing

  /** What the second load finds. */
  function Reloaded(store: Registry, w: Script): Registry {
    if w.meanwhile.Some? then w.meanwhile.value else store
  }

  /** The registry can be joined and the result saved. */
  ghost predicate Commitable(at: Registry, network: NetworkId, w: Script) {
    && w.secondLoadError.None? && w.saveError.None?
    && Members(at) == {} && (network in at ==> at[network].state in {NotMember, Joining})
    && Joined(at, network).Ok? && Storable(Joined(at, network).value)
  }

  predicate Answers<T>(r: Reply<T>) { r.Answer? && r.result.Ok? }

  /** Every call is answered with success, and every answer passes its checks. */
  ghost predicate AllGood(terms: Terms, store: Registry, w: Script) {
    && Answers(w.ready) && Answers(w.attached) && Answers(w.configured) && Answers(w.started)
    && LeaseFault(terms, w.attached.result.value, w.configured.result.value).None?
    && w.started.result.value.network == terms.network
    && Commitable(Reloaded(store, w), terms.network, w)
  }

  predicate Undoes(p: Phase) { p.AtStop? || p.AtRemove? || p.AtDisconnect? }

  /** Once a request gives things back it does not commit any more. */
  lemma {:induction false} UndoingNeverCommits(store: Registry, f: Frame, w: Script)
    requires Undoes(f.phase)
    ensures Play(store, f, w).outcome != Returned(Ok(())) && Play(store, f, w).store == store
    decreases Rank(f.phase)
  {
    var next := Decide(store, f, Cue(f.phase, w));
    if next.Waits? { UndoingNeverCommits(store, Frame(f.terms, next.phase, next.calls), w); }
  }

  lemma CommitExactly(store: Registry, f: Frame, w: Script)
    requires f.phase.AtControl?
    ensures var end, at := Play(store, f, w), Reloaded(store, w);
            && (end.outcome == Returned(Ok(())) <==>
                  && Answers(w.started) && w.started.result.value.network == f.terms.network
                  && Commitable(at, f.terms.network, w))
            && (end.outcome == Returned(Ok(())) ==> Joined(at, f.terms.network) == Ok(end.store))
            && (end.outcome != Returned(Ok(())) ==> end.store == at)
  {
    var at := Reloaded(store, w);
    JoinSafety.JoinedExactly(at, f.terms.network);
    var next := Decide(at, f, Cue(f.phase, w));
    if next.Waits? { UndoingNeverCommits(at, Frame(f.terms, next.phase, next.calls), w); }
  }

  lemma FromIp(store: Registry, f: Frame, w: Script)
    requires f.phase.AtIp?
    ensures Play(store, f, w).outcome == Returned(Ok(())) <==>
            && Answers(w.configured) && LeaseFault(f.terms, f.phase.link, w.configured.result.value).None?
            && Answers(w.started) && w.started.result.value.network == f.terms.network
            && Commitable(Reloaded(store, w), f.terms.network, w)
  {
    var next := Decide(store, f, Cue(f.phase, w));
    if next.Waits? {
      var g := Frame(f.terms, next.phase, next.calls);
      if Undoes(g.phase) { UndoingNeverCommits(store, g, w); } else { CommitExactly(store, g, w); }
    }
  }

  /** A request commits exactly when every call succeeds, every check passes and the result can be saved. */
  lemma PlayCommitsExactly(store: Registry, terms: Terms, w: Script)
    ensures Play(store, Frame(terms, AtPreflight, []), w).outcome == Returned(Ok(())) <==> AllGood(terms, store, w)
  {
    var f := Frame(terms, AtPreflight, []);
    var next := Decide(store, f, Cue(f.phase, w));
    if next.Waits? {
      var g := Frame(terms, next.phase, next.calls);
      var after := Decide(store, g, Cue(g.phase, w));
      if after.Waits? { FromIp(store, Frame(terms, after.phase, after.calls), w); }
    }
  }

  /** What a request asks for, as the plan of its network gives it. */
  function TermsOf(pool: Pool, network: NetworkId): Terms
    requires Validate(pool).Ok?
  {
    PlanExists(network, pool);
    Terms(network, Prefix(V4(SegmentStart(network, pool) + 2), pool.segmentLength))
  }

  /** One whole request: it is refused and nothing but the refusal remains, or it runs and ends as its answers say. */
  lemma AttemptedExactly(s: State, network: NetworkId, w: Script)
    requires s.current.None?
    ensures var t := Attempted(s, network, w);
            if !MayStart(s, network, w.firstLoadError) then
              |t.refused| == |s.refused| + 1 && t == s.(refused := t.refused) && t.refused[..|s.refused|] == s.refused
            else
              && |t.finished| == |s.finished| + 1 && t.refused == s.refused && t.finished[..|s.finished|] == s.finished
              && t.finished[|s.finished|].terms == TermsOf(s.pool, network)
              && (t.finished[|s.finished|].outcome == Returned(Ok(())) <==>
                    AllGood(TermsOf(s.pool, network), s.store, w))
  {
    JoinStartsExactly(s, network, w.firstLoadError);
    if MayStart(s, network, w.firstLoadError) { PlayCommitsExactly(s.store, TermsOf(s.pool, network), w); }
  }

  // ---------------------------------------------------------------- ending otherwise

  predicate WasDropped(c: Call) {
    match c
    case Preflight(r) => r.Dropped?
    case EstablishPanu(r) => r.Dropped?
    case ConfigureIp(_, r) => r.Dropped?
    case StartControl(_, _, r) => r.Dropped?
    case StopControl(_, r) => r.Dropped?
    case RemoveIp(_, r) => r.Dropped?
    case DisconnectPanu(_, r) => r.Dropped?
    case _ => false
  }

  predicate EndsDropped(calls: seq<Call>) { calls != [] && WasDropped(calls[|calls| - 1]) }

  lemma EndsAbandonedExactly(store: Registry, f: Frame, e: Event)
    ensures var next := Decide(store, f, e);
            && (next.Ends? ==> (next.outcome.Abandoned? <==> EndsDropped(next.calls)))
            && (next.Commits? ==> !EndsDropped(next.calls))
            && (next.Waits? && next.calls != f.calls ==> !EndsDropped(next.calls))
  {
  }

  ghost predicate Reasoned(s: State) {
    && (s.current.Some? ==> !EndsDropped(s.current.value.calls))
    && (forall a <- s.finished :: a.outcome.Abandoned? <==> EndsDropped(a.calls))
  }

  lemma StepKeepsReasoned(s: State, e: Event)
    requires Reasoned(s)
    ensures Reasoned(Step(s, e))
  {
    if s.current.Some? { EndsAbandonedExactly(s.store, s.current.value, e); }
    var t := Step(s, e);
    assert forall a <- t.finished :: a in s.finished || (|t.finished| > 0 && a == t.finished[|t.finished| - 1]);
  }

  lemma {:induction false} EveryRunIsReasoned(pool: Pool, store: Registry, events: seq<Event>)
    ensures Reasoned(Run(Initial(pool, store), events))
  {
    if events != [] {
      EveryRunIsReasoned(pool, store, events[..|events| - 1]);
      StepKeepsReasoned(Run(Initial(pool, store), events[..|events| - 1]), events[|events| - 1]);
    }
  }

  lemma AnswersOkExactly(a: Attempt)
    requires AttemptInv(a) && a.outcome.Returned?
    ensures a.outcome.result.Ok? <==> Committed(a.calls)
  {
  }

  /**
   In every run a finished attempt was abandoned exactly if its last call was cancelled; otherwise it
   answered, with success exactly if it saved.
   */
  lemma EveryEndHasAReason(pool: Pool, store: Registry, events: seq<Event>, a: Attempt)
    requires a in Run(Initial(pool, store), events).finished
    ensures a.outcome.Abandoned? <==> EndsDropped(a.calls)
    ensures a.outcome.Returned? ==> (a.outcome.result.Ok? <==> Committed(a.calls))
  {
    EveryRunIsReasoned(pool, store, events);
    JoinSafety.EveryRunKeepsInv(pool, store, events);
    if a.outcome.Returned? { AnswersOkExactly(a); }
  }
}
