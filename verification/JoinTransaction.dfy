/**
 Joining a network as steps between awaits: a PANU link, an IP lease and a control
 session are acquired in turn, then membership is committed. Any runtime call may
 answer anything, and the request may be dropped at every await. The coordinator's
 flag is held by a guard that frees it only before any mutation or once every
 resource is proven released.
 */
module JoinTransaction {
  import opened Vocabulary
  import opened AddressPlan
  import opened ControlEndpoints
  import Hex

  // ---------------------------------------------------------------- runtime calls

  datatype Session = Session(network: NetworkId, handle: nat)

  /** How an awaited call came back; a dropped request never learns its answer. */
  datatype Reply<+T> = Answer(result: Result<T>) | Dropped

  datatype Call =
    | Preflight(ready: Reply<()>)
    | EstablishPanu(attached: Reply<PanLink>)
    | ConfigureIp(link: PanLink, configured: Reply<Lease>)
    | StartControl(link: PanLink, lease: Lease, started: Reply<Session>)
    | Load(loaded: Result<Registry>)
    | Save(registry: Registry, saved: Result<()>)
    | StopControl(session: Session, stopped: Reply<()>)
    | RemoveIp(lease: Lease, removed: Reply<()>)
    | DisconnectPanu(link: PanLink, disconnected: Reply<()>)

  // ---------------------------------------------------------------- state

  datatype Phase =
    | AtPreflight
    | AtPanu
    | AtIp(link: PanLink)
    | AtControl(link: PanLink, lease: Lease)
    | AtStop(primary: CoreError, session: Session, lease: Lease, link: PanLink)
    | AtRemove(primary: CoreError, lease: Lease, link: PanLink, control: Result<()>, mayReconcile: bool)
    | AtDisconnect(primary: CoreError, link: PanLink, control: Result<()>, address: Result<()>, mayReconcile: bool)

  /** What a request asks for: a network, and the client address its plan gives. */
  datatype Terms = Terms(network: NetworkId, client: Prefix)

  /** One request suspended at an await, with the calls it has made so far. */
  datatype Frame = Frame(terms: Terms, phase: Phase, calls: seq<Call>)

  datatype Outcome = Returned(result: Result<()>) | Abandoned

  datatype Attempt = Attempt(terms: Terms, calls: seq<Call>, outcome: Outcome)

  /** `finished` are the attempts that reached the runtime, `refused` those turned away before. */
  datatype State = State(pool: Pool, claimed: bool, store: Registry, current: Option<Frame>,
                         finished: seq<Attempt>, refused: seq<(NetworkId, CoreError)>)

  function Initial(pool: Pool, store: Registry): State {
    State(pool, false, store, None, [], [])
  }

  // ---------------------------------------------------------------- pure pieces

  /** Why an answered lease is refused, in the order of the checks. */
  function LeaseFault(terms: Terms, link: PanLink, lease: Lease): Option<ErrorKind> {
    if lease.owner != terms.network || lease.interface != link.interface then Some(InvalidState)
    else if !(lease.prefix.address.V4? && IsPrivate(lease.prefix.address.value)
              && !IsLoopback(lease.prefix.address.value)) then Some(InvalidState)
    else if lease.prefix != terms.client then Some(AddressConflict)
    else None
  }

  function DiscoveredName(network: NetworkId): string {
    "BlueRoute " + Hex.Encode(network.bytes)[..8]
  }

  function MarkJoined(r: Registry, network: NetworkId): Result<Registry> {
    var before := if network in r then r[network] else Membership(DiscoveredName(network), NotMember, map[]);
    var joining := before.state.Transition(Joining);
    if joining.Err? then Err(joining.error) else
    var member := joining.value.Transition(Member);
    if member.Err? then Err(member.error) else
    Ok(r[network := before.(state := member.value)])
  }

  function FailureOf(stage: RollbackStage, r: Result<()>): seq<RollbackFailure> {
    if r.Ok? then [] else [RollbackFailure(stage, r.error)]
  }

  function WithFailures(primary: CoreError, failures: seq<RollbackFailure>): CoreError {
    if failures == [] then primary
    else primary.(diagnostic := Some(AndRollbackFailures(primary.diagnostic, failures)))
  }

  function CombineRollback(primary: CoreError, control: Result<()>, address: Result<()>, panu: Result<()>): CoreError {
    WithFailures(primary,
                 FailureOf(ControlRollback, control) + FailureOf(AddressRollback, address)
                 + FailureOf(PanuRollback, panu))
  }

  // ---------------------------------------------------------------- steps

  datatype Event =
    | OnJoin(network: NetworkId, loadError: Option<CoreError>)
    | OnStoreChange(registry: Registry)
    | OnPreflight(ready: Reply<()>)
    | OnPanu(attached: Reply<PanLink>)
    | OnIp(configured: Reply<Lease>)
    | OnControl(started: Reply<Session>, loadError: Option<CoreError>, saveError: Option<CoreError>)
    | OnRelease(released: Reply<()>)

  /** What a request does when it is polled: wait again, end, or end with membership saved. */
  datatype Next =
    | Waits(phase: Phase, calls: seq<Call>)
    | Ends(calls: seq<Call>, outcome: Outcome, free: bool)
    | Commits(registry: Registry, calls: seq<Call>)

  function Suspend(s: State, f: Frame, phase: Phase, calls: seq<Call>): State {
    s.(current := Some(Frame(f.terms, phase, calls)))
  }

  /** The request ends; its guard frees the flag unless resources may still be live. */
  function Finish(s: State, f: Frame, calls: seq<Call>, outcome: Outcome, free: bool): State {
    s.(claimed := s.claimed && !free, current := None, finished := s.finished + [Attempt(f.terms, calls, outcome)])
  }

  function Refuse(s: State, network: NetworkId, error: CoreError): State {
    s.(refused := s.refused + [(network, error)])
  }

  /** From the request to its first await. */
  function Join(s: State, network: NetworkId, loadError: Option<CoreError>): State {
    if network == ZERO_NETWORK || s.claimed then Refuse(s, network, CoreError(InvalidState, "", None))
    else if loadError.Some? then Refuse(s, network, loadError.value)
    else if CurrentNetwork(s.store).Err? then Refuse(s, network, CurrentNetwork(s.store).error)
    else if CurrentNetwork(s.store).value.Some? then Refuse(s, network, CoreError(InvalidState, "", None))
    else if PlanFor(network, s.pool).Err? then Refuse(s, network, PlanFor(network, s.pool).error)
    else s.(claimed := true,
            current := Some(Frame(Terms(network, PlanFor(network, s.pool).value.firstClient), AtPreflight, [])))
  }

  function AfterPreflight(f: Frame, reply: Reply<()>): Next {
    var calls := f.calls + [Preflight(reply)];
    match reply
    case Dropped => Ends(calls, Abandoned, true)
    case Answer(Err(e)) => Ends(calls, Returned(Err(e)), true)
    case Answer(Ok(_)) => Waits(AtPanu, calls)
  }

  function AfterPanu(f: Frame, reply: Reply<PanLink>): Next {
    var calls := f.calls + [EstablishPanu(reply)];
    match reply
    case Dropped => Ends(calls, Abandoned, false)
    case Answer(Err(e)) => Ends(calls, Returned(Err(e)), false)
    case Answer(Ok(link)) => Waits(AtIp(link), calls)
  }

  function AfterIp(f: Frame, link: PanLink, reply: Reply<Lease>): Next {
    var calls := f.calls + [ConfigureIp(link, reply)];
    match reply
    case Dropped => Ends(calls, Abandoned, false)
    case Answer(Err(e)) => Waits(AtDisconnect(e, link, Ok(()), Ok(()), false), calls)
    case Answer(Ok(lease)) =>
      match LeaseFault(f.terms, link, lease)
      case Some(kind) => Waits(AtDisconnect(CoreError(kind, "", None), link, Ok(()), Ok(()), false), calls)
      case None => Waits(AtControl(link, lease), calls)
  }

  function AfterControl(store: Registry, f: Frame, link: PanLink, lease: Lease, reply: Reply<Session>,
                        loadError: Option<CoreError>, saveError: Option<CoreError>): Next {
    var calls := f.calls + [StartControl(link, lease, reply)];
    match reply
    case Dropped => Ends(calls, Abandoned, false)
    case Answer(Err(e)) => Waits(AtRemove(e, lease, link, Ok(()), false), calls)
    case Answer(Ok(session)) => Commit(store, f, calls, link, lease, session, loadError, saveError)
  }

  /** From the authenticated session to the saved membership, without an await in between. */
  function Commit(store: Registry, f: Frame, calls: seq<Call>, link: PanLink, lease: Lease, session: Session,
                  loadError: Option<CoreError>, saveError: Option<CoreError>): Next {
    if session.network != f.terms.network then
      Waits(AtStop(CoreError(AuthenticationFailed, "", None), session, lease, link), calls)
    else if loadError.Some? then
      Waits(AtStop(loadError.value, session, lease, link), calls + [Load(Err(loadError.value))])
    else
      CommitLoaded(calls + [Load(Ok(store))], link, lease, session,
                   Joined(store, f.terms.network), saveError)
  }

  /** The registry to save: there must be no current network yet. */
  function Joined(r: Registry, network: NetworkId): Result<Registry> {
    match CurrentNetwork(r)
    case Err(e) => Err(e)
    case Ok(Some(_)) => Fail(InvalidState)
    case Ok(None) => MarkJoined(r, network)
  }

  function CommitLoaded(loaded: seq<Call>, link: PanLink, lease: Lease, session: Session,
                        joined: Result<Registry>, saveError: Option<CoreError>): Next {
    match joined
    case Err(e) => Waits(AtStop(e, session, lease, link), loaded)
    case Ok(r) =>
      var saved := SaveTo(r, saveError);
      var calls := loaded + [Save(r, saved)];
      if saved.Err? then Waits(AtStop(saved.error, session, lease, link), calls)
      else Commits(r, calls)
  }

  function AfterStop(f: Frame, p: Phase, reply: Reply<()>): Next
    requires p.AtStop?
  {
    var calls := f.calls + [StopControl(p.session, reply)];
    match reply
    case Dropped => Ends(calls, Abandoned, false)
    case Answer(control) => Waits(AtRemove(p.primary, p.lease, p.link, control, true), calls)
  }

  function AfterRemove(f: Frame, p: Phase, reply: Reply<()>): Next
    requires p.AtRemove?
  {
    var calls := f.calls + [RemoveIp(p.lease, reply)];
    match reply
    case Dropped => Ends(calls, Abandoned, false)
    case Answer(address) => Waits(AtDisconnect(p.primary, p.link, p.control, address, p.mayReconcile), calls)
  }

  function AfterDisconnect(f: Frame, p: Phase, reply: Reply<()>): Next
    requires p.AtDisconnect?
  {
    var calls := f.calls + [DisconnectPanu(p.link, reply)];
    match reply
    case Dropped => Ends(calls, Abandoned, false)
    case Answer(panu) =>
      var clean := p.control.Ok? && p.address.Ok? && panu.Ok?;
      Ends(calls, Returned(Err(CombineRollback(p.primary, p.control, p.address, panu))), p.mayReconcile && clean)
  }

  /** An answer meant for another await than the current one cannot arrive. */
  function Decide(store: Registry, f: Frame, e: Event): Next {
    match (f.phase, e)
    case (AtPreflight, OnPreflight(r)) => AfterPreflight(f, r)
    case (AtPanu, OnPanu(r)) => AfterPanu(f, r)
    case (AtIp(link), OnIp(r)) => AfterIp(f, link, r)
    case (AtControl(link, lease), OnControl(r, load, save)) => AfterControl(store, f, link, lease, r, load, save)
    case (AtStop(_, _, _, _), OnRelease(r)) => AfterStop(f, f.phase, r)
    case (AtRemove(_, _, _, _, _), OnRelease(r)) => AfterRemove(f, f.phase, r)
    case (AtDisconnect(_, _, _, _, _), OnRelease(r)) => AfterDisconnect(f, f.phase, r)
    case _ => Waits(f.phase, f.calls)
  }

  function Apply(s: State, f: Frame, next: Next): State {
    match next
    case Waits(phase, calls) => Suspend(s, f, phase, calls)
    case Ends(calls, outcome, free) => Finish(s, f, calls, outcome, free)
    case Commits(registry, calls) => Finish(s.(store := registry), f, calls, Returned(Ok(())), true)
  }

  function Step(s: State, e: Event): State {
    match e
    case OnJoin(network, loadError) => Join(s, network, loadError)
    case OnStoreChange(r) => s.(store := r)
    case _ => if s.current.None? then s else Apply(s, s.current.value, Decide(s.store, s.current.value, e))
  }

  function Run(s: State, events: seq<Event>): State {
    if events == [] then s else Step(Run(s, events[..|events| - 1]), events[|events| - 1])
  }

  // ---------------------------------------------------------------- one whole request

  /** Every answer one request can get, each await made at most once, and the store as its second load finds it. */
  datatype Script = Script(
    firstLoadError: Option<CoreError>, ready: Reply<()>, attached: Reply<PanLink>, configured: Reply<Lease>,
    started: Reply<Session>, meanwhile: Option<Registry>, secondLoadError: Option<CoreError>,
    saveError: Option<CoreError>,
    stopped: Reply<()>, removed: Reply<()>, disconnected: Reply<()>)

  datatype Ending = Ending(store: Registry, calls: seq<Call>, outcome: Outcome, free: bool)

  function Rank(p: Phase): nat {
    match p
    case AtPreflight => 7
    case AtPanu => 6
    case AtIp(_) => 5
    case AtControl(_, _) => 4
    case AtStop(_, _, _, _) => 3
    case AtRemove(_, _, _, _, _) => 2
    case AtDisconnect(_, _, _, _, _) => 1
  }

  function Cue(p: Phase, w: Script): Event {
    match p
    case AtPreflight => OnPreflight(w.ready)
    case AtPanu => OnPanu(w.attached)
    case AtIp(_) => OnIp(w.configured)
    case AtControl(_, _) => OnControl(w.started, w.secondLoadError, w.saveError)
    case AtStop(_, _, _, _) => OnRelease(w.stopped)
    case AtRemove(_, _, _, _, _) => OnRelease(w.removed)
    case AtDisconnect(_, _, _, _, _) => OnRelease(w.disconnected)
  }

  function StoreAt(store: Registry, p: Phase, w: Script): Registry {
    if p.AtControl? && w.meanwhile.Some? then w.meanwhile.value else store
  }

  /** Feeds a suspended request its answers until it ends. */
  function Play(store: Registry, f: Frame, w: Script): Ending
    decreases Rank(f.phase)
  {
    var store' := StoreAt(store, f.phase, w);
    match Decide(store', f, Cue(f.phase, w))
    case Waits(phase, calls) => Play(store', Frame(f.terms, phase, calls), w)
    case Ends(calls, outcome, free) => Ending(store', calls, outcome, free)
    case Commits(registry, calls) => Ending(registry, calls, Returned(Ok(())), true)
  }

  function Attempted(s: State, network: NetworkId, w: Script): State
    requires s.current.None?
  {
    var t := Join(s, network, w.firstLoadError);
    if t.current.None? then t else
      var f := t.current.value;
      var end := Play(t.store, f, w);
      Finish(t.(store := end.store), f, end.calls, end.outcome, end.free)
  }

  // ---------------------------------------------------------------- what a trace means

  datatype Resource = Link(link: PanLink) | Address(lease: Lease) | Control(session: Session)

  function Obtained(c: Call): Option<Resource> {
    match c
    case EstablishPanu(Answer(Ok(link))) => Some(Link(link))
    case ConfigureIp(_, Answer(Ok(lease))) => Some(Address(lease))
    case StartControl(_, _, Answer(Ok(session))) => Some(Control(session))
    case _ => None
  }

  /** A resource given back by a cleanup call that said so. */
  function GivenBack(c: Call): Option<Resource> {
    match c
    case StopControl(session, Answer(Ok(_))) => Some(Control(session))
    case RemoveIp(lease, Answer(Ok(_))) => Some(Address(lease))
    case DisconnectPanu(link, Answer(Ok(_))) => Some(Link(link))
    case _ => None
  }

  /** Obtained and not yet given back. */
  function Unreturned(calls: seq<Call>): set<Resource> {
    if calls == [] then {} else
      var c := calls[|calls| - 1];
      var before := Unreturned(calls[..|calls| - 1]);
      if Obtained(c).Some? then before + {Obtained(c).value}
      else if GivenBack(c).Some? then before - {GivenBack(c).value}
      else before
  }

  /** An acquisition that failed or was cancelled may have left something no one can name. */
  predicate MayHaveLeaked(c: Call) {
    match c
    case EstablishPanu(r) => r.Dropped? || r.result.Err?
    case ConfigureIp(_, r) => r.Dropped? || r.result.Err?
    case StartControl(_, _, r) => r.Dropped? || r.result.Err?
    case _ => false
  }

  predicate Leaky(calls: seq<Call>) {
    calls != [] && (MayHaveLeaked(calls[|calls| - 1]) || Leaky(calls[..|calls| - 1]))
  }

  predicate Committed(calls: seq<Call>) {
    calls != [] && calls[|calls| - 1].Save? && calls[|calls| - 1].saved.Ok?
  }

  /** Nothing of this attempt can still be live without an owner. */
  predicate Settled(calls: seq<Call>) {
    Committed(calls) || (!Leaky(calls) && Unreturned(calls) == {})
  }

  // ---------------------------------------------------------------- the order of calls

  /**
   A monitor for the only allowed shape of a trace. `stack` holds the verified resources
   in order of acquisition; a release must name the top one; nothing is acquired or saved
   once a release was made.
   */
  datatype Monitor = Monitor(next: nat, stack: seq<Resource>, releasing: bool, saved: bool)

  function Push(m: Monitor, c: Call): Monitor {
    m.(next := m.next + 1, stack := if Obtained(c).Some? then m.stack + [Obtained(c).value] else m.stack)
  }

  function Pop(m: Monitor, r: Resource): Option<Monitor> {
    if m.stack != [] && m.stack[|m.stack| - 1] == r
    then Some(m.(stack := m.stack[..|m.stack| - 1], releasing := true)) else None
  }

  predicate HoldsAll(m: Monitor, network: NetworkId) {
    && |m.stack| == 3 && m.stack[0].Link? && m.stack[1].Address? && m.stack[2].Control?
    && m.stack[2].session.network == network
  }

  function Watch(terms: Terms, m: Monitor, c: Call): Option<Monitor> {
    match c
    case Preflight(_) => if m.next == 0 && !m.releasing then Some(m.(next := 1)) else None
    case EstablishPanu(_) => if m.next == 1 && !m.releasing then Some(Push(m, c)) else None
    case ConfigureIp(link, r) =>
      if m.next == 2 && !m.releasing && m.stack == [Link(link)] then
        if r.Answer? && r.result.Ok? && LeaseFault(terms, link, r.result.value).Some? then Some(m.(next := 3))
        else Some(Push(m, c))
      else None
    case StartControl(link, lease, _) =>
      if m.next == 3 && !m.releasing && m.stack == [Link(link), Address(lease)] then Some(Push(m, c)) else None
    case Load(_) => if m.next == 4 && !m.releasing && HoldsAll(m, terms.network) then Some(m.(next := 5)) else None
    case Save(_, _) =>
      if m.next == 5 && !m.releasing && HoldsAll(m, terms.network) then Some(m.(next := 6, saved := true)) else None
    case StopControl(session, _) => Pop(m, Control(session))
    case RemoveIp(lease, _) => Pop(m, Address(lease))
    case DisconnectPanu(link, _) => Pop(m, Link(link))
  }

  function Monitored(terms: Terms, calls: seq<Call>): Option<Monitor> {
    if calls == [] then Some(Monitor(0, [], false, false)) else
      match Monitored(terms, calls[..|calls| - 1])
      case None => None
      case Some(m) => Watch(terms, m, calls[|calls| - 1])
  }

  // ---------------------------------------------------------------- what went wrong first

  function ErrorOf<T>(r: Reply<T>): Option<CoreError> {
    if r.Answer? && r.result.Err? then Some(r.result.error) else None
  }

  /** The error of a forward call; cleanup errors are never primary. */
  function ForwardError(c: Call): Option<CoreError> {
    match c
    case Preflight(r) => ErrorOf(r)
    case EstablishPanu(r) => ErrorOf(r)
    case ConfigureIp(_, r) => ErrorOf(r)
    case StartControl(_, _, r) => ErrorOf(r)
    case Load(r) => if r.Err? then Some(r.error) else None
    case Save(_, r) => if r.Err? then Some(r.error) else None
    case _ => None
  }

  /** The verdict of the coordinator on an answer it would not accept. */
  function Verdict(terms: Terms, c: Call): Option<ErrorKind> {
    match c
    case ConfigureIp(link, Answer(Ok(lease))) => LeaseFault(terms, link, lease)
    case StartControl(_, _, Answer(Ok(session))) =>
      if session.network != terms.network then Some(AuthenticationFailed) else None
    case Load(Ok(r)) => if Joined(r, terms.network).Err? then Some(InvalidState) else None
    case _ => None
  }

  /** No call forward failed or got an answer the coordinator would not accept. */
  predicate AllWell(terms: Terms, calls: seq<Call>) {
    calls == [] ||
    var c := calls[|calls| - 1];
    AllWell(terms, calls[..|calls| - 1]) && ForwardError(c).None? && Verdict(terms, c).None?
  }

  /** `e` is the first thing that went wrong in this trace: all was well before, only releases came after. */
  predicate Primary(terms: Terms, calls: seq<Call>, e: CoreError) {
    calls != [] &&
    var c, before := calls[|calls| - 1], calls[..|calls| - 1];
    if c.StopControl? || c.RemoveIp? || c.DisconnectPanu? then Primary(terms, before, e)
    else AllWell(terms, before) &&
         if ForwardError(c).Some? then e == ForwardError(c).value
         else Verdict(terms, c).Some? && e.kind == Verdict(terms, c).value
  }

  function CleanupFailure(c: Call): seq<RollbackFailure> {
    match c
    case StopControl(_, Answer(r)) => FailureOf(ControlRollback, r)
    case RemoveIp(_, Answer(r)) => FailureOf(AddressRollback, r)
    case DisconnectPanu(_, Answer(r)) => FailureOf(PanuRollback, r)
    case _ => []
  }

  function CleanupFailures(calls: seq<Call>): seq<RollbackFailure> {
    if calls == [] then [] else CleanupFailures(calls[..|calls| - 1]) + CleanupFailure(calls[|calls| - 1])
  }

  // ---------------------------------------------------------------- the invariant

  ghost predicate Stack(terms: Terms, calls: seq<Call>, stack: seq<Resource>) {
    Monitored(terms, calls).Some? && Monitored(terms, calls).value.stack == stack
  }

  ghost predicate Advancing(terms: Terms, calls: seq<Call>, next: nat, stack: seq<Resource>) {
    Holding(terms, calls, next, stack) && AllWell(terms, calls)
  }

  ghost predicate Holding(terms: Terms, calls: seq<Call>, next: nat, stack: seq<Resource>) {
    && Monitored(terms, calls) == Some(Monitor(next, stack, false, false))
    && !Leaky(calls) && Unreturned(calls) == (set r | r in stack) && CleanupFailures(calls) == []
  }

  /** Some resource other than those still on the stack will never be given back. */
  ghost predicate Stained(calls: seq<Call>, stack: seq<Resource>) {
    Leaky(calls) || exists r :: r in Unreturned(calls) && r !in stack
  }

  ghost predicate Undoing(terms: Terms, calls: seq<Call>, stack: seq<Resource>, primary: CoreError,
                          failures: seq<RollbackFailure>, clean: bool) {
    && Stack(terms, calls, stack) && !Committed(calls)
    && Primary(terms, calls, primary) && CleanupFailures(calls) == failures
    && (clean ==> !Leaky(calls) && Unreturned(calls) == (set r | r in stack))
    && (!clean ==> Stained(calls, stack))
  }

  ghost predicate FrameInv(f: Frame) {
    match f.phase
    case AtPreflight => f.calls == []
    case AtPanu => Advancing(f.terms, f.calls, 1, [])
    case AtIp(link) => Advancing(f.terms, f.calls, 2, [Link(link)])
    case AtControl(link, lease) => Advancing(f.terms, f.calls, 3, [Link(link), Address(lease)])
    case AtStop(primary, session, lease, link) =>
      Undoing(f.terms, f.calls, [Link(link), Address(lease), Control(session)], primary, [], true)
    case AtRemove(primary, lease, link, control, mayReconcile) =>
      Undoing(f.terms, f.calls, [Link(link), Address(lease)], primary,
              FailureOf(ControlRollback, control), mayReconcile && control.Ok?)
    case AtDisconnect(primary, link, control, address, mayReconcile) =>
      Undoing(f.terms, f.calls, [Link(link)], primary,
              FailureOf(ControlRollback, control) + FailureOf(AddressRollback, address),
              mayReconcile && control.Ok? && address.Ok?)
  }

  /** What is promised of every attempt that is over. */
  ghost predicate AttemptInv(a: Attempt) {
    && Monitored(a.terms, a.calls).Some?
    && match a.outcome
       case Abandoned => true
       case Returned(Ok(_)) => CommitInv(a)
       case Returned(Err(e)) => FailureInv(a, e)
  }

  ghost predicate CommitInv(a: Attempt) {
    && Committed(a.calls) && CleanupFailures(a.calls) == []
    && Monitored(a.terms, a.calls).Some?
    && HoldsAll(Monitored(a.terms, a.calls).value, a.terms.network)
    && !Monitored(a.terms, a.calls).value.releasing
  }

  ghost predicate FailureInv(a: Attempt, e: CoreError) {
    && !Committed(a.calls) && Stack(a.terms, a.calls, [])
    && exists primary :: Primary(a.terms, a.calls, primary) && e == WithFailures(primary, CleanupFailures(a.calls))
  }

  ghost predicate TermsInv(terms: Terms, pool: Pool) {
    && terms.network != ZERO_NETWORK
    && PlanFor(terms.network, pool).Ok? && terms.client == PlanFor(terms.network, pool).value.firstClient
  }
}
