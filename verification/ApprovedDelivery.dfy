/**
 A session's traffic against the two trust files. Trust, forget, enrolment and network changes
 happen at any moment, also while a read waits for the peer or a write is on its way; every approval
 of the session is the check of the files as they are at that moment. A read is checked before and
 after it waits, a send only before it writes: the trust lock is let go in between.
 */
module ApprovedDelivery {
  import opened Vocabulary
  import opened PeerPins
  import A = ActiveSession
  import S = SessionStream
  import T = PeerTrust

  /** The peer a session belongs to, and the key it authenticated with. */
  datatype Party = Party(peer: PeerKey, key: Key)

  /** A read that waits: what it was called with, how many changes came before, and what the check said then. */
  datatype Waiting = Waiting(now: U64, maxWait: nat, timeoutRefused: bool, since: nat, approved: bool)

  /** Frames handed over by a read that began and ended after so many changes. */
  datatype Delivery = Delivery(since: nat, at: nat, frames: seq<S.Envelope>)

  /** A send that was reported as done: it began and ended after so many changes. */
  datatype Send = Send(since: nat, at: nat)

  /** `sending` is set while an approved write is on its way, to the number of changes before it. */
  datatype State = State(
    files: T.Files, changes: seq<T.Event>, world: A.World, acts: seq<A.Event>,
    waiting: Option<Waiting>, sending: Option<nat>, deliveries: seq<Delivery>, sends: seq<Send>)
  {
    predicate Busy() { waiting.Some? || sending.Some? }
  }

  datatype Event =
    | OnChange(change: T.Event)
    | OnBeginRead(now: U64, maxWait: nat, timeoutRefused: bool, faults: T.Faults)
    | OnEndRead(pause: nat, socket: A.SocketRead, elapsed: nat, faults: T.Faults)
    | OnBeginSend(faults: T.Faults)
    | OnEndSend(written: bool)
    | OnRecheck(faults: T.Faults)
    | OnClose

  function Allowed(s: State, p: Party, x: T.Faults): bool { T.Authorize(s.files, p.peer, p.key, x).Ok? }

  function Act(s: State, e: A.Event): State {
    s.(world := A.Step(s.world, e), acts := s.acts + [e])
  }

  function EndRead(s: State, w: Waiting, x: A.Slice): State {
    var r := A.Receive(s.world.session, x).1;
    Act(s, A.OnRead(x)).(
      waiting := None,
      deliveries := if r.Frames? then s.deliveries + [Delivery(w.since, |s.changes|, r.frames)] else s.deliveries)
  }

  /** The whole read, once it ends. */
  function SliceOf(p: Party, s: State, e: Event): A.Slice
    requires e.OnEndRead? && s.waiting.Some?
  {
    var w := s.waiting.value;
    A.Slice(w.now, w.maxWait, w.approved, w.timeoutRefused, e.pause, e.socket, e.elapsed, Allowed(s, p, e.faults))
  }

  /** A live, approved session starts to write; any other answers an error, and an unapproved one is closed. */
  function BeginSend(s: State, allowed: bool): State {
    if allowed && !s.world.session.terminal then s.(sending := Some(|s.changes|)) else Act(s, A.OnSend(false, false))
  }

  function EndSend(s: State, since: nat, written: bool): State {
    var done := A.Send(s.world.session, true, written).1.None?;
    Act(s, A.OnSend(true, written)).(
      sending := None, sends := if done then s.sends + [Send(since, |s.changes|)] else s.sends)
  }

  /** The session belongs to one caller: while it reads or writes it does nothing else. */
  function Step(p: Party, s: State, e: Event): State {
    match e
    case OnChange(c) => s.(files := T.Step(s.files, c), changes := s.changes + [c])
    case OnBeginRead(now, maxWait, timeoutRefused, x) =>
      if s.Busy() then s
      else s.(waiting := Some(Waiting(now, maxWait, timeoutRefused, |s.changes|, Allowed(s, p, x))))
    case OnEndRead(_, _, _, _) =>
      if s.waiting.None? then s else EndRead(s, s.waiting.value, SliceOf(p, s, e))
    case OnBeginSend(x) => if s.Busy() then s else BeginSend(s, Allowed(s, p, x))
    case OnEndSend(written) => if s.sending.None? then s else EndSend(s, s.sending.value, written)
    case OnRecheck(x) => if s.Busy() || Allowed(s, p, x) then s else Act(s, A.OnSend(false, false))
    case OnClose => if s.Busy() then s else Act(s, A.OnClose)
  }

  function Run(p: Party, s: State, events: seq<Event>): State {
    if events == [] then s else Step(p, Run(p, s, events[..|events| - 1]), events[|events| - 1])
  }

  /** A session just opened, over a registry and an empty pin file that have changed before. */
  function Opened(registry: Registry, earlier: seq<T.Event>, p: Party, id: SessionId, now: U64): State {
    State(T.Run(T.Files(registry, Some(map[])), earlier), earlier,
          A.World(A.Begin(p.peer.network, p.peer.peer, id, now), [], 0), [], None, None, [], [])
  }

  function AllFrames(ds: seq<Delivery>): seq<S.Envelope> {
    if ds == [] then [] else AllFrames(ds[..|ds| - 1]) + ds[|ds| - 1].frames
  }

  // ---------------------------------------------------------------- what is kept

  /** After these changes the peer is approved, and its key was enrolled and not forgotten since. */
  ghost predicate Standing(f: T.Files, changes: seq<T.Event>, p: Party) {
    && T.Approved(T.Run(f, changes).registry, p.peer)
    && exists j :: T.StandingEnrolment(f, changes, j, p.peer, p.key)
  }

  ghost predicate Covered(f: T.Files, changes: seq<T.Event>, p: Party, d: Delivery) {
    && d.since <= d.at <= |changes| && Standing(f, changes[..d.since], p) && Standing(f, changes[..d.at], p)
  }

  ghost predicate WaitingInv(f: T.Files, p: Party, s: State) {
    s.waiting.Some? ==>
      && s.waiting.value.since <= |s.changes|
      && (s.waiting.value.approved ==> Standing(f, s.changes[..s.waiting.value.since], p))
  }

  /** A send began while the peer's key stood enrolled. */
  ghost predicate Begun(f: T.Files, changes: seq<T.Event>, p: Party, since: nat) {
    since <= |changes| && Standing(f, changes[..since], p)
  }

  ghost predicate SendingInv(f: T.Files, p: Party, s: State) {
    && (s.sending.Some? ==> Begun(f, s.changes, p, s.sending.value))
    && (forall d <- s.sends :: d.since <= d.at <= |s.changes| && Begun(f, s.changes, p, d.since))
  }

  ghost predicate Inv(f: T.Files, p: Party, start: A.World, s: State) {
    && s.files == T.Run(f, s.changes)
    && s.world == A.Run(start, s.acts)
    && s.world.delivered == start.delivered + AllFrames(s.deliveries)
    && s.world.sent == start.sent + |s.sends|
    && WaitingInv(f, p, s) && SendingInv(f, p, s)
    && (forall d <- s.deliveries :: Covered(f, s.changes, p, d))
  }

  lemma AllowedMeansStanding(registry: Registry, p: Party, s: State, x: T.Faults)
    requires s.files == T.Run(T.Files(registry, Some(map[])), s.changes) && Allowed(s, p, x)
    ensures Standing(T.Files(registry, Some(map[])), s.changes, p)
  {
    var j := T.DeliveryNeedsStandingEnrolment(registry, s.changes, T.OnFrame(p.peer, p.key, x), p.peer, p.key);
  }

  lemma SamePast(changes: seq<T.Event>, c: T.Event, n: nat)
    requires n <= |changes|
    ensures (changes + [c])[..n] == changes[..n]
  {
  }

  /** What was covered stays covered when trust changes later on. */
  lemma StillCovered(f: T.Files, p: Party, s: State, c: T.Event)
    requires forall d <- s.deliveries :: Covered(f, s.changes, p, d)
    ensures forall d <- s.deliveries :: Covered(f, s.changes + [c], p, d)
  {
    forall d | d in s.deliveries ensures Covered(f, s.changes + [c], p, d) {
      SamePast(s.changes, c, d.since);
      SamePast(s.changes, c, d.at);
    }
  }

  lemma StillBegun(f: T.Files, p: Party, changes: seq<T.Event>, c: T.Event, since: nat)
    requires Begun(f, changes, p, since)
    ensures Begun(f, changes + [c], p, since)
  {
    SamePast(changes, c, since);
  }

  lemma ChangeKeepsInv(f: T.Files, p: Party, start: A.World, s: State, c: T.Event)
    requires Inv(f, p, start, s)
    ensures Inv(f, p, start, Step(p, s, OnChange(c)))
  {
    SamePast(s.changes, c, |s.changes|);
    assert s.changes[..|s.changes|] == s.changes;
    StillCovered(f, p, s, c);
    if s.waiting.Some? { SamePast(s.changes, c, s.waiting.value.since); }
    if s.sending.Some? { StillBegun(f, p, s.changes, c, s.sending.value); }
    forall d | d in s.sends ensures Begun(f, s.changes + [c], p, d.since) { StillBegun(f, p, s.changes, c, d.since); }
  }

  lemma ActKeepsRun(start: A.World, s: State, e: A.Event)
    requires s.world == A.Run(start, s.acts)
    ensures Act(s, e).world == A.Run(start, Act(s, e).acts)
  {
    assert (s.acts + [e])[..|s.acts|] == s.acts;
  }

  lemma MoreFrames(ds: seq<Delivery>, d: Delivery)
    ensures AllFrames(ds + [d]) == AllFrames(ds) + d.frames
  {
    assert (ds + [d])[..|ds|] == ds;
  }

  lemma DeliveredMore(s: State, w: Waiting, x: A.Slice, start: A.World)
    requires s.world.delivered == start.delivered + AllFrames(s.deliveries)
    ensures EndRead(s, w, x).world.delivered == start.delivered + AllFrames(EndRead(s, w, x).deliveries)
  {
    var r := A.Receive(s.world.session, x).1;
    if r.Frames? {
      MoreFrames(s.deliveries, Delivery(w.since, |s.changes|, r.frames));
      assert start.delivered + AllFrames(s.deliveries) + r.frames
             == start.delivered + (AllFrames(s.deliveries) + r.frames);
    }
  }

  lemma CoveredMore(f: T.Files, p: Party, s: State, w: Waiting, x: A.Slice)
    requires forall d <- s.deliveries :: Covered(f, s.changes, p, d)
    requires w.since <= |s.changes|
    requires x.approvedBefore ==> Standing(f, s.changes[..w.since], p)
    requires x.approvedAfter ==> Standing(f, s.changes, p)
    ensures forall d <- EndRead(s, w, x).deliveries :: Covered(f, s.changes, p, d)
  {
    var r := A.Receive(s.world.session, x).1;
    if r.Frames? {
      A.DeliveryNeedsApproval(s.world.session, x);
      assert s.changes[..|s.changes|] == s.changes;
      assert Covered(f, s.changes, p, Delivery(w.since, |s.changes|, r.frames));
    }
  }

  lemma EndReadKeepsInv(registry: Registry, p: Party, start: A.World, s: State, w: Waiting, x: A.Slice,
                        faults: T.Faults)
    requires Inv(T.Files(registry, Some(map[])), p, start, s) && s.waiting == Some(w)
    requires x.approvedBefore == w.approved && x.approvedAfter == Allowed(s, p, faults)
    ensures Inv(T.Files(registry, Some(map[])), p, start, EndRead(s, w, x))
  {
    if x.approvedAfter { AllowedMeansStanding(registry, p, s, faults); }
    ActKeepsRun(start, s, A.OnRead(x));
    DeliveredMore(s, w, x, start);
    CoveredMore(T.Files(registry, Some(map[])), p, s, w, x);
  }

  lemma BeginSendKeepsInv(registry: Registry, p: Party, start: A.World, s: State, faults: T.Faults)
    requires Inv(T.Files(registry, Some(map[])), p, start, s) && !s.Busy()
    ensures Inv(T.Files(registry, Some(map[])), p, start, BeginSend(s, Allowed(s, p, faults)))
  {
    assert s.changes[..|s.changes|] == s.changes;
    if Allowed(s, p, faults) { AllowedMeansStanding(registry, p, s, faults); }
    ActKeepsRun(start, s, A.OnSend(false, false));
  }

  lemma EndSendKeepsInv(f: T.Files, p: Party, start: A.World, s: State, written: bool)
    requires Inv(f, p, start, s) && s.sending.Some?
    ensures Inv(f, p, start, EndSend(s, s.sending.value, written))
  {
    ActKeepsRun(start, s, A.OnSend(true, written));
    var d := Send(s.sending.value, |s.changes|);
    assert forall b <- s.sends + [d] :: b in s.sends || b == d;
  }

  lemma StepKeepsInv(registry: Registry, p: Party, start: A.World, s: State, e: Event)
    requires Inv(T.Files(registry, Some(map[])), p, start, s)
    ensures Inv(T.Files(registry, Some(map[])), p, start, Step(p, s, e))
  {
    match e
    case OnChange(c) => ChangeKeepsInv(T.Files(registry, Some(map[])), p, start, s, c);
    case OnBeginRead(_, _, _, x) =>
      assert s.changes[..|s.changes|] == s.changes;
      if Allowed(s, p, x) { AllowedMeansStanding(registry, p, s, x); }
    case OnEndRead(pause, socket, elapsed, x) =>
      if s.waiting.Some? { EndReadKeepsInv(registry, p, start, s, s.waiting.value, SliceOf(p, s, e), x); }
    case OnBeginSend(x) => if !s.Busy() { BeginSendKeepsInv(registry, p, start, s, x); }
    case OnEndSend(written) =>
      if s.sending.Some? { EndSendKeepsInv(T.Files(registry, Some(map[])), p, start, s, written); }
    case OnRecheck(_) => ActKeepsRun(start, s, A.OnSend(false, false));
    case OnClose => ActKeepsRun(start, s, A.OnClose);
  }

  lemma {:induction false} EveryRunKeepsInv(registry: Registry, earlier: seq<T.Event>, p: Party, id: SessionId,
                                            now: U64, events: seq<Event>)
    ensures var start := Opened(registry, earlier, p, id, now);
            Inv(T.Files(registry, Some(map[])), p, start.world, Run(p, start, events))
  {
    var start := Opened(registry, earlier, p, id, now);
    if events == [] {
      assert start.world.delivered == [] + [];
    } else {
      EveryRunKeepsInv(registry, earlier, p, id, now, events[..|events| - 1]);
      StepKeepsInv(registry, p, start.world, Run(p, start, events[..|events| - 1]), events[|events| - 1]);
    }
  }

  // ---------------------------------------------------------------- theorems

  lemma AllInOrder(p: Party, id: SessionId, now: U64, world: A.World, acts: seq<A.Event>)
    requires world == A.Run(A.World(A.Begin(p.peer.network, p.peer.peer, id, now), [], 0), acts)
    ensures S.InOrder(S.AfterHello(p.peer.network, p.peer.peer, id), world.delivered)
  {
    A.EveryDeliveryInOrder(p.peer.network, p.peer.peer, id, now, acts);
  }

  lemma FramesOfTheRun(f: T.Files, p: Party, id: SessionId, now: U64, s: State)
    requires Inv(f, p, A.World(A.Begin(p.peer.network, p.peer.peer, id, now), [], 0), s)
    ensures s.files == T.Run(f, s.changes) && s.world.delivered == AllFrames(s.deliveries)
    ensures forall d <- s.deliveries :: Covered(f, s.changes, p, d)
    ensures S.InOrder(S.AfterHello(p.peer.network, p.peer.peer, id), s.world.delivered)
  {
    assert [] + AllFrames(s.deliveries) == AllFrames(s.deliveries);
    AllInOrder(p, id, now, s.world, s.acts);
  }

  /**
   However reads, sends and trust changes interleave: everything a session ever hands over came in
   reads at whose beginning and at whose end the peer was approved and this very key stood enrolled,
   not forgotten since; and all of it is this peer's, in order.
   */
  lemma EveryFrameWasApproved(registry: Registry, earlier: seq<T.Event>, p: Party, id: SessionId, now: U64,
                              events: seq<Event>)
    ensures var f, s := T.Files(registry, Some(map[])), Run(p, Opened(registry, earlier, p, id, now), events);
            && s.files == T.Run(f, s.changes)
            && s.world.delivered == AllFrames(s.deliveries)
            && (forall d <- s.deliveries :: Covered(f, s.changes, p, d))
            && S.InOrder(S.AfterHello(p.peer.network, p.peer.peer, id), s.world.delivered)
  {
    EveryRunKeepsInv(registry, earlier, p, id, now, events);
    FramesOfTheRun(T.Files(registry, Some(map[])), p, id, now, Run(p, Opened(registry, earlier, p, id, now), events));
  }

  /** Every send ever reported as done began while the peer was approved and this very key stood enrolled. */
  lemma EverySendWasApproved(registry: Registry, earlier: seq<T.Event>, p: Party, id: SessionId, now: U64,
                             events: seq<Event>)
    ensures var f, s := T.Files(registry, Some(map[])), Run(p, Opened(registry, earlier, p, id, now), events);
            && s.world.sent == |s.sends|
            && (forall d <- s.sends :: d.since <= d.at <= |s.changes| && Standing(f, s.changes[..d.since], p))
  {
    EveryRunKeepsInv(registry, earlier, p, id, now, events);
  }

  // ---------------------------------------------------------------- after the pin is gone

  predicate Reenrols(e: Event, p: Party) {
    e.OnChange? && e.change.OnEnrol? && e.change.peer == p.peer && e.change.presented == p.key
  }

  /** An approved write is on its way. */
  predicate InFlight(s: State) { s.sending.Some? && !s.world.session.terminal }

  /** What may still happen on the wire: the one write on its way, or nothing. */
  function Pending(s: State): nat { if InFlight(s) then 1 else 0 }

  /** Nobody without the pin is allowed. */
  lemma Refused(p: Party, s: State, x: T.Faults)
    requires !T.Pinned(s.files, p.peer, p.key)
    ensures !Allowed(s, p, x)
  {
    if Allowed(s, p, x) { T.FaultsOnlyRefuse(s.files, p.peer, p.key, x); }
  }

  lemma SilentRead(p: Party, s: State, e: Event)
    requires !T.Pinned(s.files, p.peer, p.key) && e.OnEndRead? && s.waiting.Some?
    ensures var t := Step(p, s, e);
            && t.world.delivered == s.world.delivered && t.deliveries == s.deliveries && t.files == s.files
            && t.world.sent == s.world.sent && t.world.session.terminal
  {
    Refused(p, s, e.faults);
    var x := SliceOf(p, s, e);
    if A.Receive(s.world.session, x).1.Frames? { A.DeliveryNeedsApproval(s.world.session, x); }
    if !A.Receive(s.world.session, x).0.terminal { A.LiveReadShape(s.world.session, x); }
  }

  /**
   From `s` to `t` nothing was handed over, at most the write on its way was done, and either the
   session did nothing else or it is closed.
   */
  ghost predicate Silent(s: State, t: State) {
    && t.world.delivered == s.world.delivered && t.deliveries == s.deliveries
    && s.world.sent <= t.world.sent && t.world.sent + Pending(t) <= s.world.sent + Pending(s)
    && (t.world.session.terminal || |t.acts| + Pending(t) <= |s.acts| + Pending(s))
    && (s.world.session.terminal ==> t.world.session.terminal)
  }

  lemma SilentAct(p: Party, s: State, e: Event)
    requires !T.Pinned(s.files, p.peer, p.key) && !e.OnChange?
    ensures Step(p, s, e).files == s.files && Silent(s, Step(p, s, e))
  {
    if e.OnEndRead? && s.waiting.Some? {
      SilentRead(p, s, e);
    } else if e.OnBeginSend? || e.OnRecheck? {
      Refused(p, s, e.faults);
    }
  }

  lemma SilentStep(p: Party, s: State, e: Event)
    requires T.Inv(s.files) && !T.Pinned(s.files, p.peer, p.key) && !Reenrols(e, p)
    ensures T.Inv(Step(p, s, e).files) && !T.Pinned(Step(p, s, e).files, p.peer, p.key) && Silent(s, Step(p, s, e))
  {
    if e.OnChange? {
      T.StepKeepsInv(s.files, e.change);
      T.PinChanges(s.files, e.change, p.peer, p.key);
    } else {
      SilentAct(p, s, e);
    }
  }

  lemma SilentChain(s: State, t: State, u: State)
    requires Silent(s, t) && Silent(t, u)
    ensures Silent(s, u)
  {
  }

  lemma {:induction false} ForgottenRun(p: Party, s: State, events: seq<Event>)
    requires T.Inv(s.files) && !T.Pinned(s.files, p.peer, p.key)
    requires forall e <- events :: !Reenrols(e, p)
    ensures var t := Run(p, s, events);
            T.Inv(t.files) && !T.Pinned(t.files, p.peer, p.key) && Silent(s, t)
  {
    if events != [] {
      var before, e := events[..|events| - 1], events[|events| - 1];
      assert forall b <- before :: b in events;
      ForgottenRun(p, s, before);
      SilentStep(p, Run(p, s, before), e);
      SilentChain(s, Run(p, s, before), Run(p, s, events));
    }
  }

  /**
   Once the pin is gone nothing is handed over any more, a read already waiting then included and
   whatever is trusted again, until this very key is enrolled anew. At most one more send is reported
   as done, the write then on its way; whatever else the session does closes it.
   */
  lemma ForgottenIsSilent(p: Party, s: State, events: seq<Event>)
    requires T.Inv(s.files) && !T.Pinned(s.files, p.peer, p.key)
    requires forall e <- events :: !Reenrols(e, p)
    ensures var t := Run(p, s, events);
            && t.world.delivered == s.world.delivered
            && s.world.sent <= t.world.sent <= s.world.sent + (if InFlight(s) then 1 else 0)
            && (|t.acts| > |s.acts| + (if InFlight(s) then 1 else 0) ==> t.world.session.terminal)
  {
    ForgottenRun(p, s, events);
  }

  /** One more send can be reported as done exactly when an approved write was on its way in a live session. */
  lemma OneMoreSendExactly(p: Party, s: State)
    requires T.Inv(s.files) && !T.Pinned(s.files, p.peer, p.key)
    ensures InFlight(s) <==>
            exists events ::
              (forall e <- events :: !Reenrols(e, p)) && Run(p, s, events).world.sent > s.world.sent
  {
    if InFlight(s) {
      var events := [OnEndSend(true)];
      assert events[..0] == [] && Run(p, s, events) == Step(p, Run(p, s, []), OnEndSend(true));
      assert Run(p, s, events).world.sent > s.world.sent;
    } else if events :| (forall e <- events :: !Reenrols(e, p)) && Run(p, s, events).world.sent > s.world.sent {
      ForgottenRun(p, s, events);
    }
  }

  // ---------------------------------------------------------------- a send that outlives its approval

  const FAULTLESS := T.Faults(None, None, None, false, false, None, false, None)

  /** The peer is trusted on the only network there is. */
  function Trusting(p: Party): Registry {
    map[p.peer.network := Membership("", Member, map[p.peer.peer := PeerFacts(true, true)])]
  }

  function Enrolment(p: Party): seq<T.Event> { [T.OnEnrol(p.peer, p.key, p.key, FAULTLESS)] }

  /** A heartbeat starts, the peer is forgotten, the write completes. */
  function Overtaken(p: Party): seq<Event> {
    [OnBeginSend(FAULTLESS), OnChange(T.OnForget(p.peer.peer, FAULTLESS)), OnEndSend(true)]
  }

  lemma EnrolledFiles(p: Party)
    requires p.peer.IsValid()
    ensures T.Run(T.Files(Trusting(p), Some(map[])), Enrolment(p)) == T.Files(Trusting(p), Some(map[p.peer := p.key]))
    ensures T.Approved(Trusting(p), p.peer)
  {
    var f, e := T.Files(Trusting(p), Some(map[])), T.OnEnrol(p.peer, p.key, p.key, FAULTLESS);
    assert Members(Trusting(p)) == {p.peer.network};
    T.ApprovedExactly(Trusting(p), p.peer);
    EnrollExactly(map[], p.peer, p.key);
    assert Enrolment(p)[..0] == [] && T.Run(f, Enrolment(p)) == T.Step(T.Run(f, []), e);
  }

  lemma ForgottenFiles(p: Party)
    requires p.peer.IsValid()
    ensures var f := T.Files(Trusting(p), Some(map[p.peer := p.key]));
            !T.Pinned(T.Step(f, T.OnForget(p.peer.peer, FAULTLESS)), p.peer, p.key)
  {
    assert Members(Trusting(p)) == {p.peer.network};
    T.ForgetPinFirst(T.Files(Trusting(p), Some(map[p.peer := p.key])), p.peer.peer, FAULTLESS);
  }

  lemma OneMore(p: Party, s: State, events: seq<Event>, e: Event)
    ensures Run(p, s, events + [e]) == Step(p, Run(p, s, events), e)
  {
    var all := events + [e];
    assert all[..|all| - 1] == events && all[|all| - 1] == e;
  }

  lemma WriteBegins(p: Party, s: State, x: T.Faults)
    requires Allowed(s, p, x) && !s.Busy() && !s.world.session.terminal
    ensures Run(p, s, [OnBeginSend(x)]) == s.(sending := Some(|s.changes|))
  {
    OneMore(p, s, [], OnBeginSend(x));
    assert [] + [OnBeginSend(x)] == [OnBeginSend(x)];
  }

  lemma WriteOvertaken(p: Party, s: State, x: T.Faults, c: T.Event)
    requires Allowed(s, p, x) && !s.Busy() && !s.world.session.terminal
    ensures Run(p, s, [OnBeginSend(x), OnChange(c)])
         == s.(sending := Some(|s.changes|), files := T.Step(s.files, c), changes := s.changes + [c])
  {
    WriteBegins(p, s, x);
    OneMore(p, s, [OnBeginSend(x)], OnChange(c));
    assert [OnBeginSend(x)] + [OnChange(c)] == [OnBeginSend(x), OnChange(c)];
  }

  /** Whatever is changed while an approved write is on its way, it is reported as done. */
  lemma WriteIsDone(p: Party, s: State, x: T.Faults, c: T.Event)
    requires Allowed(s, p, x) && !s.Busy() && !s.world.session.terminal
    ensures var t := Run(p, s, [OnBeginSend(x), OnChange(c), OnEndSend(true)]);
            && t.files == T.Step(s.files, c) && t.world == s.world.(sent := s.world.sent + 1)
            && t.sends == s.sends + [Send(|s.changes|, |s.changes| + 1)]
  {
    WriteOvertaken(p, s, x, c);
    OneMore(p, s, [OnBeginSend(x), OnChange(c)], OnEndSend(true));
    assert [OnBeginSend(x), OnChange(c)] + [OnEndSend(true)] == [OnBeginSend(x), OnChange(c), OnEndSend(true)];
  }

  /** It happens: a session just opened reports a send as done after its peer was forgotten. */
  lemma SentAfterForget(p: Party, id: SessionId, now: U64)
    requires p.peer.IsValid()
    ensures var s := Opened(Trusting(p), Enrolment(p), p, id, now);
            var t := Run(p, s, Overtaken(p));
            && T.Pinned(s.files, p.peer, p.key) && !T.Pinned(t.files, p.peer, p.key)
            && t.world.sent == 1 && t.sends == [Send(1, 2)] && !t.world.session.terminal
  {
    var s := Opened(Trusting(p), Enrolment(p), p, id, now);
    EnrolledFiles(p);
    ForgottenFiles(p);
    T.AuthorizeExactly(s.files, p.peer, p.key, FAULTLESS);
    WriteIsDone(p, s, FAULTLESS, T.OnForget(p.peer.peer, FAULTLESS));
  }
}
