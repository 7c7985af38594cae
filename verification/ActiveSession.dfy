/**
 A channel-bound session: one bounded read at a time under an idle lease. The lease is
 kept in milliseconds, socket waits in nanoseconds; the caller's clock, the budget, the
 socket's answer and how long it took are inputs of each read.
 */
module ActiveSession {
  import opened Vocabulary
  import opened SessionStream

  const MS: nat := 1_000_000

  /** `open` is the TLS socket; every failure closes it for good. */
  datatype Session = Session(ingress: Ingress, terminal: bool, open: bool)

  datatype SocketRead = Eof | Bytes(chunk: Chunk) | TimedOut | Broken

  /**
   One read. `pause` is what the checks before the wait take, from the reading of the clock that
   gave `now` to the start of the wait; the session never learns it.
   */
  datatype Slice = Slice(
    now: U64, maxWait: nat, approvedBefore: bool, timeoutRefused: bool,
    pause: nat, socket: SocketRead, elapsed: nat, approvedAfter: bool)

  datatype SessionError = IngressFailed(why: IngressError) | IdleDeadlineExpired | TransportFailed | OutboundFailed

  datatype ReadResult = Frames(frames: seq<Envelope>) | Idle | Closed | Failed(error: SessionError)

  function Begin(network: NetworkId, peer: NodeId, id: SessionId, now: U64): Session {
    var deadline := Deadline(false, now, SaturatingAdd(now, ACTIVE_MS));
    Session(Ingress(Activity(AfterHello(network, peer, id), deadline, false, false), false), false, true)
  }

  function Expires(s: Session): U64 { s.ingress.activity.deadline.expires }

  function Ended(i: Ingress): Session { Session(i, true, false) }

  /** What is left of the idle lease, in nanoseconds. */
  function IdleLeft(s: Session, now: U64): nat
    requires now < Expires(s)
  {
    (Expires(s) - now) * MS
  }

  function Timeout(s: Session, x: Slice): nat
    requires x.now < Expires(s)
  {
    if x.maxWait < IdleLeft(s, x.now) then x.maxWait else IdleLeft(s, x.now)
  }

  /** The moment of completion as the session's clock sees it. */
  function Observed(now: U64, elapsed: nat): U64 {
    var ms := elapsed / MS;
    SaturatingAdd(now, if ms > U64_MAX then U64_MAX else ms)
  }

  function Receive(s: Session, x: Slice): (Session, ReadResult) {
    if s.terminal then (s, Failed(IngressFailed(Dead)))
    else if x.now >= Expires(s) then
      var (i, r) := ReceivePlaintext(s.ingress, Nothing, x.now, x.approvedBefore);
      (Ended(i), Failed(if r.Stopped? then IngressFailed(r.error) else IdleDeadlineExpired))
    else
      var (i, r) := CheckBeforeRead(s.ingress, x.now, x.approvedBefore);
      if r.Stopped? then (Ended(i), Failed(IngressFailed(r.error)))
      else if Timeout(s, x) == 0 then (Ended(i), Failed(IdleDeadlineExpired))
      else if x.timeoutRefused then (Ended(i), Failed(TransportFailed))
      else AfterRead(s.(ingress := i), x, Timeout(s, x), IdleLeft(s, x.now))
  }

  /** The socket has answered. */
  function AfterRead(s: Session, x: Slice, timeout: nat, idleLeft: nat): (Session, ReadResult) {
    var late := x.elapsed >= timeout;
    if (late && !x.socket.TimedOut?) || (timeout == idleLeft && x.socket.TimedOut?) then
      (Ended(ReceivePlaintext(s.ingress, Nothing, Expires(s), x.approvedAfter).0), Failed(IdleDeadlineExpired))
    else
      var observed := if late && timeout == idleLeft then Expires(s) else Observed(x.now, x.elapsed);
      Digest(s, x.socket, observed, x.approvedAfter)
  }

  function Digest(s: Session, socket: SocketRead, observed: U64, approved: bool): (Session, ReadResult) {
    match socket
    case Eof =>
      var (i, r) := FinishAt(s.ingress, observed, approved);
      (Ended(i), if r.Passed? then Closed else Failed(IngressFailed(r.error)))
    case Bytes(chunk) =>
      var (i, r) := ReceivePlaintext(s.ingress, chunk, observed, approved);
      if r.Passed? then (s.(ingress := i), Frames(r.value)) else (Ended(i), Failed(IngressFailed(r.error)))
    case TimedOut =>
      var (i, r) := ReceivePlaintext(s.ingress, Nothing, observed, approved);
      if r.Passed? then (s.(ingress := i), Idle) else (Ended(i), Failed(IngressFailed(r.error)))
    case Broken => (Ended(FinishAt(s.ingress, observed, approved).0), Failed(TransportFailed))
  }

  /** A heartbeat, a Goodbye or a bare recheck: approval first, then the write. */
  function Send(s: Session, approved: bool, written: bool): (Session, Option<SessionError>) {
    if s.terminal then (s, Some(IngressFailed(Dead)))
    else if !approved then (s.(terminal := true, open := false), Some(IngressFailed(NotAuthorized)))
    else if !written then (s.(terminal := true, open := false), Some(OutboundFailed))
    else (s, None)
  }

  function Close(s: Session): Session { s.(terminal := true, open := false) }

  // ---------------------------------------------------------------- runs

  datatype Event = OnRead(slice: Slice) | OnSend(approved: bool, written: bool) | OnClose

  /** A session and everything it has handed to the daemon. */
  datatype World = World(session: Session, delivered: seq<Envelope>, sent: nat)

  function Step(w: World, e: Event): World {
    match e
    case OnRead(x) =>
      var (t, r) := Receive(w.session, x);
      w.(session := t, delivered := if r.Frames? then w.delivered + r.frames else w.delivered)
    case OnSend(approved, written) =>
      var (t, fault) := Send(w.session, approved, written);
      w.(session := t, sent := if fault.None? then w.sent + 1 else w.sent)
    case OnClose => w.(session := Close(w.session))
  }

  function Run(w: World, events: seq<Event>): World {
    if events == [] then w else Step(Run(w, events[..|events| - 1]), events[|events| - 1])
  }

  // ---------------------------------------------------------------- one read

  /** Gates pass on the activity they were given or what the inner step made of it. */
  lemma IngressStep(i: Ingress, chunk: Chunk, now: U64, approved: bool)
    ensures var (t, r) := ReceivePlaintext(i, chunk, now, approved);
            && (r.Passed? <==> !i.terminal && approved && FeedActivity(i.activity, chunk, now).1.Good?)
            && (r.Stopped? ==> t.terminal)
            && (r.Passed? ==> !t.terminal && t.activity == FeedActivity(i.activity, chunk, now).0
                              && r.value == FeedActivity(i.activity, chunk, now).1.value)
            && (t.activity == i.activity || t.activity == FeedActivity(i.activity, chunk, now).0)
  {
  }

  /** A live result means the deadline was still ahead at the observed moment. */
  lemma FeedIsOnTime(a: Activity, chunk: Chunk, now: U64)
    requires FeedActivity(a, chunk, now).1.Good?
    ensures a.deadline.last <= now < a.deadline.expires && !a.terminal && !a.goodbyeSeen
    ensures FeedActivity(a, chunk, now).1.value == [] ==> FeedActivity(a, chunk, now).0.deadline == a.deadline
    ensures chunk.Nothing? ==> FeedActivity(a, chunk, now).1.value == []
  {
  }

  lemma ObservedIsFloor(now: U64, elapsed: nat, expires: U64)
    requires now < expires && Observed(now, elapsed) < expires
    ensures Observed(now, elapsed) == now + elapsed / MS
    ensures now * MS + elapsed < expires * MS
    ensures Observed(now, elapsed) * MS <= now * MS + elapsed
  {
    var ms := elapsed / MS;
    assert elapsed == ms * MS + elapsed % MS;
    assert (now + ms + 1) * MS <= expires * MS;
  }

  /** A session still live after a read completed it strictly before its idle expiry, on the caller's clock. */
  lemma LiveReadIsOnTime(s: Session, x: Slice)
    requires !Receive(s, x).0.terminal
    ensures !s.terminal && x.now < Expires(s) && x.now * MS + x.elapsed < Expires(s) * MS
    ensures Receive(s, x).1.Frames? || Receive(s, x).1.Idle?
  {
    var i := CheckBeforeRead(s.ingress, x.now, x.approvedBefore).0;
    assert i == s.ingress;
    var timeout, idleLeft := Timeout(s, x), IdleLeft(s, x.now);
    assert Receive(s, x) == AfterRead(s, x, timeout, idleLeft);
    if x.elapsed < timeout || timeout != idleLeft {
      var chunk := if x.socket.Bytes? then x.socket.chunk else Nothing;
      IngressStep(s.ingress, chunk, Observed(x.now, x.elapsed), x.approvedAfter);
      FeedIsOnTime(s.ingress.activity, chunk, Observed(x.now, x.elapsed));
      ObservedIsFloor(x.now, x.elapsed, Expires(s));
    }
  }

  /** The lease moves only with delivered frames, and never credits time that has not passed. */
  lemma LeaseMovesOnlyWithFrames(s: Session, x: Slice)
    ensures var (t, r) := Receive(s, x);
            Expires(t) != Expires(s) && !t.terminal ==>
              && r.Frames? && r.frames != []
              && Expires(t) <= SaturatingAdd(x.now + x.elapsed / MS, ACTIVE_MS)
              && t.ingress.activity.deadline.last * MS <= x.now * MS + x.elapsed
  {
    var (t, r) := Receive(s, x);
    if !t.terminal {
      LiveReadIsOnTime(s, x);
      var chunk := if x.socket.Bytes? then x.socket.chunk else Nothing;
      IngressStep(s.ingress, chunk, Observed(x.now, x.elapsed), x.approvedAfter);
      FeedIsOnTime(s.ingress.activity, chunk, Observed(x.now, x.elapsed));
      ObservedIsFloor(x.now, x.elapsed, Expires(s));
    }
  }

  /** The milliseconds of a lease are all spent before it ends: an idle session dies on its own. */
  lemma SilentSessionExpires(s: Session, x: Slice)
    requires x.now >= Expires(s)
    ensures Receive(s, x).0.terminal && Receive(s, x).1.Failed?
  {
  }

  /** Exactly which polls leave a silent session alive. */
  lemma IdlePollExactly(s: Session, x: Slice)
    requires x.socket.TimedOut? && !s.terminal && !s.ingress.terminal && !s.ingress.activity.terminal
    requires !s.ingress.activity.stream.poisoned
    ensures !Receive(s, x).0.terminal <==>
            && s.ingress.activity.deadline.last <= x.now < Expires(s) && !s.ingress.activity.goodbyeSeen
            && x.approvedBefore && x.approvedAfter && !x.timeoutRefused
            && 0 < x.maxWait < IdleLeft(s, x.now) && x.elapsed < IdleLeft(s, x.now)
    ensures !Receive(s, x).0.terminal ==> Receive(s, x) == (s, Idle)
  {
    if x.now < Expires(s) && s.ingress.activity.deadline.last <= x.now {
      ElapsedBeforeExpiry(x.now, x.elapsed, Expires(s));
    }
  }

  lemma ElapsedBeforeExpiry(now: U64, elapsed: nat, expires: U64)
    requires now < expires
    ensures now <= Observed(now, elapsed)
    ensures Observed(now, elapsed) < expires <==> elapsed < (expires - now) * MS
  {
    var ms := elapsed / MS;
    assert elapsed == ms * MS + elapsed % MS;
    if ms < expires - now {
      assert (ms + 1) * MS <= (expires - now) * MS;
    } else {
      assert ms * MS >= (expires - now) * MS;
    }
  }

  /** The read gets as far as the socket. */
  ghost predicate Waits(s: Session, x: Slice) {
    && !s.terminal && !s.ingress.terminal && !s.ingress.activity.terminal
    && s.ingress.activity.deadline.last <= x.now < Expires(s)
    && x.approvedBefore && x.maxWait > 0 && !x.timeoutRefused
  }

  /** A read that does not get there kills the session. */
  lemma UnfitReadKills(s: Session, x: Slice)
    requires !Waits(s, x)
    ensures Receive(s, x).0.terminal && Receive(s, x).1.Failed?
  {
  }

  lemma WaitingRead(s: Session, x: Slice)
    requires Waits(s, x)
    ensures Receive(s, x) == AfterRead(s, x, Timeout(s, x), IdleLeft(s, x.now))
  {
    assert CheckBeforeRead(s.ingress, x.now, x.approvedBefore).0 == s.ingress;
  }

  /** The socket answered before the wait was over, while the peer was still approved. */
  ghost predicate AnsweredInTime(s: Session, x: Slice) {
    Waits(s, x) && x.elapsed < Timeout(s, x) && x.approvedAfter
  }

  /** A read hands frames over exactly when the socket answered in time with bytes the stream takes; then all. */
  lemma ReadHandsExactly(s: Session, x: Slice)
    requires x.socket.Bytes?
    ensures Receive(s, x).1.Frames? <==>
            AnsweredInTime(s, x) && !s.ingress.activity.goodbyeSeen && Takes(s.ingress.activity.stream, x.socket.chunk)
    ensures Receive(s, x).1.Frames? ==>
              Receive(s, x).1.frames == if x.socket.chunk.Whole? then x.socket.chunk.frames else []
    ensures Receive(s, x).1.Frames? || Receive(s, x).1.Failed?
  {
    if Waits(s, x) {
      WaitingRead(s, x);
      FeedPassesExactly(s.ingress.activity.stream, x.socket.chunk);
      ElapsedBeforeExpiry(x.now, x.elapsed, Expires(s));
    } else {
      UnfitReadKills(s, x);
    }
  }

  /** The end of the stream closes gracefully exactly in time, after a Goodbye, with nothing left over. */
  lemma EofClosesExactly(s: Session, x: Slice)
    requires x.socket.Eof?
    ensures Receive(s, x).1.Closed? <==>
            && AnsweredInTime(s, x) && !s.ingress.activity.stream.poisoned
            && s.ingress.activity.stream.closed && !s.ingress.activity.stream.pending
    ensures Receive(s, x).0.terminal && (Receive(s, x).1.Closed? || Receive(s, x).1.Failed?)
  {
    if Waits(s, x) {
      WaitingRead(s, x);
      FinishExactly(s.ingress.activity.stream);
      ElapsedBeforeExpiry(x.now, x.elapsed, Expires(s));
    } else {
      UnfitReadKills(s, x);
    }
  }

  lemma BrokenReadKills(s: Session, x: Slice)
    requires x.socket.Broken?
    ensures Receive(s, x).0.terminal && Receive(s, x).1.Failed?
  {
    if !Waits(s, x) { UnfitReadKills(s, x); }
  }

  /** A Goodbye shortens the lease to five seconds and lets no later read through. */
  lemma GoodbyeShortens(s: Session, x: Slice)
    requires Receive(s, x).1.Frames? && exists f <- Receive(s, x).1.frames :: f.message.Goodbye?
    ensures Receive(s, x).0.ingress.activity.goodbyeSeen
    ensures !s.ingress.activity.deadline.closing ==>
              Expires(Receive(s, x).0) == SaturatingAdd(Observed(x.now, x.elapsed), CLOSING_MS)
  {
    DeliveryNeedsApproval(s, x);
    LiveReadShape(s, x);
  }

  // ---------------------------------------------------------------- the caller's clock

  const ACTIVE_CLOCK_BASE_MS: nat := 3

  /** Admission time and now, in nanoseconds, to the session's logical milliseconds. */
  function SessionClock(admitted: nat, now: nat): Option<U64> {
    if now < admitted then None
    else
      var ms := (now - admitted) / MS;
      if ms > U64_MAX || ms + ACTIVE_CLOCK_BASE_MS > U64_MAX then None else Some(ms + ACTIVE_CLOCK_BASE_MS)
  }

  /** The logical clock lags the real one by less than a millisecond and never runs backwards. */
  lemma ClockLagsUnderOneMs(admitted: nat, now: nat, later: nat)
    requires SessionClock(admitted, now).Some? && now <= later
    ensures var ms := SessionClock(admitted, now).value - ACTIVE_CLOCK_BASE_MS;
            ms * MS <= now - admitted < (ms + 1) * MS
    ensures SessionClock(admitted, later).Some? ==>
              SessionClock(admitted, later).value >= SessionClock(admitted, now).value
  {
    var a, b := (now - admitted) / MS, (later - admitted) / MS;
    assert now - admitted == a * MS + (now - admitted) % MS;
    assert later - admitted == b * MS + (later - admitted) % MS;
  }

  // ---------------------------------------------------------------- the lease in real time

  /** How far the wait really starts behind the time the session was told. */
  function Offset(admitted: nat, clock: nat, pause: nat): nat
    requires admitted <= clock
  {
    (clock - admitted) % MS + pause
  }

  /** The real moment at which the lease of a session admitted then is over. */
  function LeaseEnds(s: Session, admitted: nat): int {
    admitted + (Expires(s) - ACTIVE_CLOCK_BASE_MS) * MS
  }

  /** The real moment at which a read is over whose clock was read then. */
  function ReallyEnds(clock: nat, x: Slice): nat { clock + x.pause + x.elapsed }

  /** A read the worker makes: it reads the clock, then pauses so long before it waits for so long. */
  predicate Made(x: Slice, admitted: nat, clock: nat, pause: nat, budget: nat) {
    SessionClock(admitted, clock) == Some(x.now) && x.pause == pause && x.maxWait == budget
  }

  lemma RealTime(s: Session, x: Slice, admitted: nat, clock: nat)
    requires SessionClock(admitted, clock) == Some(x.now)
    ensures ReallyEnds(clock, x) - LeaseEnds(s, admitted)
         == (x.now * MS + x.elapsed) - Expires(s) * MS + Offset(admitted, clock, x.pause)
  {
    var ms := (clock - admitted) / MS;
    assert clock - admitted == ms * MS + (clock - admitted) % MS;
    assert x.now == ms + ACTIVE_CLOCK_BASE_MS;
  }

  /** Rounding and the pause let a live read end late, but by less than the two together. */
  lemma LateByLessThanTheOffset(s: Session, x: Slice, admitted: nat, clock: nat)
    requires SessionClock(admitted, clock) == Some(x.now) && !Receive(s, x).0.terminal
    ensures ReallyEnds(clock, x) < LeaseEnds(s, admitted) + Offset(admitted, clock, x.pause)
  {
    LiveReadIsOnTime(s, x);
    RealTime(s, x, admitted, clock);
  }

  /**
   Between a read that renewed the lease and the next one that leaves the session alive less than 30 s and
   the offset of the latter really pass.
   */
  lemma SilenceIsBounded(s: Session, x: Slice, clock: nat, t: Session, y: Slice, later: nat, admitted: nat)
    requires SessionClock(admitted, clock) == Some(x.now) && SessionClock(admitted, later) == Some(y.now)
    requires Renews(s, x) && Expires(t) == Expires(Receive(s, x).0) && !Receive(t, y).0.terminal
    ensures ReallyEnds(later, y) < ReallyEnds(clock, x) + ACTIVE_MS * MS + Offset(admitted, later, y.pause)
  {
    LateByLessThanTheOffset(t, y, admitted, later);
    LeaseMovesOnlyWithFrames(s, x);
    RealTime(s, x, admitted, clock);
    var ms := x.elapsed / MS;
    assert x.elapsed == ms * MS + x.elapsed % MS;
    assert Expires(t) <= x.now + ms + ACTIVE_MS;
    assert Expires(t) * MS <= (x.now + ms + ACTIVE_MS) * MS;
  }

  // ---------------------------------------------------------------- exactly when the lease is kept

  /** A session that still waits for frames. */
  predicate Listening(s: Session) {
    && !s.terminal && !s.ingress.terminal && !s.ingress.activity.terminal && !s.ingress.activity.goodbyeSeen
    && !s.ingress.activity.stream.closed && !s.ingress.activity.stream.poisoned
  }

  /** At this time a frame can still be handed over at all. */
  predicate CanHand(s: Session, now: U64) {
    Listening(s) && s.ingress.activity.deadline.last <= now < Expires(s) && s.ingress.activity.stream.last < U64_MAX
  }

  predicate Hands(s: Session, x: Slice) { Receive(s, x).1.Frames? && Receive(s, x).1.frames != [] }

  predicate Renews(s: Session, x: Slice) { !Receive(s, x).0.terminal && Expires(Receive(s, x).0) > Expires(s) }

  lemma HandingNeeds(s: Session, x: Slice)
    requires Hands(s, x)
    ensures !Receive(s, x).0.terminal && CanHand(s, x.now) && x.socket.Bytes? && x.elapsed < Timeout(s, x)
  {
    if Receive(s, x).0.terminal { DeadReadShape(s, x); } else { LiveReadIsOnTime(s, x); LiveReadShape(s, x); }
    var a := s.ingress.activity;
    FeedIsOnTime(a, x.socket.chunk, Observed(x.now, x.elapsed));
    FeedExactly(a.stream, x.socket.chunk);
    var frames := Receive(s, x).1.frames;
    assert frames[0] in frames && Belongs(a.stream, frames[0]);
  }

  /** A read that answers frames or idleness leaves the session alive. */
  lemma AnsweredIsLive(s: Session, x: Slice)
    requires Receive(s, x).1.Frames? || Receive(s, x).1.Idle?
    ensures !Receive(s, x).0.terminal
  {
  }

  /** Frames without a Goodbye set the expiry to 30 s after the observed end of their read. */
  lemma HandedFramesRenew(s: Session, x: Slice)
    requires Hands(s, x) && !exists f <- Receive(s, x).1.frames :: f.message.Goodbye?
    ensures Expires(Receive(s, x).0) == SaturatingAdd(Observed(x.now, x.elapsed), ACTIVE_MS)
  {
    AnsweredIsLive(s, x);
    LiveReadShape(s, x);
  }

  /** A heartbeat in sequence that arrives on the last nanosecond of the wait. */
  function LastMoment(s: Session, now: U64, pause: nat, budget: nat): (x: Slice)
    requires CanHand(s, now) && budget > 0
    ensures x.now == now && x.elapsed == Timeout(s, x) - 1
  {
    var st := s.ingress.activity.stream;
    var timeout := if budget < IdleLeft(s, now) then budget else IdleLeft(s, now);
    Slice(now, budget, true, false, pause,
          Bytes(Whole([Envelope(st.network, st.peer, st.session, st.last + 1, Heartbeat)], false)), timeout - 1, true)
  }

  lemma LastMomentHands(s: Session, now: U64, pause: nat, budget: nat)
    requires CanHand(s, now) && budget > 0
    ensures var x := LastMoment(s, now, pause, budget);
            && Hands(s, x) && !Receive(s, x).0.terminal
            && Expires(Receive(s, x).0) == SaturatingAdd(Observed(now, x.elapsed), ACTIVE_MS)
  {
    var x := LastMoment(s, now, pause, budget);
    ElapsedBeforeExpiry(now, x.elapsed, Expires(s));
    var a, chunk, observed := s.ingress.activity, x.socket.chunk, Observed(now, x.elapsed);
    var st := a.stream.(pending := false);
    assert InOrder(st, chunk.frames);
    AcceptExactly(st, chunk.frames);
    assert Feed(a.stream, chunk).1.Accepted?;
    assert FeedActivity(a, chunk, observed).1.Good?;
    assert chunk.frames[0] in chunk.frames;
    assert Receive(s, x) == AfterRead(s, x, Timeout(s, x), IdleLeft(s, now));
  }

  /** The wait starts where the session thinks it does, or its budget ends it before the lease is over. */
  predicate InTime(s: Session, now: U64, offset: nat, budget: nat)
    requires now < Expires(s)
  {
    offset == 0 || budget + offset <= IdleLeft(s, now)
  }

  lemma InTimeMeans(s: Session, x: Slice, admitted: nat, clock: nat)
    requires SessionClock(admitted, clock) == Some(x.now) && x.now < Expires(s) && x.elapsed < Timeout(s, x)
    ensures InTime(s, x.now, Offset(admitted, clock, x.pause), x.maxWait) ==>
              ReallyEnds(clock, x) < LeaseEnds(s, admitted)
    ensures x.elapsed == Timeout(s, x) - 1 && ReallyEnds(clock, x) < LeaseEnds(s, admitted) ==>
              InTime(s, x.now, Offset(admitted, clock, x.pause), x.maxWait)
  {
    RealTime(s, x, admitted, clock);
    assert IdleLeft(s, x.now) == Expires(s) * MS - x.now * MS;
  }

  /**
   Every read that hands over frames really ends before the lease does, exactly when there is none,
   or the wait starts just when the session thinks it does, or its budget ends it in time.
   */
  lemma OnTimeExactly(s: Session, admitted: nat, clock: nat, pause: nat, budget: nat)
    requires SessionClock(admitted, clock).Some?
    ensures var now := SessionClock(admitted, clock).value;
            (CanHand(s, now) && budget > 0 ==> InTime(s, now, Offset(admitted, clock, pause), budget)) <==>
            forall x: Slice :: Made(x, admitted, clock, pause, budget) && Hands(s, x) ==>
              ReallyEnds(clock, x) < LeaseEnds(s, admitted)
  {
    var now := SessionClock(admitted, clock).value;
    if CanHand(s, now) && budget > 0 && !InTime(s, now, Offset(admitted, clock, pause), budget) {
      var x := LastMoment(s, now, pause, budget);
      LastMomentHands(s, now, pause, budget);
      InTimeMeans(s, x, admitted, clock);
      assert Made(x, admitted, clock, pause, budget);
    } else {
      forall x: Slice | Made(x, admitted, clock, pause, budget) && Hands(s, x)
        ensures ReallyEnds(clock, x) < LeaseEnds(s, admitted)
      {
        HandingNeeds(s, x);
        InTimeMeans(s, x, admitted, clock);
      }
    }
  }

  /** A caller that knows only a bound on the pause has the same condition, with the bound in its place. */
  lemma OnTimeUpToAPause(s: Session, admitted: nat, clock: nat, bound: nat, budget: nat)
    requires SessionClock(admitted, clock).Some?
    ensures var now := SessionClock(admitted, clock).value;
            (CanHand(s, now) && budget > 0 ==> InTime(s, now, Offset(admitted, clock, bound), budget)) <==>
            forall x: Slice :: Made(x, admitted, clock, x.pause, budget) && x.pause <= bound && Hands(s, x) ==>
                                 ReallyEnds(clock, x) < LeaseEnds(s, admitted)
  {
    var now := SessionClock(admitted, clock).value;
    OnTimeExactly(s, admitted, clock, bound, budget);
    if CanHand(s, now) && budget > 0 ==> InTime(s, now, Offset(admitted, clock, bound), budget) {
      forall x: Slice | Made(x, admitted, clock, x.pause, budget) && x.pause <= bound && Hands(s, x)
        ensures ReallyEnds(clock, x) < LeaseEnds(s, admitted)
      {
        OnTimeExactly(s, admitted, clock, x.pause, budget);
      }
    }
  }

  /** The latest frame the budget lets through would push the expiry out. */
  predicate CanRenew(s: Session, now: U64, budget: nat) {
    CanHand(s, now) && budget > 0 &&
    var timeout := if budget < IdleLeft(s, now) then budget else IdleLeft(s, now);
    SaturatingAdd(Observed(now, timeout - 1), ACTIVE_MS) > Expires(s)
  }

  lemma ObservedGrows(now: U64, elapsed: nat, more: nat)
    requires elapsed <= more
    ensures Observed(now, elapsed) <= Observed(now, more)
  {
    assert elapsed == elapsed / MS * MS + elapsed % MS;
    assert more == more / MS * MS + more % MS;
  }

  lemma RenewingNeeds(s: Session, x: Slice)
    requires Renews(s, x)
    ensures Hands(s, x) && CanRenew(s, x.now, x.maxWait)
  {
    LeaseMovesOnlyWithFrames(s, x);
    LiveReadShape(s, x);
    HandingNeeds(s, x);
    ObservedGrows(x.now, x.elapsed, Timeout(s, x) - 1);
  }

  /** The same for the reads that push the expiry out: an expired lease is renewed exactly when this fails. */
  lemma RenewedInTimeExactly(s: Session, admitted: nat, clock: nat, pause: nat, budget: nat)
    requires SessionClock(admitted, clock).Some?
    ensures var now := SessionClock(admitted, clock).value;
            (CanRenew(s, now, budget) ==> InTime(s, now, Offset(admitted, clock, pause), budget)) <==>
            forall x: Slice :: Made(x, admitted, clock, pause, budget) && Renews(s, x) ==>
              ReallyEnds(clock, x) < LeaseEnds(s, admitted)
  {
    var now := SessionClock(admitted, clock).value;
    if CanRenew(s, now, budget) && !InTime(s, now, Offset(admitted, clock, pause), budget) {
      var x := LastMoment(s, now, pause, budget);
      LastMomentHands(s, now, pause, budget);
      InTimeMeans(s, x, admitted, clock);
      assert Made(x, admitted, clock, pause, budget) && Renews(s, x);
    } else {
      forall x: Slice | Made(x, admitted, clock, pause, budget) && Renews(s, x)
        ensures ReallyEnds(clock, x) < LeaseEnds(s, admitted)
      {
        RenewingNeeds(s, x);
        HandingNeeds(s, x);
        InTimeMeans(s, x, admitted, clock);
      }
    }
  }

  const SESSION_READ_SLICE: nat := 10 * MS

  /** The worker's short slices keep the lease as long as one of them still fits before its end. */
  lemma SliceThatFits(s: Session, x: Slice, admitted: nat, clock: nat)
    requires Made(x, admitted, clock, x.pause, SESSION_READ_SLICE) && Hands(s, x)
    requires clock + x.pause + SESSION_READ_SLICE <= LeaseEnds(s, admitted)
    ensures ReallyEnds(clock, x) < LeaseEnds(s, admitted)
  {
    HandingNeeds(s, x);
  }

  /**
   Rounding: a lease ending at 30000 ms, a clock read half a millisecond late. The read ends after it and
   renews it.
   */
  lemma LateHeartbeatExample(network: NetworkId, peer: NodeId, id: SessionId)
    ensures var s := Begin(network, peer, id, ACTIVE_CLOCK_BASE_MS);
            var x := LastMoment(s, 30002, 0, SESSION_READ_SLICE);
            && Made(x, 0, 29_999_500_000, 0, SESSION_READ_SLICE)
            && ReallyEnds(29_999_500_000, x) == LeaseEnds(s, 0) + 499_999
            && Renews(s, x) && Expires(Receive(s, x).0) == 60002
  {
    LastMomentHands(Begin(network, peer, id, ACTIVE_CLOCK_BASE_MS), 30002, 0, SESSION_READ_SLICE);
  }

  /** The pause: on a whole millisecond the read is late by all of a pause but a nanosecond, however long. */
  lemma LateAfterPauseExample(network: NetworkId, peer: NodeId, id: SessionId, pause: nat)
    ensures var s := Begin(network, peer, id, ACTIVE_CLOCK_BASE_MS);
            var x := LastMoment(s, 30002, pause, SESSION_READ_SLICE);
            && Made(x, 0, 29_999_000_000, pause, SESSION_READ_SLICE)
            && ReallyEnds(29_999_000_000, x) == LeaseEnds(s, 0) + pause - 1
            && Renews(s, x) && Expires(Receive(s, x).0) == 60002
  {
    LastMomentHands(Begin(network, peer, id, ACTIVE_CLOCK_BASE_MS), 30002, pause, SESSION_READ_SLICE);
  }

  // ---------------------------------------------------------------- whole runs

  ghost predicate Inv(w: World) {
    && (w.session.terminal <==> !w.session.open)
    && (w.session.ingress.terminal ==> w.session.terminal)
    && var a := w.session.ingress.activity;
    && (!w.session.ingress.terminal ==> !a.terminal)
    && (!w.session.terminal ==> !a.stream.poisoned && (a.goodbyeSeen <==> a.stream.closed))
    && (!w.session.terminal ==> DeliveredInv(w.delivered, a.stream))
    && OrderlyDelivery(w.delivered, a.stream)
  }

  /** Everything delivered belongs to this peer and session, in strictly growing order, nothing after a Goodbye. */
  ghost predicate OrderlyDelivery(delivered: seq<Envelope>, s: Stream) {
    InOrder(AfterHello(s.network, s.peer, s.session), delivered)
  }

  ghost predicate DeliveredInv(delivered: seq<Envelope>, s: Stream) {
    && s.last >= 2
    && (forall f <- delivered :: f.sequence <= s.last)
    && (!s.closed ==> forall f <- delivered :: !f.message.Goodbye?)
  }

  lemma AppendAscending(a: seq<Envelope>, b: seq<Envelope>, last: nat)
    requires Ascending(a) && Ascending(b)
    requires (forall f <- a :: f.sequence <= last && !f.message.Goodbye?) && (forall f <- b :: f.sequence > last)
    ensures Ascending(a + b)
  {
    var all := a + b;
    forall i, j | 0 <= i < j < |all| ensures all[i].sequence < all[j].sequence && !all[i].message.Goodbye? {
      if i < |a| { assert all[i] in a; }
      if j >= |a| { assert all[j] == b[j - |a|] && all[j] in b; }
    }
  }

  lemma AppendInOrder(delivered: seq<Envelope>, s: Stream, frames: seq<Envelope>)
    requires OrderlyDelivery(delivered, s) && DeliveredInv(delivered, s) && !s.closed && InOrder(s, frames)
    ensures OrderlyDelivery(delivered + frames, s)
  {
    AppendAscending(delivered, frames, s.last);
    var origin := AfterHello(s.network, s.peer, s.session);
    forall f | f in delivered + frames ensures Belongs(origin, f) {
      if f in frames { assert Belongs(s, f); } else { assert f in delivered; }
    }
  }

  lemma AppendDelivered(delivered: seq<Envelope>, s: Stream, frames: seq<Envelope>)
    requires DeliveredInv(delivered, s) && !s.closed && InOrder(s, frames)
    ensures DeliveredInv(delivered + frames, Accepting(s, frames))
  {
    if frames == [] {
      assert delivered + frames == delivered;
    } else {
      var t, last := Accepting(s, frames), frames[|frames| - 1];
      assert last in frames && Belongs(s, last);
      forall f | f in delivered + frames ensures f.sequence <= t.last && (!t.closed ==> !f.message.Goodbye?) {
        if f in frames {
          var k :| 0 <= k < |frames| && frames[k] == f;
          assert k < |frames| - 1 ==> frames[k].sequence < last.sequence && !frames[k].message.Goodbye?;
        } else {
          assert f in delivered;
        }
      }
    }
  }

  /** What a chunk that passes does to the stream. */
  lemma FeedExactly(s: Stream, chunk: Chunk)
    requires !s.poisoned && Feed(s, chunk).1.Accepted?
    ensures var (t, fed) := Feed(s, chunk);
            && !t.poisoned && (t.network, t.peer, t.session) == (s.network, s.peer, s.session)
            && (fed.frames != [] ==> !s.closed && InOrder(s, fed.frames))
            && t == Accepting(s, fed.frames).(pending := t.pending)
  {
    if !s.closed && chunk.Whole? {
      AcceptExactly(s.(pending := chunk.partial), chunk.frames);
      assert forall f <- chunk.frames :: Belongs(s.(pending := chunk.partial), f) <==> Belongs(s, f);
    }
  }

  lemma FeedKeepsScope(a: Activity, chunk: Chunk, now: U64)
    ensures var s, t := a.stream, FeedActivity(a, chunk, now).0.stream;
            (t.network, t.peer, t.session) == (s.network, s.peer, s.session)
  {
    if !a.stream.closed && chunk.Whole? { AcceptKeepsScope(a.stream.(pending := chunk.partial), chunk.frames); }
  }

  lemma {:induction false} AcceptKeepsScope(s: Stream, frames: seq<Envelope>)
    ensures var t := Accept(s, frames).0; (t.network, t.peer, t.session) == (s.network, s.peer, s.session)
    decreases |frames|
  {
    if frames != [] && FrameFault(s, frames[0]).None? { AcceptKeepsScope(Advance(s, frames[0]), frames[1..]); }
  }

  /** A read that stays live changed the session only through one passed chunk. */
  lemma LiveReadShape(s: Session, x: Slice)
    requires !Receive(s, x).0.terminal
    ensures var chunk := if x.socket.Bytes? then x.socket.chunk else Nothing;
            var (a, fed) := FeedActivity(s.ingress.activity, chunk, Observed(x.now, x.elapsed));
            && fed.Good? && Receive(s, x).0 == s.(ingress := Ingress(a, false)) && !s.ingress.terminal
            && x.approvedBefore && x.approvedAfter
            && Receive(s, x).1 == (if x.socket.Bytes? then Frames(fed.value) else Idle)
            && (!x.socket.Bytes? ==> fed.value == [])
  {
    LiveReadIsOnTime(s, x);
    var chunk := if x.socket.Bytes? then x.socket.chunk else Nothing;
    IngressStep(s.ingress, chunk, Observed(x.now, x.elapsed), x.approvedAfter);
    FeedIsOnTime(s.ingress.activity, chunk, Observed(x.now, x.elapsed));
  }

  predicate SameScope(a: Stream, b: Stream) { (a.network, a.peer, a.session) == (b.network, b.peer, b.session) }

  lemma DigestKeepsScope(s: Session, socket: SocketRead, observed: U64, approved: bool)
    ensures SameScope(s.ingress.activity.stream, Digest(s, socket, observed, approved).0.ingress.activity.stream)
  {
    FeedKeepsScope(s.ingress.activity, Nothing, observed);
    if socket.Bytes? { FeedKeepsScope(s.ingress.activity, socket.chunk, observed); }
  }

  lemma AfterReadKeepsScope(s: Session, x: Slice, timeout: nat, idleLeft: nat)
    ensures SameScope(s.ingress.activity.stream, AfterRead(s, x, timeout, idleLeft).0.ingress.activity.stream)
  {
    FeedKeepsScope(s.ingress.activity, Nothing, Expires(s));
    DigestKeepsScope(s, x.socket, Expires(s), x.approvedAfter);
    DigestKeepsScope(s, x.socket, Observed(x.now, x.elapsed), x.approvedAfter);
  }

  lemma ReceiveKeepsScope(s: Session, x: Slice)
    ensures SameScope(s.ingress.activity.stream, Receive(s, x).0.ingress.activity.stream)
  {
    FeedKeepsScope(s.ingress.activity, Nothing, x.now);
    if x.now < Expires(s) {
      var i := CheckBeforeRead(s.ingress, x.now, x.approvedBefore).0;
      assert SameScope(s.ingress.activity.stream, i.activity.stream);
      AfterReadKeepsScope(s.(ingress := i), x, Timeout(s, x), IdleLeft(s, x.now));
    }
  }

  /** A read that kills the session delivers nothing and closes the socket. */
  lemma DeadReadShape(s: Session, x: Slice)
    requires Receive(s, x).0.terminal
    ensures !Receive(s, x).1.Frames?
    ensures !s.terminal ==> !Receive(s, x).0.open
    ensures s.terminal ==> Receive(s, x).0 == s
    ensures !s.terminal && !s.ingress.activity.terminal && !Receive(s, x).0.ingress.terminal ==>
              !Receive(s, x).0.ingress.activity.terminal
  {
  }

  lemma LiveReadKeepsInv(w: World, x: Slice)
    requires Inv(w) && !Receive(w.session, x).0.terminal
    ensures Inv(Step(w, OnRead(x)))
  {
    LiveReadShape(w.session, x);
    var a := w.session.ingress.activity;
    var chunk := if x.socket.Bytes? then x.socket.chunk else Nothing;
    FeedExactly(a.stream, chunk);
    var frames := Feed(a.stream, chunk).1.frames;
    if frames != [] {
      AppendInOrder(w.delivered, a.stream, frames);
      AppendDelivered(w.delivered, a.stream, frames);
      GoodbyeIsLast(a.stream, frames);
    } else {
      assert w.delivered + frames == w.delivered;
    }
  }

  lemma GoodbyeIsLast(s: Stream, frames: seq<Envelope>)
    requires InOrder(s, frames) && frames != []
    ensures (exists f <- frames :: f.message.Goodbye?) <==> frames[|frames| - 1].message.Goodbye?
  {
    if f :| f in frames && f.message.Goodbye? {
      var k :| 0 <= k < |frames| && frames[k] == f;
    }
    assert frames[|frames| - 1] in frames;
  }

  lemma StepKeepsInv(w: World, e: Event)
    requires Inv(w)
    ensures Inv(Step(w, e))
  {
    if e.OnRead? {
      if Receive(w.session, e.slice).0.terminal {
        DeadReadShape(w.session, e.slice);
        ReceiveKeepsScope(w.session, e.slice);
      } else {
        LiveReadKeepsInv(w, e.slice);
      }
    }
  }

  lemma {:induction false} EveryRunKeepsInv(network: NetworkId, peer: NodeId, id: SessionId, now: U64,
                                            events: seq<Event>)
    ensures Inv(Run(World(Begin(network, peer, id, now), [], 0), events))
    ensures var s := Run(World(Begin(network, peer, id, now), [], 0), events).session.ingress.activity.stream;
            (s.network, s.peer, s.session) == (network, peer, id)
  {
    if events != [] {
      var before, e := Run(World(Begin(network, peer, id, now), [], 0), events[..|events| - 1]), events[|events| - 1];
      EveryRunKeepsInv(network, peer, id, now, events[..|events| - 1]);
      StepKeepsInv(before, e);
      StepKeepsScope(before, e);
    }
  }

  lemma StepKeepsScope(w: World, e: Event)
    ensures var s, t := w.session.ingress.activity.stream, Step(w, e).session.ingress.activity.stream;
            SameScope(s, t)
  {
    if e.OnRead? { ReceiveKeepsScope(w.session, e.slice); }
  }

  /**
   Over every sequence of reads, sends and closes: all frames ever delivered carry this network,
   peer and session, their numbers grow strictly from 3 on, nothing follows a Goodbye, and a dead
   ingress means a dead session with a closed socket.
   */
  lemma EveryDeliveryInOrder(network: NetworkId, peer: NodeId, id: SessionId, now: U64, events: seq<Event>)
    ensures var w := Run(World(Begin(network, peer, id, now), [], 0), events);
            && InOrder(AfterHello(network, peer, id), w.delivered)
            && (w.session.ingress.terminal ==> w.session.terminal)
            && (w.session.terminal <==> !w.session.open)
  {
    EveryRunKeepsInv(network, peer, id, now, events);
  }

  /** A dead session never again yields a frame or sends one. */
  lemma {:induction false} DeadForever(w: World, events: seq<Event>)
    requires w.session.terminal
    ensures Run(w, events).session.terminal
    ensures Run(w, events).delivered == w.delivered && Run(w, events).sent == w.sent
  {
    if events != [] { DeadForever(w, events[..|events| - 1]); }
  }

  /** Frames are delivered only while the peer is approved, both before the wait and after it. */
  lemma DeliveryNeedsApproval(s: Session, x: Slice)
    requires Receive(s, x).1.Frames?
    ensures x.approvedBefore && x.approvedAfter && !Receive(s, x).0.terminal
  {
    if Receive(s, x).0.terminal { DeadReadShape(s, x); } else { LiveReadShape(s, x); }
  }
}
