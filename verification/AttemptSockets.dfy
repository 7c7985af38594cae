/**
 Ownership of the TCP sockets of pending control handshakes.

 `State` is the owner's data together with the trail of effects it has had; each
 operation is a function on it, `PendingHandshakeSockets` is the imperative owner
 proved against those functions, and the theorems speak about every run of calls.
 */
module AttemptSockets {
  import opened Vocabulary
  import S = ReconnectScheduler

  type Socket = nat

  datatype Pending = Pending(generation: SessionId, socket: Socket)

  datatype Effect =
    | Scheduled(key: PeerKey, atMs: U64)
    | Opened(key: PeerKey, socket: Socket, nowMs: U64)
    | Closed(key: PeerKey, socket: Socket)
    | Retry(key: PeerKey, atMs: U64)
    | Retired(key: PeerKey)

  datatype State = State(slots: S.Slots, sockets: map<PeerKey, Pending>, log: seq<Effect>)

  datatype WatchdogResult = NotExpired | Cancelled(next: Option<U64>)

  const EMPTY := State(map[], map[], [])

  // ---------------------------------------------------------------- operations

  function CloseIfCurrent(s: State, key: PeerKey, generation: SessionId): (State, bool) {
    if key in s.sockets && s.sockets[key].generation == generation then
      (s.(sockets := s.sockets - {key}, log := s.log + [Closed(key, s.sockets[key].socket)]), true)
    else
      (s, false)
  }

  function ScheduleLoss(s: State, key: PeerKey, generation: SessionId, now: U64): (State, S.Outcome<bool>) {
    var (slots, r) := S.ScheduleLoss(s.slots, key, generation, now);
    if r == S.Done(true) then
      (s.(slots := slots, log := s.log + [Scheduled(key, SaturatingAdd(now, S.BackoffMs(0)))]), r)
    else (s.(slots := slots), r)
  }

  function Begin(s: State, key: PeerKey, generation: SessionId, now: U64, socket: Socket): (State, S.Outcome<bool>) {
    if key in s.sockets then (s, S.Done(false))
    else
      var (slots, r) := S.TakeDue(s.slots, key, generation, now);
      if r == S.Done(true) then
        (State(slots, s.sockets[key := Pending(generation, socket)], s.log + [Opened(key, socket, now)]), r)
      else
        (s.(slots := slots), r)
  }

  /** `AttemptFailed` on the scheduler; a new due time is an observable effect. */
  function Reschedule(s: State, key: PeerKey, generation: SessionId, now: U64): (State, S.Outcome<Option<U64>>) {
    var (slots, r) := S.AttemptFailed(s.slots, key, generation, now);
    if r.Done? && r.value.Some? then
      (s.(slots := slots, log := s.log + [Retry(key, r.value.value)]), r)
    else
      (s.(slots := slots), r)
  }

  function Retire(s: State, key: PeerKey, generation: SessionId): (State, bool) {
    var (slots, cancelled) := S.CancelIfCurrent(s.slots, key, generation);
    (if cancelled then s.(slots := slots, log := s.log + [Retired(key)]) else s, cancelled)
  }

  function Watchdog(s: State, key: PeerKey, generation: SessionId, now: U64): (State, S.Outcome<WatchdogResult>) {
    var (slots, r) := S.TakeExpired(s.slots, key, generation, now);
    if r.Failed? then
      (Retire(CloseIfCurrent(s, key, generation).0, key, generation).0, S.Failed(r.error))
    else if !r.value then
      (s.(slots := slots), S.Done(NotExpired))
    else
      var (s2, next) := Reschedule(CloseIfCurrent(s.(slots := slots), key, generation).0, key, generation, now);
      (s2, if next.Done? then S.Done(Cancelled(next.value)) else S.Failed(next.error))
  }

  /** Reschedule a closed attempt, or give its generation up on a clock error. */
  function RescheduleOrRetire(s: State, key: PeerKey, generation: SessionId, now: U64)
    : (State, S.Outcome<Option<U64>>)
  {
    var (s2, r) := Reschedule(s, key, generation, now);
    if r.Failed? then (Retire(s2, key, generation).0, r) else (s2, r)
  }

  function Failed(s: State, key: PeerKey, generation: SessionId, now: U64): (State, S.Outcome<Option<U64>>) {
    var (s1, closed) := CloseIfCurrent(s, key, generation);
    if !closed then (s1, S.Done(None)) else RescheduleOrRetire(s1, key, generation, now)
  }

  function FailedWithKind(s: State, key: PeerKey, generation: SessionId, now: U64, kind: ErrorKind)
    : (State, S.Outcome<Option<U64>>)
  {
    var (s1, closed) := CloseIfCurrent(s, key, generation);
    if !closed then (s1, S.Done(None))
    else if kind.IsRetryableTransportFailure() then RescheduleOrRetire(s1, key, generation, now)
    else (Retire(s1, key, generation).0, S.Done(None))
  }

  function Cancel(s: State, key: PeerKey, generation: SessionId): (State, bool) {
    Retire(CloseIfCurrent(s, key, generation).0, key, generation)
  }

  datatype Event =
    | OnLoss(key: PeerKey, generation: SessionId, now: U64)
    | OnConnected(key: PeerKey, generation: SessionId, now: U64, socket: Socket)
    | OnWatchdog(key: PeerKey, generation: SessionId, now: U64)
    | OnFailure(key: PeerKey, generation: SessionId, now: U64)
    | OnFailureKind(key: PeerKey, generation: SessionId, now: U64, kind: ErrorKind)
    | OnCancel(key: PeerKey, generation: SessionId)

  function Step(s: State, e: Event): State {
    match e
    case OnLoss(k, g, t) => ScheduleLoss(s, k, g, t).0
    case OnConnected(k, g, t, socket) => Begin(s, k, g, t, socket).0
    case OnWatchdog(k, g, t) => Watchdog(s, k, g, t).0
    case OnFailure(k, g, t) => Failed(s, k, g, t).0
    case OnFailureKind(k, g, t, kind) => FailedWithKind(s, k, g, t, kind).0
    case OnCancel(k, g) => Cancel(s, k, g).0
  }

  /** Any sequence of calls with any timestamps, including regressed ones. */
  function Run(s: State, events: seq<Event>): State {
    if events == [] then s else Step(Run(s, events[..|events| - 1]), events[|events| - 1])
  }

  // ---------------------------------------------------------------- what a trail says about one peer

  /** The socket open, the retry time granted, and the attempts made since the loss. */
  datatype Trail = Trail(open: Option<Socket>, due: Option<U64>, attempts: nat)

  function Extend(t: Trail, e: Effect, key: PeerKey): Trail {
    if e.key != key then t else
    match e
    case Scheduled(_, at) => Trail(t.open, Some(at), 0)
    case Opened(_, socket, _) => Trail(Some(socket), None, t.attempts + 1)
    case Closed(_, _) => t.(open := None)
    case Retry(_, at) => t.(due := Some(at))
    case Retired(_) => t.(due := None)
  }

  function TrailOf(log: seq<Effect>, key: PeerKey): Trail {
    if log == [] then Trail(None, None, 0)
    else Extend(TrailOf(log[..|log| - 1], key), log[|log| - 1], key)
  }

  /** What may follow: one socket at a time, only when due, at most eight attempts. */
  predicate Allowed(t: Trail, e: Effect) {
    match e
    case Scheduled(_, _) => t.open.None? && t.due.None?
    case Opened(_, _, now) => t.open.None? && t.due.Some? && t.due.value <= now && t.attempts < S.MAX_ATTEMPTS
    case Closed(_, socket) => t.open == Some(socket)
    case Retry(_, _) => t.open.None? && t.due.None? && t.attempts < S.MAX_ATTEMPTS
    case Retired(_) => t.open.None?
  }

  ghost predicate Orderly(log: seq<Effect>) {
    forall i :: 0 <= i < |log| ==> Allowed(TrailOf(log[..i], log[i].key), log[i])
  }

  // ---------------------------------------------------------------- the invariant

  predicate SlotMatches(s: State, key: PeerKey, t: Trail)
    requires key in s.slots
  {
    var slot := s.slots[key];
    && 1 <= slot.failedAttempts <= S.MAX_ATTEMPTS
    && slot.nextAttempt == t.due
    && if slot.InFlight() then slot.nextAttempt.None? && t.attempts == slot.failedAttempts
       else if slot.nextAttempt.Some? then t.attempts == slot.failedAttempts - 1
       else t.attempts == slot.failedAttempts == S.MAX_ATTEMPTS
  }

  /** A socket is held for a key exactly when its current generation is in flight. */
  predicate Corresponds(s: State, key: PeerKey) {
    && (key in s.sockets <==> key in s.slots && s.slots[key].InFlight())
    && (key in s.sockets ==> s.slots[key].generation == s.sockets[key].generation)
  }

  predicate Tracked(s: State, key: PeerKey) {
    var t := TrailOf(s.log, key);
    && t.open == (if key in s.sockets then Some(s.sockets[key].socket) else None)
    && (if key in s.slots then SlotMatches(s, key, t) else t.due.None?)
    && t.attempts <= S.MAX_ATTEMPTS
  }

  ghost predicate Inv(s: State) {
    && Orderly(s.log)
    && (forall k :: Corresponds(s, k) && Tracked(s, k))
    && |s.slots| <= S.MAX_SLOTS
  }

  // ---------------------------------------------------------------- when an attempt is scheduled and begins

  /** A loss is scheduled exactly for a real peer and generation without a slot, while there is room. */
  lemma ScheduledExactly(s: State, key: PeerKey, generation: SessionId, now: U64)
    ensures var (t, r) := ScheduleLoss(s, key, generation, now);
            && (r == S.Done(true) <==>
                  key.IsValid() && generation != ZERO_SESSION && key !in s.slots && |s.slots| < S.MAX_SLOTS)
            && (r != S.Done(true) ==> t == s)
            && (r.Failed? <==> && key.IsValid() && generation != ZERO_SESSION
                               && (if key in s.slots
                                   then s.slots[key].generation == generation && now < s.slots[key].lastMs
                                   else |s.slots| >= S.MAX_SLOTS))
            && (r == S.Done(true) ==>
                  && key in t.slots && t.slots[key].generation == generation && t.slots[key].lastMs == now
                  && t.slots[key].nextAttempt == Some(SaturatingAdd(now, 250)) && !t.slots[key].InFlight()
                  && t.sockets == s.sockets && t.slots - {key} == s.slots - {key})
  {
  }

  /** An attempt begins exactly when its generation is current, the clock has not gone back and it is due. */
  lemma BeginsExactly(s: State, key: PeerKey, generation: SessionId, now: U64, socket: Socket)
    requires Inv(s)
    ensures var (t, r) := Begin(s, key, generation, now, socket);
            var trail := TrailOf(s.log, key);
            && (r == S.Done(true) <==>
                  && S.IsCurrent(s.slots, key, generation) && s.slots[key].lastMs <= now
                  && trail.open.None? && trail.due.Some? && trail.due.value <= now)
            && (r == S.Done(true) ==>
                  && key in t.sockets && t.sockets[key] == Pending(generation, socket)
                  && key in t.slots && t.slots[key].started == Some(now) && t.slots[key].lastMs == now)
            && (r != S.Done(true) ==> t.sockets == s.sockets && t.log == s.log)
  {
    assert Corresponds(s, key) && Tracked(s, key);
  }

  // ---------------------------------------------------------------- preservation

  /** One more effect on `e.key` moves only that peer's trail. */
  lemma Appended(log: seq<Effect>, e: Effect)
    requires Orderly(log) && Allowed(TrailOf(log, e.key), e)
    ensures Orderly(log + [e])
    ensures forall k :: TrailOf(log + [e], k) == Extend(TrailOf(log, k), e, k)
  {
    assert (log + [e])[..|log|] == log;
    forall i | 0 <= i < |log + [e]|
      ensures Allowed(TrailOf((log + [e])[..i], (log + [e])[i].key), (log + [e])[i])
    {
      assert (log + [e])[..i] == log[..i];
      if i == |log| { assert log[..i] == log; }
    }
  }

  /** Nothing but `key` differs between the two states. */
  ghost predicate SameElsewhere(s: State, s': State, key: PeerKey) {
    forall k :: k != key ==>
      && (k in s.slots <==> k in s'.slots) && (k in s.slots ==> s.slots[k] == s'.slots[k])
      && (k in s.sockets <==> k in s'.sockets) && (k in s.sockets ==> s.sockets[k] == s'.sockets[k])
      && TrailOf(s.log, k) == TrailOf(s'.log, k)
  }

  lemma OnlyKeyMatters(s: State, s': State, key: PeerKey)
    requires Inv(s) && SameElsewhere(s, s', key)
    requires Orderly(s'.log) && Corresponds(s', key) && Tracked(s', key) && |s'.slots| <= S.MAX_SLOTS
    ensures Inv(s')
  {
    forall k ensures Corresponds(s', k) && Tracked(s', k) {
      assert Corresponds(s, k) && Tracked(s, k);
    }
  }

  /** Moving a slot's clock or marking it overdue changes nothing the invariant sees. */
  lemma TouchKeepsInv(s: State, key: PeerKey, now: U64, overdue: bool)
    requires Inv(s) && key in s.slots
    ensures Inv(s.(slots := s.slots[key := s.slots[key].(lastMs := now)]))
    ensures Inv(s.(slots := s.slots[key := s.slots[key].(lastMs := now, cancelRequested := overdue)]))
  {
    assert Corresponds(s, key) && Tracked(s, key);
    OnlyKeyMatters(s, s.(slots := s.slots[key := s.slots[key].(lastMs := now)]), key);
    OnlyKeyMatters(s, s.(slots := s.slots[key := s.slots[key].(lastMs := now, cancelRequested := overdue)]), key);
  }

  /** Closing the current socket leaves one gap: a slot in flight without a socket. */
  ghost predicate JustClosed(s: State, s1: State, key: PeerKey, g: SessionId) {
    && s1 == CloseIfCurrent(s, key, g).0
    && Orderly(s1.log) && SameElsewhere(s, s1, key)
    && TrailOf(s1.log, key) == (if S.IsCurrent(s.slots, key, g) then TrailOf(s.log, key).(open := None)
                                else TrailOf(s.log, key))
    && (S.IsCurrent(s.slots, key, g) ==> key !in s1.sockets)
  }

  lemma ClosingGap(s: State, key: PeerKey, g: SessionId)
    requires Inv(s)
    ensures JustClosed(s, CloseIfCurrent(s, key, g).0, key, g)
    ensures CloseIfCurrent(s, key, g).1 ==> S.IsCurrent(s.slots, key, g) && s.slots[key].InFlight()
  {
    assert Corresponds(s, key) && Tracked(s, key);
    if CloseIfCurrent(s, key, g).1 {
      Appended(s.log, Closed(key, s.sockets[key].socket));
    }
  }

  lemma CancelKeepsInv(s: State, key: PeerKey, g: SessionId)
    requires Inv(s)
    ensures Inv(Cancel(s, key, g).0)
  {
    var s1 := CloseIfCurrent(s, key, g).0;
    assert Corresponds(s, key) && Tracked(s, key);
    ClosingGap(s, key, g);
    if S.IsCurrent(s.slots, key, g) {
      Appended(s1.log, Retired(key));
      SmallerWithout(s.slots, key);
    }
    OnlyKeyMatters(s, Cancel(s, key, g).0, key);
  }

  lemma RescheduleKeepsInv(s: State, key: PeerKey, g: SessionId, now: U64)
    requires Inv(s) && S.IsCurrent(s.slots, key, g) && s.slots[key].InFlight()
    ensures Inv(RescheduleOrRetire(CloseIfCurrent(s, key, g).0, key, g, now).0)
    ensures now >= s.slots[key].lastMs ==> Reschedule(CloseIfCurrent(s, key, g).0, key, g, now).1.Done?
  {
    var s1 := CloseIfCurrent(s, key, g).0;
    assert Corresponds(s, key) && Tracked(s, key);
    ClosingGap(s, key, g);
    if now < s.slots[key].lastMs {
      CancelKeepsInv(s, key, g);
    } else {
      var s2 := Reschedule(s1, key, g, now).0;
      if s.slots[key].failedAttempts < S.MAX_ATTEMPTS {
        Appended(s1.log, Retry(key, S.NextAttempt(s.slots[key].failedAttempts, now).value));
      }
      OnlyKeyMatters(s, s2, key);
    }
  }

  /** A peer without a slot gets one, with its first retry ahead. */
  lemma FirstSlotKeepsInv(s: State, key: PeerKey, slot: S.Slot, now: U64)
    requires Inv(s) && key !in s.slots && |s.slots| < S.MAX_SLOTS
    requires slot == S.Slot(slot.generation, 1, S.NextAttempt(0, now), None, false, now)
    ensures Inv(s.(slots := s.slots[key := slot], log := s.log + [Scheduled(key, SaturatingAdd(now, S.BackoffMs(0)))]))
  {
    assert Corresponds(s, key) && Tracked(s, key);
    Appended(s.log, Scheduled(key, SaturatingAdd(now, S.BackoffMs(0))));
    var log := s.log + [Scheduled(key, SaturatingAdd(now, S.BackoffMs(0)))];
    OnlyKeyMatters(s, s.(slots := s.slots[key := slot], log := log), key);
  }

  lemma LossKeepsInv(s: State, key: PeerKey, g: SessionId, now: U64)
    requires Inv(s)
    ensures Inv(ScheduleLoss(s, key, g, now).0)
  {
    if ScheduleLoss(s, key, g, now).1 == S.Done(true) {
      FirstSlotKeepsInv(s, key, S.Slot(g, 1, S.NextAttempt(0, now), None, false, now), now);
    }
  }

  lemma BeginKeepsInv(s: State, key: PeerKey, g: SessionId, now: U64, socket: Socket)
    requires Inv(s)
    ensures Inv(Begin(s, key, g, now, socket).0)
  {
    assert Corresponds(s, key) && Tracked(s, key);
    var (s', r) := Begin(s, key, g, now, socket);
    if r == S.Done(true) {
      Appended(s.log, Opened(key, socket, now));
    }
    OnlyKeyMatters(s, s', key);
  }

  lemma WatchdogKeepsInv(s: State, key: PeerKey, g: SessionId, now: U64)
    requires Inv(s)
    ensures Inv(Watchdog(s, key, g, now).0)
  {
    var (slots, r) := S.TakeExpired(s.slots, key, g, now);
    if r.Failed? {
      CancelKeepsInv(s, key, g);
    } else if S.IsCurrent(s.slots, key, g) {
      TouchKeepsInv(s, key, now, true);
      if r.value { RescheduleKeepsInv(s.(slots := slots), key, g, now); }
    } else {
      assert s.(slots := slots) == s;
    }
  }

  lemma FailureKeepsInv(s: State, key: PeerKey, g: SessionId, now: U64, kind: ErrorKind)
    requires Inv(s)
    ensures Inv(Failed(s, key, g, now).0)
    ensures Inv(FailedWithKind(s, key, g, now, kind).0)
  {
    ClosingGap(s, key, g);
    if CloseIfCurrent(s, key, g).1 {
      RescheduleKeepsInv(s, key, g, now);
      CancelKeepsInv(s, key, g);
    }
  }

  lemma StepKeepsInv(s: State, e: Event)
    requires Inv(s)
    ensures Inv(Step(s, e))
  {
    match e
    case OnLoss(k, g, t) => LossKeepsInv(s, k, g, t);
    case OnConnected(k, g, t, socket) => BeginKeepsInv(s, k, g, t, socket);
    case OnWatchdog(k, g, t) => WatchdogKeepsInv(s, k, g, t);
    case OnFailure(k, g, t) => FailureKeepsInv(s, k, g, t, Internal);
    case OnFailureKind(k, g, t, kind) => FailureKeepsInv(s, k, g, t, kind);
    case OnCancel(k, g) => CancelKeepsInv(s, k, g);
  }

  // ---------------------------------------------------------------- theorems over every run

  /** In every run the sockets and the in-flight generations correspond exactly. */
  lemma {:induction false} EveryRunCorresponds(events: seq<Event>)
    ensures Inv(Run(EMPTY, events))
  {
    if events != [] {
      EveryRunCorresponds(events[..|events| - 1]);
      StepKeepsInv(Run(EMPTY, events[..|events| - 1]), events[|events| - 1]);
    }
  }

  /** A retry for a peer is granted only after every socket opened for it was closed. */
  lemma {:induction false} RetryFollowsClose(log: seq<Effect>, i: nat, j: nat)
    requires Orderly(log) && i < j < |log|
    requires log[i].Opened? && (log[j].Retry? || log[j].Opened?) && log[j].key == log[i].key
    ensures exists m :: i < m < j && log[m] == Closed(log[i].key, log[i].socket)
  {
    assert log[..i + 1][..i] == log[..i];
    StillOpen(log, i, j);
    assert Allowed(TrailOf(log[..j], log[j].key), log[j]);
  }

  /** Between an opening and a later point without the matching close, the socket stays open. */
  lemma {:induction false} StillOpen(log: seq<Effect>, i: nat, j: nat)
    requires Orderly(log) && i < j <= |log| && log[i].Opened?
    ensures || TrailOf(log[..j], log[i].key).open == Some(log[i].socket)
            || exists m :: i < m < j && log[m] == Closed(log[i].key, log[i].socket)
  {
    assert log[..j][..j - 1] == log[..j - 1];
    if j > i + 1 {
      StillOpen(log, i, j - 1);
      assert Allowed(TrailOf(log[..j - 1], log[j - 1].key), log[j - 1]);
    }
  }

  /** A callback that does not carry the current generation changes nothing at all. */
  lemma StaleCallbacksAreInert(s: State, key: PeerKey, g: SessionId, now: U64, socket: Socket, kind: ErrorKind)
    requires Inv(s) && !S.IsCurrent(s.slots, key, g)
    ensures Begin(s, key, g, now, socket) == (s, S.Done(false))
    ensures Watchdog(s, key, g, now) == (s, S.Done(NotExpired))
    ensures Failed(s, key, g, now) == (s, S.Done(None))
    ensures FailedWithKind(s, key, g, now, kind) == (s, S.Done(None))
    ensures Cancel(s, key, g) == (s, false)
  {
    assert Corresponds(s, key);
  }

  /** No watchdog request outlives the call that made it. */
  ghost predicate Quiet(s: State) {
    forall k :: k in s.slots ==> !s.slots[k].cancelRequested
  }

  lemma StepKeepsQuiet(s: State, e: Event)
    requires Inv(s) && Quiet(s)
    ensures Quiet(Step(s, e))
  {
    assert Corresponds(s, e.key);
  }

  lemma {:induction false} EveryRunIsQuiet(events: seq<Event>)
    ensures Quiet(Run(EMPTY, events))
  {
    if events != [] {
      EveryRunIsQuiet(events[..|events| - 1]);
      EveryRunCorresponds(events[..|events| - 1]);
      StepKeepsQuiet(Run(EMPTY, events[..|events| - 1]), events[|events| - 1]);
    }
  }

  /**
   What a callback of the current, in-flight generation does in any reachable state:
   the socket is gone in every case but an early watchdog; a regressed clock or a
   permanent failure gives the generation up, anything else grants the next attempt
   while one is left.
   */
  lemma CurrentCallbacks(s: State, key: PeerKey, g: SessionId, now: U64, kind: ErrorKind)
    requires Inv(s) && Quiet(s) && S.IsCurrent(s.slots, key, g) && s.slots[key].InFlight()
    ensures
      var slot := s.slots[key];
      var regressed := now < slot.lastMs;
      var overdue := !regressed && now >= SaturatingAdd(slot.started.value, 20_000);
      var next := if slot.failedAttempts < 8 then Some(SaturatingAdd(now, S.BackoffMs(slot.failedAttempts))) else None;
      var (w, f) := (Watchdog(s, key, g, now), Failed(s, key, g, now));
      && w.1 == (if regressed then S.Failed(S.ClockRegression)
                 else if overdue then S.Done(Cancelled(next)) else S.Done(NotExpired))
      && (key in w.0.sockets <==> !regressed && !overdue)
      && (key in w.0.slots <==> !regressed)
      && f.1 == (if regressed then S.Failed(S.ClockRegression) else S.Done(next))
      && key !in f.0.sockets && (key in f.0.slots <==> !regressed)
      && FailedWithKind(s, key, g, now, kind).1 == (if kind.IsRetryableTransportFailure() then f.1 else S.Done(None))
      && FailedWithKind(s, key, g, now, kind).0.sockets == f.0.sockets
      && (!kind.IsRetryableTransportFailure() ==> key !in FailedWithKind(s, key, g, now, kind).0.slots)
      && Cancel(s, key, g).1 && key !in Cancel(s, key, g).0.slots && key !in Cancel(s, key, g).0.sockets
  {
    assert Corresponds(s, key);
  }

  /** Delays double from 250 ms up to the 30 s cap. */
  lemma BackoffDoubles(n: nat)
    ensures S.BackoffMs(0) == 250
    ensures S.BackoffMs(n + 1) == if 2 * S.BackoffMs(n) > 30_000 then 30_000 else 2 * S.BackoffMs(n)
  {
    assert Pow2(n + 1) == 2 * Pow2(n);
  }
}
