/**
 The per-peer reconnect scheduler: one slot per lost session generation, a bounded
 exponential backoff and a watchdog for attempts that run too long.
 */
module ReconnectScheduler {
  import opened Vocabulary

  const MAX_SLOTS: nat := 128
  const MAX_ATTEMPTS: nat := 8
  /** Connecting, TLS handshake and Hello budgets added up. */
  const MAX_ATTEMPT_MS: U64 := 5_000 + 10_000 + 5_000

  datatype Slot = Slot(
    generation: SessionId, failedAttempts: nat, nextAttempt: Option<U64>,
    started: Option<U64>, cancelRequested: bool, lastMs: U64)
  {
    /** `started` carries the source's `in_flight` flag and its start time together. */
    predicate InFlight() { started.Some? }
  }

  type Slots = map<PeerKey, Slot>

  datatype ScheduleError = CapacityReached | ClockRegression

  datatype Outcome<+T> = Done(value: T) | Failed(error: ScheduleError)

  /** Delay before the next attempt once `failed` attempts are behind us. */
  function BackoffMs(failed: nat): U64 {
    var delay := 250 * Pow2(failed);
    if delay > 30_000 then 30_000 else delay
  }

  function NextAttempt(failed: nat, now: U64): Option<U64> {
    if failed < MAX_ATTEMPTS then Some(SaturatingAdd(now, BackoffMs(failed))) else None
  }

  function ScheduleLoss(s: Slots, key: PeerKey, generation: SessionId, now: U64): (Slots, Outcome<bool>) {
    if !key.IsValid() || generation == ZERO_SESSION then
      (s, Done(false))
    else if key in s then
      if s[key].generation == generation && now < s[key].lastMs then (s, Failed(ClockRegression))
      else (s, Done(false))
    else if |s| >= MAX_SLOTS then
      (s, Failed(CapacityReached))
    else
      (s[key := Slot(generation, 1, NextAttempt(0, now), None, false, now)], Done(true))
  }

  predicate IsCurrent(s: Slots, key: PeerKey, generation: SessionId) {
    key in s && s[key].generation == generation
  }

  function TakeDue(s: Slots, key: PeerKey, generation: SessionId, now: U64): (Slots, Outcome<bool>) {
    if !IsCurrent(s, key, generation) then
      (s, Done(false))
    else if now < s[key].lastMs then
      (s, Failed(ClockRegression))
    else
      var slot := s[key].(lastMs := now);
      if slot.InFlight() || slot.nextAttempt.None? || now < slot.nextAttempt.value then
        (s[key := slot], Done(false))
      else
        (s[key := slot.(started := Some(now), cancelRequested := false, nextAttempt := None)], Done(true))
  }

  function TakeExpired(s: Slots, key: PeerKey, generation: SessionId, now: U64): (Slots, Outcome<bool>) {
    if !IsCurrent(s, key, generation) then
      (s, Done(false))
    else if now < s[key].lastMs then
      (s, Failed(ClockRegression))
    else
      var slot := s[key].(lastMs := now);
      if !slot.InFlight() || now < SaturatingAdd(slot.started.value, MAX_ATTEMPT_MS) || slot.cancelRequested then
        (s[key := slot], Done(false))
      else
        (s[key := slot.(cancelRequested := true)], Done(true))
  }

  function AttemptFailed(s: Slots, key: PeerKey, generation: SessionId, now: U64): (Slots, Outcome<Option<U64>>) {
    if !IsCurrent(s, key, generation) then
      (s, Done(None))
    else if now < s[key].lastMs then
      (s, Failed(ClockRegression))
    else if !s[key].InFlight() then
      (s, Done(None))
    else
      var failed := s[key].failedAttempts;
      var next := NextAttempt(failed, now);
      var slot := s[key].(lastMs := now, started := None, cancelRequested := false, nextAttempt := next,
                          failedAttempts := if failed < MAX_ATTEMPTS then failed + 1 else failed);
      (s[key := slot], Done(next))
  }

  function CancelIfCurrent(s: Slots, key: PeerKey, generation: SessionId): (Slots, bool) {
    if IsCurrent(s, key, generation) then (s - {key}, true) else (s, false)
  }
}
