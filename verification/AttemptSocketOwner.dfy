/**
 The imperative owner of pending handshake sockets, method by method equal to the
 state machine of `AttemptSockets`.
 */
module AttemptSocketOwner {
  import opened Vocabulary
  import S = ReconnectScheduler
  import Spec = AttemptSockets

  class PendingHandshakeSockets {
    var slots: S.Slots
    var sockets: map<PeerKey, Spec.Pending>
    var log: seq<Spec.Effect>

    function View(): Spec.State
      reads this
    {
      Spec.State(slots, sockets, log)
    }

    constructor ()
      ensures View() == Spec.EMPTY
    {
      slots, sockets, log := map[], map[], [];
    }

    method ScheduleLoss(key: PeerKey, generation: SessionId, now: U64) returns (r: S.Outcome<bool>)
      modifies this
      ensures (View(), r) == Spec.ScheduleLoss(old(View()), key, generation, now)
    {
      var (next, outcome) := S.ScheduleLoss(slots, key, generation, now);
      slots, r := next, outcome;
      if r == S.Done(true) {
        log := log + [Spec.Scheduled(key, SaturatingAdd(now, S.BackoffMs(0)))];
      }
    }

    method Begin(key: PeerKey, generation: SessionId, now: U64, socket: Spec.Socket) returns (r: S.Outcome<bool>)
      modifies this
      ensures (View(), r) == Spec.Begin(old(View()), key, generation, now, socket)
    {
      if key in sockets { return S.Done(false); }
      var (next, outcome) := S.TakeDue(slots, key, generation, now);
      slots, r := next, outcome;
      if r == S.Done(true) {
        sockets := sockets[key := Spec.Pending(generation, socket)];
        log := log + [Spec.Opened(key, socket, now)];
      }
    }

    method CloseIfCurrent(key: PeerKey, generation: SessionId) returns (closed: bool)
      modifies this
      ensures (View(), closed) == Spec.CloseIfCurrent(old(View()), key, generation)
    {
      if key !in sockets || sockets[key].generation != generation { return false; }
      log := log + [Spec.Closed(key, sockets[key].socket)];
      sockets := sockets - {key};
      closed := true;
    }

    method RetireGeneration(key: PeerKey, generation: SessionId) returns (cancelled: bool)
      modifies this
      ensures (View(), cancelled) == Spec.Retire(old(View()), key, generation)
    {
      var (next, outcome) := S.CancelIfCurrent(slots, key, generation);
      slots, cancelled := next, outcome;
      if cancelled { log := log + [Spec.Retired(key)]; }
    }

    method RescheduleAttempt(key: PeerKey, generation: SessionId, now: U64) returns (r: S.Outcome<Option<U64>>)
      modifies this
      ensures (View(), r) == Spec.Reschedule(old(View()), key, generation, now)
    {
      var (next, outcome) := S.AttemptFailed(slots, key, generation, now);
      slots, r := next, outcome;
      if r.Done? && r.value.Some? { log := log + [Spec.Retry(key, r.value.value)]; }
    }

    method Watchdog(key: PeerKey, generation: SessionId, now: U64) returns (r: S.Outcome<Spec.WatchdogResult>)
      modifies this
      ensures (View(), r) == Spec.Watchdog(old(View()), key, generation, now)
    {
      var (next, expired) := S.TakeExpired(slots, key, generation, now);
      if expired.Failed? {
        var _ := CloseIfCurrent(key, generation);
        var _ := RetireGeneration(key, generation);
        return S.Failed(expired.error);
      }
      slots := next;
      if !expired.value { return S.Done(Spec.NotExpired); }
      var _ := CloseIfCurrent(key, generation);
      var retry := RescheduleAttempt(key, generation, now);
      r := if retry.Done? then S.Done(Spec.Cancelled(retry.value)) else S.Failed(retry.error);
    }

    method Failed(key: PeerKey, generation: SessionId, now: U64) returns (r: S.Outcome<Option<U64>>)
      modifies this
      ensures (View(), r) == Spec.Failed(old(View()), key, generation, now)
    {
      var closed := CloseIfCurrent(key, generation);
      if !closed { return S.Done(None); }
      r := RescheduleAttempt(key, generation, now);
      if r.Failed? { var _ := RetireGeneration(key, generation); }
    }

    method FailedWithKind(key: PeerKey, generation: SessionId, now: U64, kind: ErrorKind)
      returns (r: S.Outcome<Option<U64>>)
      modifies this
      ensures (View(), r) == Spec.FailedWithKind(old(View()), key, generation, now, kind)
    {
      var closed := CloseIfCurrent(key, generation);
      if !closed { return S.Done(None); }
      if kind.IsRetryableTransportFailure() {
        r := RescheduleAttempt(key, generation, now);
        if r.Failed? { var _ := RetireGeneration(key, generation); }
      } else {
        var _ := RetireGeneration(key, generation);
        r := S.Done(None);
      }
    }

    method Cancel(key: PeerKey, generation: SessionId) returns (cancelled: bool)
      modifies this
      ensures (View(), cancelled) == Spec.Cancel(old(View()), key, generation)
    {
      var _ := CloseIfCurrent(key, generation);
      cancelled := RetireGeneration(key, generation);
    }

    /** Dropping the owner shuts every socket down, in whatever order the map yields them. */
    method Drop()
      requires Spec.Inv(View())
      modifies `sockets, `log
      ensures sockets == map[] && Spec.Orderly(log)
      ensures forall k :: Spec.TrailOf(log, k).open.None?
    {
      forall k
        ensures OpenIs(log, sockets, k)
      {
        assert Spec.Tracked(View(), k);
      }
      while sockets != map[]
        invariant Spec.Orderly(log) && OpenAre(log, sockets)
        decreases |sockets.Keys|
      {
        var key :| key in sockets;
        CloseOne(log, sockets, key);
        log := log + [Spec.Closed(key, sockets[key].socket)];
        assert (sockets - {key}).Keys == sockets.Keys - {key};
        sockets := sockets - {key};
      }
      forall k ensures Spec.TrailOf(log, k).open.None? { assert OpenIs(log, sockets, k); }
    }
  }

  /** A peer's trail shows a socket open exactly when it is pending. */
  ghost predicate OpenIs(log: seq<Spec.Effect>, sockets: map<PeerKey, Spec.Pending>, k: PeerKey) {
    Spec.TrailOf(log, k).open == if k in sockets then Some(sockets[k].socket) else None
  }

  ghost predicate OpenAre(log: seq<Spec.Effect>, sockets: map<PeerKey, Spec.Pending>) {
    forall k :: OpenIs(log, sockets, k)
  }

  lemma CloseOne(log: seq<Spec.Effect>, sockets: map<PeerKey, Spec.Pending>, key: PeerKey)
    requires Spec.Orderly(log) && OpenAre(log, sockets) && key in sockets
    ensures var after := log + [Spec.Closed(key, sockets[key].socket)];
            Spec.Orderly(after) && OpenAre(after, sockets - {key})
  {
    assert OpenIs(log, sockets, key);
    Spec.Appended(log, Spec.Closed(key, sockets[key].socket));
    forall k ensures OpenIs(log + [Spec.Closed(key, sockets[key].socket)], sockets - {key}, k) {
      assert OpenIs(log, sockets, k);
    }
  }
}
