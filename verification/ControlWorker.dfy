/**
 The inbound worker: one loop that binds, supervises, reads and admits, keeping a vector
 of sessions, two timestamp maps and the session table in step. What the world answers in
 each round, when stop is set and what the clock shows are given in advance.
 */
module ControlWorker {
  import opened Vocabulary
  import L = ControlListener
  import R = SessionRegistry
  import A = ActiveSession

  const MAX_OWNED_SESSIONS: nat := 32

  predicate HeartbeatDue(lastSent: nat, now: nat) { now >= lastSent && now - lastSent >= HEARTBEAT_INTERVAL }

  // ---------------------------------------------------------------- the world

  datatype Read = FramesWithGoodbye | FramesOnly | IdleRead | ClosedOrFailed

  /** One session's turn: the clock before the read, the read, the clock after, the heartbeat write, the clock then. */
  datatype Io = Io(clock: nat, read: Read, later: nat, written: bool, sentAt: nat)

  datatype Round = Round(
    preflight: Result<Option<NetworkId>>, bound: Result<Option<L.Listener>>, postBind: Result<Option<NetworkId>>,
    glimpse: L.Glimpse, approvals: SessionId -> bool, io: SessionId -> Io,
    expected: Result<Option<NetworkId>>, attempt: L.Attempt, admitted: nat)

  // ---------------------------------------------------------------- what is done when

  datatype Act =
    | RoundStarts | Checked(ok: bool) | StopSeen
    | DidRead(id: SessionId) | DidWrite(id: SessionId) | DidAdmit(id: SessionId)

  datatype Mode = Unchecked | Confirmed | Stopped | Violated

  /** Peer I/O and admission belong to a round whose ownership check passed, before stop was seen. */
  function After(m: Mode, a: Act): Mode {
    match a
    case RoundStarts => if m.Stopped? || m.Violated? then Violated else Unchecked
    case Checked(ok) => if m.Unchecked? then (if ok then Confirmed else Unchecked) else Violated
    case StopSeen => if m.Violated? then Violated else Stopped
    case _ => if m.Confirmed? then Confirmed else Violated
  }

  function ModeOf(log: seq<Act>): Mode {
    if log == [] then Unchecked else After(ModeOf(log[..|log| - 1]), log[|log| - 1])
  }

  lemma OneMoreAct(log: seq<Act>, a: Act)
    ensures ModeOf(log + [a]) == After(ModeOf(log), a)
  {
    assert (log + [a])[..|log|] == log;
  }

  // ---------------------------------------------------------------- sessions and their table

  function Ids(sessions: seq<L.Session>): set<SessionId> { set s | s in sessions :: s.id }

  function Keys(sessions: seq<L.Session>): set<PeerKey> { set s | s in sessions :: s.key }

  /** No entry but this peer's bears the id. */
  ghost predicate OnlyHolder(m: map<PeerKey, R.Entry>, s: L.Session) {
    && s.key in m && m[s.key] == R.Entry(s.id, R.Active)
    && forall k <- m :: k != s.key ==> m[k].id != s.id
  }

  /** The table's entries are exactly the owned sessions, one per peer and per id. */
  ghost predicate Backed(m: map<PeerKey, R.Entry>, sessions: seq<L.Session>) {
    if sessions == [] then m == map[] else
      var s := sessions[|sessions| - 1];
      OnlyHolder(m, s) && Backed(m - {s.key}, sessions[..|sessions| - 1])
  }

  lemma {:induction false} EachHasItsEntry(m: map<PeerKey, R.Entry>, sessions: seq<L.Session>)
    requires Backed(m, sessions)
    ensures forall s <- sessions :: s.key in m && m[s.key] == R.Entry(s.id, R.Active)
  {
    if sessions != [] {
      var s, front := sessions[|sessions| - 1], sessions[..|sessions| - 1];
      EachHasItsEntry(m - {s.key}, front);
      assert forall x <- sessions :: x == s || x in front;
    }
  }

  lemma {:induction false} EachEntryIsOwned(m: map<PeerKey, R.Entry>, sessions: seq<L.Session>)
    requires Backed(m, sessions)
    ensures forall k <- m :: k in Keys(sessions)
  {
    if sessions != [] {
      var s, front := sessions[|sessions| - 1], sessions[..|sessions| - 1];
      EachEntryIsOwned(m - {s.key}, front);
      forall k | k in m ensures k in Keys(sessions) {
        if k != s.key {
          assert k in Keys(front);
          var x :| x in front && x.key == k;
          assert x in sessions;
        } else {
          assert s in sessions;
        }
      }
    }
  }

  lemma {:induction false} NoneIsShared(m: map<PeerKey, R.Entry>, sessions: seq<L.Session>, i: nat, j: nat)
    requires Backed(m, sessions) && i < j < |sessions|
    ensures sessions[i].key != sessions[j].key && sessions[i].id != sessions[j].id
  {
    var n := |sessions| - 1;
    var s, front := sessions[n], sessions[..n];
    assert sessions[i] == front[i];
    if j < n {
      assert sessions[j] == front[j];
      NoneIsShared(m - {s.key}, front, i, j);
    } else {
      EachHasItsEntry(m - {s.key}, front);
      assert front[i] in front;
    }
  }

  /** Owned sessions and entries are in bijection, and no two sessions share a peer or an id. */
  lemma BackedMeans(m: map<PeerKey, R.Entry>, sessions: seq<L.Session>)
    requires Backed(m, sessions)
    ensures forall s <- sessions :: s.key in m && m[s.key] == R.Entry(s.id, R.Active)
    ensures forall k <- m :: k in Keys(sessions)
    ensures forall i, j :: 0 <= i < j < |sessions| ==>
              sessions[i].key != sessions[j].key && sessions[i].id != sessions[j].id
  {
    EachHasItsEntry(m, sessions);
    EachEntryIsOwned(m, sessions);
    forall i, j | 0 <= i < j < |sessions|
      ensures sessions[i].key != sessions[j].key && sessions[i].id != sessions[j].id
    {
      NoneIsShared(m, sessions, i, j);
    }
  }

  lemma {:induction false} DropMiddle(m: map<PeerKey, R.Entry>, front: seq<L.Session>, s: L.Session,
                                      rest: seq<L.Session>)
    requires Backed(m, front + [s] + rest)
    ensures s.key in m && m[s.key] == R.Entry(s.id, R.Active) && Backed(m - {s.key}, front + rest)
  {
    var all := front + [s] + rest;
    if rest == [] {
      assert all[|all| - 1] == s && all[..|all| - 1] == front && front + rest == front;
    } else {
      var n := |rest| - 1;
      var last := rest[n];
      assert all[|all| - 1] == last && all[..|all| - 1] == front + [s] + rest[..n];
      DropMiddle(m - {last.key}, front, s, rest[..n]);
      var left := front + rest;
      assert left[|left| - 1] == last && left[..|left| - 1] == front + rest[..n];
      assert m - {last.key} - {s.key} == m - {s.key} - {last.key};
    }
  }

  lemma PushRow(m: map<PeerKey, R.Entry>, sessions: seq<L.Session>, s: L.Session)
    requires Backed(m, sessions) && s.key !in m && forall k <- m :: m[k].id != s.id
    ensures Backed(m[s.key := R.Entry(s.id, R.Active)], sessions + [s])
  {
    assert m[s.key := R.Entry(s.id, R.Active)] - {s.key} == m;
    assert (sessions + [s])[..|sessions|] == sessions;
  }

  /** A peer without an active entry has none at all, so whom the table admits is new. */
  lemma AdmittedIsNew(t: R.Table, sessions: seq<L.Session>, s: L.Session)
    requires Backed(t.sessions, sessions) && R.Admissible(t, s.key, s.id)
    ensures s.key !in t.sessions && s.id !in Ids(sessions)
  {
    BackedMeans(t.sessions, sessions);
  }

  lemma PushBacked(t: R.Table, sessions: seq<L.Session>, s: L.Session)
    requires Backed(t.sessions, sessions) && R.Admissible(t, s.key, s.id)
    ensures Backed(R.Activate(t, s.key, s.id).0.sessions, sessions + [s])
    ensures s.id !in Ids(sessions)
  {
    AdmittedIsNew(t, sessions, s);
    R.AdmissionExactly(t, s.key, s.id);
    PushRow(t.sessions, sessions, s);
  }

  /** Sessions and their table after closing those that fail `keep`, in order. */
  function Sweep(t: R.Table, kept: seq<L.Session>, rest: seq<L.Session>, keep: L.Session -> bool)
    : (R.Table, seq<L.Session>)
    decreases |rest|
  {
    if rest == [] then (t, kept)
    else if keep(rest[0]) then Sweep(t, kept + [rest[0]], rest[1..], keep)
    else Sweep(R.RemoveIfCurrent(t, rest[0].key, rest[0].id).0, kept, rest[1..], keep)
  }

  lemma {:induction false} SweepKeepsBacked(t: R.Table, kept: seq<L.Session>, rest: seq<L.Session>,
                                            keep: L.Session -> bool)
    requires Backed(t.sessions, kept + rest)
    ensures Backed(Sweep(t, kept, rest, keep).0.sessions, Sweep(t, kept, rest, keep).1)
    decreases |rest|
  {
    if rest == [] {
      assert kept + rest == kept;
    } else {
      var s, more := rest[0], rest[1..];
      assert kept + rest == kept + [s] + more;
      if keep(s) {
        SweepKeepsBacked(t, kept + [s], more, keep);
      } else {
        DropMiddle(t.sessions, kept, s, more);
        SweepKeepsBacked(R.RemoveIfCurrent(t, s.key, s.id).0, kept, more, keep);
      }
    }
  }

  /** Exactly the sessions that pass are kept. */
  lemma {:induction false} SweepExactly(t: R.Table, kept: seq<L.Session>, rest: seq<L.Session>, keep: L.Session -> bool)
    ensures forall s :: s in Sweep(t, kept, rest, keep).1 <==> s in kept || (s in rest && keep(s))
    ensures |Sweep(t, kept, rest, keep).1| <= |kept| + |rest|
    decreases |rest|
  {
    if rest != [] {
      var s, more := rest[0], rest[1..];
      assert forall x :: x in rest <==> x == s || x in more;
      if keep(s) {
        SweepExactly(t, kept + [s], more, keep);
        assert forall x :: x in kept + [s] <==> x in kept || x == s;
      } else {
        SweepExactly(R.RemoveIfCurrent(t, s.key, s.id).0, kept, more, keep);
      }
    }
  }

  // ---------------------------------------------------------------- the collections

  /** What the loop keeps in step: the sessions, when each was registered and last sent a heartbeat, and the table. */
  datatype Desk = Desk(sessions: seq<L.Session>, registeredAt: map<SessionId, nat>, sentAt: map<SessionId, nat>,
                       table: R.Table)

  const EMPTY_DESK := Desk([], map[], map[], R.EMPTY)

  /** Both maps have exactly the owned ids as keys, there are at most 32 sessions, and the table holds just them. */
  ghost predicate InStep(d: Desk) {
    && d.registeredAt.Keys == Ids(d.sessions) && d.sentAt.Keys == Ids(d.sessions)
    && |d.sessions| <= MAX_OWNED_SESSIONS && Backed(d.table.sessions, d.sessions)
  }

  function Restrict(m: map<SessionId, nat>, ids: set<SessionId>): map<SessionId, nat> {
    map id | id in m && id in ids :: m[id]
  }

  /** Sessions that fail `keep` are closed, and both maps forget them. */
  function Retain(d: Desk, keep: L.Session -> bool): Desk {
    var (table, kept) := Sweep(d.table, [], d.sessions, keep);
    Desk(kept, Restrict(d.registeredAt, Ids(kept)), Restrict(d.sentAt, Ids(kept)), table)
  }

  lemma RetainKeepsInStep(d: Desk, keep: L.Session -> bool)
    requires InStep(d)
    ensures InStep(Retain(d, keep))
    ensures forall s :: s in Retain(d, keep).sessions <==> s in d.sessions && keep(s)
  {
    assert [] + d.sessions == d.sessions;
    SweepKeepsBacked(d.table, [], d.sessions, keep);
    SweepExactly(d.table, [], d.sessions, keep);
    var kept := Retain(d, keep).sessions;
    SubsetIds(kept, d.sessions);
  }

  lemma SubsetIds(part: seq<L.Session>, whole: seq<L.Session>)
    requires forall s <- part :: s in whole
    ensures Ids(part) <= Ids(whole)
  {
    forall id | id in Ids(part) ensures id in Ids(whole) {
      var s :| s in part && s.id == id;
    }
  }

  function CloseAll(d: Desk): Desk { Retain(d, s => false) }

  lemma CloseAllIsEmpty(d: Desk)
    requires InStep(d)
    ensures CloseAll(d).sessions == [] && InStep(CloseAll(d))
  {
    RetainKeepsInStep(d, s => false);
    SomeoneOrNobody(CloseAll(d).sessions);
  }

  lemma SomeoneOrNobody(sessions: seq<L.Session>)
    ensures sessions == [] || exists s :: s in sessions
  {
    if sessions != [] { assert sessions[0] in sessions; }
  }

  function Push(d: Desk, s: L.Session, now: nat): Desk {
    Desk(d.sessions + [s], d.registeredAt[s.id := now], d.sentAt[s.id := now], R.Activate(d.table, s.key, s.id).0)
  }

  lemma PushKeepsInStep(d: Desk, s: L.Session, now: nat)
    requires InStep(d) && |d.sessions| < MAX_OWNED_SESSIONS && R.Admissible(d.table, s.key, s.id)
    ensures InStep(Push(d, s, now)) && s.id !in Ids(d.sessions)
  {
    PushBacked(d.table, d.sessions, s);
    PushIds(d.sessions, s);
  }

  lemma PushIds(sessions: seq<L.Session>, s: L.Session)
    ensures Ids(sessions + [s]) == Ids(sessions) + {s.id}
  {
    assert forall x <- sessions + [s] :: x in sessions || x == s;
    assert s in sessions + [s] && forall x <- sessions :: x in sessions + [s];
  }

  // ---------------------------------------------------------------- one session's turn

  /** The read went through and, if one was due, so did the heartbeat. */
  predicate Stays(admitted: nat, lastSent: nat, io: Io) {
    && A.SessionClock(admitted, io.clock).Some?
    && (io.read.FramesOnly? || io.read.IdleRead?)
    && (HeartbeatDue(lastSent, io.later) ==> io.written)
  }

  function NextHeartbeat(lastSent: nat, io: Io): nat {
    if HeartbeatDue(lastSent, io.later) then io.sentAt else lastSent
  }

  /** What is done on the wire in one turn. */
  function Acts(id: SessionId, admitted: nat, lastSent: nat, io: Io): seq<Act> {
    if A.SessionClock(admitted, io.clock).None? then []
    else match io.read
         case FramesWithGoodbye => [DidRead(id), DidWrite(id)]
         case ClosedOrFailed => [DidRead(id)]
         case _ => if HeartbeatDue(lastSent, io.later) then [DidRead(id), DidWrite(id)] else [DidRead(id)]
  }

  /** A turn writes exactly to answer a Goodbye, or to one that stays when its last heartbeat is 5 s or more ago. */
  lemma WritesExactly(id: SessionId, admitted: nat, lastSent: nat, io: Io)
    ensures DidWrite(id) in Acts(id, admitted, lastSent, io) <==>
            && A.SessionClock(admitted, io.clock).Some?
            && (io.read.FramesWithGoodbye?
                || ((io.read.FramesOnly? || io.read.IdleRead?) && io.later >= lastSent + 5_000_000_000))
    ensures NextHeartbeat(lastSent, io) == if io.later >= lastSent + 5_000_000_000 then io.sentAt else lastSent
    ensures forall a <- Acts(id, admitted, lastSent, io) :: a == DidRead(id) || a == DidWrite(id)
    ensures A.SessionClock(admitted, io.clock).Some? ==> Acts(id, admitted, lastSent, io) != []
                                                         && Acts(id, admitted, lastSent, io)[0] == DidRead(id)
  {
  }

  lemma ActsAreConfirmed(log: seq<Act>, id: SessionId, admitted: nat, lastSent: nat, io: Io)
    requires ModeOf(log).Confirmed?
    ensures ModeOf(log + Acts(id, admitted, lastSent, io)).Confirmed?
  {
    OneMoreAct(log, DidRead(id));
    OneMoreAct(log + [DidRead(id)], DidWrite(id));
    assert log + [DidRead(id)] + [DidWrite(id)] == log + [DidRead(id), DidWrite(id)];
    assert log + [] == log;
  }

  // ---------------------------------------------------------------- looking for stop

  /** Stop is never taken back: it is set from some look on. */
  datatype Stop = Stop(looks: nat, from: nat) {
    predicate Seen() { looks > from }
    function Look(): Stop { this.(looks := looks + 1) }
  }

  ghost predicate Orderly(log: seq<Act>, stop: Stop) {
    !ModeOf(log).Violated? && (ModeOf(log).Stopped? <==> stop.Seen())
  }

  /** The log after one more look. */
  function Noted(log: seq<Act>, stop: Stop): seq<Act> {
    if stop.Look().Seen() then log + [StopSeen] else log
  }

  lemma LookIsOrderly(log: seq<Act>, stop: Stop)
    requires Orderly(log, stop) && !stop.Seen()
    ensures Orderly(Noted(log, stop), stop.Look())
  {
    OneMoreAct(log, StopSeen);
  }

  // ---------------------------------------------------------------- binding

  /** A listener for a durable network that is still current after the bind, and nothing else. */
  function Binding(x: Round, log: seq<Act>, stop: Stop): (Option<L.Listener>, seq<Act>, Stop) {
    if x.preflight.Err? || x.preflight.value.None? then (None, log, stop)
    else
      var log1, stop1 := Noted(log, stop), stop.Look();
      if stop1.Seen() then (None, log1, stop1)
      else
        var log2, stop2 := Noted(log1, stop1), stop1.Look();
        if stop2.Seen() || x.bound.Err? || x.bound.value.None? || x.postBind != Ok(Some(x.bound.value.value.network))
        then (None, log2, stop2)
        else (x.bound.value, log2, stop2)
  }

  lemma BindingExactly(x: Round, log: seq<Act>, stop: Stop)
    requires Orderly(log, stop) && !stop.Seen() && ModeOf(log).Unchecked?
    ensures var (listener, log', stop') := Binding(x, log, stop);
            && Orderly(log', stop') && (!stop'.Seen() ==> log' == log)
            && (listener.Some? <==> && !stop'.Seen() && x.preflight.Ok? && x.preflight.value.Some?
                                    && x.bound.Ok? && x.bound.value.Some?
                                    && x.postBind == Ok(Some(x.bound.value.value.network)))
            && (listener.Some? ==> listener == x.bound.value)
  {
    LookIsOrderly(log, stop);
    if !stop.Look().Seen() { LookIsOrderly(log, stop.Look()); }
  }

  // ---------------------------------------------------------------- supervising

  predicate Owned(owner: L.Listener, x: Round) { owner.live && L.Confirms(owner, x.glimpse) }

  predicate Passes(owner: L.Listener, x: Round, s: L.Session) { s.key.network == owner.network && x.approvals(s.id) }

  /** The sessions that pass their recheck if ownership is confirmed, and none otherwise. */
  function Supervised(d: Desk, owner: L.Listener, x: Round): Desk {
    if Owned(owner, x) then Retain(d, s => Passes(owner, x, s)) else CloseAll(d)
  }

  /** The worker's view of a tick is the listener's: same verdict, same survivors. */
  lemma SupervisedExactly(d: Desk, owner: L.Listener, x: Round)
    requires InStep(d)
    ensures InStep(Supervised(d, owner, x))
    ensures L.Supervise(owner, d.sessions, x.glimpse, x.approvals).2.Yields? <==> Owned(owner, x)
    ensures forall s :: s in Supervised(d, owner, x).sessions <==>
              s in L.Supervise(owner, d.sessions, x.glimpse, x.approvals).1
    ensures forall s <- Supervised(d, owner, x).sessions :: s in d.sessions
    ensures !Owned(owner, x) ==> Supervised(d, owner, x).sessions == []
  {
    L.SuperviseExactly(owner, d.sessions, x.glimpse, x.approvals);
    if Owned(owner, x) { RetainKeepsInStep(d, s => Passes(owner, x, s)); } else { CloseAllIsEmpty(d); }
  }

  // ---------------------------------------------------------------- taking turns

  /** Log, looks and number of turns taken after going through the first `n` sessions. */
  function Turns(d: Desk, io: SessionId -> Io, log: seq<Act>, stop: Stop, n: nat): (seq<Act>, Stop, nat)
    requires n <= |d.sessions| && d.registeredAt.Keys == Ids(d.sessions) && d.sentAt.Keys == Ids(d.sessions)
  {
    if n == 0 then (log, stop, 0) else
      var (log1, stop1, served) := Turns(d, io, log, stop, n - 1);
      if stop1.Seen() then (log1, stop1, served)
      else if stop1.Look().Seen() then (Noted(log1, stop1), stop1.Look(), served)
      else
        var id := d.sessions[n - 1].id;
        assert id in Ids(d.sessions);
        (log1 + Acts(id, d.registeredAt[id], d.sentAt[id], io(id)), stop1.Look(), served + 1)
  }

  lemma {:induction false} TurnsAreOrderly(d: Desk, io: SessionId -> Io, log: seq<Act>, stop: Stop, n: nat)
    requires n <= |d.sessions| && d.registeredAt.Keys == Ids(d.sessions) && d.sentAt.Keys == Ids(d.sessions)
    requires Orderly(log, stop) && ModeOf(log).Confirmed?
    ensures var (log', stop', served) := Turns(d, io, log, stop, n);
            && Orderly(log', stop') && served <= n && (!stop'.Seen() ==> ModeOf(log').Confirmed? && served == n)
  {
    if n > 0 {
      TurnsAreOrderly(d, io, log, stop, n - 1);
      var (log1, stop1, served) := Turns(d, io, log, stop, n - 1);
      if !stop1.Seen() {
        LookIsOrderly(log1, stop1);
        var id := d.sessions[n - 1].id;
        assert id in Ids(d.sessions);
        ActsAreConfirmed(log1, id, d.registeredAt[id], d.sentAt[id], io(id));
      }
    }
  }

  /** This session had its turn and stays. */
  predicate Remains(d: Desk, io: SessionId -> Io, served: nat, s: L.Session)
    requires served <= |d.sessions|
  {
    && s in d.sessions[..served] && s.id in d.registeredAt && s.id in d.sentAt
    && Stays(d.registeredAt[s.id], d.sentAt[s.id], io(s.id))
  }

  /** Those who had their turn and stay, with the heartbeats they sent; everyone else is closed. */
  function Served(d: Desk, io: SessionId -> Io, served: nat): Desk
    requires served <= |d.sessions|
  {
    var kept := Retain(d, s => Remains(d, io, served, s));
    kept.(sentAt := map id | id in kept.sentAt :: NextHeartbeat(kept.sentAt[id], io(id)))
  }

  lemma ServedExactly(d: Desk, io: SessionId -> Io, served: nat)
    requires InStep(d) && served <= |d.sessions|
    ensures var t := Served(d, io, served);
            && InStep(t)
            && (forall s :: s in t.sessions <==> Remains(d, io, served, s))
            && (forall s <- t.sessions :: && s in d.sessions && s.id in d.registeredAt && s.id in d.sentAt
                                          && s.id in t.registeredAt && s.id in t.sentAt
                                          && t.registeredAt[s.id] == d.registeredAt[s.id]
                                          && t.sentAt[s.id] == NextHeartbeat(d.sentAt[s.id], io(s.id)))
  {
    RetainKeepsInStep(d, s => Remains(d, io, served, s));
    var t := Served(d, io, served);
    assert t.sentAt.Keys == Retain(d, s => Remains(d, io, served, s)).sentAt.Keys;
    forall s | s in d.sessions[..served] ensures s in d.sessions { }
    forall s | s in t.sessions ensures s.id in t.registeredAt && s.id in t.sentAt {
      assert s.id in Ids(t.sessions);
    }
  }

  /** The closure's loop: one look and one turn per session until stop is seen. */
  method TakeTurns(d: Desk, io: SessionId -> Io, log: seq<Act>, stop: Stop)
    returns (log': seq<Act>, stop': Stop, served: nat)
    requires InStep(d) && !stop.Seen()
    ensures (log', stop', served) == Turns(d, io, log, stop, |d.sessions|)
  {
    log', stop', served := log, stop, 0;
    var i := 0;
    while i < |d.sessions|
      invariant 0 <= i <= |d.sessions| && (log', stop', served) == Turns(d, io, log, stop, i)
    {
      if !stop'.Seen() {
        stop' := stop'.Look();
        if stop'.Seen() {
          log' := log' + [StopSeen];
        } else {
          var id := d.sessions[i].id;
          assert id in Ids(d.sessions);
          log' := log' + Acts(id, d.registeredAt[id], d.sentAt[id], io(id));
          served := served + 1;
        }
      }
      i := i + 1;
    }
  }

  // ---------------------------------------------------------------- admitting

  /** Everything an inbound session must have gone through to be handed over. */
  predicate Admits(owner: L.Listener, t: R.Table, x: Round) {
    && owner.live && x.expected == Ok(Some(owner.network))
    && x.attempt.accept.Candidate? && x.attempt.accept.prepared && x.attempt.handshake.Some?
    && x.attempt.handshake.value.key.network == owner.network && x.attempt.approved
    && R.Admissible(t, x.attempt.handshake.value.key, x.attempt.handshake.value.id)
    && L.Confirms(owner, x.attempt.first) && L.Confirms(owner, x.attempt.second) && L.Confirms(owner, x.attempt.third)
  }

  /** The handshake passes only if the table takes the session. */
  function Attempting(t: R.Table, network: NetworkId, x: L.Attempt): L.Attempt {
    x.(network := network,
       handshake := if x.handshake.Some? && R.Admissible(t, x.handshake.value.key, x.handshake.value.id)
                    then x.handshake else None)
  }

  /** The listener's own poll yields exactly the sessions this worker admits. */
  lemma PollAdmitsExactly(owner: L.Listener, t: R.Table, x: Round)
    requires x.expected.Ok? && x.expected.value.Some?
    ensures var (after, r) := L.PollRegistered(owner, Attempting(t, x.expected.value.value, x.attempt));
            && after.network == owner.network && (r.Yields? <==> Admits(owner, t, x))
            && (r.Yields? ==> Some(r.value) == x.attempt.handshake)
  {
    L.PollRegisteredExactly(owner, Attempting(t, x.expected.value.value, x.attempt));
  }

  /** A handshake ran and registered its session, whether or not it was released afterwards. */
  predicate Registers(owner: L.Listener, t: R.Table, x: Round) {
    && x.expected == Ok(Some(owner.network))
    && L.Poll(owner, x.attempt.first, x.attempt.accept, x.attempt.second).1.Yields?
    && x.attempt.handshake.Some? && R.Admissible(t, x.attempt.handshake.value.key, x.attempt.handshake.value.id)
  }

  /** A session that registered but was not released gives its entry back; its id stays remembered. */
  function Remembering(d: Desk, s: L.Session): Desk {
    d.(table := R.RemoveIfCurrent(R.Activate(d.table, s.key, s.id).0, s.key, s.id).0)
  }

  lemma RememberingKeepsInStep(d: Desk, s: L.Session)
    requires InStep(d) && R.Admissible(d.table, s.key, s.id)
    ensures InStep(Remembering(d, s)) && s.id in Remembering(d, s).table.recent
            && Remembering(d, s).sessions == d.sessions
  {
    AdmittedIsNew(d.table, d.sessions, s);
    R.AdmissionExactly(d.table, s.key, s.id);
    assert d.table.sessions[s.key := R.Entry(s.id, R.Active)] - {s.key} == d.table.sessions;
  }

  /** One guarded inbound handshake; without a durable network everything is closed instead. */
  function Admitting(d: Desk, owner: L.Listener, x: Round): (Desk, Option<L.Listener>) {
    if x.expected.Err? || x.expected.value.None? then (CloseAll(d), None)
    else
      var after := L.PollRegistered(owner, Attempting(d.table, x.expected.value.value, x.attempt)).0;
      (if Admits(owner, d.table, x) then Push(d, x.attempt.handshake.value, x.admitted)
       else if Registers(owner, d.table, x) then Remembering(d, x.attempt.handshake.value)
       else d,
       Some(after))
  }

  lemma AdmittingKeepsInStep(d: Desk, owner: L.Listener, x: Round)
    requires InStep(d) && |d.sessions| < MAX_OWNED_SESSIONS
    ensures var (t, listener) := Admitting(d, owner, x);
            && InStep(t)
            && (listener.Some? ==> listener.value.network == owner.network)
            && (listener.None? ==> t.sessions == [])
            && (Admits(owner, d.table, x) ==> listener.Some? && t == Push(d, x.attempt.handshake.value, x.admitted)
                                              && x.attempt.handshake.value.id !in Ids(d.sessions))
            && (listener.Some? && !Admits(owner, d.table, x) ==> t.sessions == d.sessions)
  {
    if x.expected.Err? || x.expected.value.None? {
      CloseAllIsEmpty(d);
    } else {
      PollAdmitsExactly(owner, d.table, x);
      if Admits(owner, d.table, x) {
        PushKeepsInStep(d, x.attempt.handshake.value, x.admitted);
      } else if Registers(owner, d.table, x) {
        RememberingKeepsInStep(d, x.attempt.handshake.value);
      }
    }
  }

  /** An id whose handshake was reached and registered is remembered, whether or not it is then admitted. */
  lemma RegisteredIsRemembered(d: Desk, owner: L.Listener, x: Round)
    requires InStep(d) && x.expected == Ok(Some(owner.network)) && x.attempt.handshake.Some?
    requires L.GetsThrough(owner, x.attempt.(network := owner.network))
    requires R.Admissible(d.table, x.attempt.handshake.value.key, x.attempt.handshake.value.id)
    ensures x.attempt.handshake.value.id in Admitting(d, owner, x).0.table.recent
  {
    var s := x.attempt.handshake.value;
    R.AdmissionExactly(d.table, s.key, s.id);
    L.PollExactly(owner, x.attempt.first, x.attempt.accept, x.attempt.second);
    RememberingKeepsInStep(d, s);
  }

  // ---------------------------------------------------------------- the loop

  /**
   All the loop carries from one iteration to the next; `binds` and `via` record which bind each session came
   through.
   */
  datatype Loop = Loop(desk: Desk, listener: Option<L.Listener>, log: seq<Act>, stop: Stop, binds: nat,
                       via: map<SessionId, nat>)

  function Start(from: nat): Loop { Loop(EMPTY_DESK, None, [], Stop(0, from), 0, map[]) }

  /** From the passed ownership check on. */
  function Serving(l: Loop, owner: L.Listener, x: Round): Loop
    requires InStep(l.desk)
  {
    var (log, stop, served) := Turns(l.desk, x.io, l.log, l.stop, |l.desk.sessions|);
    TurnsBound(l.desk, x.io, l.log, l.stop, |l.desk.sessions|);
    var t := l.(desk := Served(l.desk, x.io, served), log := log, stop := stop);
    if stop.Seen() then t
    else
      var looked := t.(log := Noted(log, stop), stop := stop.Look());
      if looked.stop.Seen() || |looked.desk.sessions| >= MAX_OWNED_SESSIONS then looked
      else
        AdmittedLoop(looked, owner, x)
  }

  lemma {:induction false} TurnsBound(d: Desk, io: SessionId -> Io, log: seq<Act>, stop: Stop, n: nat)
    requires n <= |d.sessions| && d.registeredAt.Keys == Ids(d.sessions) && d.sentAt.Keys == Ids(d.sessions)
    ensures Turns(d, io, log, stop, n).2 <= n
  {
    if n > 0 { TurnsBound(d, io, log, stop, n - 1); }
  }

  /** Supervision, turns and admission of one round under a listener. */
  function Working(l: Loop, owner: L.Listener, x: Round): Loop
    requires InStep(l.desk)
  {
    var ok := Owned(owner, x);
    SupervisedExactly(l.desk, owner, x);
    var t := l.(desk := Supervised(l.desk, owner, x), log := l.log + [Checked(ok)]);
    if !ok then t.(listener := None)
    else
      var looked := t.(log := Noted(t.log, t.stop), stop := t.stop.Look());
      if looked.stop.Seen() then looked else Serving(looked, owner, x)
  }

  /** The listener of this round: the one in force, or a newly bound one. */
  function Bound(l: Loop, x: Round): Loop {
    if l.listener.Some? then l
    else
      var (listener, log, stop) := Binding(x, l.log, l.stop);
      l.(listener := listener, log := log, stop := stop, binds := l.binds + (if listener.Some? then 1 else 0))
  }

  /** One whole iteration. */
  function Iterated(l: Loop, x: Round): Loop
    requires InStep(l.desk)
  {
    if l.stop.Seen() then l
    else if l.stop.Look().Seen() then l.(log := Noted(l.log, l.stop), stop := l.stop.Look())
    else
      var bound := Bound(l.(log := l.log + [RoundStarts], stop := l.stop.Look()), x);
      if bound.stop.Seen() || bound.listener.None? then bound else Working(bound, bound.listener.value, x)
  }

  // ---------------------------------------------------------------- what every iteration keeps

  /** Every owned session came in through the bind now in force and belongs to its network. */
  ghost predicate OfThisBind(d: Desk, listener: Option<L.Listener>, via: map<SessionId, nat>, binds: nat) {
    && (d.sessions != [] ==> listener.Some?)
    && (forall s <- d.sessions :: && listener.Some? && s.key.network == listener.value.network
                                  && s.id in via && via[s.id] == binds)
  }

  /** Collections in step, sessions of the current bind, and no I/O or admission out of turn. */
  ghost predicate Inv(l: Loop) {
    InStep(l.desk) && OfThisBind(l.desk, l.listener, l.via, l.binds) && Orderly(l.log, l.stop)
  }

  lemma PartOfThisBind(d: Desk, d': Desk, listener: Option<L.Listener>, via: map<SessionId, nat>, binds: nat)
    requires OfThisBind(d, listener, via, binds) && forall s <- d'.sessions :: s in d.sessions
    ensures OfThisBind(d', listener, via, binds)
  {
    if d'.sessions != [] { assert d'.sessions[0] in d.sessions; }
  }

  lemma PushOfThisBind(d: Desk, s: L.Session, now: nat, listener: Option<L.Listener>, via: map<SessionId, nat>,
                       binds: nat)
    requires OfThisBind(d, listener, via, binds) && listener.Some? && s.key.network == listener.value.network
             && s.id !in Ids(d.sessions)
    ensures OfThisBind(Push(d, s, now), listener, via[s.id := binds], binds)
  {
    forall x | x in Push(d, s, now).sessions ensures x == s || (x in d.sessions && x.id != s.id) {
      if x in d.sessions { assert x.id in Ids(d.sessions); }
    }
  }

  /** The admission of one round, as the loop sees it. */
  function AdmittedLoop(l: Loop, owner: L.Listener, x: Round): Loop {
    var (desk, listener) := Admitting(l.desk, owner, x);
    if Admits(owner, l.desk.table, x) then
      var id := x.attempt.handshake.value.id;
      l.(desk := desk, listener := listener, log := l.log + [DidAdmit(id)], via := l.via[id := l.binds])
    else l.(desk := desk, listener := listener)
  }

  lemma PushedKeepsInv(l: Loop, listener: Option<L.Listener>, s: L.Session, now: nat)
    requires Inv(l) && l.listener.Some? && listener.Some?
             && listener.value.network == l.listener.value.network == s.key.network
    requires ModeOf(l.log).Confirmed? && InStep(Push(l.desk, s, now)) && s.id !in Ids(l.desk.sessions)
    ensures Inv(l.(desk := Push(l.desk, s, now), listener := listener, log := l.log + [DidAdmit(s.id)],
                   via := l.via[s.id := l.binds]))
  {
    PushOfThisBind(l.desk, s, now, listener, l.via, l.binds);
    OneMoreAct(l.log, DidAdmit(s.id));
  }

  lemma UnpushedKeepsInv(l: Loop, desk: Desk, listener: Option<L.Listener>)
    requires Inv(l) && l.listener.Some? && InStep(desk)
    requires if listener.None? then desk.sessions == []
             else listener.value.network == l.listener.value.network && desk.sessions == l.desk.sessions
    ensures Inv(l.(desk := desk, listener := listener))
  {
  }

  lemma AdmittingKeepsInv(l: Loop, owner: L.Listener, x: Round)
    requires Inv(l) && l.listener.Some? && l.listener.value.network == owner.network
             && |l.desk.sessions| < MAX_OWNED_SESSIONS
    requires ModeOf(l.log).Confirmed?
    ensures Inv(AdmittedLoop(l, owner, x))
  {
    AdmittingKeepsInStep(l.desk, owner, x);
    var (desk, listener) := Admitting(l.desk, owner, x);
    if Admits(owner, l.desk.table, x) {
      PushedKeepsInv(l, listener, x.attempt.handshake.value, x.admitted);
    } else {
      UnpushedKeepsInv(l, desk, listener);
    }
  }

  lemma ServingKeepsInv(l: Loop, owner: L.Listener, x: Round)
    requires Inv(l) && l.listener == Some(owner) && ModeOf(l.log).Confirmed? && !l.stop.Seen()
    ensures Inv(Serving(l, owner, x))
  {
    TurnsAreOrderly(l.desk, x.io, l.log, l.stop, |l.desk.sessions|);
    var (log, stop, served) := Turns(l.desk, x.io, l.log, l.stop, |l.desk.sessions|);
    ServedExactly(l.desk, x.io, served);
    var t := l.(desk := Served(l.desk, x.io, served), log := log, stop := stop);
    PartOfThisBind(l.desk, t.desk, l.listener, l.via, l.binds);
    if !stop.Seen() {
      LookIsOrderly(log, stop);
      var looked := t.(log := Noted(log, stop), stop := stop.Look());
      if !looked.stop.Seen() && |looked.desk.sessions| < MAX_OWNED_SESSIONS { AdmittingKeepsInv(looked, owner, x); }
    }
  }

  lemma WorkingKeepsInv(l: Loop, owner: L.Listener, x: Round)
    requires Inv(l) && l.listener == Some(owner) && ModeOf(l.log).Unchecked? && !l.stop.Seen()
    ensures Inv(Working(l, owner, x))
    ensures !Owned(owner, x) ==>
              Working(l, owner, x).desk.sessions == [] && Working(l, owner, x).log == l.log + [Checked(false)]
  {
    var ok := Owned(owner, x);
    SupervisedExactly(l.desk, owner, x);
    OneMoreAct(l.log, Checked(ok));
    var t := l.(desk := Supervised(l.desk, owner, x), log := l.log + [Checked(ok)]);
    PartOfThisBind(l.desk, t.desk, l.listener, l.via, l.binds);
    if ok {
      LookIsOrderly(t.log, t.stop);
      var looked := t.(log := Noted(t.log, t.stop), stop := t.stop.Look());
      if !looked.stop.Seen() { ServingKeepsInv(looked, owner, x); }
    }
  }

  lemma BoundKeepsInv(l: Loop, x: Round)
    requires Inv(l) && ModeOf(l.log).Unchecked? && !l.stop.Seen()
    ensures Inv(Bound(l, x)) && (!Bound(l, x).stop.Seen() ==> ModeOf(Bound(l, x).log).Unchecked?)
  {
    if l.listener.None? { BindingExactly(x, l.log, l.stop); }
  }

  lemma IterationKeepsInv(l: Loop, x: Round)
    requires Inv(l)
    ensures Inv(Iterated(l, x))
  {
    if !l.stop.Seen() {
      LookIsOrderly(l.log, l.stop);
      if !l.stop.Look().Seen() {
        OneMoreAct(l.log, RoundStarts);
        var begun := l.(log := l.log + [RoundStarts], stop := l.stop.Look());
        BoundKeepsInv(begun, x);
        var bound := Bound(begun, x);
        if !bound.stop.Seen() && bound.listener.Some? { WorkingKeepsInv(bound, bound.listener.value, x); }
      }
    }
  }

  /** The loop after the given rounds; once stop was seen nothing more happens. */
  ghost function Looped(from: nat, rounds: seq<Round>): (l: Loop)
    ensures Inv(l)
  {
    if rounds == [] then Start(from)
    else
      var before := Looped(from, rounds[..|rounds| - 1]);
      IterationKeepsInv(before, rounds[|rounds| - 1]);
      Iterated(before, rounds[|rounds| - 1])
  }

  /**
   At the top of every iteration of every run: both timestamp maps have exactly the owned ids as keys,
   there are at most 32 sessions, the table holds just them and no two share a peer or an id; every
   session came in through the listener in force; nothing was read, written or admitted in a round
   whose ownership check failed or after stop was seen.
   */
  lemma EveryIteration(from: nat, rounds: seq<Round>)
    ensures var l := Looped(from, rounds);
            && l.desk.registeredAt.Keys == Ids(l.desk.sessions) == l.desk.sentAt.Keys
            && |l.desk.sessions| <= MAX_OWNED_SESSIONS
            && l.desk.table.sessions.Keys == Keys(l.desk.sessions)
            && (forall i, j :: 0 <= i < j < |l.desk.sessions| ==>
                  l.desk.sessions[i].key != l.desk.sessions[j].key && l.desk.sessions[i].id != l.desk.sessions[j].id)
            && OfThisBind(l.desk, l.listener, l.via, l.binds)
            && !ModeOf(l.log).Violated?
  {
    var l := Looped(from, rounds);
    BackedMeans(l.desk.table.sessions, l.desk.sessions);
    forall k | k in Keys(l.desk.sessions) ensures k in l.desk.table.sessions {
      var s :| s in l.desk.sessions && s.key == k;
    }
  }

  // ---------------------------------------------------------------- how often stop is looked at

  lemma {:induction false} OneLookPerTurn(d: Desk, io: SessionId -> Io, log: seq<Act>, stop: Stop, n: nat)
    requires n <= |d.sessions| && d.registeredAt.Keys == Ids(d.sessions) && d.sentAt.Keys == Ids(d.sessions)
    ensures var stop' := Turns(d, io, log, stop, n).1;
            stop'.from == stop.from && (!stop'.Seen() ==> stop'.looks == stop.looks + n)
  {
    if n > 0 { OneLookPerTurn(d, io, log, stop, n - 1); }
  }

  /** A round under a listener: a look after the check, one before every session's turn and one before admission. */
  lemma LooksWhileWorking(l: Loop, owner: L.Listener, x: Round)
    requires InStep(l.desk)
    ensures var t := Working(l, owner, x);
            && t.stop.from == l.stop.from
            && (!t.stop.Seen() ==> t.stop.looks == l.stop.looks + (if Owned(owner, x)
                                                                  then |Supervised(l.desk, owner, x).sessions| + 2
                                                                  else 0))
  {
    SupervisedExactly(l.desk, owner, x);
    if Owned(owner, x) {
      var d := Supervised(l.desk, owner, x);
      OneLookPerTurn(d, x.io, Noted(l.log + [Checked(true)], l.stop), l.stop.Look(), |d.sessions|);
    }
  }

  /**
   An iteration that does not see stop has looked for it before it started, before and after binding, after the
   ownership check, before every session's turn and before admitting: no check is left out.
   */
  lemma LooksExactly(l: Loop, x: Round)
    requires InStep(l.desk)
    ensures var t := Iterated(l, x);
            var bound := Bound(l.(log := l.log + [RoundStarts], stop := l.stop.Look()), x);
            && t.stop.from == l.stop.from
            && (!t.stop.Seen() ==>
                  t.stop.looks == l.stop.looks + 1
                  + (if l.listener.None? && x.preflight.Ok? && x.preflight.value.Some? then 2 else 0)
                  + (if bound.listener.Some? && Owned(bound.listener.value, x)
                     then |Supervised(l.desk, bound.listener.value, x).sessions| + 2 else 0))
  {
    var bound := Bound(l.(log := l.log + [RoundStarts], stop := l.stop.Look()), x);
    if bound.listener.Some? { LooksWhileWorking(bound, bound.listener.value, x); }
  }

  // ---------------------------------------------------------------- the worker itself

  lemma LoopedOnce(from: nat, rounds: seq<Round>, i: nat)
    requires i < |rounds|
    ensures InStep(Looped(from, rounds[..i]).desk)
    ensures Looped(from, rounds[..i + 1]) == Iterated(Looped(from, rounds[..i]), rounds[i])
  {
    assert rounds[..i + 1][..i] == rounds[..i];
  }

  /** The loop is the fold of its iterations. */
  method RunWorker(rounds: seq<Round>, from: nat) returns (l: Loop)
    ensures l == Looped(from, rounds)
  {
    l := Start(from);
    var i := 0;
    while i < |rounds|
      invariant 0 <= i <= |rounds| && l == Looped(from, rounds[..i])
    {
      LoopedOnce(from, rounds, i);
      l := Iterate(l, rounds[i]);
      i := i + 1;
    }
    assert rounds[..i] == rounds;
  }

  /** One iteration over the loop's variables, with its early exits. */
  method Iterate(l: Loop, x: Round) returns (l': Loop)
    requires InStep(l.desk)
    ensures l' == Iterated(l, x)
  {
    l' := l;
    if l.stop.Seen() { return; }
    var log, stop := Noted(l.log, l.stop), l.stop.Look();
    if stop.Seen() { return l.(log := log, stop := stop); }
    log := log + [RoundStarts];
    var listener, binds := l.listener, l.binds;
    if listener.None? {
      var (bound, log1, stop1) := Binding(x, log, stop);
      listener, log, stop := bound, log1, stop1;
      if listener.Some? { binds := binds + 1; }
    }
    l' := Loop(l.desk, listener, log, stop, binds, l.via);
    assert l' == Bound(l.(log := l.log + [RoundStarts], stop := l.stop.Look()), x);
    if stop.Seen() || listener.None? { return; }
    var desk, via;
    desk, listener, log, stop, via := RunRound(l.desk, listener.value, x, log, stop, binds, l.via);
    l' := Loop(desk, listener, log, stop, binds, via);
  }

  /** One round under a listener, phase by phase. */
  method RunRound(d: Desk, owner: L.Listener, x: Round, log: seq<Act>, stop: Stop, binds: nat, via: map<SessionId, nat>)
    returns (desk: Desk, listener: Option<L.Listener>, log': seq<Act>, stop': Stop, via': map<SessionId, nat>)
    requires InStep(d) && !stop.Seen()
    ensures Loop(desk, listener, log', stop', binds, via')
            == Working(Loop(d, Some(owner), log, stop, binds, via), owner, x)
  {
    SupervisedExactly(d, owner, x);
    var ok := Owned(owner, x);
    desk, listener, log', stop', via' := Supervised(d, owner, x), Some(owner), log + [Checked(ok)], stop, via;
    if !ok { listener := None; return; }
    log', stop' := Noted(log', stop'), stop'.Look();
    if stop'.Seen() { return; }
    ghost var supervised := desk;
    var served;
    log', stop', served := TakeTurns(desk, x.io, log', stop');
    TurnsBound(desk, x.io, log + [Checked(ok)], stop.Look(), |desk.sessions|);
    desk := Served(desk, x.io, served);
    if stop'.Seen() { return; }
    log', stop' := Noted(log', stop'), stop'.Look();
    if stop'.Seen() || |desk.sessions| >= MAX_OWNED_SESSIONS { return; }
    var admits := Admits(owner, desk.table, x);
    var (admitted, next) := Admitting(desk, owner, x);
    desk, listener := admitted, next;
    if admits {
      log' := log' + [DidAdmit(x.attempt.handshake.value.id)];
      via' := via'[x.attempt.handshake.value.id := binds];
    }
  }
}
