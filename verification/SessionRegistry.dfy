/**
 The in-process table of authenticated control sessions: one entry per logical
 peer, bound to one TLS exporter generation, with a bounded replay memory.
 */
module SessionRegistry {
  import opened Vocabulary

  const MAX_SESSIONS: nat := 128
  const MAX_RECENT: nat := 4096

  datatype Phase = Active | Lost | Reconnecting

  datatype Entry = Entry(id: SessionId, phase: Phase)

  datatype Table = Table(sessions: map<PeerKey, Entry>, recent: seq<SessionId>, seen: set<SessionId>)

  const EMPTY := Table(map[], [], {})

  datatype Rejection =
    | InvalidPeerIdentity | ZeroSessionId | DuplicateActiveSession | SessionLimitReached | ReusedSessionId

  datatype Registration = New | AlreadyActive | Recovered | Rejected(why: Rejection)

  function Remember(t: Table, id: SessionId): Table {
    var trimmed := if |t.recent| == MAX_RECENT then t.(recent := t.recent[1..], seen := t.seen - {t.recent[0]}) else t;
    trimmed.(recent := trimmed.recent + [id], seen := trimmed.seen + {id})
  }

  predicate HeldByOther(m: map<PeerKey, Entry>, key: PeerKey, id: SessionId) {
    exists other | other in m :: other != key && m[other].id == id
  }

  /** The table after `key` was given the generation `id`. */
  function Admitted(t: Table, key: PeerKey, id: SessionId): Table {
    Remember(t.(sessions := t.sessions[key := Entry(id, Active)]), id)
  }

  function Activate(t: Table, key: PeerKey, id: SessionId): (Table, Registration) {
    if !key.IsValid() then (t, Rejected(InvalidPeerIdentity))
    else if id == ZERO_SESSION then (t, Rejected(ZeroSessionId))
    else if key in t.sessions && t.sessions[key].phase.Active? then
      (t, if t.sessions[key].id == id then AlreadyActive else Rejected(DuplicateActiveSession))
    else if key in t.sessions && t.sessions[key].id == id then (t, Rejected(DuplicateActiveSession))
    else if HeldByOther(t.sessions, key, id) then
      (t, Rejected(DuplicateActiveSession))
    else if id in t.seen then (t, Rejected(ReusedSessionId))
    else if key in t.sessions then
      (Admitted(t, key, id), Recovered)
    else if |t.sessions| >= MAX_SESSIONS then (t, Rejected(SessionLimitReached))
    else (Admitted(t, key, id), New)
  }

  function MarkLost(t: Table, key: PeerKey, id: SessionId): (Table, bool) {
    if key in t.sessions && t.sessions[key].id == id && !t.sessions[key].phase.Lost? then
      (t.(sessions := t.sessions[key := Entry(id, Lost)]), true)
    else (t, false)
  }

  function MarkReconnecting(t: Table, key: PeerKey, id: SessionId): (Table, bool) {
    if key in t.sessions && t.sessions[key] == Entry(id, Lost) then
      (t.(sessions := t.sessions[key := Entry(id, Reconnecting)]), true)
    else (t, false)
  }

  predicate Holds(t: Table, key: PeerKey, id: SessionId) {
    key in t.sessions && t.sessions[key].id == id
  }

  predicate HoldsActive(t: Table, key: PeerKey, id: SessionId) {
    key in t.sessions && t.sessions[key] == Entry(id, Active)
  }

  function RemoveIfCurrent(t: Table, key: PeerKey, id: SessionId): (Table, bool) {
    if Holds(t, key, id) then (t.(sessions := t.sessions - {key}), true) else (t, false)
  }

  // ---------------------------------------------------------------- what the table keeps

  /** Bounded, nonzero, and no session id serves two peers. */
  ghost predicate SessionsInv(m: map<PeerKey, Entry>) {
    && |m| <= MAX_SESSIONS
    && (forall k :: k in m ==> k.IsValid() && m[k].id != ZERO_SESSION)
    && (forall a, b :: a in m && b in m && m[a].id == m[b].id ==> a == b)
  }

  /** The replay memory is a bounded queue without repetition, mirrored by a set. */
  ghost predicate MemoryInv(recent: seq<SessionId>, seen: set<SessionId>) {
    && |recent| <= MAX_RECENT
    && seen == (set id | id in recent)
    && (forall i, j :: 0 <= i < j < |recent| ==> recent[i] != recent[j])
  }

  ghost predicate Inv(t: Table) {
    SessionsInv(t.sessions) && MemoryInv(t.recent, t.seen)
  }

  lemma RememberKeepsInv(t: Table, id: SessionId)
    requires MemoryInv(t.recent, t.seen) && id !in t.seen
    ensures MemoryInv(Remember(t, id).recent, Remember(t, id).seen)
    ensures id in Remember(t, id).recent
    ensures Remember(t, id).sessions == t.sessions
  {
    if |t.recent| == MAX_RECENT {
      assert t.recent == [t.recent[0]] + t.recent[1..];
    }
  }

  lemma UpdateKeepsSessions(m: map<PeerKey, Entry>, key: PeerKey, e: Entry)
    requires SessionsInv(m) && key.IsValid() && e.id != ZERO_SESSION
    requires key in m || |m| < MAX_SESSIONS
    requires forall k :: k in m && k != key ==> m[k].id != e.id
    ensures SessionsInv(m[key := e])
  {
  }

  predicate Admissible(t: Table, key: PeerKey, id: SessionId) {
    && key.IsValid() && id != ZERO_SESSION
    && !(key in t.sessions && t.sessions[key].phase.Active?)
    && (forall k :: k in t.sessions ==> t.sessions[k].id != id)
    && id !in t.seen
    && (key in t.sessions || |t.sessions| < MAX_SESSIONS)
  }

  /** Admission succeeds exactly for a valid peer without an active entry, an unused id, and room. */
  lemma AdmissionExactly(t: Table, key: PeerKey, id: SessionId)
    ensures
      var (t', r) := Activate(t, key, id);
      && ((r.New? || r.Recovered?) <==> Admissible(t, key, id))
      && t' == (if Admissible(t, key, id) then Admitted(t, key, id) else t)
      && (r.Recovered? ==> key in t.sessions) && (r.New? ==> key !in t.sessions)
  {
    if forall k :: k in t.sessions ==> t.sessions[k].id != id {
      assert !HeldByOther(t.sessions, key, id);
    } else {
      var k :| k in t.sessions && t.sessions[k].id == id;
      assert k == key || HeldByOther(t.sessions, key, id);
    }
  }

  /** Every operation keeps the bounds, the replay memory and the one-peer-per-id rule. */
  lemma ActivateKeepsInv(t: Table, key: PeerKey, id: SessionId)
    requires Inv(t)
    ensures Inv(Activate(t, key, id).0)
    ensures Admissible(t, key, id) ==>
              && Activate(t, key, id).0.sessions == t.sessions[key := Entry(id, Active)]
              && id in Activate(t, key, id).0.recent
  {
    AdmissionExactly(t, key, id);
    if Admissible(t, key, id) {
      UpdateKeepsSessions(t.sessions, key, Entry(id, Active));
      RememberKeepsInv(t.(sessions := t.sessions[key := Entry(id, Active)]), id);
    }
  }

  /** An operation naming a generation that does not hold the entry is inert; the holder's own removal takes it out. */
  lemma OnlyTheHolderActs(t: Table, key: PeerKey, id: SessionId)
    ensures RemoveIfCurrent(t, key, id).1 <==> Holds(t, key, id)
    ensures RemoveIfCurrent(t, key, id).0 == t.(sessions := RemoveIfCurrent(t, key, id).0.sessions)
    ensures forall k :: k in RemoveIfCurrent(t, key, id).0.sessions <==>
              k in t.sessions && (k != key || t.sessions[k].id != id)
    ensures forall k <- RemoveIfCurrent(t, key, id).0.sessions ::
              RemoveIfCurrent(t, key, id).0.sessions[k] == t.sessions[k]
    ensures !Holds(t, key, id) ==> MarkLost(t, key, id) == (t, false) == MarkReconnecting(t, key, id)
  {
  }

  /** The same table but for the phase of one generation. */
  ghost predicate InPhase(t: Table, t': Table, key: PeerKey, id: SessionId, phase: Phase) {
    && t'.recent == t.recent && t'.seen == t.seen && t'.sessions.Keys == t.sessions.Keys
    && (forall k <- t.sessions :: t'.sessions[k] == if k == key then Entry(id, phase) else t.sessions[k])
  }

  /** A generation that holds the entry is lost once, then reconnecting once; nothing else changes. */
  lemma MarksExactly(t: Table, key: PeerKey, id: SessionId)
    requires Holds(t, key, id)
    ensures MarkLost(t, key, id).1 <==> !t.sessions[key].phase.Lost?
    ensures InPhase(t, MarkLost(t, key, id).0, key, id, Lost)
    ensures MarkReconnecting(t, key, id).1 <==> t.sessions[key].phase.Lost?
    ensures if t.sessions[key].phase.Lost? then InPhase(t, MarkReconnecting(t, key, id).0, key, id, Reconnecting)
            else MarkReconnecting(t, key, id).0 == t
  {
  }

  lemma SameIds(t: Table, t': Table, key: PeerKey, id: SessionId, phase: Phase, next: SessionId)
    requires Inv(t) && Holds(t, key, id) && InPhase(t, t', key, id, phase) && !phase.Active?
    ensures Admissible(t', key, next) <==>
            next != ZERO_SESSION && next !in t.recent && forall k <- t.sessions :: t.sessions[k].id != next
  {
    assert forall k :: k in t'.sessions <==> k in t.sessions;
    assert next in t.seen <==> next in t.recent;
  }

  /** Once lost, the peer recovers exactly with an id that is not remembered and that nobody holds. */
  lemma RecoversExactly(t: Table, key: PeerKey, id: SessionId, next: SessionId)
    requires Inv(t) && Holds(t, key, id)
    ensures Activate(MarkReconnecting(MarkLost(t, key, id).0, key, id).0, key, next).1.Recovered? <==>
            next != ZERO_SESSION && next !in t.recent && forall k <- t.sessions :: t.sessions[k].id != next
  {
    var lost := MarkLost(t, key, id).0;
    MarksExactly(t, key, id);
    MarksExactly(lost, key, id);
    var back := MarkReconnecting(lost, key, id).0;
    SameIds(t, back, key, id, Reconnecting, next);
    AdmissionExactly(back, key, next);
  }

  lemma MarksKeepInv(t: Table, key: PeerKey, id: SessionId)
    requires Inv(t)
    ensures Inv(MarkLost(t, key, id).0)
    ensures Inv(MarkReconnecting(t, key, id).0)
  {
    if Holds(t, key, id) {
      UpdateKeepsSessions(t.sessions, key, Entry(id, Lost));
      UpdateKeepsSessions(t.sessions, key, Entry(id, Reconnecting));
    }
  }

  lemma RemovalKeepsInv(t: Table, key: PeerKey, id: SessionId)
    requires Inv(t)
    ensures Inv(RemoveIfCurrent(t, key, id).0)
  {
    SmallerWithout(t.sessions, key);
  }
}
