/**
 The inbound worker with its sessions run as `ActiveSession` reads: a peer that stays silent is
 dropped in the first round that turns to it 30 s of real time or more after it was last heard.
 */
module WorkerLiveness {
  import opened Vocabulary
  import A = ActiveSession
  import L = ControlListener
  import S = SessionStream
  import W = ControlWorker

  /** How long a peer may be silent, in nanoseconds. */
  const LEASE: nat := S.ACTIVE_MS * A.MS

  // ---------------------------------------------------------------- one session's turn

  /**
   A session as the worker has it, the real moment its last frames had arrived (or it was admitted)
   and the clock at its last turn.
   */
  datatype Watch = Watch(session: A.Session, heard: nat, turned: nat)

  /** What one turn meets. The worker sets the time and the budget of the read. */
  datatype Turn = Turn(
    clock: nat, registered: bool, slice: A.Slice, later: nat, approved: bool, written: bool, sentAt: nat)

  datatype Round = Round(outside: W.Round, turns: SessionId -> Turn)

  function SliceAt(t: Turn, now: U64): A.Slice { t.slice.(now := now, maxWait := A.SESSION_READ_SLICE) }

  /** What the worker makes of the read. */
  function ReadOf(w: Watch, admitted: nat, t: Turn): W.Read {
    var now := A.SessionClock(admitted, t.clock);
    if now.None? || !t.registered then W.ClosedOrFailed
    else
      match A.Receive(w.session, SliceAt(t, now.value)).1
      case Frames(fs) => if exists f <- fs :: f.message.Goodbye? then W.FramesWithGoodbye else W.FramesOnly
      case Idle => W.IdleRead
      case _ => W.ClosedOrFailed
  }

  function AfterTurn(w: Watch, admitted: nat, t: Turn): Watch {
    var now := A.SessionClock(admitted, t.clock);
    if now.None? then w
    else
      var x := SliceAt(t, now.value);
      Watch(A.Receive(w.session, x).0, if A.Hands(w.session, x) then A.ReallyEnds(t.clock, x) else w.heard, t.clock)
  }

  /** The lease ends at most 30 s after the peer was heard, and the last turn came before that. */
  predicate Timely(w: Watch, admitted: nat) {
    A.LeaseEnds(w.session, admitted) <= w.heard + LEASE && w.turned < w.heard + LEASE
  }

  /** A session stays through its read. */
  predicate Lasts(w: Watch, admitted: nat, t: Turn) {
    A.SessionClock(admitted, t.clock).Some? && (ReadOf(w, admitted, t).FramesOnly? || ReadOf(w, admitted, t).IdleRead?)
  }

  /** The session's clock is before its expiry exactly as long as the real clock is before the end of the lease. */
  lemma BeforeTheLeaseEnds(s: A.Session, admitted: nat, clock: nat)
    requires A.SessionClock(admitted, clock).Some?
    ensures A.SessionClock(admitted, clock).value < A.Expires(s) <==> clock < A.LeaseEnds(s, admitted)
  {
    var ms := (clock - admitted) / A.MS;
    assert clock - admitted == ms * A.MS + (clock - admitted) % A.MS;
    var left := A.Expires(s) - A.ACTIVE_CLOCK_BASE_MS;
    if ms < left {
      assert (ms + 1) * A.MS <= left * A.MS;
    } else {
      assert left * A.MS <= ms * A.MS;
    }
  }

  /** A renewed lease ends at most 30 s after the read that renewed it really ended. */
  lemma RenewedLease(s: A.Session, x: A.Slice, admitted: nat, clock: nat)
    requires A.SessionClock(admitted, clock) == Some(x.now) && A.Hands(s, x)
    requires !exists f <- A.Receive(s, x).1.frames :: f.message.Goodbye?
    ensures A.LeaseEnds(A.Receive(s, x).0, admitted) <= A.ReallyEnds(clock, x) + LEASE
  {
    A.HandedFramesRenew(s, x);
    A.RealTime(s, x, admitted, clock);
    var ms := x.elapsed / A.MS;
    assert x.elapsed == ms * A.MS + x.elapsed % A.MS;
    var expires := A.Expires(A.Receive(s, x).0);
    assert expires <= x.now + ms + S.ACTIVE_MS;
    assert expires * A.MS <= (x.now + ms + S.ACTIVE_MS) * A.MS;
  }

  /** A session that lasts through a turn had it before its lease was over, and is timely again. */
  lemma TurnKeepsTimely(w: Watch, admitted: nat, t: Turn)
    requires Timely(w, admitted) && Lasts(w, admitted, t)
    ensures Timely(AfterTurn(w, admitted, t), admitted) && t.clock < w.heard + LEASE
  {
    var x := SliceAt(t, A.SessionClock(admitted, t.clock).value);
    A.AnsweredIsLive(w.session, x);
    A.LiveReadIsOnTime(w.session, x);
    BeforeTheLeaseEnds(w.session, admitted, t.clock);
    if A.Hands(w.session, x) {
      RenewedLease(w.session, x, admitted, t.clock);
    } else {
      A.LeaseMovesOnlyWithFrames(w.session, x);
    }
  }

  // ---------------------------------------------------------------- the worker's rounds

  datatype State = State(loop: W.Loop, watched: map<SessionId, Watch>)

  function IoOf(s: State, r: Round, id: SessionId): W.Io {
    var t := r.turns(id);
    var read := if id in s.watched && id in s.loop.desk.registeredAt
                then ReadOf(s.watched[id], s.loop.desk.registeredAt[id], t) else W.ClosedOrFailed;
    W.Io(t.clock, read, t.later, t.approved && t.written, t.sentAt)
  }

  function WorkerRound(s: State, r: Round): W.Round { r.outside.(io := id => IoOf(s, r, id)) }

  /** The round ended by admitting this session. */
  predicate JustAdmitted(l: W.Loop, id: SessionId) { l.log != [] && l.log[|l.log| - 1] == W.DidAdmit(id) }

  /** A session handed over by the listener; its lease starts with it. */
  function Opened(x: W.Round, id: SessionId): Watch {
    var key := if x.attempt.handshake.Some? then x.attempt.handshake.value.key else PeerKey(ZERO_NETWORK, ZERO_NODE);
    Watch(A.Begin(key.network, key.peer, id, A.ACTIVE_CLOCK_BASE_MS), x.admitted, x.admitted)
  }

  function Rewatched(s: State, r: Round, l: W.Loop, id: SessionId): Watch {
    if JustAdmitted(l, id) || id !in s.watched || id !in s.loop.desk.registeredAt then Opened(r.outside, id)
    else AfterTurn(s.watched[id], s.loop.desk.registeredAt[id], r.turns(id))
  }

  /** One iteration; once stop was seen the worker returns and drops every session. */
  function Step(s: State, r: Round): State
    requires W.InStep(s.loop.desk)
  {
    var l := W.Iterated(s.loop, WorkerRound(s, r));
    if l.stop.Seen() then State(l, map[])
    else State(l, map id | id in l.desk.registeredAt :: Rewatched(s, r, l, id))
  }

  // ---------------------------------------------------------------- who is still there after a round

  /** The session was there before, had its turn and stayed. */
  ghost predicate Kept(d: W.Desk, e: W.Desk, x: W.Round, s: L.Session) {
    && s in d.sessions && s.id in d.registeredAt && s.id in d.sentAt && s.id in e.registeredAt
    && e.registeredAt[s.id] == d.registeredAt[s.id]
    && W.Stays(d.registeredAt[s.id], d.sentAt[s.id], x.io(s.id))
  }

  ghost predicate Came(d: W.Desk, l: W.Loop, x: W.Round, s: L.Session) {
    if JustAdmitted(l, s.id) then s.id in l.desk.registeredAt && l.desk.registeredAt[s.id] == x.admitted
    else Kept(d, l.desk, x, s)
  }

  predicate EndsInAdmission(log: seq<W.Act>) { log != [] && log[|log| - 1].DidAdmit? }

  lemma ActsAdmitNobody(log: seq<W.Act>, id: SessionId, admitted: nat, lastSent: nat, io: W.Io)
    requires !EndsInAdmission(log)
    ensures !EndsInAdmission(log + W.Acts(id, admitted, lastSent, io))
  {
    var acts := W.Acts(id, admitted, lastSent, io);
    if acts == [] { assert log + acts == log; }
  }

  lemma {:induction false} TurnsAdmitNobody(d: W.Desk, io: SessionId -> W.Io, log: seq<W.Act>, stop: W.Stop, n: nat)
    requires n <= |d.sessions| && d.registeredAt.Keys == W.Ids(d.sessions) && d.sentAt.Keys == W.Ids(d.sessions)
    requires !EndsInAdmission(log)
    ensures !EndsInAdmission(W.Turns(d, io, log, stop, n).0)
  {
    if n > 0 {
      TurnsAdmitNobody(d, io, log, stop, n - 1);
      var before, id := W.Turns(d, io, log, stop, n - 1).0, d.sessions[n - 1].id;
      assert id in W.Ids(d.sessions);
      ActsAdmitNobody(before, id, d.registeredAt[id], d.sentAt[id], io(id));
    }
  }

  lemma ServedAreKept(d: W.Desk, x: W.Round, served: nat)
    requires W.InStep(d) && served <= |d.sessions|
    ensures forall s <- W.Served(d, x.io, served).sessions :: Kept(d, W.Served(d, x.io, served), x, s)
  {
    W.ServedExactly(d, x.io, served);
  }

  /** After an admission the newcomer is the last act's, and nobody else is. */
  lemma PushedShape(d: W.Desk, before: W.Desk, l: W.Loop, x: W.Round, newcomer: L.Session)
    requires forall s <- before.sessions :: Kept(d, before, x, s)
    requires newcomer.id !in W.Ids(before.sessions) && l.desk == W.Push(before, newcomer, x.admitted)
    requires l.log != [] && l.log[|l.log| - 1] == W.DidAdmit(newcomer.id)
    ensures forall s <- l.desk.sessions :: Came(d, l, x, s)
  {
    forall s | s in l.desk.sessions ensures Came(d, l, x, s) {
      if s in before.sessions { assert s.id in W.Ids(before.sessions); }
    }
  }

  lemma UnpushedShape(d: W.Desk, before: W.Desk, l: W.Loop, x: W.Round)
    requires forall s <- before.sessions :: Kept(d, before, x, s)
    requires l.desk.sessions == [] || (l.desk.sessions == before.sessions && l.desk.registeredAt == before.registeredAt)
    requires !EndsInAdmission(l.log)
    ensures forall s <- l.desk.sessions :: Came(d, l, x, s)
  {
  }

  lemma Unadmitted(d: W.Desk, owner: L.Listener, x: W.Round)
    requires W.InStep(d) && |d.sessions| < W.MAX_OWNED_SESSIONS && !W.Admits(owner, d.table, x)
    ensures var e := W.Admitting(d, owner, x).0;
            e.sessions == [] || (e.sessions == d.sessions && e.registeredAt == d.registeredAt)
  {
    W.AdmittingKeepsInStep(d, owner, x);
  }

  lemma AdmissionShape(l: W.Loop, owner: L.Listener, x: W.Round, d: W.Desk)
    requires W.InStep(l.desk) && |l.desk.sessions| < W.MAX_OWNED_SESSIONS && !EndsInAdmission(l.log)
    requires forall s <- l.desk.sessions :: Kept(d, l.desk, x, s)
    ensures forall s <- W.AdmittedLoop(l, owner, x).desk.sessions :: Came(d, W.AdmittedLoop(l, owner, x), x, s)
  {
    if W.Admits(owner, l.desk.table, x) {
      W.AdmittingKeepsInStep(l.desk, owner, x);
      PushedShape(d, l.desk, W.AdmittedLoop(l, owner, x), x, x.attempt.handshake.value);
    } else {
      Unadmitted(l.desk, owner, x);
      UnpushedShape(d, l.desk, W.AdmittedLoop(l, owner, x), x);
    }
  }

  lemma ServingShape(l: W.Loop, owner: L.Listener, x: W.Round)
    requires W.InStep(l.desk) && !EndsInAdmission(l.log) && !W.Serving(l, owner, x).stop.Seen()
    ensures forall s <- W.Serving(l, owner, x).desk.sessions :: Came(l.desk, W.Serving(l, owner, x), x, s)
  {
    var (log, stop, served) := W.Turns(l.desk, x.io, l.log, l.stop, |l.desk.sessions|);
    W.TurnsBound(l.desk, x.io, l.log, l.stop, |l.desk.sessions|);
    TurnsAdmitNobody(l.desk, x.io, l.log, l.stop, |l.desk.sessions|);
    ServedAreKept(l.desk, x, served);
    W.ServedExactly(l.desk, x.io, served);
    var t := l.(desk := W.Served(l.desk, x.io, served), log := log, stop := stop);
    var looked := t.(log := W.Noted(log, stop), stop := stop.Look());
    if |looked.desk.sessions| < W.MAX_OWNED_SESSIONS { AdmissionShape(looked, owner, x, l.desk); }
  }

  /** Supervision only takes sessions away. */
  lemma SupervisedShape(d: W.Desk, owner: L.Listener, x: W.Round, s: L.Session)
    requires W.InStep(d) && s in W.Supervised(d, owner, x).sessions
    ensures var e := W.Supervised(d, owner, x);
            && s in d.sessions && s.id in d.registeredAt && s.id in d.sentAt
            && s.id in e.registeredAt && s.id in e.sentAt
            && e.registeredAt[s.id] == d.registeredAt[s.id] && e.sentAt[s.id] == d.sentAt[s.id]
  {
    W.SupervisedExactly(d, owner, x);
    assert s.id in W.Ids(W.Supervised(d, owner, x).sessions);
  }

  lemma WorkingShape(l: W.Loop, owner: L.Listener, x: W.Round)
    requires W.InStep(l.desk) && !W.Working(l, owner, x).stop.Seen()
    ensures forall s <- W.Working(l, owner, x).desk.sessions :: Came(l.desk, W.Working(l, owner, x), x, s)
  {
    W.SupervisedExactly(l.desk, owner, x);
    if W.Owned(owner, x) {
      var t := l.(desk := W.Supervised(l.desk, owner, x), log := l.log + [W.Checked(true)]);
      var looked := t.(log := W.Noted(t.log, t.stop), stop := t.stop.Look());
      var u := W.Working(l, owner, x);
      if !looked.stop.Seen() {
        ServingShape(looked, owner, x);
        forall s | s in u.desk.sessions ensures Came(l.desk, u, x, s) {
          if !JustAdmitted(u, s.id) { SupervisedShape(l.desk, owner, x, s); }
        }
      }
    }
  }

  /** After a round that did not end the worker each session was admitted in it, or had its turn and stayed. */
  lemma RoundShape(l: W.Loop, x: W.Round)
    requires W.Inv(l) && !W.Iterated(l, x).stop.Seen()
    ensures forall s <- W.Iterated(l, x).desk.sessions :: Came(l.desk, W.Iterated(l, x), x, s)
  {
    if !l.stop.Seen() && !l.stop.Look().Seen() {
      var bound := W.Bound(l.(log := l.log + [W.RoundStarts], stop := l.stop.Look()), x);
      if !bound.stop.Seen() {
        if bound.listener.Some? {
          WorkingShape(bound, bound.listener.value, x);
        } else {
          W.SomeoneOrNobody(l.desk.sessions);
        }
      }
    }
  }

  // ---------------------------------------------------------------- heartbeats

  /** How often the log has this session written to. */
  function Writes(log: seq<W.Act>, id: SessionId): nat {
    if log == [] then 0
    else Writes(log[..|log| - 1], id) + (if log[|log| - 1] == W.DidWrite(id) then 1 else 0)
  }

  lemma OneMoreAct(log: seq<W.Act>, a: W.Act, id: SessionId)
    ensures Writes(log + [a], id) == Writes(log, id) + (if a == W.DidWrite(id) then 1 else 0)
  {
    assert (log + [a])[..|log|] == log;
  }

  predicate Keyed(d: W.Desk) { d.registeredAt.Keys == W.Ids(d.sessions) && d.sentAt.Keys == W.Ids(d.sessions) }

  /** A session that stays is written to once if its last heartbeat is 5 s or more ago, and else not at all. */
  function Due(d: W.Desk, io: SessionId -> W.Io, id: SessionId): nat {
    if id in d.sentAt && io(id).later >= d.sentAt[id] + 5_000_000_000 then 1 else 0
  }

  /** A turn writes to its own session only: once if it is due, given that it stays. */
  lemma TurnWrites(log: seq<W.Act>, id: SessionId, admitted: nat, lastSent: nat, io: W.Io, other: SessionId)
    ensures var after := log + W.Acts(id, admitted, lastSent, io);
            && (other != id ==> Writes(after, other) == Writes(log, other))
            && (W.Stays(admitted, lastSent, io) ==>
                  Writes(after, id) == Writes(log, id) + (if io.later >= lastSent + 5_000_000_000 then 1 else 0))
  {
    OneMoreAct(log, W.DidRead(id), id);
    OneMoreAct(log, W.DidRead(id), other);
    OneMoreAct(log + [W.DidRead(id)], W.DidWrite(id), id);
    OneMoreAct(log + [W.DidRead(id)], W.DidWrite(id), other);
    assert log + [W.DidRead(id)] + [W.DidWrite(id)] == log + [W.DidRead(id), W.DidWrite(id)];
    assert log + [] == log;
  }

  lemma LastTurn(d: W.Desk, io: SessionId -> W.Io, log: seq<W.Act>, stop: W.Stop, n: nat)
    requires 0 < n <= |d.sessions| && Keyed(d) && !W.Turns(d, io, log, stop, n).1.Seen()
    ensures !W.Turns(d, io, log, stop, n - 1).1.Seen()
    ensures var id := d.sessions[n - 1].id;
            && id in d.registeredAt && id in d.sentAt
            && W.Turns(d, io, log, stop, n).0
               == W.Turns(d, io, log, stop, n - 1).0 + W.Acts(id, d.registeredAt[id], d.sentAt[id], io(id))
  {
    assert d.sessions[n - 1].id in W.Ids(d.sessions);
  }

  lemma OneTurn(d: W.Desk, io: SessionId -> W.Io, log: seq<W.Act>, stop: W.Stop, n: nat, id: SessionId)
    requires 0 < n <= |d.sessions| && Keyed(d) && !W.Turns(d, io, log, stop, n).1.Seen()
    requires id in d.registeredAt && id in d.sentAt && W.Stays(d.registeredAt[id], d.sentAt[id], io(id))
    ensures !W.Turns(d, io, log, stop, n - 1).1.Seen()
    ensures Writes(W.Turns(d, io, log, stop, n).0, id)
         == Writes(W.Turns(d, io, log, stop, n - 1).0, id) + (if d.sessions[n - 1].id == id then Due(d, io, id) else 0)
  {
    var other := d.sessions[n - 1].id;
    LastTurn(d, io, log, stop, n);
    TurnWrites(W.Turns(d, io, log, stop, n - 1).0, other, d.registeredAt[other], d.sentAt[other], io(other), id);
  }

  /** Through the first `n` turns the session at `k`, if it stays, is written to exactly in its own. */
  lemma {:induction false} OwnTurnWrites(
    d: W.Desk, io: SessionId -> W.Io, log: seq<W.Act>, stop: W.Stop, n: nat, k: nat, id: SessionId)
    requires n <= |d.sessions| && Keyed(d) && k < |d.sessions| && !W.Turns(d, io, log, stop, n).1.Seen()
    requires forall i :: 0 <= i < |d.sessions| ==> (d.sessions[i].id == id <==> i == k)
    requires id in d.registeredAt && id in d.sentAt && W.Stays(d.registeredAt[id], d.sentAt[id], io(id))
    ensures Writes(W.Turns(d, io, log, stop, n).0, id) == Writes(log, id) + (if k < n then Due(d, io, id) else 0)
  {
    if n > 0 {
      OneTurn(d, io, log, stop, n, id);
      OwnTurnWrites(d, io, log, stop, n - 1, k, id);
    }
  }

  /** After the turns a round adds to the log at most an admission. */
  lemma ServingLog(l: W.Loop, owner: L.Listener, x: W.Round, id: SessionId)
    requires W.InStep(l.desk) && !W.Serving(l, owner, x).stop.Seen()
    ensures var (log, stop, served) := W.Turns(l.desk, x.io, l.log, l.stop, |l.desk.sessions|);
            !stop.Seen() && Writes(W.Serving(l, owner, x).log, id) == Writes(log, id)
  {
    var (log, stop, served) := W.Turns(l.desk, x.io, l.log, l.stop, |l.desk.sessions|);
    W.TurnsBound(l.desk, x.io, l.log, l.stop, |l.desk.sessions|);
    if x.attempt.handshake.Some? { OneMoreAct(log, W.DidAdmit(x.attempt.handshake.value.id), id); }
  }

  lemma ServingBeats(l: W.Loop, owner: L.Listener, x: W.Round, k: nat)
    requires W.InStep(l.desk) && !W.Serving(l, owner, x).stop.Seen() && k < |l.desk.sessions|
    requires var d, id := l.desk, l.desk.sessions[k].id;
             id in d.registeredAt && id in d.sentAt && W.Stays(d.registeredAt[id], d.sentAt[id], x.io(id))
    ensures var id := l.desk.sessions[k].id;
            Writes(W.Serving(l, owner, x).log, id) == Writes(l.log, id) + Due(l.desk, x.io, id)
  {
    ServingLog(l, owner, x, l.desk.sessions[k].id);
    W.BackedMeans(l.desk.table.sessions, l.desk.sessions);
    OwnTurnWrites(l.desk, x.io, l.log, l.stop, |l.desk.sessions|, k, l.desk.sessions[k].id);
  }

  lemma WorkingBeats(l: W.Loop, owner: L.Listener, x: W.Round, s: L.Session)
    requires W.InStep(l.desk) && !W.Working(l, owner, x).stop.Seen() && W.Owned(owner, x)
    requires s in W.Supervised(l.desk, owner, x).sessions && s.id in l.desk.registeredAt && s.id in l.desk.sentAt
    requires W.Stays(l.desk.registeredAt[s.id], l.desk.sentAt[s.id], x.io(s.id))
    ensures Writes(W.Working(l, owner, x).log, s.id) == Writes(l.log, s.id) + Due(l.desk, x.io, s.id)
  {
    W.SupervisedExactly(l.desk, owner, x);
    SupervisedShape(l.desk, owner, x, s);
    var t := l.(desk := W.Supervised(l.desk, owner, x), log := l.log + [W.Checked(true)]);
    var looked := t.(log := W.Noted(t.log, t.stop), stop := t.stop.Look());
    var k :| 0 <= k < |t.desk.sessions| && t.desk.sessions[k] == s;
    ServingBeats(looked, owner, x, k);
    OneMoreAct(l.log, W.Checked(true), s.id);
  }

  /**
   A session that is there before and after a round was written one heartbeat in it if its last one
   was 5 s or more before, as its turn read the clock after its read, and otherwise none.
   */
  lemma RoundBeats(l: W.Loop, x: W.Round, s: L.Session)
    requires W.Inv(l) && !W.Iterated(l, x).stop.Seen()
    requires s in W.Iterated(l, x).desk.sessions && !JustAdmitted(W.Iterated(l, x), s.id)
    ensures Writes(W.Iterated(l, x).log, s.id) == Writes(l.log, s.id) + Due(l.desk, x.io, s.id)
  {
    RoundShape(l, x);
    assert Came(l.desk, W.Iterated(l, x), x, s);
    var begun := l.(log := l.log + [W.RoundStarts], stop := l.stop.Look());
    RoundUnderListener(l, x, s);
    OneMoreAct(l.log, W.RoundStarts, s.id);
    var bound := W.Bound(begun, x);
    StillSupervised(bound, bound.listener.value, x, s);
    WorkingBeats(bound, bound.listener.value, x, s);
  }

  /** A round that leaves a session runs under a listener and gets through to the end. */
  lemma RoundUnderListener(l: W.Loop, x: W.Round, s: L.Session)
    requires W.Inv(l) && !W.Iterated(l, x).stop.Seen() && s in W.Iterated(l, x).desk.sessions
    ensures var bound := W.Bound(l.(log := l.log + [W.RoundStarts], stop := l.stop.Look()), x);
            && bound.listener.Some? && !bound.stop.Seen() && bound.desk == l.desk
            && bound.log == l.log + [W.RoundStarts]
            && W.Iterated(l, x) == W.Working(bound, bound.listener.value, x)
  {
    W.SomeoneOrNobody(l.desk.sessions);
    BoundKeepsLog(l.(log := l.log + [W.RoundStarts], stop := l.stop.Look()), x);
  }

  lemma BoundKeepsLog(l: W.Loop, x: W.Round)
    requires !W.Bound(l, x).stop.Seen()
    ensures W.Bound(l, x).log == l.log
  {
  }

  /** Who is there after a round and was not admitted in it passed its supervision. */
  lemma StillSupervised(l: W.Loop, owner: L.Listener, x: W.Round, s: L.Session)
    requires W.InStep(l.desk) && !W.Working(l, owner, x).stop.Seen()
    requires s in W.Working(l, owner, x).desk.sessions && !JustAdmitted(W.Working(l, owner, x), s.id)
    ensures W.Owned(owner, x) && s in W.Supervised(l.desk, owner, x).sessions
  {
    W.SupervisedExactly(l.desk, owner, x);
    if W.Owned(owner, x) {
      var t := l.(desk := W.Supervised(l.desk, owner, x), log := l.log + [W.Checked(true)]);
      var looked := t.(log := W.Noted(t.log, t.stop), stop := t.stop.Look());
      ServingShape(looked, owner, x);
    }
  }

  // ---------------------------------------------------------------- whole runs

  ghost predicate Inv(s: State) {
    && W.Inv(s.loop)
    && (!s.loop.stop.Seen() ==>
          forall id <- s.loop.desk.registeredAt ::
            id in s.watched && Timely(s.watched[id], s.loop.desk.registeredAt[id]))
  }

  lemma OpenedIsTimely(x: W.Round, id: SessionId)
    ensures Timely(Opened(x, id), x.admitted)
  {
  }

  /** The worker's verdict on a watched session is that of its read. */
  lemma StaysMeansLasts(s: State, r: Round, id: SessionId)
    requires id in s.watched && id in s.loop.desk.registeredAt && id in s.loop.desk.sentAt
    requires W.Stays(s.loop.desk.registeredAt[id], s.loop.desk.sentAt[id], IoOf(s, r, id))
    ensures Lasts(s.watched[id], s.loop.desk.registeredAt[id], r.turns(id))
  {
  }

  /** In this round the peer's frames arrive. */
  predicate HandsIn(s: State, r: Round, id: SessionId) {
    && id in s.watched && id in s.loop.desk.registeredAt
    && var now := A.SessionClock(s.loop.desk.registeredAt[id], r.turns(id).clock);
    now.Some? && A.Hands(s.watched[id].session, SliceAt(r.turns(id), now.value))
  }

  /** What one round does to one session that is there after it. */
  lemma SessionAfterRound(s: State, r: Round, c: L.Session)
    requires Inv(s) && !s.loop.stop.Seen() && !Step(s, r).loop.stop.Seen() && c in Step(s, r).loop.desk.sessions
    ensures var t := Step(s, r);
            && c.id in t.loop.desk.registeredAt && c.id in t.watched
            && Timely(t.watched[c.id], t.loop.desk.registeredAt[c.id])
            && (!JustAdmitted(t.loop, c.id) ==>
                  && c in s.loop.desk.sessions && c.id in s.watched
                  && t.watched[c.id].turned == r.turns(c.id).clock < s.watched[c.id].heard + LEASE
                  && (!HandsIn(s, r, c.id) ==> t.watched[c.id].heard == s.watched[c.id].heard))
  {
    var x := WorkerRound(s, r);
    var l := W.Iterated(s.loop, x);
    RoundShape(s.loop, x);
    assert Came(s.loop.desk, l, x, c);
    if JustAdmitted(l, c.id) {
      OpenedIsTimely(r.outside, c.id);
    } else {
      StaysMeansLasts(s, r, c.id);
      TurnKeepsTimely(s.watched[c.id], s.loop.desk.registeredAt[c.id], r.turns(c.id));
    }
  }

  lemma StepKeepsInv(s: State, r: Round)
    requires Inv(s)
    ensures Inv(Step(s, r))
  {
    W.IterationKeepsInv(s.loop, WorkerRound(s, r));
    var t := Step(s, r);
    if !t.loop.stop.Seen() {
      forall id | id in t.loop.desk.registeredAt
        ensures id in t.watched && Timely(t.watched[id], t.loop.desk.registeredAt[id])
      {
        assert id in W.Ids(t.loop.desk.sessions);
        var c :| c in t.loop.desk.sessions && c.id == id;
        SessionAfterRound(s, r, c);
      }
    }
  }

  /** The worker after some rounds. */
  ghost function Run(from: nat, rounds: seq<Round>): (s: State)
    ensures Inv(s)
  {
    if rounds == [] then State(W.Start(from), map[])
    else
      var before := Run(from, rounds[..|rounds| - 1]);
      StepKeepsInv(before, rounds[|rounds| - 1]);
      Step(before, rounds[|rounds| - 1])
  }

  /** What the worker does here is a run of the worker's loop, so all that is proved of it holds. */
  lemma {:induction false} IsAWorkerRun(from: nat, rounds: seq<Round>) returns (inner: seq<W.Round>)
    ensures |inner| == |rounds| && Run(from, rounds).loop == W.Looped(from, inner)
  {
    if rounds == [] {
      inner := [];
    } else {
      var before, r := rounds[..|rounds| - 1], rounds[|rounds| - 1];
      var earlier := IsAWorkerRun(from, before);
      inner := earlier + [WorkerRound(Run(from, before), r)];
      W.LoopedOnce(from, inner, |earlier|);
      assert inner[..|earlier|] == earlier && inner[..|earlier| + 1] == inner;
    }
  }

  /**
   In every run of the worker, as long as it is not stopped, every session it owns had its last turn
   less than 30 s of real time after its peer's last frames had arrived, or after it was admitted.
   */
  lemma OwnedPeersWereHeard(from: nat, rounds: seq<Round>, c: L.Session)
    requires var s := Run(from, rounds); !s.loop.stop.Seen() && c in s.loop.desk.sessions
    ensures var s := Run(from, rounds); c.id in s.watched && s.watched[c.id].turned < s.watched[c.id].heard + LEASE
  {
    assert c.id in W.Ids(Run(from, rounds).loop.desk.sessions);
  }

  /**
   A silent peer is dropped in the first round that turns to it 30 s or more after it was last heard:
   whatever else happens in that round, the session is gone after it unless it was admitted anew in
   it. With turns at most `gap` apart that is less than 30 s and one gap after it was heard.
   */
  lemma SilentPeersAreDropped(from: nat, rounds: seq<Round>, r: Round, c: L.Session, gap: nat)
    requires var s := Run(from, rounds); !s.loop.stop.Seen() && c in s.loop.desk.sessions
    ensures var s, t := Run(from, rounds), Run(from, rounds + [r]);
            && c.id in s.watched
            && (r.turns(c.id).clock >= s.watched[c.id].heard + LEASE && !t.loop.stop.Seen() ==>
                  c !in t.loop.desk.sessions || JustAdmitted(t.loop, c.id))
            && (r.turns(c.id).clock <= s.watched[c.id].turned + gap ==>
                  r.turns(c.id).clock < s.watched[c.id].heard + LEASE + gap)
  {
    OwnedPeersWereHeard(from, rounds, c);
    assert (rounds + [r])[..|rounds|] == rounds;
    var s, t := Run(from, rounds), Run(from, rounds + [r]);
    if !t.loop.stop.Seen() && c in t.loop.desk.sessions { SessionAfterRound(s, r, c); }
  }

  /** Through all of `more` rounds no frames of the peer arrive, and it is not admitted anew. */
  ghost predicate SilentThrough(from: nat, rounds: seq<Round>, more: seq<Round>, id: SessionId) {
    more != [] ==>
      var before := more[..|more| - 1];
      && SilentThrough(from, rounds, before, id)
      && !HandsIn(Run(from, rounds + before), more[|more| - 1], id)
      && !JustAdmitted(Run(from, rounds + more).loop, id)
  }

  ghost predicate Owns(s: State, c: L.Session) {
    !s.loop.stop.Seen() && c in s.loop.desk.sessions && c.id in s.watched
  }

  lemma OneSilentRound(s: State, r: Round, c: L.Session)
    requires Inv(s) && !HandsIn(s, r, c.id)
    requires !Step(s, r).loop.stop.Seen() && c in Step(s, r).loop.desk.sessions && !JustAdmitted(Step(s, r).loop, c.id)
    ensures Owns(s, c) && Owns(Step(s, r), c)
    ensures Step(s, r).watched[c.id].heard == s.watched[c.id].heard
    ensures r.turns(c.id).clock < s.watched[c.id].heard + LEASE
  {
    SessionAfterRound(s, r, c);
  }

  lemma LastOfMore<T>(rounds: seq<T>, more: seq<T>)
    requires more != []
    ensures var all := rounds + more;
            all[..|all| - 1] == rounds + more[..|more| - 1] && all[|all| - 1] == more[|more| - 1]
  {
  }

  lemma RunOnce(from: nat, rounds: seq<Round>)
    requires rounds != []
    ensures Run(from, rounds) == Step(Run(from, rounds[..|rounds| - 1]), rounds[|rounds| - 1])
  {
  }

  lemma LastSilentRound(from: nat, rounds: seq<Round>, more: seq<Round>, c: L.Session)
    requires more != [] && SilentThrough(from, rounds, more, c.id)
    requires var t := Run(from, rounds + more); !t.loop.stop.Seen() && c in t.loop.desk.sessions
    ensures var b, t := Run(from, rounds + more[..|more| - 1]), Run(from, rounds + more);
            && Owns(b, c) && Owns(t, c) && t.watched[c.id].heard == b.watched[c.id].heard
            && more[|more| - 1].turns(c.id).clock < b.watched[c.id].heard + LEASE
  {
    LastOfMore(rounds, more);
    RunOnce(from, rounds + more);
    OneSilentRound(Run(from, rounds + more[..|more| - 1]), more[|more| - 1], c);
  }

  /**
   However many rounds a peer is silent through: as long as its session is owned, every turn it had
   came less than 30 s after the peer was heard before its silence.
   */
  lemma {:induction false} SilenceIsCutOff(from: nat, rounds: seq<Round>, more: seq<Round>, c: L.Session)
    requires SilentThrough(from, rounds, more, c.id)
    requires var t := Run(from, rounds + more); !t.loop.stop.Seen() && c in t.loop.desk.sessions
    ensures var s, t := Run(from, rounds), Run(from, rounds + more);
            && Owns(s, c) && Owns(t, c) && t.watched[c.id].heard == s.watched[c.id].heard
            && (more != [] ==> more[|more| - 1].turns(c.id).clock < s.watched[c.id].heard + LEASE)
  {
    if more == [] {
      assert rounds + more == rounds;
      OwnedPeersWereHeard(from, rounds, c);
    } else {
      LastSilentRound(from, rounds, more, c);
      SilenceIsCutOff(from, rounds, more[..|more| - 1], c);
    }
  }
}
