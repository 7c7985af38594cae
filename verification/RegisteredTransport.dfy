/**
 Ownership of registered TLS sessions. Every owner shares one session table; its
 calls are split where another owner may act: at a blocking read or write, and
 between shutting its socket down and giving its table entry back.
 */
module RegisteredTransport {
  import opened Vocabulary
  import R = SessionRegistry

  datatype Io = Read | Send

  datatype Phase = Idle | Busy(io: Io) | Retiring(dropping: bool)

  /** `open` is the negation of the session's terminal flag: both close the socket. */
  datatype Owner = Owner(key: PeerKey, id: SessionId, open: bool, retired: bool, phase: Phase)

  datatype Outcome = Failure | PeerClosed | Success

  /** Frames and sends are logged when the call reports them, after its last check. */
  datatype Effect =
    | SocketClosed(owner: nat)
    | SlotFreed(owner: nat)
    | Delivered(owner: nat)
    | Sent(owner: nat)

  datatype World = World(table: R.Table, poisoned: bool, owners: map<nat, Owner>, next: nat, log: seq<Effect>)

  const START := World(R.EMPTY, false, map[], 0, [])

  // ---------------------------------------------------------------- one owner's steps

  predicate MayContinue(w: World, o: Owner) {
    !w.poisoned && R.HoldsActive(w.table, o.key, o.id) && o.open
  }

  /** Shut the socket down; the table entry is given back by a later `FinishRetire`. */
  function StartClose(w: World, i: nat, dropping: bool): World
    requires i in w.owners
  {
    w.(owners := w.owners[i := w.owners[i].(open := false, phase := Retiring(dropping))],
       log := w.log + [SocketClosed(i)])
  }

  function FinishRetire(w: World, i: nat): World
    requires i in w.owners && w.owners[i].phase.Retiring?
  {
    var o := w.owners[i];
    var (table, removed) := R.RemoveIfCurrent(w.table, o.key, o.id);
    w.(table := table,
       owners := if o.phase.dropping then w.owners - {i} else w.owners[i := o.(retired := true, phase := Idle)],
       log := if removed then w.log + [SlotFreed(i)] else w.log)
  }

  function BeginIo(w: World, i: nat, io: Io): World
    requires i in w.owners
  {
    if MayContinue(w, w.owners[i]) then w.(owners := w.owners[i := w.owners[i].(phase := Busy(io))])
    else StartClose(w, i, false)
  }

  function EndIo(w: World, i: nat, outcome: Outcome): World
    requires i in w.owners && w.owners[i].phase.Busy?
  {
    if outcome.Success? && MayContinue(w, w.owners[i]) then
      w.(owners := w.owners[i := w.owners[i].(phase := Idle)],
         log := w.log + [if w.owners[i].phase.io.Read? then Delivered(i) else Sent(i)])
    else StartClose(w, i, false)
  }

  function Admit(w: World, key: PeerKey, id: SessionId): World {
    var (table, r) := R.Activate(w.table, key, id);
    if !w.poisoned && (r.New? || r.Recovered?) then
      w.(table := table, owners := w.owners[w.next := Owner(key, id, true, false, Idle)], next := w.next + 1)
    else w
  }

  datatype Event =
    | OnAdmit(key: PeerKey, id: SessionId)
    | OnBegin(owner: nat, io: Io)
    | OnEnd(owner: nat, outcome: Outcome)
    | OnCancel(owner: nat)
    | OnCancelIfCurrent(owner: nat, id: SessionId)
    | OnDrop(owner: nat)
    | OnFinish(owner: nat)
    | OnLost(key: PeerKey, id: SessionId)
    | OnReconnecting(key: PeerKey, id: SessionId)
    | OnPoison

  /** An event that does not fit the owner's phase cannot happen; it is a stutter here. */
  function Step(w: World, e: Event): World {
    match e
    case OnAdmit(key, id) => Admit(w, key, id)
    case OnBegin(i, io) => if i in w.owners && w.owners[i].phase.Idle? then BeginIo(w, i, io) else w
    case OnEnd(i, outcome) => if i in w.owners && w.owners[i].phase.Busy? then EndIo(w, i, outcome) else w
    case OnCancel(i) => if i in w.owners && w.owners[i].phase.Idle? then StartClose(w, i, false) else w
    case OnCancelIfCurrent(i, id) =>
      if i in w.owners && w.owners[i].phase.Idle? && w.owners[i].id == id then StartClose(w, i, false) else w
    case OnDrop(i) => if i in w.owners && w.owners[i].phase.Idle? then StartClose(w, i, true) else w
    case OnFinish(i) => if i in w.owners && w.owners[i].phase.Retiring? then FinishRetire(w, i) else w
    case OnLost(key, id) => w.(table := R.MarkLost(w.table, key, id).0)
    case OnReconnecting(key, id) => w.(table := R.MarkReconnecting(w.table, key, id).0)
    case OnPoison => w.(poisoned := true)
  }

  function Run(w: World, events: seq<Event>): World {
    if events == [] then w else Step(Run(w, events[..|events| - 1]), events[|events| - 1])
  }

  // ---------------------------------------------------------------- invariants

  /** Not yet given back, and serving exactly this generation of this peer. */
  predicate Serves(o: Owner, key: PeerKey, id: SessionId) {
    !o.retired && o.key == key && o.id == id
  }

  /** The owners whose sockets a log has shut down. */
  function Shut(log: seq<Effect>): set<nat> {
    if log == [] then {}
    else
      var last := log[|log| - 1];
      Shut(log[..|log| - 1]) + if last.SocketClosed? then {last.owner} else {}
  }

  /** A slot is freed only after its owner's socket was shut; traffic only before. */
  predicate Orderly(log: seq<Effect>) {
    log != [] ==>
      var (before, last) := (log[..|log| - 1], log[|log| - 1]);
      && Orderly(before)
      && (last.SlotFreed? ==> last.owner in Shut(before))
      && (last.Delivered? || last.Sent? ==> last.owner !in Shut(before))
  }

  predicate OwnerInv(o: Owner, shut: bool) {
    && (o.open <==> !shut)
    && (o.open ==> !o.retired && !o.phase.Retiring?)
    && (o.phase.Busy? ==> o.open)
  }

  ghost predicate OwnersInv(w: World) {
    && (forall i :: i in w.owners ==> i < w.next && OwnerInv(w.owners[i], i in Shut(w.log)))
    && (forall i :: i in Shut(w.log) ==> i < w.next)
    && Orderly(w.log)
  }

  /** Each table entry is served by some owner. */
  ghost predicate Served(sessions: map<PeerKey, R.Entry>, owners: map<nat, Owner>) {
    forall k :: k in sessions ==> exists i :: i in owners && Serves(owners[i], k, sessions[k].id)
  }

  /** No two owners carry the same generation of the same peer. */
  ghost predicate Unique(owners: map<nat, Owner>) {
    forall i, j | i in owners && j in owners ::
      owners[i].key == owners[j].key && owners[i].id == owners[j].id ==> i == j
  }

  ghost predicate Inv(w: World) {
    OwnersInv(w) && Served(w.table.sessions, w.owners) && Unique(w.owners)
  }

  /** Without a loss mark every unretired owner still has its own active entry. */
  ghost predicate AllRegistered(w: World) {
    forall i :: i in w.owners && !w.owners[i].retired ==>
      R.HoldsActive(w.table, w.owners[i].key, w.owners[i].id)
  }

  predicate Accepted(w: World, e: Event) {
    e.OnAdmit? && !w.poisoned && R.Admissible(w.table, e.key, e.id)
  }

  /** An accepted admission does not repeat a generation that some owner object still carries. */
  ghost predicate Fresh(w: World, e: Event) {
    Accepted(w, e) ==> forall i :: i in w.owners ==> !(w.owners[i].key == e.key && w.owners[i].id == e.id)
  }

  // ---------------------------------------------------------------- preservation

  lemma Logged(log: seq<Effect>, e: Effect)
    ensures Shut(log + [e]) == Shut(log) + if e.SocketClosed? then {e.owner} else {}
    ensures Orderly(log + [e]) <==>
              && Orderly(log)
              && (e.SlotFreed? ==> e.owner in Shut(log))
              && (e.Delivered? || e.Sent? ==> e.owner !in Shut(log))
  {
    assert (log + [e])[..|log|] == log;
  }

  lemma CloseKeepsInv(w: World, i: nat, dropping: bool)
    requires Inv(w) && i in w.owners
    ensures Inv(StartClose(w, i, dropping))
  {
    var w' := StartClose(w, i, dropping);
    Logged(w.log, SocketClosed(i));
    ServedStays(w.table.sessions, w.owners, w'.owners);
  }

  /** Entries stay served when their owners keep serving them. */
  lemma ServedStays(sessions: map<PeerKey, R.Entry>, owners: map<nat, Owner>, owners': map<nat, Owner>)
    requires Served(sessions, owners)
    requires forall i | i in owners ::
               && i in owners' && owners'[i].key == owners[i].key && owners'[i].id == owners[i].id
               && owners'[i].retired == owners[i].retired
    ensures Served(sessions, owners')
  {
    forall k | k in sessions
      ensures exists i :: i in owners' && Serves(owners'[i], k, sessions[k].id)
    {
      var i :| i in owners && Serves(owners[i], k, sessions[k].id);
      assert Serves(owners'[i], k, sessions[k].id);
    }
  }

  lemma PhaseKeepsInv(w: World, i: nat, phase: Phase)
    requires Inv(w) && i in w.owners && w.owners[i].open && !phase.Retiring?
    ensures Inv(w.(owners := w.owners[i := w.owners[i].(phase := phase)]))
  {
    ServedStays(w.table.sessions, w.owners, w.owners[i := w.owners[i].(phase := phase)]);
  }

  lemma TrafficKeepsInv(w: World, i: nat)
    requires Inv(w) && i in w.owners && w.owners[i].open
    ensures Inv(w.(log := w.log + [Delivered(i)])) && Inv(w.(log := w.log + [Sent(i)]))
  {
    Logged(w.log, Delivered(i));
    Logged(w.log, Sent(i));
  }

  lemma FinishKeepsInv(w: World, i: nat)
    requires Inv(w) && i in w.owners && w.owners[i].phase.Retiring?
    ensures Inv(FinishRetire(w, i))
  {
    var o := w.owners[i];
    var w' := FinishRetire(w, i);
    Logged(w.log, SlotFreed(i));
    forall k | k in w'.table.sessions
      ensures exists j :: j in w'.owners && Serves(w'.owners[j], k, w'.table.sessions[k].id)
    {
      var j :| j in w.owners && Serves(w.owners[j], k, w.table.sessions[k].id);
      assert j != i;
      assert Serves(w'.owners[j], k, w'.table.sessions[k].id);
    }
  }

  lemma AdmitKeepsInv(w: World, key: PeerKey, id: SessionId)
    requires Inv(w) && Fresh(w, OnAdmit(key, id))
    ensures Inv(Admit(w, key, id))
  {
    var w' := Admit(w, key, id);
    R.AdmissionExactly(w.table, key, id);
    if !w.poisoned && R.Admissible(w.table, key, id) {
      assert w'.table.sessions == w.table.sessions[key := R.Entry(id, R.Active)];
      forall k | k in w'.table.sessions
        ensures exists j :: j in w'.owners && Serves(w'.owners[j], k, w'.table.sessions[k].id)
      {
        if k == key {
          assert Serves(w'.owners[w.next], k, id);
        } else {
          var j :| j in w.owners && Serves(w.owners[j], k, w.table.sessions[k].id);
          assert Serves(w'.owners[j], k, w'.table.sessions[k].id);
        }
      }
    }
  }

  lemma MarkKeepsInv(w: World, sessions: map<PeerKey, R.Entry>)
    requires Inv(w) && forall k :: k in sessions ==> k in w.table.sessions && sessions[k].id == w.table.sessions[k].id
    ensures Inv(w.(table := w.table.(sessions := sessions)))
  {
    forall k | k in sessions
      ensures exists i :: i in w.owners && Serves(w.owners[i], k, sessions[k].id)
    {
      assert k in w.table.sessions;
    }
  }

  lemma IoKeepsInv(w: World, i: nat, io: Io, outcome: Outcome)
    requires Inv(w) && i in w.owners
    ensures w.owners[i].phase.Idle? ==> Inv(BeginIo(w, i, io))
    ensures w.owners[i].phase.Busy? ==> Inv(EndIo(w, i, outcome))
  {
    CloseKeepsInv(w, i, false);
    if w.owners[i].open {
      PhaseKeepsInv(w, i, Busy(io));
      PhaseKeepsInv(w, i, Idle);
      TrafficKeepsInv(w.(owners := w.owners[i := w.owners[i].(phase := Idle)]), i);
    }
  }

  lemma StepKeepsInv(w: World, e: Event)
    requires Inv(w) && Fresh(w, e)
    ensures Inv(Step(w, e))
  {
    match e
    case OnAdmit(key, id) => AdmitKeepsInv(w, key, id);
    case OnBegin(i, io) => if i in w.owners { IoKeepsInv(w, i, io, Success); }
    case OnEnd(i, outcome) => if i in w.owners { IoKeepsInv(w, i, Read, outcome); }
    case OnCancel(i) => if i in w.owners { CloseKeepsInv(w, i, false); }
    case OnCancelIfCurrent(i, _) => if i in w.owners { CloseKeepsInv(w, i, false); }
    case OnDrop(i) => if i in w.owners { CloseKeepsInv(w, i, true); }
    case OnFinish(i) => if i in w.owners && w.owners[i].phase.Retiring? { FinishKeepsInv(w, i); }
    case OnLost(key, id) => MarkKeepsInv(w, R.MarkLost(w.table, key, id).0.sessions);
    case OnReconnecting(key, id) => MarkKeepsInv(w, R.MarkReconnecting(w.table, key, id).0.sessions);
    case OnPoison =>
  }

  // ---------------------------------------------------------------- theorems over every run

  ghost predicate FreshRun(w: World, events: seq<Event>) {
    events != [] ==>
      var before := events[..|events| - 1];
      FreshRun(w, before) && Fresh(Run(w, before), events[|events| - 1])
  }

  /**
   In every run, loss marks and replacements included, each table entry is served by
   exactly one unretired owner, sockets close before slots are freed, and no call
   reports frames or a send after the close.
   */
  lemma {:induction false} EveryRunKeepsInv(events: seq<Event>)
    requires FreshRun(START, events)
    ensures Inv(Run(START, events))
  {
    if events != [] {
      EveryRunKeepsInv(events[..|events| - 1]);
      StepKeepsInv(Run(START, events[..|events| - 1]), events[|events| - 1]);
    }
  }

  lemma ExactlyOneOwner(w: World, k: PeerKey)
    requires Inv(w) && k in w.table.sessions
    ensures exists i :: i in w.owners && Serves(w.owners[i], k, w.table.sessions[k].id)
    ensures forall i, j :: i in w.owners && j in w.owners
              && Serves(w.owners[i], k, w.table.sessions[k].id) && Serves(w.owners[j], k, w.table.sessions[k].id)
              ==> i == j
  {
  }

  /** The log's order, spelled out for one freed slot. */
  lemma {:induction false} FreedAfterClosed(log: seq<Effect>, j: nat)
    requires Orderly(log) && j < |log| && log[j].SlotFreed?
    ensures exists i :: 0 <= i < j && log[i] == SocketClosed(log[j].owner)
  {
    if j == |log| - 1 {
      ShutWasLogged(log[..j], log[j].owner);
    } else {
      FreedAfterClosed(log[..|log| - 1], j);
    }
  }

  lemma {:induction false} ShutWasLogged(log: seq<Effect>, o: nat)
    requires o in Shut(log)
    ensures exists i :: 0 <= i < |log| && log[i] == SocketClosed(o)
  {
    if log[|log| - 1] != SocketClosed(o) {
      ShutWasLogged(log[..|log| - 1], o);
      var i :| 0 <= i < |log| - 1 && log[..|log| - 1][i] == SocketClosed(o);
      assert log[i] == SocketClosed(o);
    }
  }

  // -- the replay memory makes up to 4096 admissions fresh by itself

  function Admissions(events: seq<Event>): nat {
    if events == [] then 0
    else Admissions(events[..|events| - 1]) + if events[|events| - 1].OnAdmit? then 1 else 0
  }

  /** Every owner's id is still remembered, and nothing was evicted yet. */
  ghost predicate Remembered(w: World, admissions: nat) {
    && |w.table.recent| <= admissions
    && (forall i :: i in w.owners ==> w.owners[i].id in w.table.seen)
  }

  lemma StepKeepsRemembered(w: World, e: Event, n: nat)
    requires Remembered(w, n) && (e.OnAdmit? ==> n < R.MAX_RECENT)
    ensures Fresh(w, e)
    ensures Remembered(Step(w, e), if e.OnAdmit? then n + 1 else n)
  {
    if e.OnAdmit? {
      R.AdmissionExactly(w.table, e.key, e.id);
    } else {
      assert forall i :: i in Step(w, e).owners ==> i in w.owners && Step(w, e).owners[i].id == w.owners[i].id;
    }
  }

  /** Up to the horizon no exporter assumption is needed. */
  lemma {:induction false} FreshWithinHorizon(events: seq<Event>)
    requires Admissions(events) <= R.MAX_RECENT
    ensures FreshRun(START, events)
    ensures Remembered(Run(START, events), Admissions(events))
  {
    if events != [] {
      var (before, last) := (events[..|events| - 1], events[|events| - 1]);
      FreshWithinHorizon(before);
      StepKeepsRemembered(Run(START, before), last, Admissions(before));
    }
  }

  // -- runs without loss marks, which is all the daemon produces

  lemma AdmitKeepsRegistered(w: World, key: PeerKey, id: SessionId)
    requires AllRegistered(w)
    ensures AllRegistered(Admit(w, key, id))
  {
    R.AdmissionExactly(w.table, key, id);
    if !w.poisoned && R.Admissible(w.table, key, id) {
      assert Admit(w, key, id).table.sessions == w.table.sessions[key := R.Entry(id, R.Active)];
      assert forall i :: i in w.owners && !w.owners[i].retired ==> w.owners[i].key != key;
    }
  }

  lemma FinishKeepsRegistered(w: World, i: nat)
    requires Unique(w.owners) && AllRegistered(w) && i in w.owners && w.owners[i].phase.Retiring?
    ensures AllRegistered(FinishRetire(w, i))
  {
    var w' := FinishRetire(w, i);
    forall j | j in w'.owners && !w'.owners[j].retired
      ensures R.HoldsActive(w'.table, w'.owners[j].key, w'.owners[j].id)
    {
      assert j != i && w'.owners[j] == w.owners[j];
      assert R.HoldsActive(w.table, w.owners[j].key, w.owners[j].id);
    }
  }

  lemma StepKeepsRegistered(w: World, e: Event)
    requires Inv(w) && AllRegistered(w) && !e.OnLost?
    ensures AllRegistered(Step(w, e))
  {
    if e.OnAdmit? {
      AdmitKeepsRegistered(w, e.key, e.id);
    } else if e.OnFinish? {
      if e.owner in w.owners && w.owners[e.owner].phase.Retiring? { FinishKeepsRegistered(w, e.owner); }
    } else if e.OnReconnecting? {
      if e.key in w.table.sessions {
        var i :| i in w.owners && Serves(w.owners[i], e.key, w.table.sessions[e.key].id);
      }
    } else {
      assert Step(w, e).table == w.table;
    }
  }

  /** Without loss marks entries and unretired owners are in bijection. */
  lemma {:induction false} EveryRunWithoutLossMarks(events: seq<Event>)
    requires FreshRun(START, events) && forall e :: e in events ==> !e.OnLost?
    ensures Inv(Run(START, events)) && AllRegistered(Run(START, events))
  {
    if events != [] {
      var (before, last) := (events[..|events| - 1], events[|events| - 1]);
      EveryRunWithoutLossMarks(before);
      StepKeepsInv(Run(START, before), last);
      StepKeepsRegistered(Run(START, before), last);
    }
  }

  /** So two open sockets never belong to the same logical peer. */
  lemma OneOpenSocketPerPeer(w: World, i: nat, j: nat)
    requires Inv(w) && AllRegistered(w)
    requires i in w.owners && j in w.owners && w.owners[i].open && w.owners[j].open
    requires w.owners[i].key == w.owners[j].key
    ensures i == j
  {
    assert OwnerInv(w.owners[i], i in Shut(w.log)) && OwnerInv(w.owners[j], j in Shut(w.log));
  }

  // -- stale owners

  /** Closed, gone, or no longer the active generation of its peer. */
  predicate Dead(w: World, i: nat) {
    i < w.next && (i in w.owners ==> !w.owners[i].open || !R.HoldsActive(w.table, w.owners[i].key, w.owners[i].id))
  }

  predicate Traffic(e: Effect, i: nat) { e == Delivered(i) || e == Sent(i) }

  lemma DeadThroughAdmission(w: World, key: PeerKey, id: SessionId, i: nat)
    requires Dead(w, i) && Fresh(w, OnAdmit(key, id))
    ensures Dead(Admit(w, key, id), i) && Admit(w, key, id).log == w.log
  {
    R.AdmissionExactly(w.table, key, id);
    if !w.poisoned && R.Admissible(w.table, key, id) {
      assert Admit(w, key, id).table.sessions == w.table.sessions[key := R.Entry(id, R.Active)];
    }
  }

  lemma DeadThroughIo(w: World, i: nat, j: nat, io: Io, outcome: Outcome)
    requires Dead(w, i) && j in w.owners
    ensures var w' := BeginIo(w, j, io);
            Dead(w', i) && w.log <= w'.log && forall n :: |w.log| <= n < |w'.log| ==> !Traffic(w'.log[n], i)
    ensures w.owners[j].phase.Busy? ==> var w' := EndIo(w, j, outcome);
            Dead(w', i) && w.log <= w'.log && forall n :: |w.log| <= n < |w'.log| ==> !Traffic(w'.log[n], i)
  {
  }

  /** A dead owner stays dead and neither delivers nor sends, whatever happens next. */
  lemma DeadStaysDead(w: World, e: Event, i: nat)
    requires Dead(w, i) && Fresh(w, e)
    ensures Dead(Step(w, e), i)
    ensures w.log <= Step(w, e).log
    ensures forall n :: |w.log| <= n < |Step(w, e).log| ==> !Traffic(Step(w, e).log[n], i)
  {
    if e.OnAdmit? {
      DeadThroughAdmission(w, e.key, e.id, i);
    } else if e.OnBegin? {
      if e.owner in w.owners { DeadThroughIo(w, i, e.owner, e.io, Success); }
    } else if e.OnEnd? {
      if e.owner in w.owners { DeadThroughIo(w, i, e.owner, Read, e.outcome); }
    }
  }

  lemma {:induction false} DeadForever(w: World, events: seq<Event>, i: nat)
    requires Inv(w) && Dead(w, i) && FreshRun(w, events)
    ensures Inv(Run(w, events)) && Dead(Run(w, events), i)
    ensures w.log <= Run(w, events).log
    ensures forall n :: |w.log| <= n < |Run(w, events).log| ==> !Traffic(Run(w, events).log[n], i)
  {
    if events != [] {
      var (before, last) := (events[..|events| - 1], events[|events| - 1]);
      DeadForever(w, before, i);
      StepKeepsInv(Run(w, before), last);
      DeadStaysDead(Run(w, before), last, i);
    }
  }

  /** Once a newer generation holds the entry, no call of the old owner can touch it. */
  lemma StaleOwnerCannotRemove(w: World, e: Event, i: nat)
    requires i in w.owners && !R.Holds(w.table, w.owners[i].key, w.owners[i].id)
    requires e.OnBegin? || e.OnEnd? || e.OnCancel? || e.OnCancelIfCurrent? || e.OnDrop? || e.OnFinish?
    requires e.owner == i
    ensures Step(w, e).table == w.table
  {
  }

  /** The last thing logged is traffic of this owner. */
  predicate JustMoved(log: seq<Effect>, i: nat) { |log| > 0 && Traffic(log[|log| - 1], i) }

  /**
   A call is reported as delivered or sent exactly when it succeeded and the owner was the active generation of
   its peer at that very moment; otherwise the socket is shut.
   */
  lemma TrafficIsCurrent(w: World, i: nat, outcome: Outcome)
    requires i in w.owners && w.owners[i].phase.Busy?
    ensures var t := EndIo(w, i, outcome);
            && t.table == w.table && i in t.owners && |t.log| == |w.log| + 1
            && (JustMoved(t.log, i) <==> outcome.Success? && MayContinue(w, w.owners[i]))
            && (JustMoved(t.log, i) ==> t.owners[i].open && t.owners[i].phase.Idle?
                                        && (t.log[|w.log|].Delivered? <==> w.owners[i].phase.io.Read?))
            && (!JustMoved(t.log, i) ==> t.log[|w.log|] == SocketClosed(i)
                                         && !t.owners[i].open && t.owners[i].phase == Retiring(false))
  {
  }

  /** An idle owner starts a call exactly as the active generation; anything that ends it shuts its socket first. */
  lemma IdleOwnerMoves(w: World, i: nat, e: Event)
    requires i in w.owners && w.owners[i].phase.Idle?
    requires (e.OnBegin? || e.OnCancel? || e.OnCancelIfCurrent? || e.OnDrop?) && e.owner == i
    ensures var t := Step(w, e);
            && t.table == w.table && i in t.owners && t.owners - {i} == w.owners - {i}
            && (t.owners[i].phase.Busy? <==> e.OnBegin? && MayContinue(w, w.owners[i]))
            && (t.owners[i].phase.Idle? <==> e.OnCancelIfCurrent? && e.id != w.owners[i].id)
            && (t.owners[i].phase.Busy? ==> t.owners[i].phase.io == e.io)
            && (if t.owners[i].phase.Retiring?
                then t.log == w.log + [SocketClosed(i)] && !t.owners[i].open
                     && (t.owners[i].phase.dropping <==> e.OnDrop?)
                else t.log == w.log && t.owners[i].open == w.owners[i].open)
  {
  }
}
