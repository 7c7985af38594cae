/**
 Why `RegisteredTransport` needs fresh exporter ids beyond the replay memory: a run
 of 4098 admissions after which a retired owner frees its successor's table entry.
 */
module ReplayHorizon {
  import opened Vocabulary
  import R = SessionRegistry
  import opened RegisteredTransport

  // ---------------------------------------------------------------- running event lists

  lemma RunsInOrder(w: World, a: Event, b: Event, c: Event)
    ensures Run(w, [a, b, c]) == Step(Step(Step(w, a), b), c)
  {
    assert [a, b, c][..2] == [a, b] && [a, b][..1] == [a] && [a][..0] == [];
    assert Run(w, [a]) == Step(Run(w, []), a);
    assert Run(w, [a, b]) == Step(Run(w, [a]), b);
  }

  lemma {:induction false} RunsCompose(w: World, a: seq<Event>, b: seq<Event>)
    ensures Run(w, a + b) == Run(Run(w, a), b)
  {
    if b == [] {
      assert a + b == a;
    } else {
      assert (a + b)[..|a + b| - 1] == a + b[..|b| - 1];
      RunsCompose(w, a, b[..|b| - 1]);
    }
  }

  lemma {:induction false} FreshPrefix(w: World, events: seq<Event>, n: nat)
    requires n <= |events| && FreshRun(w, events)
    ensures FreshRun(w, events[..n])
  {
    if n < |events| {
      FreshPrefix(w, events[..|events| - 1], n);
      assert events[..|events| - 1][..n] == events[..n];
    } else {
      assert events[..n] == events;
    }
  }

  // ---------------------------------------------------------------- exactly when it is safe

  /** The table after owner `i` is cancelled and has given its slot back. */
  function AfterCancel(w: World, i: nat): R.Table
    requires i in w.owners
  {
    FinishRetire(StartClose(w, i, false), i).table
  }

  /** No owner already there can take the newcomer's entry away, exactly when none carries its generation. */
  lemma SafeExactlyWhenFresh(w: World, key: PeerKey, id: SessionId)
    requires Inv(w) && Accepted(w, OnAdmit(key, id))
    ensures Fresh(w, OnAdmit(key, id)) <==>
            forall i <- w.owners :: && i in Admit(w, key, id).owners
                                    && R.HoldsActive(AfterCancel(Admit(w, key, id), i), key, id)
  {
    R.AdmissionExactly(w.table, key, id);
    var t := Admit(w, key, id);
    assert t.table.sessions[key] == R.Entry(id, R.Active);
    forall i | i in w.owners
      ensures i in t.owners && t.owners[i] == w.owners[i]
      ensures R.HoldsActive(AfterCancel(t, i), key, id) <==> !(w.owners[i].key == key && w.owners[i].id == id)
    {
      assert i != w.next;
    }
  }

  /** The owner has not given its entry back, and the table has it. */
  predicate Registered(t: R.Table, o: Owner) {
    !o.retired && o.key in t.sessions && t.sessions[o.key].id == o.id
  }

  /** Whichever owner is cancelled, every other one that is registered stays so. */
  ghost predicate Harmless(w: World) {
    forall i, j | i in w.owners && j in w.owners ::
      i != j && Registered(w.table, w.owners[j]) ==> Registered(AfterCancel(w, i), w.owners[j])
  }

  lemma ExactOwnersAreHarmless(w: World)
    requires Inv(w)
    ensures Harmless(w)
  {
    forall i, j | i in w.owners && j in w.owners && i != j && Registered(w.table, w.owners[j])
      ensures Registered(AfterCancel(w, i), w.owners[j])
    {
      assert !(w.owners[i].key == w.owners[j].key && w.owners[i].id == w.owners[j].id);
    }
  }

  lemma UnfreshIsHarmful(w: World, e: Event)
    requires Inv(w) && !Fresh(w, e)
    ensures !Harmless(Step(w, e))
  {
    R.AdmissionExactly(w.table, e.key, e.id);
    var i :| i in w.owners && w.owners[i].key == e.key && w.owners[i].id == e.id;
    var t := Step(w, e);
    assert i != w.next && t.owners[i] == w.owners[i] && t.owners[w.next] == Owner(e.key, e.id, true, false, Idle);
    assert Registered(t.table, t.owners[w.next]) && !Registered(AfterCancel(t, i), t.owners[w.next]);
  }

  /**
   At no point of a run can cancelling one owner take the entry of another away, exactly when no
   admission of the run repeats a generation some owner still carries.
   */
  lemma {:induction false} ExactlyTheFreshRuns(events: seq<Event>)
    ensures FreshRun(START, events) <==> forall n :: 0 <= n <= |events| ==> Harmless(Run(START, events[..n]))
  {
    if FreshRun(START, events) {
      forall n | 0 <= n <= |events| ensures Harmless(Run(START, events[..n])) {
        FreshPrefix(START, events, n);
        EveryRunKeepsInv(events[..n]);
        ExactOwnersAreHarmless(Run(START, events[..n]));
      }
    } else {
      var n := FirstUnfresh(events);
      assert events[..n + 1][..n] == events[..n];
      UnfreshIsHarmful(Run(START, events[..n]), events[n]);
    }
  }

  lemma {:induction false} FirstUnfresh(events: seq<Event>) returns (n: nat)
    requires !FreshRun(START, events)
    ensures n < |events| && FreshRun(START, events[..n]) && !Fresh(Run(START, events[..n]), events[n])
    ensures Inv(Run(START, events[..n]))
  {
    var before := events[..|events| - 1];
    if FreshRun(START, before) {
      n := |before|;
      EveryRunKeepsInv(before);
    } else {
      n := FirstUnfresh(before);
      assert before[..n] == events[..n];
    }
  }

  // ---------------------------------------------------------------- filling the replay memory

  /** Owner 0 is retired but still held by its caller; the memory holds `recent`. */
  function Retained(peer: PeerKey, prior: SessionId, recent: seq<SessionId>, next: nat, log: seq<Effect>): World {
    World(R.Table(map[], recent, set id | id in recent), false,
          map[0 := Owner(peer, prior, false, true, Idle)], next, log)
  }

  /** The peer connects with `id` as owner `m` and is dropped again. */
  function Visit(peer: PeerKey, id: SessionId, m: nat): seq<Event> {
    [OnAdmit(peer, id), OnDrop(m), OnFinish(m)]
  }

  function Trimmed(recent: seq<SessionId>): seq<SessionId> {
    if |recent| == R.MAX_RECENT then recent[1..] else recent
  }

  ghost predicate Distinct(ids: seq<SessionId>) {
    && (forall i :: 0 <= i < |ids| ==> ids[i] != ZERO_SESSION)
    && (forall i, j :: 0 <= i < j < |ids| ==> ids[i] != ids[j])
  }

  function Memory(recent: seq<SessionId>): R.Table {
    R.Table(map[], recent, set x | x in recent)
  }

  /** Remembering one more id drops the oldest one from a full memory. */
  lemma MemoryMoves(recent: seq<SessionId>, id: SessionId)
    requires Distinct(recent)
    ensures R.Remember(Memory(recent), id) == Memory(Trimmed(recent) + [id])
  {
    if |recent| == R.MAX_RECENT {
      assert recent == [recent[0]] + recent[1..];
    }
    assert R.Remember(Memory(recent), id).seen == (set x | x in Trimmed(recent) + [id]);
  }

  /** A visit pushes its id and, once the memory is full, the oldest id out. */
  lemma VisitRun(peer: PeerKey, prior: SessionId, id: SessionId, recent: seq<SessionId>, m: nat, log: seq<Effect>)
    requires peer.IsValid() && id != ZERO_SESSION && id !in recent && Distinct(recent) && m > 0
    ensures
      var w' := Run(Retained(peer, prior, recent, m, log), Visit(peer, id, m));
      w' == Retained(peer, prior, Trimmed(recent) + [id], m + 1, w'.log)
  {
    var w := Retained(peer, prior, recent, m, log);
    var table := Memory(Trimmed(recent) + [id]);
    MemoryMoves(recent, id);
    RunsInOrder(w, OnAdmit(peer, id), OnDrop(m), OnFinish(m));
    R.AdmissionExactly(w.table, peer, id);
    VisitSteps(w, peer, id, m, table);
  }

  lemma VisitSteps(w: World, peer: PeerKey, id: SessionId, m: nat, table: R.Table)
    requires Accepted(w, OnAdmit(peer, id)) && w.next == m && m !in w.owners
    requires w.table.sessions == map[] && table == R.Remember(w.table, id)
    requires R.Activate(w.table, peer, id).0 == R.Admitted(w.table, peer, id)
    requires R.Activate(w.table, peer, id).1.New?
    ensures
      var w' := Step(Step(Step(w, OnAdmit(peer, id)), OnDrop(m)), OnFinish(m));
      w' == World(table, w.poisoned, w.owners, m + 1, w'.log)
  {
    var o := Owner(peer, id, true, false, Idle);
    var w1 := Step(w, OnAdmit(peer, id));
    assert w1 == w.(table := R.Admitted(w.table, peer, id), owners := w.owners[m := o], next := m + 1);
    assert w1.table.sessions == map[peer := R.Entry(id, R.Active)];
    assert w1.table.(sessions := map[]) == table;
    var w2 := Step(w1, OnDrop(m));
    assert w2.table == w1.table && w2.owners == w.owners[m := o.(open := false, phase := Retiring(true))];
    var w3 := Step(w2, OnFinish(m));
    assert w3.owners == w.owners;
    assert w3.table.sessions == map[];
  }

  /** First the first session is admitted, cancelled and kept; then one visit per filler. */
  function Filling(peer: PeerKey, prior: SessionId, fillers: seq<SessionId>): seq<Event> {
    if fillers == [] then [OnAdmit(peer, prior), OnCancel(0), OnFinish(0)]
    else Filling(peer, prior, fillers[..|fillers| - 1]) + Visit(peer, fillers[|fillers| - 1], |fillers|)
  }

  lemma FirstRun(peer: PeerKey, prior: SessionId)
    requires peer.IsValid() && prior != ZERO_SESSION
    ensures var w := Run(START, Filling(peer, prior, [])); w == Retained(peer, prior, [prior], 1, w.log)
  {
    RunsInOrder(START, OnAdmit(peer, prior), OnCancel(0), OnFinish(0));
    R.AdmissionExactly(R.EMPTY, peer, prior);
    var w1 := Step(START, OnAdmit(peer, prior));
    assert w1.table == R.Table(map[peer := R.Entry(prior, R.Active)], [prior], {prior});
    var w3 := Step(Step(w1, OnCancel(0)), OnFinish(0));
    assert w3.table.sessions == map[];
    assert w3.table.seen == (set x | x in [prior]);
    assert w3.owners == map[0 := Owner(peer, prior, false, true, Idle)];
  }

  lemma SplitLast(prior: SessionId, fillers: seq<SessionId>)
    requires Distinct([prior] + fillers) && fillers != []
    ensures var front, last := fillers[..|fillers| - 1], fillers[|fillers| - 1];
            && Distinct([prior] + front) && last !in [prior] + front && last != ZERO_SESSION
            && [prior] + front + [last] == [prior] + fillers
  {
    var front, last, all := fillers[..|fillers| - 1], fillers[|fillers| - 1], [prior] + fillers;
    assert all[|fillers|] == last;
    assert forall i :: 0 <= i < |fillers| ==> all[i] == ([prior] + front)[i];
  }

  /** Until the memory is full the first id stays in front of the fillers. */
  lemma {:induction false} FillingRun(peer: PeerKey, prior: SessionId, fillers: seq<SessionId>)
    requires peer.IsValid() && Distinct([prior] + fillers) && |fillers| < R.MAX_RECENT
    ensures
      var w := Run(START, Filling(peer, prior, fillers));
      w == Retained(peer, prior, [prior] + fillers, |fillers| + 1, w.log)
  {
    if fillers == [] {
      assert ([prior] + fillers)[0] == prior;
      FirstRun(peer, prior);
      assert [prior] + fillers == [prior];
    } else {
      var front, last := fillers[..|fillers| - 1], fillers[|fillers| - 1];
      SplitLast(prior, fillers);
      FillingRun(peer, prior, front);
      RunsCompose(START, Filling(peer, prior, front), Visit(peer, last, |fillers|));
      VisitRun(peer, prior, last, [prior] + front, |fillers|, Run(START, Filling(peer, prior, front)).log);
    }
  }

  // ---------------------------------------------------------------- beyond the horizon

  lemma SecondAdmission(peer: PeerKey, prior: SessionId, recent: seq<SessionId>, w: World)
    requires peer.IsValid() && prior != ZERO_SESSION && prior !in recent && |recent| == R.MAX_RECENT
    requires w == Retained(peer, prior, recent, R.MAX_RECENT + 1, w.log)
    ensures Accepted(w, OnAdmit(peer, prior)) && !Fresh(w, OnAdmit(peer, prior))
    ensures
      var w' := Run(w, [OnAdmit(peer, prior), OnCancel(0), OnFinish(0)]);
      && R.MAX_RECENT + 1 in w'.owners && w'.owners[R.MAX_RECENT + 1] == Owner(peer, prior, true, false, Idle)
      && peer !in w'.table.sessions && w'.log == w.log + [SocketClosed(0)] + [SlotFreed(0)]
  {
    RunsInOrder(w, OnAdmit(peer, prior), OnCancel(0), OnFinish(0));
    R.AdmissionExactly(w.table, peer, prior);
    var w1 := Step(w, OnAdmit(peer, prior));
    assert w1.table.sessions == map[peer := R.Entry(prior, R.Active)];
    assert w1.owners[0] == Owner(peer, prior, false, true, Idle);
  }

  /** The last of 4096 visits pushes the first id out. */
  lemma EvictedRun(peer: PeerKey, prior: SessionId, fillers: seq<SessionId>)
    requires peer.IsValid() && Distinct([prior] + fillers) && |fillers| == R.MAX_RECENT
    ensures var w := Run(START, Filling(peer, prior, fillers));
            w == Retained(peer, prior, fillers, R.MAX_RECENT + 1, w.log)
    ensures prior !in fillers && prior != ZERO_SESSION
  {
    var (front, last) := (fillers[..|fillers| - 1], fillers[|fillers| - 1]);
    assert ([prior] + fillers)[..|fillers|] == [prior] + front && ([prior] + fillers)[|fillers|] == last;
    assert ([prior] + fillers)[0] == prior && fillers == ([prior] + fillers)[1..];
    FillingRun(peer, prior, front);
    RunsCompose(START, Filling(peer, prior, front), Visit(peer, last, |fillers|));
    VisitRun(peer, prior, last, [prior] + front, |fillers|, Run(START, Filling(peer, prior, front)).log);
    assert ([prior] + front)[1..] + [last] == fillers;
  }

  /** The whole run: fill the memory, admit the first id again, cancel its first owner once more. */
  function Reuse(peer: PeerKey, prior: SessionId, fillers: seq<SessionId>): seq<Event> {
    Filling(peer, prior, fillers) + [OnAdmit(peer, prior), OnCancel(0), OnFinish(0)]
  }

  /**
   After 4096 other sessions the first id is forgotten. The peer is then admitted with it
   a second time, and cancelling the retired first owner once more frees the table
   entry of the second one, whose socket is open and which was never retired.
   */
  lemma BeyondTheHorizon(peer: PeerKey, prior: SessionId, fillers: seq<SessionId>)
    requires peer.IsValid() && Distinct([prior] + fillers) && |fillers| == R.MAX_RECENT
    ensures !FreshRun(START, Reuse(peer, prior, fillers))
    ensures var w := Run(START, Reuse(peer, prior, fillers));
            && R.MAX_RECENT + 1 in w.owners && w.owners[R.MAX_RECENT + 1] == Owner(peer, prior, true, false, Idle)
            && peer !in w.table.sessions && w.log != [] && w.log[|w.log| - 1] == SlotFreed(0)
  {
    EvictedRun(peer, prior, fillers);
    var w0 := Run(START, Filling(peer, prior, fillers));
    SecondAdmission(peer, prior, fillers, w0);
    var again := [OnAdmit(peer, prior), OnCancel(0), OnFinish(0)];
    var events := Reuse(peer, prior, fillers);
    RunsCompose(START, Filling(peer, prior, fillers), again);
    assert events[..|events| - 2][..|events| - 3] == Filling(peer, prior, fillers);
    if FreshRun(START, events) {
      FreshPrefix(START, events, |events| - 2);
    }
  }

  // ---------------------------------------------------------------- such ids exist

  function IdOf(a: Byte, b: Byte, c: Byte): SessionId {
    SessionId([a, b, c, 0, 0, 0, 0, 0, 0, 0, 0, 0, 0, 0, 0, 0])
  }

  lemma IdsDiffer(a: Byte, b: Byte, c: Byte, a': Byte, b': Byte, c': Byte)
    ensures IdOf(a, b, c) == IdOf(a', b', c') <==> a == a' && b == b' && c == c'
  {
    assert IdOf(a, b, c).bytes[0] == a && IdOf(a, b, c).bytes[1] == b && IdOf(a, b, c).bytes[2] == c;
  }

  function Counted(n: nat): (ids: seq<SessionId>)
    requires n < 65536
    ensures |ids| == n
    ensures forall i :: 0 <= i < n ==> ids[i] == IdOf(i / 256, i % 256, 1)
  {
    if n == 0 then [] else Counted(n - 1) + [IdOf((n - 1) / 256, (n - 1) % 256, 1)]
  }

  lemma CountedAreDistinct(prior: SessionId, n: nat)
    requires n < 65536 && prior == IdOf(0, 0, 2)
    ensures Distinct([prior] + Counted(n))
  {
    var ids := [prior] + Counted(n);
    assert ids[0] == IdOf(0, 0, 2) && forall i :: 0 < i < |ids| ==> ids[i] == IdOf((i - 1) / 256, (i - 1) % 256, 1);
    forall i | 0 <= i < |ids|
      ensures ids[i] != ZERO_SESSION
    {
      assert ids[i].bytes[2] != 0;
    }
    forall i, j | 0 <= i < j < |ids|
      ensures ids[i] != ids[j]
    {
      if i == 0 {
        assert ids[i].bytes[2] != ids[j].bytes[2];
      } else {
        IdsDiffer((i - 1) / 256, (i - 1) % 256, 1, (j - 1) / 256, (j - 1) % 256, 1);
      }
    }
  }

  lemma EnoughIds() returns (prior: SessionId, fillers: seq<SessionId>)
    ensures Distinct([prior] + fillers) && |fillers| == R.MAX_RECENT
  {
    prior, fillers := IdOf(0, 0, 2), Counted(R.MAX_RECENT);
    CountedAreDistinct(prior, R.MAX_RECENT);
  }
}
