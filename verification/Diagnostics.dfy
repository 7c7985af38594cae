/**
 Publishing runtime observations and reading them back under two locks, status before
 system, by any number of threads interleaved at every single step.
 */
module Diagnostics {
  import opened Vocabulary

  /** Health, capabilities and system data are opaque values here. */
  datatype Facts = Facts(health: nat, capabilities: nat, system: nat)

  /** What each thread does; the comments of each phase say what it holds. */
  datatype Thread =
    | WantsUpdate(next: Facts)                         // nothing held
    | UpdateHasStatus(next: Facts)                     // status
    | Updating(next: Facts, written: nat)              // both; so many fields written
    | WantsHealth(health: nat)                         // nothing
    | HealthHasStatus(health: nat)                     // status
    | WantsSnapshot(since: nat)                        // nothing
    | SnapshotHasStatus(since: nat)                    // status
    | Copying(since: nat, at: nat)                     // both; before the status copy
    | HalfCopied(since: nat, at: nat, health: nat, capabilities: nat)  // both
    | Finished(since: nat, at: nat, snapshot: Facts)   // nothing
  {
    predicate HoldsStatus() {
      UpdateHasStatus? || Updating? || HealthHasStatus? || SnapshotHasStatus? || Copying? || HalfCopied?
    }

    predicate HoldsSystem() { Updating? || Copying? || HalfCopied? }
  }

  /** `published` lists every state published so far, the last being current. */
  datatype State = State(facts: Facts, status: Option<nat>, system: Option<nat>, threads: map<nat, Thread>,
                         published: seq<Facts>)

  function Initial(facts: Facts): State { State(facts, None, None, map[], [facts]) }

  function Now(s: State): nat
    requires s.published != []
  {
    |s.published| - 1
  }

  predicate CanMove(s: State, i: nat) {
    i in s.threads &&
    match s.threads[i]
    case WantsUpdate(_) => s.status.None?
    case WantsHealth(_) => s.status.None?
    case WantsSnapshot(_) => s.status.None?
    case UpdateHasStatus(_) => s.system.None?
    case SnapshotHasStatus(_) => s.system.None?
    case Finished(_, _, _) => false
    case _ => true
  }

  function Put(s: State, i: nat, t: Thread): State { s.(threads := s.threads[i := t]) }

  /** One step of one thread; the last write of an update, made under both locks, publishes it. */
  function Move(s: State, i: nat): State
    requires CanMove(s, i) && s.published != []
  {
    match s.threads[i]
    case WantsUpdate(next) => Put(s.(status := Some(i)), i, UpdateHasStatus(next))
    case UpdateHasStatus(next) => Put(s.(system := Some(i)), i, Updating(next, 0))
    case Updating(next, 0) => Put(s.(facts := s.facts.(health := next.health)), i, Updating(next, 1))
    case Updating(next, 1) => Put(s.(facts := s.facts.(capabilities := next.capabilities)), i, Updating(next, 2))
    case Updating(next, 2) =>
      var after := s.facts.(system := next.system);
      Put(s.(facts := after, published := s.published + [after]), i, Updating(next, 3))
    case Updating(next, _) => s.(status := None, system := None, threads := s.threads - {i})
    case WantsHealth(health) => Put(s.(status := Some(i)), i, HealthHasStatus(health))
    case HealthHasStatus(health) =>
      var after := s.facts.(health := health);
      s.(facts := after, published := s.published + [after], status := None, threads := s.threads - {i})
    case WantsSnapshot(since) => Put(s.(status := Some(i)), i, SnapshotHasStatus(since))
    case SnapshotHasStatus(since) => Put(s.(system := Some(i)), i, Copying(since, Now(s)))
    case Copying(since, at) => Put(s, i, HalfCopied(since, at, s.facts.health, s.facts.capabilities))
    case HalfCopied(since, at, health, capabilities) =>
      Put(s.(status := None, system := None), i, Finished(since, at, Facts(health, capabilities, s.facts.system)))
    case Finished(_, _, _) => s
  }

  datatype Event =
    | OnUpdate(thread: nat, next: Facts)
    | OnHealth(thread: nat, health: nat)
    | OnSnapshot(thread: nat)
    | OnMove(thread: nat)

  function Step(s: State, e: Event): (t: State)
    requires s.published != []
    ensures s.published <= t.published
  {
    match e
    case OnUpdate(i, next) => if i in s.threads then s else Put(s, i, WantsUpdate(next))
    case OnHealth(i, health) => if i in s.threads then s else Put(s, i, WantsHealth(health))
    case OnSnapshot(i) => if i in s.threads then s else Put(s, i, WantsSnapshot(Now(s)))
    case OnMove(i) => if CanMove(s, i) then Move(s, i) else s
  }

  function Run(facts: Facts, events: seq<Event>): (s: State)
    ensures s.published != []
  {
    if events == [] then Initial(facts) else Step(Run(facts, events[..|events| - 1]), events[|events| - 1])
  }

  // ---------------------------------------------------------------- the invariant

  ghost predicate LocksInv(s: State) {
    && (forall i <- s.threads :: s.threads[i].HoldsStatus() <==> s.status == Some(i))
    && (forall i <- s.threads :: s.threads[i].HoldsSystem() <==> s.system == Some(i))
    && (s.status.Some? ==> s.status.value in s.threads)
    && (s.system.Some? ==> s.system.value in s.threads)
  }

  /** What the facts are, given how far the update under way has come. */
  ghost predicate FactsInv(s: State) {
    s.published != [] &&
    var last := s.published[|s.published| - 1];
    if s.system.Some? && s.system.value in s.threads && s.threads[s.system.value].Updating? then
      var next, n := s.threads[s.system.value].next, s.threads[s.system.value].written;
      && n <= 3
      && s.facts == (match n
                     case 0 => last
                     case 1 => last.(health := next.health)
                     case 2 => last.(health := next.health, capabilities := next.capabilities)
                     case _ => last)
    else s.facts == last
  }

  ghost predicate ThreadInv(s: State, t: Thread)
    requires s.published != []
  {
    match t
    case Updating(next, n) => n == 3 ==> s.published[Now(s)] == next
    case WantsSnapshot(since) => since <= Now(s)
    case SnapshotHasStatus(since) => since <= Now(s)
    case Copying(since, at) => since <= at == Now(s)
    case HalfCopied(since, at, health, capabilities) =>
      since <= at == Now(s) && (health, capabilities) == (s.published[at].health, s.published[at].capabilities)
    case Finished(since, at, snapshot) => since <= at <= Now(s) && snapshot == s.published[at]
    case _ => true
  }

  ghost predicate Inv(s: State) {
    LocksInv(s) && FactsInv(s) && forall i <- s.threads :: ThreadInv(s, s.threads[i])
  }

  lemma MoveKeepsLocks(s: State, i: nat)
    requires Inv(s) && CanMove(s, i)
    ensures LocksInv(Move(s, i))
  {
    var t := Move(s, i);
    assert forall j <- t.threads :: j != i ==> t.threads[j] == s.threads[j];
  }

  lemma MoveKeepsFacts(s: State, i: nat)
    requires Inv(s) && CanMove(s, i)
    ensures FactsInv(Move(s, i)) && s.published <= Move(s, i).published
  {
    if s.threads[i].Updating? { assert s.system == Some(i); }
  }

  /** While a reader holds both locks nothing is published by anyone else. */
  lemma MoveSparesOthers(s: State, i: nat, j: nat)
    requires Inv(s) && CanMove(s, i) && j in s.threads && j != i
    ensures j in Move(s, i).threads && Move(s, i).threads[j] == s.threads[j]
    ensures Move(s, i).published != [] && ThreadInv(Move(s, i), s.threads[j])
  {
    MoveKeepsFacts(s, i);
  }

  lemma MoveKeepsOwn(s: State, i: nat)
    requires Inv(s) && CanMove(s, i) && i in Move(s, i).threads
    ensures Move(s, i).published != [] && ThreadInv(Move(s, i), Move(s, i).threads[i])
  {
    MoveKeepsFacts(s, i);
  }

  lemma MoveKeepsInv(s: State, i: nat)
    requires Inv(s) && CanMove(s, i)
    ensures Inv(Move(s, i))
  {
    MoveKeepsLocks(s, i);
    MoveKeepsFacts(s, i);
    forall j | j in Move(s, i).threads ensures ThreadInv(Move(s, i), Move(s, i).threads[j]) {
      if j == i { MoveKeepsOwn(s, i); } else { MoveSparesOthers(s, i, j); }
    }
  }

  /** A new thread holds nothing and wants something. */
  lemma SpawnKeepsInv(s: State, i: nat, t: Thread)
    requires Inv(s) && i !in s.threads && !t.HoldsStatus() && !t.HoldsSystem() && ThreadInv(s, t)
    ensures Inv(Put(s, i, t))
  {
    assert s.status != Some(i) && s.system != Some(i);
    assert forall j <- s.threads :: Put(s, i, t).threads[j] == s.threads[j];
  }

  lemma StepKeepsInv(s: State, e: Event)
    requires Inv(s)
    ensures Inv(Step(s, e))
  {
    match e
    case OnMove(i) => if CanMove(s, i) { MoveKeepsInv(s, i); }
    case OnUpdate(i, next) => if i !in s.threads { SpawnKeepsInv(s, i, WantsUpdate(next)); }
    case OnHealth(i, health) => if i !in s.threads { SpawnKeepsInv(s, i, WantsHealth(health)); }
    case OnSnapshot(i) => if i !in s.threads { SpawnKeepsInv(s, i, WantsSnapshot(Now(s))); }
  }

  lemma {:induction false} EveryRunKeepsInv(facts: Facts, events: seq<Event>)
    ensures Inv(Run(facts, events))
  {
    if events != [] {
      EveryRunKeepsInv(facts, events[..|events| - 1]);
      StepKeepsInv(Run(facts, events[..|events| - 1]), events[|events| - 1]);
    }
  }

  /**
   In every interleaving, every finished snapshot is one published state in full, published no
   earlier than the current one when the call began and no later than now.
   */
  lemma SnapshotsAreCoherent(facts: Facts, events: seq<Event>, i: nat)
    requires i in Run(facts, events).threads && Run(facts, events).threads[i].Finished?
    ensures var s := Run(facts, events);
            var t := s.threads[i];
            t.since <= t.at < |s.published| && t.snapshot == s.published[t.at]
  {
    EveryRunKeepsInv(facts, events);
  }

  /** An update is published whole, or not yet. */
  lemma UpdatesArePublishedWhole(facts: Facts, events: seq<Event>, i: nat)
    requires i in Run(facts, events).threads && Run(facts, events).threads[i].Updating?
    ensures var s := Run(facts, events);
            var t := s.threads[i];
            && t.written <= 3
            && (t.written == 3 ==> s.published[|s.published| - 1] == t.next == s.facts)
  {
    EveryRunKeepsInv(facts, events);
    assert Run(facts, events).system == Some(i);
  }

  /** No lock cycle can arise: whenever a thread is not finished, some thread can move. */
  lemma NoDeadlock(facts: Facts, events: seq<Event>, i: nat)
    requires i in Run(facts, events).threads && !Run(facts, events).threads[i].Finished?
    ensures exists j :: CanMove(Run(facts, events), j)
  {
    EveryRunKeepsInv(facts, events);
    var s := Run(facts, events);
    if s.system.Some? {
      assert s.threads[s.system.value].HoldsSystem();
      assert CanMove(s, s.system.value);
    } else if s.status.Some? {
      assert s.threads[s.status.value].HoldsStatus();
      assert CanMove(s, s.status.value);
    } else {
      assert !s.threads[i].HoldsStatus();
      assert CanMove(s, i);
    }
  }

  // ---------------------------------------------------------------- calls nobody interrupts

  /** A thread is started and then moves so many times. */
  function Call(start: Event, n: nat): seq<Event> {
    if n == 0 then [start] else Call(start, n - 1) + [OnMove(start.thread)]
  }

  function Alone(s: State, start: Event, n: nat): (t: State)
    requires s.published != []
    ensures t.published != []
  {
    if n == 0 then Step(s, start) else Step(Alone(s, start, n - 1), OnMove(start.thread))
  }

  lemma {:induction false} CallIsARun(facts: Facts, events: seq<Event>, start: Event, n: nat)
    ensures Run(facts, events + Call(start, n)) == Alone(Run(facts, events), start, n)
  {
    var all, call := events + Call(start, n), Call(start, n);
    assert all[..|all| - 1] == if n == 0 then events else events + Call(start, n - 1);
    assert all[|all| - 1] == call[|call| - 1];
    if n > 0 { CallIsARun(facts, events, start, n - 1); }
  }

  /** Nobody holds a lock. */
  predicate Quiet(s: State) { s.status.None? && s.system.None? }

  lemma PutTwice(s: State, i: nat, a: Thread, b: Thread)
    ensures Put(Put(s, i, a), i, b) == Put(s, i, b)
  {
    assert s.threads[i := a][i := b] == s.threads[i := b];
  }

  /** A thread that goes on to its next phase, having changed the rest of the state to `after`. */
  lemma Goes(s: State, after: State, i: nat, a: Thread, b: Thread)
    requires s.published != [] && CanMove(Put(s, i, a), i) && after.threads == s.threads
    requires Move(Put(s, i, a), i) == Put(after.(threads := s.threads[i := a]), i, b)
    ensures Step(Put(s, i, a), OnMove(i)) == Put(after, i, b)
  {
    PutTwice(after, i, a, b);
  }

  /** A thread that ends. */
  lemma Leaves(s: State, after: State, i: nat, a: Thread)
    requires s.published != [] && CanMove(Put(s, i, a), i) && after.threads == s.threads && i !in s.threads
    requires Move(Put(s, i, a), i) == after.(threads := s.threads[i := a] - {i})
    ensures Step(Put(s, i, a), OnMove(i)) == after
  {
    assert s.threads[i := a] - {i} == s.threads;
  }

  lemma AloneUnfolds(s: State, start: Event, n: nat)
    requires s.published != [] && n > 0
    ensures Alone(s, start, n) == Step(Alone(s, start, n - 1), OnMove(start.thread))
  {
  }

  /** A health update publishes one state and leaves the locks free. */
  lemma HealthAlone(s: State, i: nat, health: nat)
    requires s.published != [] && Quiet(s) && i !in s.threads
    ensures var after := s.facts.(health := health);
            Alone(s, OnHealth(i, health), 2) == s.(facts := after, published := s.published + [after])
  {
    var after, e := s.facts.(health := health), OnHealth(i, health);
    AloneUnfolds(s, e, 1);
    AloneUnfolds(s, e, 2);
    Goes(s, s.(status := Some(i)), i, WantsHealth(health), HealthHasStatus(health));
    Leaves(s.(status := Some(i)), s.(facts := after, published := s.published + [after]), i, HealthHasStatus(health));
  }

  /** Up to the moment both locks are taken. */
  lemma UpdateBegins(s: State, i: nat, next: Facts)
    requires s.published != [] && Quiet(s) && i !in s.threads
    ensures Alone(s, OnUpdate(i, next), 2) == Put(s.(status := Some(i), system := Some(i)), i, Updating(next, 0))
  {
    var e := OnUpdate(i, next);
    AloneUnfolds(s, e, 1);
    AloneUnfolds(s, e, 2);
    var half := s.(status := Some(i));
    Goes(s, half, i, WantsUpdate(next), UpdateHasStatus(next));
    Goes(half, half.(system := Some(i)), i, UpdateHasStatus(next), Updating(next, 0));
  }

  lemma UpdateAlone(s: State, i: nat, next: Facts)
    requires s.published != [] && Quiet(s) && i !in s.threads
    ensures Alone(s, OnUpdate(i, next), 6) == s.(facts := next, published := s.published + [next])
  {
    var e, taken := OnUpdate(i, next), s.(status := Some(i), system := Some(i));
    UpdateBegins(s, i, next);
    AloneUnfolds(s, e, 3);
    AloneUnfolds(s, e, 4);
    AloneUnfolds(s, e, 5);
    AloneUnfolds(s, e, 6);
    var one := taken.(facts := s.facts.(health := next.health));
    var two := one.(facts := one.facts.(capabilities := next.capabilities));
    var done := two.(facts := next, published := s.published + [next]);
    Goes(taken, one, i, Updating(next, 0), Updating(next, 1));
    Goes(one, two, i, Updating(next, 1), Updating(next, 2));
    Goes(two, done, i, Updating(next, 2), Updating(next, 3));
    Leaves(done, done.(status := None, system := None), i, Updating(next, 3));
  }

  lemma SnapshotBegins(s: State, i: nat)
    requires s.published != [] && Quiet(s) && i !in s.threads
    ensures Alone(s, OnSnapshot(i), 2) == Put(s.(status := Some(i), system := Some(i)), i, Copying(Now(s), Now(s)))
  {
    var e, half, since := OnSnapshot(i), s.(status := Some(i)), Now(s);
    AloneUnfolds(s, e, 1);
    AloneUnfolds(s, e, 2);
    Goes(s, half, i, WantsSnapshot(since), SnapshotHasStatus(since));
    Goes(half, half.(system := Some(i)), i, SnapshotHasStatus(since), Copying(since, since));
  }

  lemma SnapshotEnds(s: State, i: nat, since: nat)
    requires s.published != [] && Quiet(s) && i !in s.threads
    ensures var taken := s.(status := Some(i), system := Some(i));
            Step(Step(Put(taken, i, Copying(since, since)), OnMove(i)), OnMove(i))
            == Put(s, i, Finished(since, since, s.facts))
  {
    var taken := s.(status := Some(i), system := Some(i));
    var copied := HalfCopied(since, since, s.facts.health, s.facts.capabilities);
    Goes(taken, taken, i, Copying(since, since), copied);
    assert s.(status := None, system := None) == s;
    Goes(taken, s, i, copied, Finished(since, since, s.facts));
  }

  /** A snapshot answers the state current at the call. */
  lemma SnapshotAlone(s: State, i: nat)
    requires s.published != [] && Quiet(s) && i !in s.threads
    ensures Alone(s, OnSnapshot(i), 4) == Put(s, i, Finished(Now(s), Now(s), s.facts))
  {
    SnapshotBegins(s, i);
    AloneUnfolds(s, OnSnapshot(i), 3);
    AloneUnfolds(s, OnSnapshot(i), 4);
    SnapshotEnds(s, i, Now(s));
  }

  /** In a run it changes nothing but to leave its answer. */
  lemma SnapshotInARun(facts: Facts, events: seq<Event>, i: nat)
    requires Quiet(Run(facts, events)) && i !in Run(facts, events).threads
    ensures var s, t := Run(facts, events), Run(facts, events + Call(OnSnapshot(i), 4));
            && Quiet(t) && t.facts == s.facts && t.published == s.published
            && i in t.threads && t.threads[i] == Finished(Now(s), Now(s), s.facts)
  {
    SnapshotAlone(Run(facts, events), i);
    CallIsARun(facts, events, OnSnapshot(i), 4);
  }
}
