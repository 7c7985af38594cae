/**
 Requests at the D-Bus front, interleaved at every await. Mutations claim one flag; create
 and leave write back a registry they loaded before long awaits; the cached status is
 written after the store. A request may be dropped at any await.
 */
module DaemonFront {
  import opened Vocabulary
  import H = HostLifecycle
  import J = JoinTransaction
  import T = PeerTrust

  datatype Command =
    | CreateNetwork(name: string)
    | JoinNetwork(network: NetworkId)
    | LeaveNetwork
    | TrustPeer(node: NodeId)
    | ForgetPeer(node: NodeId)
    | Discovery
    | ReadOnly
  {
    predicate IsMutation() { !ReadOnly? }
  }

  const NO_FAULTS := T.Faults(None, None, None, false, false, None, false, None)

  /** What a command makes of a registry; `drawn` is the identity a create settled on. */
  function Update(r: Registry, c: Command, drawn: NetworkId): Result<Registry> {
    match c
    case CreateNetwork(name) =>
      if Members(r) != {} || drawn in r then Fail(InvalidState) else Ok(H.Created(r, drawn, name))
    case JoinNetwork(network) => J.Joined(r, network)
    case LeaveNetwork =>
      (match CurrentNetwork(r)
       case Err(e) => Err(e)
       case Ok(None) => Ok(r)
       case Ok(Some(network)) => if network in r then Ok(H.Left(r, network)) else Fail(InvalidState))
    case TrustPeer(node) => Answered(T.Trust(T.Files(r, None), node, NO_FAULTS))
    case ForgetPeer(node) => Answered(T.Forget(T.Files(r, None), node, NO_FAULTS))
    case _ => Ok(r)
  }

  function Answered(r: (T.Files, T.Answer<()>)): Result<Registry> {
    match r.1
    case Done(Ok(_)) => Ok(r.0.registry)
    case Done(Err(e)) => Err(e)
    case Crashed => Fail(Internal)
  }

  /** A registry that did not change is not written. */
  predicate Savable(before: Registry, after: Registry) { after == before || Storable(after) }

  /** The cached network after a command succeeded. */
  function NewStatus(cached: Option<NetworkId>, c: Command, drawn: NetworkId): Option<NetworkId> {
    match c
    case CreateNetwork(_) => Some(drawn)
    case JoinNetwork(network) => Some(network)
    case LeaveNetwork => None
    case _ => cached
  }

  // ---------------------------------------------------------------- state

  /** Where a request stands between awaits; all but the first hold the flag. */
  datatype Task =
    | Authorizing(command: Command)
    | Admitted(command: Command)
    | Working(command: Command, snapshot: Registry)
    | Saved(command: Command, drawn: NetworkId)
  {
    predicate Holds() { (Admitted? && command.IsMutation()) || Working? || Saved? }
  }

  datatype State = State(
    busy: bool, store: Registry, cached: Option<NetworkId>, tasks: map<nat, Task>, next: nat,
    saves: seq<(Command, NetworkId)>)

  function Initial(store: Registry, cached: Option<NetworkId>): State {
    State(false, store, cached, map[], 0, [])
  }

  datatype Event =
    | OnRequest(command: Command)
    | OnAuthorized(task: nat, granted: bool)
    | OnLoad(task: nat)
    | OnSave(task: nat, drawn: NetworkId)
    | OnDone(task: nat)
    | OnFailure(task: nat)
    | OnDrop(task: nat)

  /** The request is over; its guard, if it had one, frees the flag. */
  function End(s: State, i: nat): State
    requires i in s.tasks
  {
    s.(busy := s.busy && !s.tasks[i].Holds(), tasks := s.tasks - {i})
  }

  function Authorized(s: State, i: nat, granted: bool): State
    requires i in s.tasks && s.tasks[i].Authorizing?
  {
    var c := s.tasks[i].command;
    if !granted then End(s, i)
    else if !c.IsMutation() then s.(tasks := s.tasks[i := Admitted(c)])
    else if s.busy then End(s, i)
    else s.(busy := true, tasks := s.tasks[i := Admitted(c)])
  }

  /** Joining reloads right before it writes; create and leave write what they loaded at the start. */
  function Base(s: State, t: Task): Registry
    requires t.Working?
  {
    if t.command.JoinNetwork? then s.store else t.snapshot
  }

  function Save(s: State, i: nat, drawn: NetworkId): State
    requires i in s.tasks && s.tasks[i].Working?
  {
    var c := s.tasks[i].command;
    match Update(Base(s, s.tasks[i]), c, drawn)
    case Err(_) => End(s, i)
    case Ok(r) =>
      if !Savable(Base(s, s.tasks[i]), r) then End(s, i)
      else s.(store := r, tasks := s.tasks[i := Saved(c, drawn)], saves := s.saves + [(c, drawn)])
  }

  function Done(s: State, i: nat): State
    requires i in s.tasks && s.tasks[i].Saved?
  {
    End(s.(cached := NewStatus(s.cached, s.tasks[i].command, s.tasks[i].drawn)), i)
  }

  /** Between the save and the cached status there is no await, so a request is not dropped there. */
  function Step(s: State, e: Event): State {
    match e
    case OnRequest(c) => s.(tasks := s.tasks[s.next := Authorizing(c)], next := s.next + 1)
    case OnAuthorized(i, granted) => if i in s.tasks && s.tasks[i].Authorizing? then Authorized(s, i, granted) else s
    case OnLoad(i) =>
      if i in s.tasks && s.tasks[i].Admitted? && s.tasks[i].command.IsMutation()
      then s.(tasks := s.tasks[i := Working(s.tasks[i].command, s.store)]) else s
    case OnSave(i, drawn) => if i in s.tasks && s.tasks[i].Working? then Save(s, i, drawn) else s
    case OnDone(i) =>
      if i in s.tasks && s.tasks[i].Saved? then Done(s, i)
      else if i in s.tasks && s.tasks[i].Admitted? && !s.tasks[i].Holds() then End(s, i)
      else s
    case OnFailure(i) => if i in s.tasks && !s.tasks[i].Saved? then End(s, i) else s
    case OnDrop(i) => if i in s.tasks && !s.tasks[i].Saved? then End(s, i) else s
  }

  function Run(s: State, events: seq<Event>): State {
    if events == [] then s else Step(Run(s, events[..|events| - 1]), events[|events| - 1])
  }

  // ---------------------------------------------------------------- one request alone

  /** What a request nobody interrupts makes of the service. */
  function Handled(s: State, c: Command, granted: bool, fails: bool, drawn: NetworkId): State {
    var after := Update(s.store, c, drawn);
    if !granted || !c.IsMutation() || s.busy || fails || after.Err?
       || !Savable(s.store, after.value) then
      s.(next := s.next + 1)
    else s.(next := s.next + 1, store := after.value, cached := NewStatus(s.cached, c, drawn),
            saves := s.saves + [(c, drawn)])
  }

  function Steps(i: nat, c: Command, granted: bool, fails: bool, drawn: NetworkId): seq<Event> {
    [OnRequest(c), OnAuthorized(i, granted), OnLoad(i), if fails then OnFailure(i) else OnSave(i, drawn), OnDone(i)]
  }

  lemma FiveSteps(s: State, e: seq<Event>)
    requires |e| == 5
    ensures Run(s, e) == Step(Step(Step(Step(Step(s, e[0]), e[1]), e[2]), e[3]), e[4])
  {
    assert e[..4][..3] == e[..3] && e[..3][..2] == e[..2] && e[..2][..1] == e[..1] && e[..1][..0] == [];
    assert Run(s, e[..1]) == Step(s, e[0]);
    assert Run(s, e[..2]) == Step(Run(s, e[..1]), e[1]);
    assert Run(s, e[..3]) == Step(Run(s, e[..2]), e[2]);
    assert Run(s, e[..4]) == Step(Run(s, e[..3]), e[3]);
  }

  lemma Forgotten(tasks: map<nat, Task>, i: nat, t: Task)
    requires i !in tasks
    ensures tasks[i := t] - {i} == tasks
  {
  }

  /** Up to the claim: turned away, or admitted under a fresh number. */
  function Asked(s: State, c: Command, granted: bool): State {
    if !granted || (c.IsMutation() && s.busy) then s.(next := s.next + 1)
    else s.(next := s.next + 1, tasks := s.tasks[s.next := Admitted(c)], busy := c.IsMutation() || s.busy)
  }

  lemma AskAlone(s: State, c: Command, granted: bool)
    requires s.next !in s.tasks
    ensures Step(Step(s, OnRequest(c)), OnAuthorized(s.next, granted)) == Asked(s, c, granted)
  {
    Forgotten(s.tasks, s.next, Authorizing(c));
    assert s.tasks[s.next := Authorizing(c)][s.next := Admitted(c)] == s.tasks[s.next := Admitted(c)];
  }

  lemma GoneIsGone(s: State, i: nat, e: Event)
    requires i !in s.tasks && !e.OnRequest? && e.task == i
    ensures Step(s, e) == s
  {
  }

  lemma ReadAlone(s: State, i: nat, c: Command, fails: bool, drawn: NetworkId)
    requires i !in s.tasks && !c.IsMutation()
    ensures var t := s.(tasks := s.tasks[i := Admitted(c)]);
            Step(Step(Step(t, OnLoad(i)), if fails then OnFailure(i) else OnSave(i, drawn)), OnDone(i)) == s
  {
    Forgotten(s.tasks, i, Admitted(c));
  }

  /** The three steps after the claim. */
  function Rest(s: State, i: nat, fails: bool, drawn: NetworkId): State {
    Step(Step(Step(s, OnLoad(i)), if fails then OnFailure(i) else OnSave(i, drawn)), OnDone(i))
  }

  lemma RefusedAlone(s: State, i: nat, fails: bool, drawn: NetworkId)
    requires i !in s.tasks
    ensures Rest(s, i, fails, drawn) == s
  {
    GoneIsGone(s, i, OnLoad(i));
    GoneIsGone(s, i, if fails then OnFailure(i) else OnSave(i, drawn));
    GoneIsGone(s, i, OnDone(i));
  }

  lemma AfterAsking(s: State, c: Command, granted: bool, fails: bool, drawn: NetworkId)
    requires s.next !in s.tasks
    ensures Rest(Asked(s, c, granted), s.next, fails, drawn) == Handled(s, c, granted, fails, drawn)
  {
    var asked := Asked(s, c, granted);
    if !granted || (c.IsMutation() && s.busy) {
      RefusedAlone(asked, s.next, fails, drawn);
    } else if c.IsMutation() {
      WorkAlone(s, asked, c, fails, drawn);
    } else {
      ReadAlone(s.(next := s.next + 1), s.next, c, fails, drawn);
    }
  }

  lemma TwoThenRest(s: State, asked: State, i: nat, c: Command, granted: bool, fails: bool, drawn: NetworkId)
    requires asked == Step(Step(s, OnRequest(c)), OnAuthorized(i, granted))
    ensures Run(s, Steps(i, c, granted, fails, drawn)) == Rest(asked, i, fails, drawn)
  {
    FiveSteps(s, Steps(i, c, granted, fails, drawn));
  }

  /** Handling a request alone is a run of its steps, so every theorem about runs holds of it. */
  lemma HandledIsARun(s: State, c: Command, granted: bool, fails: bool, drawn: NetworkId)
    requires s.next !in s.tasks
    ensures Run(s, Steps(s.next, c, granted, fails, drawn)) == Handled(s, c, granted, fails, drawn)
  {
    AskAlone(s, c, granted);
    TwoThenRest(s, Asked(s, c, granted), s.next, c, granted, fails, drawn);
    AfterAsking(s, c, granted, fails, drawn);
  }

  lemma WorkAlone(s: State, claimed: State, c: Command, fails: bool, drawn: NetworkId)
    requires s.next !in s.tasks && c.IsMutation() && !s.busy
    requires claimed == s.(next := s.next + 1, tasks := s.tasks[s.next := Admitted(c)], busy := true)
    ensures Step(Step(Step(claimed, OnLoad(s.next)), if fails then OnFailure(s.next) else OnSave(s.next, drawn)),
                 OnDone(s.next))
            == Handled(s, c, true, fails, drawn)
  {
    var i := s.next;
    var working := Step(claimed, OnLoad(i));
    assert s.tasks[i := Admitted(c)][i := Working(c, s.store)] == s.tasks[i := Working(c, s.store)];
    Forgotten(s.tasks, i, Working(c, s.store));
    Forgotten(s.tasks, i, Saved(c, drawn));
    assert s.tasks[i := Working(c, s.store)][i := Saved(c, drawn)] == s.tasks[i := Saved(c, drawn)];
  }

  /** The saves one after the other, each on top of the one before. */
  function Replay(r: Registry, saves: seq<(Command, NetworkId)>): Registry {
    if saves == [] then r else
      var before := Replay(r, saves[..|saves| - 1]);
      var last := saves[|saves| - 1];
      var after := Update(before, last.0, last.1);
      if after.Ok? then after.value else before
  }

  // ---------------------------------------------------------------- what a command means

  /** Entry `n` apart, nothing changed. */
  ghost predicate OthersKept(r: Registry, t: Registry, n: NetworkId) {
    forall m :: m != n ==> (m in t <==> m in r) && (m in r ==> t[m] == r[m])
  }

  /** Peer `node` apart, the entry is the same. */
  ghost predicate OtherPeersKept(a: Membership, b: Membership, node: NodeId) {
    && b.name == a.name && b.state == a.state
    && forall p :: p != node ==> (p in b.peers <==> p in a.peers) && (p in a.peers ==> b.peers[p] == a.peers[p])
  }

  /** The local node is in no network, and so are all peers as it knows them; whom it trusts stays. */
  ghost predicate Departed(a: Membership, b: Membership) {
    && b.name == a.name && b.state == NotMember && b.peers.Keys == a.peers.Keys
    && forall p <- a.peers :: b.peers[p] == PeerFacts(false, a.peers[p].trusted)
  }

  /** What each command does to the registry, said of the registry alone. */
  ghost predicate Effect(r: Registry, t: Registry, c: Command, drawn: NetworkId) {
    match c
    case CreateNetwork(name) =>
      drawn !in r && drawn in t && t[drawn] == Membership(name, Member, map[]) && OthersKept(r, t, drawn)
    case JoinNetwork(n) =>
      && n in t && t[n].state == Member && OthersKept(r, t, n)
      && t[n].peers == (if n in r then r[n].peers else map[])
      && t[n].name == (if n in r then r[n].name else J.DiscoveredName(n))
    case LeaveNetwork =>
      if Members(r) == {} then t == r
      else exists n :: Members(r) == {n} && n in r && n in t && Departed(r[n], t[n]) && OthersKept(r, t, n)
    case TrustPeer(node) =>
      exists n :: && Members(r) == {n} && n in r && n in t && OthersKept(r, t, n) && OtherPeersKept(r[n], t[n], node)
                  && node in t[n].peers
                  && t[n].peers[node] == PeerFacts(node in r[n].peers && r[n].peers[node].member, true)
    case ForgetPeer(node) =>
      exists n :: && Members(r) == {n} && n in r && n in t && OthersKept(r, t, n) && OtherPeersKept(r[n], t[n], node)
                  && node !in t[n].peers
    case _ => t == r
  }

  /** When a command can be carried out on what the file holds. */
  ghost predicate Enabled(r: Registry, c: Command, drawn: NetworkId) {
    match c
    case CreateNetwork(_) => Members(r) == {} && drawn !in r
    case JoinNetwork(n) => Members(r) == {} && (n in r ==> r[n].state in {NotMember, Joining})
    case LeaveNetwork => AtMostOneMember(r)
    case TrustPeer(node) => node != ZERO_NODE && exists n :: Members(r) == {n}
    case ForgetPeer(node) => node != ZERO_NODE && exists n :: Members(r) == {n}
    case _ => true
  }

  lemma TheOneMember(r: Registry)
    ensures (exists n :: Members(r) == {n}) <==> CurrentNetwork(r).Ok? && CurrentNetwork(r).value.Some?
    ensures CurrentNetwork(r).Ok? && CurrentNetwork(r).value.None? <==> Members(r) == {}
  {
    if n :| Members(r) == {n} { OneMember(r, n); }
    if Members(r) == {} { NoMember(r); }
  }

  lemma TrustEffect(r: Registry, node: NodeId, drawn: NetworkId)
    requires Storable(r)
    ensures Update(r, TrustPeer(node), drawn).Ok? <==> Enabled(r, TrustPeer(node), drawn)
    ensures Update(r, TrustPeer(node), drawn).Ok? ==>
              Effect(r, Update(r, TrustPeer(node), drawn).value, TrustPeer(node), drawn)
  {
    TheOneMember(r);
    if Enabled(r, TrustPeer(node), drawn) {
      var n := CurrentNetwork(r).value.value;
      assert n in Members(r);
      var t := T.Trust(T.Files(r, None), node, NO_FAULTS).0.registry;
      assert OthersKept(r, t, n) && OtherPeersKept(r[n], t[n], node);
    }
  }

  lemma ForgetEffect(r: Registry, node: NodeId, drawn: NetworkId)
    requires Storable(r)
    ensures Update(r, ForgetPeer(node), drawn).Ok? <==> Enabled(r, ForgetPeer(node), drawn)
    ensures Update(r, ForgetPeer(node), drawn).Ok? ==>
              Effect(r, Update(r, ForgetPeer(node), drawn).value, ForgetPeer(node), drawn)
  {
    TheOneMember(r);
    if Enabled(r, ForgetPeer(node), drawn) {
      var n := CurrentNetwork(r).value.value;
      assert n in Members(r);
      var t := T.Forget(T.Files(r, None), node, NO_FAULTS).0.registry;
      assert OthersKept(r, t, n) && OtherPeersKept(r[n], t[n], node);
    }
  }

  lemma LeaveEffect(r: Registry, drawn: NetworkId)
    ensures Update(r, LeaveNetwork, drawn).Ok? <==> Enabled(r, LeaveNetwork, drawn)
    ensures Update(r, LeaveNetwork, drawn).Ok? ==> Effect(r, Update(r, LeaveNetwork, drawn).value, LeaveNetwork, drawn)
  {
    TheOneMember(r);
    if CurrentNetwork(r).Ok? && CurrentNetwork(r).value.Some? {
      var n := CurrentNetwork(r).value.value;
      assert n in Members(r);
      assert Departed(r[n], H.Left(r, n)[n]) && OthersKept(r, H.Left(r, n), n);
    }
  }

  lemma JoinEffect(r: Registry, network: NetworkId, drawn: NetworkId)
    ensures Update(r, JoinNetwork(network), drawn).Ok? <==> Enabled(r, JoinNetwork(network), drawn)
    ensures Update(r, JoinNetwork(network), drawn).Ok? ==>
              Effect(r, Update(r, JoinNetwork(network), drawn).value, JoinNetwork(network), drawn)
  {
    TheOneMember(r);
  }

  /** Every command can be carried out exactly when it is enabled, and then has exactly its effect. */
  lemma UpdateExactly(r: Registry, c: Command, drawn: NetworkId)
    requires Storable(r)
    ensures Update(r, c, drawn).Ok? <==> Enabled(r, c, drawn)
    ensures Update(r, c, drawn).Ok? ==> Effect(r, Update(r, c, drawn).value, c, drawn)
  {
    match c
    case JoinNetwork(network) => JoinEffect(r, network, drawn);
    case LeaveNetwork => LeaveEffect(r, drawn);
    case TrustPeer(node) => TrustEffect(r, node, drawn);
    case ForgetPeer(node) => ForgetEffect(r, node, drawn);
    case _ =>
  }

  /** A request succeeds: it is granted and reads, or claims the free flag and its change is made and saved. */
  ghost predicate Succeeds(s: State, c: Command, granted: bool, fails: bool, drawn: NetworkId) {
    && granted
    && (c.IsMutation() ==>
          && !s.busy && !fails && Enabled(s.store, c, drawn)
          && (c.CreateNetwork? ==> drawn != ZERO_NETWORK) && (c.JoinNetwork? ==> c.network != ZERO_NETWORK))
  }

  lemma EffectIsSavable(r: Registry, t: Registry, c: Command, drawn: NetworkId)
    requires Storable(r) && Enabled(r, c, drawn) && Effect(r, t, c, drawn)
    ensures Savable(r, t) <==>
            (c.CreateNetwork? ==> drawn != ZERO_NETWORK) && (c.JoinNetwork? ==> c.network != ZERO_NETWORK)
  {
  }

  /** One request alone, on a store as its file holds it: it makes its change exactly when it succeeds. */
  lemma HandledExactly(s: State, c: Command, granted: bool, fails: bool, drawn: NetworkId)
    requires Storable(s.store)
    ensures var t := Handled(s, c, granted, fails, drawn);
            && t.next == s.next + 1 && t.busy == s.busy && t.tasks == s.tasks
            && (Succeeds(s, c, granted, fails, drawn) && c.IsMutation() ==>
                  && Effect(s.store, t.store, c, drawn) && t.cached == NewStatus(s.cached, c, drawn)
                  && t.saves == s.saves + [(c, drawn)])
            && (!Succeeds(s, c, granted, fails, drawn) || !c.IsMutation() ==> t == s.(next := s.next + 1))
  {
    RequestExactly(s, c, granted, fails, drawn);
  }

  /** The same as the caller sees it: the change is made and saved exactly when the request succeeds. */
  lemma RequestExactly(s: State, c: Command, granted: bool, fails: bool, drawn: NetworkId)
    requires Storable(s.store)
    ensures var after := Update(s.store, c, drawn);
            && (Succeeds(s, c, granted, fails, drawn) <==>
                  granted && (c.IsMutation() ==> !s.busy && !fails && after.Ok? && Savable(s.store, after.value)))
            && (after.Ok? ==> Effect(s.store, after.value, c, drawn))
  {
    UpdateExactly(s.store, c, drawn);
    if Enabled(s.store, c, drawn) { EffectIsSavable(s.store, Update(s.store, c, drawn).value, c, drawn); }
  }

  // ---------------------------------------------------------------- single updates

  /** Every command keeps at most one member network, and its cached status is the one computed from the result. */
  lemma UpdateKeepsOneMember(r: Registry, c: Command, drawn: NetworkId, cached: Option<NetworkId>)
    requires CurrentNetwork(r) == Ok(cached) && Update(r, c, drawn).Ok?
    ensures CurrentNetwork(Update(r, c, drawn).value) == Ok(NewStatus(cached, c, drawn))
  {
    var t := Update(r, c, drawn).value;
    match c
    case CreateNetwork(name) =>
      H.CreatedExactly(r, drawn, name);
      OneMember(t, drawn);
    case JoinNetwork(network) =>
      JoinedMembers(r, network);
      OneMember(t, network);
    case LeaveNetwork =>
      if cached.Some? {
        H.LeftExactly(r, cached.value);
        NoMember(t);
      } else {
        NoMember(t);
      }
    case TrustPeer(node) => TrustKeepsMembers(r, node); SameCurrent(r, t);
    case ForgetPeer(node) => ForgetKeepsMembers(r, node); SameCurrent(r, t);
    case _ =>
  }

  lemma OneMember(r: Registry, n: NetworkId)
    requires Members(r) == {n}
    ensures CurrentNetwork(r) == Ok(Some(n))
  {
    assert AtMostOneMember(r) by { assert forall a <- Members(r) :: a == n; }
    assert n in Members(r);
  }

  lemma NoMember(r: Registry)
    requires Members(r) == {}
    ensures CurrentNetwork(r) == Ok(None)
  {
  }

  lemma SameCurrent(r: Registry, t: Registry)
    requires Members(r) == Members(t) && CurrentNetwork(r).Ok?
    ensures CurrentNetwork(t) == CurrentNetwork(r)
  {
    if CurrentNetwork(r).value.Some? { OneMember(t, CurrentNetwork(r).value.value); } else { NoMember(t); }
  }

  lemma JoinedMembers(r: Registry, network: NetworkId)
    requires J.Joined(r, network).Ok?
    ensures Members(J.Joined(r, network).value) == {network}
  {
    var t := J.Joined(r, network).value;
    assert forall n <- t :: n != network ==> n in r && t[n] == r[n];
    assert forall n <- Members(t) :: n != network ==> n in Members(r);
  }

  lemma TrustKeepsMembers(r: Registry, node: NodeId)
    ensures Members(T.Trust(T.Files(r, None), node, NO_FAULTS).0.registry) == Members(r)
  {
    var t := T.Trust(T.Files(r, None), node, NO_FAULTS).0.registry;
    assert t.Keys == r.Keys && forall n <- r :: t[n].state == r[n].state;
  }

  lemma ForgetKeepsMembers(r: Registry, node: NodeId)
    ensures Members(T.Forget(T.Files(r, None), node, NO_FAULTS).0.registry) == Members(r)
  {
    var t := T.Forget(T.Files(r, None), node, NO_FAULTS).0.registry;
    assert t.Keys == r.Keys && forall n <- r :: t[n].state == r[n].state;
  }

  // ---------------------------------------------------------------- the invariant

  ghost predicate OneHolder(s: State) {
    && (forall i, j :: i in s.tasks && j in s.tasks && s.tasks[i].Holds() && s.tasks[j].Holds() ==> i == j)
    && (s.busy <==> exists i :: i in s.tasks && s.tasks[i].Holds())
    && (forall i <- s.tasks :: i < s.next)
  }

  /** A request that has loaded still sees the store as it is; what is being published is already true of the store. */
  ghost predicate TasksInv(s: State) {
    && (forall i <- s.tasks :: s.tasks[i].Working? ==> s.tasks[i].snapshot == s.store)
    && (forall i <- s.tasks :: s.tasks[i].Working? ==> s.tasks[i].command.IsMutation())
    && (forall i <- s.tasks :: s.tasks[i].Saved? ==>
          CurrentNetwork(s.store) == Ok(NewStatus(s.cached, s.tasks[i].command, s.tasks[i].drawn)))
    && ((forall i <- s.tasks :: !s.tasks[i].Saved?) ==> CurrentNetwork(s.store) == Ok(s.cached))
  }

  ghost predicate Inv(s: State, initial: Registry) {
    OneHolder(s) && TasksInv(s) && CurrentNetwork(s.store).Ok? && s.store == Replay(initial, s.saves)
  }

  lemma EndKeepsHolder(s: State, i: nat)
    requires OneHolder(s) && i in s.tasks
    ensures OneHolder(End(s, i))
  {
    var t := End(s, i);
    if s.tasks[i].Holds() {
      assert forall j <- t.tasks :: !t.tasks[j].Holds();
    } else if s.busy {
      var h :| h in s.tasks && s.tasks[h].Holds();
      assert h in t.tasks && t.tasks[h].Holds();
    }
  }

  lemma EndKeepsInv(s: State, i: nat, initial: Registry)
    requires Inv(s, initial) && i in s.tasks && !s.tasks[i].Saved?
    ensures Inv(End(s, i), initial)
  {
    EndKeepsHolder(s, i);
    var t := End(s, i);
    assert forall j <- t.tasks :: t.tasks[j] == s.tasks[j];
    if forall j <- t.tasks :: !t.tasks[j].Saved? {
      assert forall j <- s.tasks :: !s.tasks[j].Saved?;
    }
  }

  /** A task that neither worked nor was saved, before or after, is no concern of the store. */
  lemma ChangedTaskKeepsTasks(s: State, t: State, i: nat)
    requires TasksInv(s) && t.store == s.store && t.cached == s.cached
    requires i in t.tasks && t.tasks == s.tasks[i := t.tasks[i]] && !t.tasks[i].Working? && !t.tasks[i].Saved?
    requires i in s.tasks ==> !s.tasks[i].Saved?
    ensures TasksInv(t)
  {
    if forall j <- t.tasks :: !t.tasks[j].Saved? {
      forall j | j in s.tasks ensures !s.tasks[j].Saved? {
        assert j != i ==> t.tasks[j] == s.tasks[j];
      }
    }
  }

  lemma ChangedTaskKeepsHolder(s: State, t: State, i: nat)
    requires OneHolder(s) && i < t.next && s.next <= t.next
    requires i in t.tasks && t.tasks == s.tasks[i := t.tasks[i]] && (i in s.tasks ==> !s.tasks[i].Holds())
    requires if t.tasks[i].Holds() then !s.busy && t.busy else t.busy == s.busy
    ensures OneHolder(t)
  {
    if t.tasks[i].Holds() {
      assert forall j <- s.tasks :: !s.tasks[j].Holds();
    } else if s.busy {
      var h :| h in s.tasks && s.tasks[h].Holds();
      assert t.tasks[h].Holds();
    }
  }

  lemma AuthorizedKeepsInv(s: State, i: nat, granted: bool, initial: Registry)
    requires Inv(s, initial) && i in s.tasks && s.tasks[i].Authorizing?
    ensures Inv(Authorized(s, i, granted), initial)
  {
    var c := s.tasks[i].command;
    if !granted || (c.IsMutation() && s.busy) {
      EndKeepsInv(s, i, initial);
    } else {
      ChangedTaskKeepsHolder(s, Authorized(s, i, granted), i);
      ChangedTaskKeepsTasks(s, Authorized(s, i, granted), i);
    }
  }

  lemma LoadKeepsInv(s: State, i: nat, initial: Registry)
    requires Inv(s, initial) && i in s.tasks && s.tasks[i].Admitted? && s.tasks[i].command.IsMutation()
    ensures Inv(Step(s, OnLoad(i)), initial)
  {
    var t := Step(s, OnLoad(i));
    assert s.tasks[i].Holds() && t.tasks[i].Holds();
    assert forall j <- s.tasks :: j != i ==> t.tasks[j] == s.tasks[j];
    assert forall j <- s.tasks :: j != i ==> !s.tasks[j].Saved?;
  }

  lemma SaveKeepsInv(s: State, i: nat, drawn: NetworkId, initial: Registry)
    requires Inv(s, initial) && i in s.tasks && s.tasks[i].Working?
    ensures Inv(Save(s, i, drawn), initial)
  {
    var c := s.tasks[i].command;
    assert s.tasks[i].Holds();
    assert Base(s, s.tasks[i]) == s.store;
    var r := Update(s.store, c, drawn);
    if r.Err? || !Savable(s.store, r.value) {
      EndKeepsInv(s, i, initial);
    } else {
      SavedKeepsInv(s, Save(s, i, drawn), i, drawn);
      assert Save(s, i, drawn).saves[..|s.saves|] == s.saves;
    }
  }

  lemma SavedKeepsInv(s: State, t: State, i: nat, drawn: NetworkId)
    requires OneHolder(s) && TasksInv(s) && i in s.tasks && s.tasks[i].Working?
    requires Update(s.store, s.tasks[i].command, drawn) == Ok(t.store)
    requires t == s.(store := t.store, tasks := s.tasks[i := Saved(s.tasks[i].command, drawn)], saves := t.saves)
    ensures OneHolder(t) && TasksInv(t) && CurrentNetwork(t.store).Ok?
  {
    assert s.tasks[i].Holds() && t.tasks[i].Holds();
    assert forall j <- s.tasks :: j != i ==> t.tasks[j] == s.tasks[j] && !s.tasks[j].Holds();
    UpdateKeepsOneMember(s.store, s.tasks[i].command, drawn, s.cached);
  }

  lemma DoneKeepsInv(s: State, i: nat, initial: Registry)
    requires Inv(s, initial) && i in s.tasks && s.tasks[i].Saved?
    ensures Inv(Done(s, i), initial)
  {
    assert s.tasks[i].Holds();
    var shown := s.(cached := NewStatus(s.cached, s.tasks[i].command, s.tasks[i].drawn));
    EndKeepsHolder(shown, i);
    var t := Done(s, i);
    assert forall j <- t.tasks :: t.tasks[j] == s.tasks[j] && !s.tasks[j].Holds();
  }

  lemma RequestKeepsInv(s: State, c: Command, initial: Registry)
    requires Inv(s, initial)
    ensures Inv(Step(s, OnRequest(c)), initial)
  {
    ChangedTaskKeepsHolder(s, Step(s, OnRequest(c)), s.next);
    ChangedTaskKeepsTasks(s, Step(s, OnRequest(c)), s.next);
  }

  lemma StepKeepsInv(s: State, e: Event, initial: Registry)
    requires Inv(s, initial)
    ensures Inv(Step(s, e), initial)
  {
    match e
    case OnRequest(c) => RequestKeepsInv(s, c, initial);
    case OnAuthorized(i, granted) =>
      if i in s.tasks && s.tasks[i].Authorizing? { AuthorizedKeepsInv(s, i, granted, initial); }
    case OnLoad(i) =>
      if i in s.tasks && s.tasks[i].Admitted? && s.tasks[i].command.IsMutation() { LoadKeepsInv(s, i, initial); }
    case OnSave(i, drawn) => if i in s.tasks && s.tasks[i].Working? { SaveKeepsInv(s, i, drawn, initial); }
    case OnDone(i) =>
      if i in s.tasks {
        if s.tasks[i].Saved? { DoneKeepsInv(s, i, initial); } else { EndKeepsInv(s, i, initial); }
      }
    case OnFailure(i) => if i in s.tasks && !s.tasks[i].Saved? { EndKeepsInv(s, i, initial); }
    case OnDrop(i) => if i in s.tasks && !s.tasks[i].Saved? { EndKeepsInv(s, i, initial); }
  }

  lemma {:induction false} EveryRunKeepsInv(store: Registry, cached: Option<NetworkId>, events: seq<Event>)
    requires CurrentNetwork(store) == Ok(cached)
    ensures Inv(Run(Initial(store, cached), events), store)
  {
    if events != [] {
      EveryRunKeepsInv(store, cached, events[..|events| - 1]);
      StepKeepsInv(Run(Initial(store, cached), events[..|events| - 1]), events[|events| - 1], store);
    }
  }

  // ---------------------------------------------------------------- theorems

  /**
   In every interleaving, dropped requests included: the store is the result of all saves applied
   one after the other, so no save loses another's update, and it holds at most one member network.
   */
  lemma NoLostUpdate(store: Registry, cached: Option<NetworkId>, events: seq<Event>)
    requires CurrentNetwork(store) == Ok(cached)
    ensures var s := Run(Initial(store, cached), events);
            s.store == Replay(store, s.saves) && AtMostOneMember(s.store)
  {
    EveryRunKeepsInv(store, cached, events);
  }

  /** Every save builds on the store as it is at that moment, however long ago it was loaded. */
  lemma SavesBuildOnTheStore(store: Registry, cached: Option<NetworkId>, events: seq<Event>, i: nat, drawn: NetworkId)
    requires CurrentNetwork(store) == Ok(cached)
    requires var s := Run(Initial(store, cached), events);
             i in s.tasks && s.tasks[i].Working? && Save(s, i, drawn).saves != s.saves
    ensures var s := Run(Initial(store, cached), events);
            Update(s.store, s.tasks[i].command, drawn) == Ok(Save(s, i, drawn).store)
  {
    EveryRunKeepsInv(store, cached, events);
  }

  /** Request `i` is past authorization. */
  predicate Past(s: State, i: nat) { i in s.tasks && !s.tasks[i].Authorizing? }

  lemma StepGates(s: State, e: Event, i: nat)
    ensures Past(Step(s, e), i) && !Past(s, i) ==> e == OnAuthorized(i, true)
    ensures Step(s, e).store != s.store || Step(s, e).saves != s.saves ==> e.OnSave? && Past(s, e.task)
  {
  }

  lemma {:induction false} PastWasGranted(store: Registry, cached: Option<NetworkId>, events: seq<Event>, i: nat)
    requires Past(Run(Initial(store, cached), events), i)
    ensures OnAuthorized(i, true) in events
  {
    if events != [] {
      var n := |events| - 1;
      StepGates(Run(Initial(store, cached), events[..n]), events[n], i);
      if Past(Run(Initial(store, cached), events[..n]), i) {
        PastWasGranted(store, cached, events[..n], i);
      } else {
        assert events[n] in events;
      }
    }
  }

  /** Nothing acts unless authorization granted it: an event that changes the store is the save of a granted request. */
  lemma OnlyGrantedRequestsAct(store: Registry, cached: Option<NetworkId>, events: seq<Event>, e: Event)
    requires var s := Run(Initial(store, cached), events); Step(s, e).store != s.store || Step(s, e).saves != s.saves
    ensures e.OnSave? && OnAuthorized(e.task, true) in events
  {
    var s := Run(Initial(store, cached), events);
    StepGates(s, e, 0);
    PastWasGranted(store, cached, events, e.task);
  }

  /** Whenever no mutation is in flight, the cached network is the one the durable store gives. */
  lemma CachedStatusAgrees(store: Registry, cached: Option<NetworkId>, events: seq<Event>)
    requires CurrentNetwork(store) == Ok(cached)
    requires !Run(Initial(store, cached), events).busy
    ensures CurrentNetwork(Run(Initial(store, cached), events).store) == Ok(Run(Initial(store, cached), events).cached)
  {
    EveryRunKeepsInv(store, cached, events);
    var s := Run(Initial(store, cached), events);
    assert forall i <- s.tasks :: !s.tasks[i].Holds();
  }

  /** The flag is never stuck: it is taken exactly while some request holds it, and only one does. */
  lemma FlagIsNeverStuck(store: Registry, cached: Option<NetworkId>, events: seq<Event>)
    requires CurrentNetwork(store) == Ok(cached)
    ensures var s := Run(Initial(store, cached), events);
            && (s.busy <==> exists i :: i in s.tasks && s.tasks[i].Holds())
            && (forall i, j :: i in s.tasks && j in s.tasks && s.tasks[i].Holds() && s.tasks[j].Holds() ==> i == j)
  {
    EveryRunKeepsInv(store, cached, events);
  }
}
