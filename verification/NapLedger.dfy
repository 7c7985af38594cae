/**
 The radio capacity of one NAP: slots reserved for a peer under a fresh generation,
 promoted when the attachment is seen, and given back only by that very generation.
 */
module NapLedger {
  import opened Vocabulary

  datatype Capabilities = Capabilities(adapterUsable: Option<bool>, canHost: Option<bool>, ceiling: Option<nat>)

  datatype Decision = Decision(connectedBefore: nat, remainingAfter: nat, alreadyAttached: bool)

  datatype Ledger = Ledger(
    network: NetworkId, scope: nat, host: Capabilities,
    active: map<NodeId, U64>, pending: map<NodeId, U64>, generation: U64, closed: bool)

  /** A ticket names the NAP instance it came from, so that callbacks of an earlier one are recognised. */
  datatype Ticket = Ticket(network: NetworkId, scope: nat, candidate: NodeId, generation: U64)

  const U16_MAX: nat := 65535

  predicate Real(n: NodeId) { AnyNonzero(n.bytes) }

  /** The admission policy over every client seen, attached or still pending. */
  function Plan(host: Capabilities, active: set<NodeId>, pending: set<NodeId>, candidate: NodeId): Result<Decision> {
    var seen := active + pending;
    if !Real(candidate) then Fail(InvalidInput)
    else if host.adapterUsable != Some(true) || host.canHost != Some(true) || host.ceiling.None? then
      Fail(CapabilityUnavailable)
    else if host.ceiling.value == 0 then Fail(InvalidInput)
    else if !(forall n <- seen :: Real(n)) || !(active !! pending) || |seen| > U16_MAX then Fail(InvalidInput)
    else if |seen| > host.ceiling.value then Fail(InvalidState)
    else if candidate !in seen && |seen| == host.ceiling.value then Fail(CapabilityUnavailable)
    else
      var already := candidate in seen;
      Ok(Decision(|seen|, host.ceiling.value - |seen| - (if already then 0 else 1), already))
  }

  function Reserve(l: Ledger, candidate: NodeId): (Ledger, Result<Ticket>) {
    if l.closed || candidate in l.pending || candidate in l.active then (l, Fail(InvalidState))
    else if Plan(l.host, l.active.Keys, l.pending.Keys, candidate).Err? then
      (l, Err(Plan(l.host, l.active.Keys, l.pending.Keys, candidate).error))
    else if l.generation == U64_MAX then (l, Fail(InvalidState))
    else
      var g := l.generation + 1;
      (l.(generation := g, pending := l.pending[candidate := g]), Ok(Ticket(l.network, l.scope, candidate, g)))
  }

  predicate Owns(l: Ledger, t: Ticket) { t.network == l.network && t.scope == l.scope }

  predicate IsPending(l: Ledger, t: Ticket) { t.candidate in l.pending && l.pending[t.candidate] == t.generation }

  predicate IsActive(l: Ledger, t: Ticket) { t.candidate in l.active && l.active[t.candidate] == t.generation }

  /** The slot this ticket stands for is still taken. */
  predicate Occupied(l: Ledger, t: Ticket) { Owns(l, t) && (IsPending(l, t) || IsActive(l, t)) }

  function Activate(l: Ledger, t: Ticket): (Ledger, Result<bool>) {
    if !Owns(l, t) || l.closed then (l, Fail(InvalidState))
    else if IsActive(l, t) then (l, Ok(false))
    else if !IsPending(l, t) then (l, Fail(InvalidState))
    else if Plan(l.host, l.active.Keys, l.pending.Keys, t.candidate).Err? then
      (l, Err(Plan(l.host, l.active.Keys, l.pending.Keys, t.candidate).error))
    else (l.(pending := l.pending - {t.candidate}, active := l.active[t.candidate := t.generation]), Ok(true))
  }

  function Retire(l: Ledger, t: Ticket): (Ledger, bool) {
    if !Owns(l, t) then (l, false)
    else if IsPending(l, t) then (l.(pending := l.pending - {t.candidate}), true)
    else if IsActive(l, t) then (l.(active := l.active - {t.candidate}), true)
    else (l, false)
  }

  function Close(l: Ledger): Ledger { l.(closed := true, active := map[], pending := map[]) }

  function UpdateCapabilities(l: Ledger, host: Capabilities): Ledger { if l.closed then l else l.(host := host) }

  // ---------------------------------------------------------------- what the ledger keeps

  function Taken(l: Ledger): nat { |l.active| + |l.pending| }

  /** A client is attached or pending, never both, and every generation in use was issued. */
  ghost predicate Sound(l: Ledger) {
    && l.active.Keys !! l.pending.Keys
    && (forall n <- l.active :: Real(n) && l.active[n] <= l.generation)
    && (forall n <- l.pending :: Real(n) && l.pending[n] <= l.generation)
    && (l.closed ==> l.active == map[] && l.pending == map[])
  }

  lemma {:induction false} DisjointUnion<T>(a: set<T>, b: set<T>)
    requires a !! b
    ensures |a + b| == |a| + |b|
    decreases a
  {
    if a != {} {
      var x :| x in a;
      DisjointUnion(a - {x}, b);
      assert a + b == (a - {x}) + b + {x};
    } else {
      assert a + b == b;
    }
  }

  ghost predicate Usable(host: Capabilities) {
    host.adapterUsable == Some(true) && host.canHost == Some(true) && host.ceiling.Some?
  }

  lemma PlanOfSets(host: Capabilities, active: set<NodeId>, pending: set<NodeId>, candidate: NodeId, taken: nat)
    requires active !! pending && taken == |active + pending|
    requires forall n <- active + pending :: Real(n)
    ensures Plan(host, active, pending, candidate).Ok? <==>
            && Real(candidate) && Usable(host) && taken <= U16_MAX
            && if candidate in active + pending then taken <= host.ceiling.value else taken < host.ceiling.value
  {
    if candidate in active + pending { assert taken != 0; }
  }

  /** Room for one more if the candidate is new, no overbooking if it is not. */
  lemma PlanExactly(l: Ledger, candidate: NodeId)
    requires Sound(l)
    ensures Plan(l.host, l.active.Keys, l.pending.Keys, candidate).Ok? <==>
            && Real(candidate) && Usable(l.host) && Taken(l) <= U16_MAX
            && if candidate in l.active || candidate in l.pending then Taken(l) <= l.host.ceiling.value
               else Taken(l) < l.host.ceiling.value
  {
    DisjointUnion(l.active.Keys, l.pending.Keys);
    PlanOfSets(l.host, l.active.Keys, l.pending.Keys, candidate, Taken(l));
  }

  /** A slot is granted exactly to a new, real client of an open, usable NAP with room left. */
  lemma ReserveExactly(l: Ledger, candidate: NodeId)
    requires Sound(l)
    ensures Reserve(l, candidate).1.Ok? <==>
            && !l.closed && Real(candidate) && candidate !in l.active && candidate !in l.pending
            && Usable(l.host) && Taken(l) < l.host.ceiling.value && Taken(l) <= U16_MAX && l.generation < U64_MAX
    ensures Reserve(l, candidate).1.Err? ==> Reserve(l, candidate).0 == l
  {
    PlanExactly(l, candidate);
  }

  /** The ledger with one more pending slot under a generation never used before. */
  function Grown(l: Ledger, candidate: NodeId): Ledger
    requires l.generation < U64_MAX
  {
    l.(generation := l.generation + 1, pending := l.pending[candidate := l.generation + 1])
  }

  lemma GrownIsSound(l: Ledger, candidate: NodeId)
    requires Sound(l) && !l.closed && l.generation < U64_MAX && Real(candidate) && candidate !in l.active
             && candidate !in l.pending
    ensures Sound(Grown(l, candidate)) && Taken(Grown(l, candidate)) == Taken(l) + 1
  {
  }

  lemma GrownSlots(l: Ledger, candidate: NodeId, u: Ticket)
    requires l.generation < U64_MAX && candidate !in l.active && candidate !in l.pending
    ensures Occupied(Grown(l, candidate), u) <==>
            Occupied(l, u) || u == Ticket(l.network, l.scope, candidate, l.generation + 1)
  {
  }

  lemma ReserveTakesOne(l: Ledger, candidate: NodeId)
    requires Sound(l) && Reserve(l, candidate).1.Ok?
    ensures var (m, t) := Reserve(l, candidate);
            && Sound(m) && Taken(m) == Taken(l) + 1 <= l.host.ceiling.value
            && t.value == Ticket(l.network, l.scope, candidate, l.generation + 1) && !Occupied(l, t.value)
            && forall u: Ticket :: Occupied(m, u) <==> Occupied(l, u) || u == t.value
  {
    ReserveExactly(l, candidate);
    GrownIsSound(l, candidate);
    forall u: Ticket ensures Occupied(Grown(l, candidate), u) <==>
      Occupied(l, u) || u == Ticket(l.network, l.scope, candidate, l.generation + 1)
    {
      GrownSlots(l, candidate, u);
    }
  }

  /** A slot is promoted exactly when this generation is pending and the policy still allows it. */
  lemma ActivateExactly(l: Ledger, t: Ticket)
    requires Sound(l)
    ensures Activate(l, t).1 == Ok(true) <==>
            Owns(l, t) && IsPending(l, t) && Usable(l.host) && Taken(l) <= l.host.ceiling.value && Taken(l) <= U16_MAX
    ensures Activate(l, t).1 == Ok(false) <==> Owns(l, t) && IsActive(l, t)
    ensures Activate(l, t).1 == Ok(true) ==> IsActive(Activate(l, t).0, t)
    ensures Activate(l, t).1 != Ok(true) ==> Activate(l, t).0 == l
  {
    PlanExactly(l, t.candidate);
  }

  lemma OneLess(m: map<NodeId, U64>, n: NodeId)
    requires n in m
    ensures |m - {n}| == |m| - 1
  {
    assert m.Keys == (m - {n}).Keys + {n};
    assert |m.Keys| == |m| && |(m - {n}).Keys| == |m - {n}|;
  }

  lemma ActivateSlot(l: Ledger, t: Ticket, u: Ticket)
    requires Sound(l)
    ensures Occupied(Activate(l, t).0, u) <==> Occupied(l, u)
  {
  }

  /** Promotion moves a slot without giving it to anyone else. */
  lemma ActivateKeepsSlots(l: Ledger, t: Ticket)
    requires Sound(l)
    ensures Sound(Activate(l, t).0) && Taken(Activate(l, t).0) == Taken(l)
    ensures forall u: Ticket :: Occupied(Activate(l, t).0, u) <==> Occupied(l, u)
  {
    if Activate(l, t).1 == Ok(true) { OneLess(l.pending, t.candidate); }
    forall u: Ticket ensures Occupied(Activate(l, t).0, u) <==> Occupied(l, u) { ActivateSlot(l, t, u); }
  }

  /** Retiring frees the slot of exactly this ticket, once. */
  lemma RetireExactly(l: Ledger, t: Ticket)
    requires Sound(l)
    ensures Sound(Retire(l, t).0) && (Retire(l, t).1 <==> Occupied(l, t))
    ensures Retire(l, t).1 ==> Taken(Retire(l, t).0) == Taken(l) - 1
    ensures !Retire(l, t).1 ==> Retire(l, t).0 == l
    ensures forall u: Ticket :: Occupied(Retire(l, t).0, u) <==> Occupied(l, u) && u != t
  {
    if Owns(l, t) && IsPending(l, t) { OneLess(l.pending, t.candidate); }
    else if Owns(l, t) && IsActive(l, t) { OneLess(l.active, t.candidate); }
  }
}
