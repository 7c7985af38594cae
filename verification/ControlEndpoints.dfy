/** Where the host listens and what the client may dial, decided from fresh observations. */
module ControlEndpoints {
  import opened Vocabulary
  import opened AddressPlan
  import Hex

  // ---------------------------------------------------------------- binding the listener

  function Bridge(network: NetworkId): Interface {
    "brb-" + Hex.Encode(network.bytes)[..8]
  }

  function BindAddress(network: NetworkId, config: Config, observed: seq<InterfaceAddress>): Result<Endpoint> {
    if network == ZERO_NETWORK then
      Fail(InvalidInput)
    else if config.validation.Err? then
      Err(config.validation.error)
    else if PlanFor(network, config.pool).Err? then
      Err(PlanFor(network, config.pool).error)
    else
      BindOn(network, Bridge(network), PlanFor(network, config.pool).value, observed)
  }

  function BindOn(network: NetworkId, bridge: Interface, plan: StarPlan, observed: seq<InterfaceAddress>)
    : Result<Endpoint>
  {
    if !plan.host.address.V4? then
      Fail(InvalidState)
    else if exists a <- observed :: a.prefix.address == plan.host.address
                                      && (a.owner != network || a.interface != bridge) then
      Fail(AddressConflict)
    else if exists a <- observed :: a.interface == bridge && a.owner != network then
      Fail(AddressConflict)
    else if exists a <- observed :: a.owner == network && a.interface == bridge && a.prefix != plan.host then
      Fail(InvalidState)
    else if !exists a <- observed :: a.owner == network && a.interface == bridge && a.prefix == plan.host then
      Fail(InvalidState)
    else
      Ok(Endpoint(plan.host.address.value, CONTROL_TCP_PORT))
  }

  /** The daemon configuration: its pool, and what checking all of it answered. */
  datatype Config = Config(pool: Pool, validation: Result<()>)

  function Planned(network: NetworkId, plan: StarPlan): InterfaceAddress {
    InterfaceAddress(Bridge(network), plan.host, network)
  }

  /** Observed entries that touch the bridge or the host address. */
  function Touching(network: NetworkId, plan: StarPlan, observed: seq<InterfaceAddress>): set<InterfaceAddress> {
    set a | a in observed && (a.interface == Bridge(network) || a.prefix.address == plan.host.address)
  }

  lemma BindOnExactly(network: NetworkId, plan: StarPlan, observed: seq<InterfaceAddress>)
    requires plan.host.address.V4?
    ensures BindOn(network, Bridge(network), plan, observed).Ok? <==>
            Touching(network, plan, observed) == {Planned(network, plan)}
  {
    var bridge, touching, planned := Bridge(network), Touching(network, plan, observed), Planned(network, plan);
    if BindOn(network, bridge, plan, observed).Ok? {
      assert forall a <- touching :: a.owner == network && a.interface == bridge && a.prefix == plan.host;
      assert planned in touching;
    } else if touching == {planned} {
      assert planned in touching;
      assert forall a <- observed :: a.interface == bridge || a.prefix.address == plan.host.address ==> a in touching;
      assert false;
    }
  }

  /** Binding is allowed exactly when the entries touching bridge or host IP are the planned one alone. */
  lemma BindExactly(network: NetworkId, config: Config, observed: seq<InterfaceAddress>)
    ensures BindAddress(network, config, observed).Ok? <==>
            && network != ZERO_NETWORK && config.validation.Ok? && PlanFor(network, config.pool).Ok?
            && var plan := PlanFor(network, config.pool).value;
            Touching(network, plan, observed) == {Planned(network, plan)}
    ensures BindAddress(network, config, observed).Ok? ==>
            BindAddress(network, config, observed).value
            == Endpoint(SegmentStart(network, config.pool) + 1, CONTROL_TCP_PORT)
  {
    if PlanFor(network, config.pool).Ok? {
      BindOnExactly(network, PlanFor(network, config.pool).value, observed);
    }
  }

  /** Order and repetition of the observations never change the decision, not even its error. */
  lemma BindReadsASet(network: NetworkId, config: Config, a: seq<InterfaceAddress>, b: seq<InterfaceAddress>)
    requires forall x :: x in a <==> x in b
    ensures BindAddress(network, config, a) == BindAddress(network, config, b)
  {
  }

  // ---------------------------------------------------------------- dialling out

  datatype PanLink = PanLink(interface: Interface)

  type Lease = InterfaceAddress

  function PlannedEndpoint(network: NetworkId, link: PanLink, lease: Lease, pool: Pool): Result<Endpoint> {
    if network == ZERO_NETWORK then
      Fail(InvalidInput)
    else if PlanFor(network, pool).Err? then
      Err(PlanFor(network, pool).error)
    else
      var plan := PlanFor(network, pool).value;
      if lease.owner != network || lease.interface != link.interface then
        Fail(InvalidState)
      else if lease.prefix != plan.firstClient then
        Fail(AddressConflict)
      else
        Ok(Endpoint(plan.host.address.value, CONTROL_TCP_PORT))
  }

  /** The dial guard accepts exactly the lease the plan gives this network on this link. */
  lemma DialExactly(network: NetworkId, link: PanLink, lease: Lease, pool: Pool)
    ensures PlannedEndpoint(network, link, lease, pool).Ok? <==>
            && network != ZERO_NETWORK && Validate(pool).Ok?
            && lease.owner == network && lease.interface == link.interface && lease.prefix.length == pool.segmentLength
            && lease.prefix.address.V4? && lease.prefix.address.value == SegmentStart(network, pool) + 2
  {
    PlanExists(network, pool);
  }

  /** For one network and pool the client dials the very socket the host binds. */
  lemma DialMeetsBind(network: NetworkId, config: Config, observed: seq<InterfaceAddress>, link: PanLink, lease: Lease)
    requires PlannedEndpoint(network, link, lease, config.pool).Ok?
    requires BindAddress(network, config, observed).Ok?
    ensures PlannedEndpoint(network, link, lease, config.pool) == BindAddress(network, config, observed)
    ensures lease.prefix.address != V4(BindAddress(network, config, observed).value.ip)
  {
    BindExactly(network, config, observed);
  }

  function RequireLiveLease(lease: Lease, owned: seq<InterfaceAddress>, active: seq<ActivePrefix>): Result<()> {
    if !exists a <- owned :: a == lease then
      Fail(InvalidState)
    else if exists a <- owned :: a.prefix.address == lease.prefix.address && a != lease then
      Fail(InvalidState)
    else if !exists p <- active :: p.interface == Some(lease.interface) && p.prefix == lease.prefix then
      Fail(InvalidState)
    else if exists p <- active :: p.prefix.address == lease.prefix.address
                                  && (p.interface != Some(lease.interface) || p.prefix != lease.prefix) then
      Fail(InvalidState)
    else
      Ok(())
  }

  /** The lease is live exactly when, in each list, the entries with its IP are its own entry alone. */
  lemma LiveExactly(lease: Lease, owned: seq<InterfaceAddress>, active: seq<ActivePrefix>)
    ensures RequireLiveLease(lease, owned, active).Ok? <==>
            && (set a | a in owned && a.prefix.address == lease.prefix.address) == {lease}
            && (set p | p in active && p.prefix.address == lease.prefix.address)
               == {ActivePrefix(Some(lease.interface), lease.prefix)}
  {
    var sameOwned := set a | a in owned && a.prefix.address == lease.prefix.address;
    var sameActive := set p | p in active && p.prefix.address == lease.prefix.address;
    var own := ActivePrefix(Some(lease.interface), lease.prefix);
    if RequireLiveLease(lease, owned, active).Ok? {
      assert lease in sameOwned && own in sameActive;
      assert forall a <- sameOwned :: a == lease;
      assert forall p <- sameActive :: p == own;
    } else if sameOwned == {lease} && sameActive == {own} {
      assert lease in sameOwned && own in sameActive;
      assert forall a <- owned :: a.prefix.address == lease.prefix.address ==> a in sameOwned;
      assert forall p <- active :: p.prefix.address == lease.prefix.address ==> p in sameActive;
      assert false;
    }
  }

  lemma LivenessReadsSets(lease: Lease, owned: seq<InterfaceAddress>, owned': seq<InterfaceAddress>,
                          active: seq<ActivePrefix>, active': seq<ActivePrefix>)
    requires forall x :: x in owned <==> x in owned'
    requires forall x :: x in active <==> x in active'
    ensures RequireLiveLease(lease, owned, active) == RequireLiveLease(lease, owned', active')
  {
  }
}
