/** The two validator-set scenarios of the current staker tests: three
    nodes staking the primary network with weights 1, 2, 2, and three nodes
    staking one subnet (and not the primary network) with weights 1, 2, 2.
    Each scenario projects the same snapshot twice. Node and subnet
    identifiers are generated afresh by the tests, so here they are
    parameters required only to be distinct. */
module Scenarios {
  import opened Wrappers
  import opened Ids
  import opened Stakers
  import opened WeightedSets
  import opened Projection

  // Origin transactions of the tests' records: "vdr0ID", "vdr1ID",
  // "subvdr0ID", "subvdr1ID", "subvdr2ID" in the leading bytes.
  const Vdr0TxId: Id := PaddedId([0x76, 0x64, 0x72, 0x30, 0x49, 0x44])
  const Vdr1TxId: Id := PaddedId([0x76, 0x64, 0x72, 0x31, 0x49, 0x44])
  const SubVdr0TxId: Id := PaddedId([0x73, 0x75, 0x62, 0x76, 0x64, 0x72, 0x30, 0x49, 0x44])
  const SubVdr1TxId: Id := PaddedId([0x73, 0x75, 0x62, 0x76, 0x64, 0x72, 0x31, 0x49, 0x44])
  const SubVdr2TxId: Id := PaddedId([0x73, 0x75, 0x62, 0x76, 0x64, 0x72, 0x32, 0x49, 0x44])

  /** A validator staking only the primary network. */
  function PrimaryStaker(weight: Uint64, tx: Id): ValidatorEntity
  {
    ValidatorEntity(Some(StakeRecord(weight, tx)), map[])
  }

  /** A validator staking only `subnet`, with no primary stake. */
  function SubnetStaker(subnet: Id, weight: Uint64, tx: Id): ValidatorEntity
  {
    ValidatorEntity(None, map[subnet := StakeRecord(weight, tx)])
  }

  /** The primary-network snapshot; the third node's record has no origin
      transaction set, which leaves it the all-zero identifier. */
  function PrimarySnapshot(n0: NodeId, n1: NodeId, n2: NodeId): Collection
  {
    map[n0 := PrimaryStaker(1, Vdr0TxId),
        n1 := PrimaryStaker(2, Vdr1TxId),
        n2 := PrimaryStaker(2, EmptyId)]
  }

  /** The subnet snapshot. */
  function SubnetSnapshot(subnet: Id, n0: NodeId, n1: NodeId, n2: NodeId): Collection
  {
    map[n0 := SubnetStaker(subnet, 1, SubVdr0TxId),
        n1 := SubnetStaker(subnet, 2, SubVdr1TxId),
        n2 := SubnetStaker(subnet, 2, SubVdr2TxId)]
  }

  /** A snapshot of exactly three distinct nodes, each staking `net`,
      projects to those three nodes with their weights and their sum. */
  lemma ThreeStakers(c: Collection, net: Id, n0: NodeId, n1: NodeId, n2: NodeId,
                     w0: Uint64, w1: Uint64, w2: Uint64)
    requires n0 != n1 && n0 != n2 && n1 != n2
    requires c.Keys == {n0, n1, n2}
    requires WeightFor(c[n0], net) == Some(w0) && w0 > 0
    requires WeightFor(c[n1], net) == Some(w1) && w1 > 0
    requires WeightFor(c[n2], net) == Some(w2) && w2 > 0
    requires w0 + w1 + w2 <= MaxUint64
    ensures Project(c, net) == Success(WeightedSet(map[n0 := w0, n1 := w1, n2 := w2], w0 + w1 + w2))
  {
    var m := map[n0 := w0, n1 := w1, n2 := w2];
    assert Members(c, net) == m;
    SumInsert(map[], n0, w0);
    SumInsert(map[n0 := w0], n1, w1);
    SumInsert(map[n0 := w0, n1 := w1], n2, w2);
  }

  /** The primary-network scenario: both projections succeed with three
      members, total weight 1 + 2 + 2, each node's own weight, the
      unregistered node absent, and the second equal to the first. */
  method PrimaryValidatorSetScenario(n0: NodeId, n1: NodeId, n2: NodeId, n3: NodeId)
    returns (first: Result<WeightedSet, ProjectionError>, second: Result<WeightedSet, ProjectionError>)
    requires n0 != n1 && n0 != n2 && n1 != n2
    requires n3 != n0 && n3 != n1 && n3 != n2
    ensures first.Success?
    ensures first.value.Len() == 3
    ensures first.value.Weight() == 1 + 2 + 2
    ensures first.value.GetWeight(n0) == (1, true)
    ensures first.value.GetWeight(n1) == (2, true)
    ensures first.value.GetWeight(n2) == (2, true)
    ensures !first.value.GetWeight(n3).1
    ensures second.Success?
    ensures second.value.Len() == 3
    ensures second.value.Weight() == 1 + 2 + 2
    ensures second.value.GetWeight(n0) == (1, true)
    ensures second.value.GetWeight(n1) == (2, true)
    ensures second.value.GetWeight(n2) == (2, true)
    ensures second == first
  {
    var cs := PrimarySnapshot(n0, n1, n2);
    ThreeStakers(cs, PrimaryNetworkId, n0, n1, n2, 1, 2, 2);
    first := ValidatorSet(cs, PrimaryNetworkId);
    second := ValidatorSet(cs, PrimaryNetworkId);
  }

  /** The subnet scenario: the same observations, projecting the subnet
      identifier over nodes that have no primary stake. */
  method SubnetValidatorSetScenario(subnet: Id, n0: NodeId, n1: NodeId, n2: NodeId, n3: NodeId)
    returns (first: Result<WeightedSet, ProjectionError>, second: Result<WeightedSet, ProjectionError>)
    requires subnet != PrimaryNetworkId
    requires n0 != n1 && n0 != n2 && n1 != n2
    requires n3 != n0 && n3 != n1 && n3 != n2
    ensures first.Success?
    ensures first.value.Len() == 3
    ensures first.value.Weight() == 1 + 2 + 2
    ensures first.value.GetWeight(n0) == (1, true)
    ensures first.value.GetWeight(n1) == (2, true)
    ensures first.value.GetWeight(n2) == (2, true)
    ensures !first.value.GetWeight(n3).1
    ensures second.Success?
    ensures second.value.Len() == 3
    ensures second.value.Weight() == 1 + 2 + 2
    ensures second.value.GetWeight(n0) == (1, true)
    ensures second.value.GetWeight(n1) == (2, true)
    ensures second.value.GetWeight(n2) == (2, true)
    ensures second == first
  {
    var cs := SubnetSnapshot(subnet, n0, n1, n2);
    ThreeStakers(cs, subnet, n0, n1, n2, 1, 2, 2);
    first := ValidatorSet(cs, subnet);
    second := ValidatorSet(cs, subnet);
  }
}
