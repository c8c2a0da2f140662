/** The validator-set projection: from the current staker snapshot and a
    network identifier to the weighted set of nodes staking that network. */
module Projection {
  import opened Wrappers
  import opened Ids
  import opened Stakers
  import opened WeightedSets

  /** The only failure: the total weight does not fit in 64 bits. */
  datatype ProjectionError = Overflow

  /** Each node staking `net`, with the weight it stakes there. */
  function Members(c: Collection, net: Id): (m: map<NodeId, Uint64>)
    ensures AllPositive(m)
  {
    map n | n in c && Staked(c[n], net) :: StakeOrZero(c[n], net)
  }

  /** The nodes staking `net`. */
  ghost function StakingNodes(c: Collection, net: Id): (nodes: set<NodeId>)
  {
    set n | n in c && Staked(c[n], net)
  }

  /** The weight every node of the collection contributes to `net`, zero for
      a node that has none there. */
  function Contributions(c: Collection, net: Id): (m: map<NodeId, Uint64>)
  {
    map n | n in c :: StakeOrZero(c[n], net)
  }

  /** Reference total: the sum, over the whole collection, of what each node
      contributes to `net`. */
  ghost function CollectionWeight(c: Collection, net: Id): (total: nat)
  {
    Sum(Contributions(c, net))
  }

  /** The projection of `c` onto `net`: the staking nodes with their
      weights and the total, or Overflow when the total exceeds 2^64 - 1. */
  ghost function Project(c: Collection, net: Id): (r: Result<WeightedSet, ProjectionError>)
  {
    var members := Members(c, net);
    if Sum(members) <= MaxUint64 then Success(WeightedSet(members, Sum(members)))
    else Failure(Overflow)
  }

  /** Conservation: the members' weights add up to what the whole collection
      contributes to `net`. */
  lemma MembersConserveWeight(c: Collection, net: Id)
    ensures Sum(Members(c, net)) == CollectionWeight(c, net)
  {
    assert Members(c, net) == Positive(Contributions(c, net));
    SumDropsZeros(Contributions(c, net));
  }

  /** The projection fails exactly when the collection's total stake on
      `net` does not fit in 64 bits. */
  lemma ProjectFailsOnlyOnOverflow(c: Collection, net: Id)
    ensures Project(c, net).Failure? <==> CollectionWeight(c, net) > MaxUint64
  {
    MembersConserveWeight(c, net);
  }

  /** A successful projection is a valid weighted set whose total is the
      collection's total stake on `net`. */
  lemma ProjectTotal(c: Collection, net: Id)
    requires Project(c, net).Success?
    ensures Project(c, net).value.Valid()
    ensures Project(c, net).value.Weight() == CollectionWeight(c, net)
  {
    MembersConserveWeight(c, net);
  }

  /** Completeness: GetWeight finds every node staking `net`, with exactly
      its stake there, and reports every other node, including one that is
      not in the collection at all, as absent. */
  lemma ProjectGetWeight(c: Collection, net: Id, n: NodeId)
    requires Project(c, net).Success?
    ensures n in c && Staked(c[n], net) ==>
      Project(c, net).value.GetWeight(n) == (WeightFor(c[n], net).value, true)
    ensures !(n in c && Staked(c[n], net)) ==>
      Project(c, net).value.GetWeight(n) == (0, false)
    ensures n !in c ==> !Project(c, net).value.GetWeight(n).1
  {
  }

  /** Len counts the distinct nodes staking `net`. */
  lemma ProjectLen(c: Collection, net: Id)
    requires Project(c, net).Success?
    ensures Project(c, net).value.Len() == |StakingNodes(c, net)|
  {
    assert Project(c, net).value.weights.Keys == StakingNodes(c, net);
  }

  /** Only weights matter: two snapshots over the same nodes whose weights
      on `net` agree project to the same result, whatever their origin
      transactions or their stakes on other networks. */
  lemma ProjectDependsOnlyOnWeights(c1: Collection, c2: Collection, net: Id)
    requires c1.Keys == c2.Keys
    requires forall n :: n in c1 ==> WeightFor(c1[n], net) == WeightFor(c2[n], net)
    ensures Project(c1, net) == Project(c2, net)
  {
    assert Members(c1, net) == Members(c2, net);
  }

  /** Re-stamping every record of a snapshot with another origin
      transaction leaves every projection unchanged. */
  lemma ProjectIgnoresOrigins(c: Collection, tx: Id, net: Id)
    ensures Project(map n | n in c :: WithOrigin(c[n], tx), net) == Project(c, net)
  {
    var c' := map n | n in c :: WithOrigin(c[n], tx);
    forall n | n in c
      ensures WeightFor(c'[n], net) == WeightFor(c[n], net)
    {
      WeightForIgnoresOrigin(c[n], tx, net);
    }
    ProjectDependsOnlyOnWeights(c', c, net);
  }

  /** Primary/subnet separation: giving every node the same new primary
      stake leaves every subnet's projection unchanged, and giving every
      node a new subnet map leaves the primary network's projection
      unchanged. */
  lemma ProjectSeparatesNetworks(c: Collection, net: Id,
                                 primary: Option<StakeRecord>, subnets: map<Id, StakeRecord>)
    ensures net != PrimaryNetworkId ==>
      Project(map n | n in c :: ValidatorEntity(primary, c[n].subnets), net) == Project(c, net)
    ensures net == PrimaryNetworkId ==>
      Project(map n | n in c :: ValidatorEntity(c[n].primary, subnets), net) == Project(c, net)
  {
    var withPrimary := map n | n in c :: ValidatorEntity(primary, c[n].subnets);
    var withSubnets := map n | n in c :: ValidatorEntity(c[n].primary, subnets);
    forall n | n in c
      ensures net != PrimaryNetworkId ==> WeightFor(withPrimary[n], net) == WeightFor(c[n], net)
      ensures net == PrimaryNetworkId ==> WeightFor(withSubnets[n], net) == WeightFor(c[n], net)
    {
      WeightForSelectsNetwork(c[n], net);
    }
    if net != PrimaryNetworkId {
      ProjectDependsOnlyOnWeights(withPrimary, c, net);
    } else {
      ProjectDependsOnlyOnWeights(withSubnets, c, net);
    }
  }

  /** Builds the weighted set for `net` in one pass over the snapshot, in
      whatever order the nodes are visited, adding each staking node's
      weight to the running total and failing as soon as that total would
      exceed 2^64 - 1.  The result is the projection whatever the order, so
      two calls on the same snapshot give value-equal results; the snapshot
      itself is a value and is not changed. */
  method ValidatorSet(c: Collection, net: Id) returns (r: Result<WeightedSet, ProjectionError>)
    ensures r == Project(c, net)
  {
    var weights: map<NodeId, Uint64> := map[];
    var total: Uint64 := 0;
    var todo := c.Keys;
    while todo != {}
      invariant todo <= c.Keys
      invariant weights == Members(c - todo, net)
      invariant total == Sum(weights)
      decreases todo
    {
      var n :| n in todo;
      var w := StakeOrZero(c[n], net);
      if w > 0 {
        SumInsert(weights, n, w);
        if total + w > MaxUint64 {
          assert Submap(weights[n := w], Members(c, net));
          SumSubmap(weights[n := w], Members(c, net));
          return Failure(Overflow);
        }
        weights := weights[n := w];
        total := total + w;
      }
      todo := todo - {n};
    }
    assert c - todo == c;
    return Success(WeightedSet(weights, total));
  }
}
