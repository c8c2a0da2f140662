/** The current staker snapshot: stake records, validator entities and the
    node-indexed collection, and the weight a node contributes to a network. */
module Stakers {
  import opened Wrappers
  import opened Ids

  /** One commitment of weight to one network, with the transaction that
      registered it. */
  datatype StakeRecord = StakeRecord(weight: Uint64, txId: Id)

  /** One node's staking posture: an optional primary-network stake and its
      stakes on subnets, keyed by subnet identifier. */
  datatype ValidatorEntity = ValidatorEntity(
    primary: Option<StakeRecord>,
    subnets: map<Id, StakeRecord>)

  /** The snapshot of every currently staking node. */
  type Collection = map<NodeId, ValidatorEntity>

  /** The stake record that counts for `net`: the primary stake for the
      primary network, otherwise the subnet entry for `net`. */
  function RecordFor(v: ValidatorEntity, net: Id): (rec: Option<StakeRecord>)
  {
    if net == PrimaryNetworkId then v.primary
    else if net in v.subnets then Some(v.subnets[net])
    else None
  }

  /** The weight `v` has on `net`, if it has a record for `net`. */
  function WeightFor(v: ValidatorEntity, net: Id): (w: Option<Uint64>)
  {
    match RecordFor(v, net)
    case None => None
    case Some(rec) => Some(rec.weight)
  }

  /** True when `v` contributes a positive weight to `net`. */
  predicate Staked(v: ValidatorEntity, net: Id)
  {
    WeightFor(v, net).Some? && WeightFor(v, net).value > 0
  }

  /** The weight `v` contributes to `net`, zero when it has none. */
  function StakeOrZero(v: ValidatorEntity, net: Id): (w: Uint64)
    ensures w > 0 <==> Staked(v, net)
  {
    match WeightFor(v, net)
    case None => 0
    case Some(w) => w
  }

  /** The entity with the origin transaction of every record replaced by `tx`. */
  function WithOrigin(v: ValidatorEntity, tx: Id): (v': ValidatorEntity)
  {
    ValidatorEntity(
      match v.primary
      case None => None
      case Some(rec) => Some(StakeRecord(rec.weight, tx)),
      map s | s in v.subnets :: StakeRecord(v.subnets[s].weight, tx))
  }

  /** The primary network reads only the primary stake, and a subnet reads
      only its own entry of the subnet map. */
  lemma WeightForSelectsNetwork(v: ValidatorEntity, net: Id)
    ensures net == PrimaryNetworkId ==>
      WeightFor(v, net) == (if v.primary.Some? then Some(v.primary.value.weight) else None)
    ensures net != PrimaryNetworkId ==>
      WeightFor(v, net) == (if net in v.subnets then Some(v.subnets[net].weight) else None)
    ensures net == PrimaryNetworkId ==>
      forall subnets :: WeightFor(ValidatorEntity(v.primary, subnets), net) == WeightFor(v, net)
    ensures net != PrimaryNetworkId ==>
      forall primary :: WeightFor(ValidatorEntity(primary, v.subnets), net) == WeightFor(v, net)
  {
  }

  /** A node's weight on any network does not depend on the origin
      transaction of its records. */
  lemma WeightForIgnoresOrigin(v: ValidatorEntity, tx: Id, net: Id)
    ensures WeightFor(WithOrigin(v, tx), net) == WeightFor(v, net)
  {
  }
}
