# Validator-set projection of the platform VM's current stakers

This project models how the platform VM turns its snapshot of currently
staking validators into the weighted validator set that consensus uses for
one network. The snapshot maps each node ID to a validator entity. An entity
has an optional primary-network stake (a weight plus the ID of the
transaction that added it) and a map from subnet ID to that subnet's stake.
Projecting onto the primary network ID uses each node's primary stake.
Projecting onto any other ID uses the node's entry for that subnet. The
result is queried through `Len`, `Weight` and `GetWeight`.

`current_staker.go`, which implements the projection, is not part of this
model. `current_staker_test.go` fixes the data shapes and the observable
results, and the model follows it. The
modules are:

- `Wrappers`: `Option` and `Result`.
- `Ids`: 32-byte IDs, 20-byte node IDs, `Uint64`. The primary network ID is
  the all-zero ID, which is what avalanchego's `constants.PrimaryNetworkID`
  is (`ids.Empty`); `utils/constants` is not part of this model.
- `Stakers`: `StakeRecord`, `ValidatorEntity`, `Collection` and `WeightFor`,
  the weight one entity has on one network.
- `WeightedSets`: the result set, its queries, and the sum of a map of
  weights, shown not to depend on the order in which entries are added.
- `Projection`: `Project`, the projection as a function of the snapshot.
  `ValidatorSet` is a one-pass loop over the snapshot in arbitrary order
  (Go map iteration order is unspecified), proved equal to `Project`.
- `Scenarios`: the two tests. Each one builds its snapshot and calls
  `ValidatorSet` twice.

Design choices:

- A record of weight 0 adds no member. The set holds positive weights only,
  so `GetWeight` can tell "not staking" from "staking".
- If the running total would exceed 2^64 - 1, the projection fails with
  `Overflow` and returns no partial set.
- A node with no primary stake is left out of the primary-network projection.
  The test builds such nodes (the subnet test) but never projects them onto
  the primary network. The test file does not fix this behaviour; the model
  leaves such nodes out.

## Model

| member | source | states |
|---|---|---|
| `Ids.PaddedId` | vms/platformvm/state/transactions/current_staker_test.go:30 | an ID literal with a short byte prefix is that prefix followed by zero bytes, 32 bytes in all |
| `Stakers.WeightForSelectsNetwork` | vms/platformvm/state/transactions/current_staker_test.go:115-130 | for the primary network ID a node's weight is its primary stake's `Wght` and its subnet map is ignored; for any other ID it is that subnet entry's `Wght`, absent when there is no entry, and the primary stake is ignored |
| `Stakers.WeightForIgnoresOrigin` | vms/platformvm/state/transactions/current_staker_test.go:49-57 | replacing the origin transaction of every record of an entity leaves its weight on every network unchanged |
| `WeightedSets.SumRemove` | vms/platformvm/state/transactions/current_staker_test.go:75 | the total of a weight map is any one entry's weight plus the total of the rest, so it does not depend on the order of summation |
| `WeightedSets.SumBoundsCount` | vms/platformvm/state/transactions/current_staker_test.go:74-75 | with all weights positive, the number of entries is at most the total, and the total is 0 exactly when the map is empty |
| `WeightedSets.WeightedSet.Len` | vms/platformvm/state/transactions/current_staker_test.go:74 | `Len` is the number of distinct members and, in a valid set, at most the total weight |
| `WeightedSets.WeightedSet.Weight` | vms/platformvm/state/transactions/current_staker_test.go:75 | in a valid set `Weight` is the sum of the member weights, and 0 exactly when the set is empty |
| `WeightedSets.WeightedSet.GetWeight` | vms/platformvm/state/transactions/current_staker_test.go:76-86 | `exists` holds exactly for members, with the member's weight; a non-member reads as (0, false); in a valid set `exists` holds exactly when the weight is positive |
| `Projection.MembersConserveWeight` | vms/platformvm/state/transactions/current_staker_test.go:75 | the projected members' weights sum to the total that every node of the snapshot contributes to the network, with zero for nodes that have no stake there |
| `Projection.ProjectFailsOnlyOnOverflow` | vms/platformvm/state/transactions/current_staker_test.go:70-71 | the projection returns an error exactly when the snapshot's total stake on the network exceeds 2^64 - 1 |
| `Projection.ProjectTotal` | vms/platformvm/state/transactions/current_staker_test.go:187 | a successful projection is a valid set (positive weights, total is their sum) whose `Weight` is the snapshot's total stake on the network |
| `Projection.ProjectGetWeight` | vms/platformvm/state/transactions/current_staker_test.go:76-86 | `GetWeight` returns (the node's stake on the network, true) for every node staking it, and (0, false) for every other node, including one not in the snapshot |
| `Projection.ProjectLen` | vms/platformvm/state/transactions/current_staker_test.go:74 | `Len` equals the number of distinct nodes of the snapshot staking the network |
| `Projection.ProjectDependsOnlyOnWeights` | vms/platformvm/state/transactions/current_staker_test.go:49-57 | two snapshots over the same nodes with the same weights on the network give the same projection, whatever their origin transactions or other stakes |
| `Projection.ProjectIgnoresOrigins` | vms/platformvm/state/transactions/current_staker_test.go:49-57 | re-stamping every record of a snapshot with another origin transaction leaves the projection unchanged |
| `Projection.ProjectSeparatesNetworks` | vms/platformvm/state/transactions/current_staker_test.go:115-130 | replacing every node's primary stake leaves any subnet's projection unchanged, and replacing every node's subnet map leaves the primary network's projection unchanged |
| `Projection.ValidatorSet` | vms/platformvm/state/transactions/current_staker_test.go:89-106 | the one-pass loop, visiting nodes in any order, returns exactly the projection, so repeated calls on the same snapshot give value-equal results and the snapshot value is not changed |
| `Scenarios.ThreeStakers` | vms/platformvm/state/transactions/current_staker_test.go:59-65 | a snapshot of three distinct nodes each staking the network projects to exactly those three nodes with their weights and total |
| `Scenarios.PrimaryValidatorSetScenario` | vms/platformvm/state/transactions/current_staker_test.go:19-107 | projecting the primary network over primary weights 1, 2, 2 twice: no error, length 3, total 5, each node's weight, the fourth node absent, second result equal to the first |
| `Scenarios.SubnetValidatorSetScenario` | vms/platformvm/state/transactions/current_staker_test.go:109-219 | the same observations when projecting a subnet ID over nodes whose only stakes are on that subnet, with weights 1, 2, 2 |

## Left out

- Delegations, potential rewards and the pending-staker view of the current
  staker state. The test file does not set or read them, so the model counts
  only each record's own `Wght`.
- `current_staker.go` is not part of this model. The projection's contract is
  read off the test file; where the test is silent (zero weights, overflow,
  subnet-only nodes on the primary network) the model's choices are the ones
  listed under Design choices.
- Transaction types (signing, serialisation, validation). Only the weight and
  the transaction ID of each stake are kept.
- Random test ID generation. Node and subnet IDs are parameters of the
  scenarios and are only required to be distinct; the subnet ID must also
  differ from the primary network ID.
- The internals of the consensus validator set (sampling, locking, in-place
  updates). Only its `Len`, `Weight` and `GetWeight` observations are modelled.
- Persistence and the add/remove lifecycle of validators. The snapshot is a
  value, so "the projection does not change the snapshot" holds by
  construction.
- Overflow of the total is modelled as an error result, but the tests never
  trigger it.
- Projecting the primary network over nodes with only subnet stakes. The model
  leaves such nodes out, but the tests never check this, so no property is
  claimed for it.
