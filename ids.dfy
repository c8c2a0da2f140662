/** Identifiers and the unsigned 64-bit weight type.

    Node identities and network / transaction identifiers are opaque
    fixed-width byte strings: 20 bytes for a node, 32 bytes for everything
    else.  The reserved primary-network identifier is the all-zero 32-byte
    identifier, which is also the value an unset transaction reference has. */
module Ids {

  type Byte = bv8

  const IdLen: nat := 32
  const NodeIdLen: nat := 20

  /** `n` zero bytes. */
  function Zeros(n: nat): (s: seq<Byte>)
    ensures |s| == n
    ensures forall i :: 0 <= i < n ==> s[i] == 0
  {
    if n == 0 then [] else [0] + Zeros(n - 1)
  }

  /** A 32-byte identifier: a subnet, the primary network, or a transaction. */
  type Id = s: seq<Byte> | |s| == IdLen witness Zeros(32)

  /** A 20-byte node identity. */
  type NodeId = s: seq<Byte> | |s| == NodeIdLen witness Zeros(20)

  /** The all-zero identifier (the zero value of an identifier). */
  const EmptyId: Id := Zeros(IdLen)

  /** The reserved identifier of the primary network. */
  const PrimaryNetworkId: Id := EmptyId

  /** An identifier whose leading bytes are `prefix`, the rest zero, as a
      partially filled fixed-size array literal gives. */
  function PaddedId(prefix: seq<Byte>): (id: Id)
    requires |prefix| <= IdLen
    ensures id[..|prefix|] == prefix
    ensures forall i :: |prefix| <= i < IdLen ==> id[i] == 0
  {
    prefix + Zeros(IdLen - |prefix|)
  }

  const MaxUint64: nat := 0xFFFF_FFFF_FFFF_FFFF

  /** An unsigned 64-bit integer. */
  type Uint64 = x: int | 0 <= x <= MaxUint64
}
