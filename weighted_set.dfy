/** The weighted validator set handed to consensus: node weights and their
    total, queried through Len, Weight and GetWeight. */
module WeightedSets {
  import opened Ids

  /** The sum of the weights in `m`, in no particular order. */
  ghost function Sum(m: map<NodeId, Uint64>): (total: nat)
    decreases |m|
  {
    if m == map[] then 0
    else
      var k :| k in m;
      assert |m - {k}| < |m| by { assert (m - {k}).Keys == m.Keys - {k}; }
      m[k] + Sum(m - {k})
  }

  /** Entries of `m` with a positive weight. */
  function Positive(m: map<NodeId, Uint64>): (p: map<NodeId, Uint64>)
    ensures p.Keys <= m.Keys
    ensures forall k :: k in p ==> p[k] == m[k] && p[k] > 0
  {
    map k | k in m && m[k] > 0 :: m[k]
  }

  /** Every weight in `m` is positive. */
  ghost predicate AllPositive(m: map<NodeId, Uint64>)
  {
    forall k :: k in m ==> m[k] > 0
  }

  /** `small` is `big` with some entries left out. */
  ghost predicate Submap(small: map<NodeId, Uint64>, big: map<NodeId, Uint64>)
  {
    forall k :: k in small ==> k in big && small[k] == big[k]
  }

  /** The sum does not depend on which key is taken out first. */
  lemma {:induction false} SumRemove(m: map<NodeId, Uint64>, k: NodeId)
    requires k in m
    ensures Sum(m) == m[k] + Sum(m - {k})
    decreases |m|
  {
    var j :| j in m && Sum(m) == m[j] + Sum(m - {j});
    if j != k {
      var rest := m - {j} - {k};
      assert (m - {j}).Keys == m.Keys - {j};
      assert (m - {k}).Keys == m.Keys - {k};
      SumRemove(m - {j}, k);
      assert (m - {j}) - {k} == rest;
      SumRemove(m - {k}, j);
      assert (m - {k}) - {j} == rest;
    }
  }

  /** Adding a fresh entry adds its weight to the sum. */
  lemma SumInsert(m: map<NodeId, Uint64>, k: NodeId, w: Uint64)
    requires k !in m
    ensures Sum(m[k := w]) == Sum(m) + w
  {
    SumRemove(m[k := w], k);
    assert m[k := w] - {k} == m;
  }

  /** Leaving entries out never increases the sum. */
  lemma {:induction false} SumSubmap(small: map<NodeId, Uint64>, big: map<NodeId, Uint64>)
    requires Submap(small, big)
    ensures Sum(small) <= Sum(big)
    decreases |big|
  {
    if big.Keys <= small.Keys {
      assert small == big;
    } else {
      var k :| k in big && k !in small;
      SumRemove(big, k);
      assert (big - {k}).Keys == big.Keys - {k};
      SumSubmap(small, big - {k});
    }
  }

  /** Zero weights do not change the sum. */
  lemma {:induction false} SumDropsZeros(m: map<NodeId, Uint64>)
    ensures Sum(Positive(m)) == Sum(m)
    decreases |m|
  {
    if m != map[] {
      var k :| k in m;
      SumRemove(m, k);
      assert (m - {k}).Keys == m.Keys - {k};
      SumDropsZeros(m - {k});
      if m[k] > 0 {
        SumRemove(Positive(m), k);
        assert Positive(m) - {k} == Positive(m - {k});
      } else {
        assert Positive(m) == Positive(m - {k});
      }
    }
  }

  /** With every weight positive, the sum is at least the number of entries,
      and so it is zero exactly when the map is empty. */
  lemma {:induction false} SumBoundsCount(m: map<NodeId, Uint64>)
    ensures AllPositive(m) ==> |m| <= Sum(m)
    ensures AllPositive(m) ==> (Sum(m) == 0 <==> m == map[])
    decreases |m|
  {
    if m != map[] && AllPositive(m) {
      var k :| k in m;
      SumRemove(m, k);
      assert (m - {k}).Keys == m.Keys - {k};
      assert AllPositive(m - {k});
      SumBoundsCount(m - {k});
    }
  }

  /** A projected validator set: each member's weight and the total. */
  datatype WeightedSet = WeightedSet(weights: map<NodeId, Uint64>, total: Uint64)
  {
    /** Every member has a positive weight and the total is their sum. */
    ghost predicate Valid()
    {
      AllPositive(weights) && total == Sum(weights)
    }

    /** The number of members; in a valid set never more than the total
        weight, since every member weighs at least one. */
    function Len(): (n: nat)
      ensures n == |weights.Keys|
      ensures Valid() ==> n <= total
    {
      SumBoundsCount(weights);
      |weights|
    }

    /** The total weight; in a valid set zero exactly when it is empty. */
    function Weight(): (w: Uint64)
      ensures Valid() ==> w == Sum(weights)
      ensures Valid() ==> (w == 0 <==> weights == map[])
    {
      SumBoundsCount(weights);
      total
    }

    /** A node's weight and whether it is a member; an absent node reads as
        (0, false), and in a valid set a member never reads as weight 0. */
    function GetWeight(n: NodeId): (r: (Uint64, bool))
      ensures r.1 <==> n in weights
      ensures r.1 ==> r.0 == weights[n]
      ensures !r.1 ==> r.0 == 0
      ensures Valid() ==> (r.1 <==> r.0 > 0)
    {
      if n in weights then (weights[n], true) else (0, false)
    }
  }
}
