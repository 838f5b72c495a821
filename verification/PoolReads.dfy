/** Finding the pool for the size notice (chain-actions.ts): fee tiers are probed in order until one answers. */
module PoolReads {
  import opened Text

  const V3_FEE_TIERS: seq<nat> := [100, 500, 3000, 10000]

  const ZERO_ADDRESS := "0x0000000000000000000000000000000000000000"

  /** One `getPool` read. */
  datatype PoolRead = Threw | Answered(pool: string)

  predicate IsPool(r: PoolRead) { r.Answered? && r.pool != "" && Lower(r.pool) != ZERO_ADDRESS }

  /** An answer names a pool unless it is empty or the zero address, in either spelling of its `x`. */
  lemma {:induction false} IsPoolExactly(r: PoolRead)
    ensures IsPool(r) <==>
            r.Answered? && r.pool != "" && !SameLetters(r.pool, "0x0000000000000000000000000000000000000000")
  {
    if r.Answered? {
      LowerIs(ZERO_ADDRESS, ZERO_ADDRESS);
      LowerEqualIff(r.pool, ZERO_ADDRESS);
    }
  }

  /** The pool of the first tier that has one, provided every earlier tier answered that it has none: a failed read
      ends the search rather than moving on to a different pool. */
  method ResolvePool(getPool: nat -> PoolRead) returns (pool: Option<string>)
    ensures pool.Some? <==> exists i :: 0 <= i < |V3_FEE_TIERS| && IsPool(getPool(V3_FEE_TIERS[i]))
                                       && forall j :: 0 <= j < i ==> getPool(V3_FEE_TIERS[j]).Answered?
    ensures pool.Some? ==>
              exists i :: 0 <= i < |V3_FEE_TIERS| && getPool(V3_FEE_TIERS[i]) == Answered(pool.value)
                 && IsPool(Answered(pool.value))
                 && forall j :: 0 <= j < i ==> getPool(V3_FEE_TIERS[j]).Answered? && !IsPool(getPool(V3_FEE_TIERS[j]))
  {
    for i := 0 to |V3_FEE_TIERS|
      invariant forall j :: 0 <= j < i ==> getPool(V3_FEE_TIERS[j]).Answered? && !IsPool(getPool(V3_FEE_TIERS[j]))
    {
      var r := getPool(V3_FEE_TIERS[i]);
      if r.Threw? { return None; }
      if r.pool != "" && Lower(r.pool) != ZERO_ADDRESS { return Some(r.pool); }
    }
    return None;
  }
}
