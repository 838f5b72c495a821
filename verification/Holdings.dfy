/** Share of NAV (Holdings.tsx): integer basis points over what could be priced, plus idle cash. */
module Holdings {
  import opened Text

  /** A leg's value, missing when its price could not be read. */
  type LegValue = Option<nat>

  const IDLE_SCALE: nat := 1_000_000_000_000

  function BasketWad(legs: seq<LegValue>): nat {
    if legs == [] then 0
    else BasketWad(legs[..|legs| - 1]) + (if legs[|legs| - 1].Some? then legs[|legs| - 1].value else 0)
  }

  function TotalWad(legs: seq<LegValue>, idleUsdc: nat): nat { BasketWad(legs) + idleUsdc * IDLE_SCALE }

  /** The integer that feeds the displayed percentage; missing where the table shows a dash. */
  function ShareBps(part: LegValue, total: nat): Option<nat> {
    if part.None? || total == 0 then None else Some(part.value * 10000 / total)
  }

  function PricedCount(legs: seq<LegValue>): nat {
    if legs == [] then 0 else PricedCount(legs[..|legs| - 1]) + (if legs[|legs| - 1].Some? then 1 else 0)
  }

  /** The shares shown for the legs, added up; a dash adds nothing. */
  function ShownBps(legs: seq<LegValue>, total: nat): nat
    requires total > 0
  {
    if legs == [] then 0
    else
      ShownBps(legs[..|legs| - 1], total)
      + (if legs[|legs| - 1].Some? then legs[|legs| - 1].value * 10000 / total else 0)
  }

  /** What the divisions cut off, added up. */
  function Cut(legs: seq<LegValue>, total: nat): nat
    requires total > 0
  {
    if legs == [] then 0
    else Cut(legs[..|legs| - 1], total) + (if legs[|legs| - 1].Some? then legs[|legs| - 1].value * 10000 % total else 0)
  }

  /** A shown share is the part of the whole in basis points, cut once; there is none of an unpriced part or an empty
      whole. */
  lemma {:induction false} ShareIsCut(part: LegValue, total: nat)
    ensures ShareBps(part, total).Some? <==> part.Some? && total > 0
    ensures ShareBps(part, total).Some? ==>
              var shown := ShareBps(part, total).value;
              shown * total <= part.value * 10000 < (shown + 1) * total
  {
    if ShareBps(part, total).Some? {
      DivideBack(part.value * 10000, total);
      Distribute(part.value * 10000 / total, 1, total);
    }
  }

  /** A dollar is a dollar: `n` whole idle USDC, counted in millionths, weigh what a leg worth `n` dollars weighs,
      counted with eighteen decimals. */
  lemma {:induction false} DollarIsDollar(legs: seq<LegValue>, n: nat)
    ensures TotalWad(legs, n * 1_000_000) == TotalWad(legs + [Some(n * 1_000_000_000_000_000_000)], 0)
  {
    assert (legs + [Some(n * 1_000_000_000_000_000_000)])[..|legs|] == legs;
  }

  lemma DivideBack(a: nat, b: nat)
    requires b > 0
    ensures a / b * b + a % b == a && a % b < b
  {
  }

  lemma Distribute(a: int, b: int, c: int)
    ensures (a + b) * c == a * c + b * c
  {
  }

  lemma Monotone(a: int, b: int, c: int)
    requires a <= b && c >= 0
    ensures a * c <= b * c
  {
  }

  /** Adding one more priced leg to the account of shares and cuts. */
  lemma OneMoreShare(shown: nat, cut: nat, basket: nat, count: nat, value: nat, total: nat)
    requires total > 0 && shown * total + cut == basket * 10000 && cut <= count * (total - 1)
    ensures (shown + value * 10000 / total) * total + (cut + value * 10000 % total) == (basket + value) * 10000
    ensures cut + value * 10000 % total <= (count + 1) * (total - 1)
  {
    DivideBack(value * 10000, total);
    Distribute(shown, value * 10000 / total, total);
    Distribute(count, 1, total - 1);
  }

  /** The shown shares and the cut remainders account for the whole basket. */
  lemma {:induction false} SharesAndCutsAddUp(legs: seq<LegValue>, total: nat)
    requires total > 0
    ensures ShownBps(legs, total) * total + Cut(legs, total) == BasketWad(legs) * 10000
    ensures Cut(legs, total) <= PricedCount(legs) * (total - 1)
  {
    if legs != [] {
      var front, last := legs[..|legs| - 1], legs[|legs| - 1];
      SharesAndCutsAddUp(front, total);
      if last.Some? {
        OneMoreShare(ShownBps(front, total), Cut(front, total), BasketWad(front), PricedCount(front), last.value,
                     total);
      }
    }
  }

  lemma NotOver(sum: nat, cut: nat, total: nat)
    requires total > 0 && sum * total + cut == 10000 * total
    ensures sum <= 10000
  {
    if sum > 10000 { Monotone(10001, sum, total); }
  }

  lemma NotFarUnder(sum: nat, cut: nat, n: nat, total: nat)
    requires total > 0 && sum * total + cut == 10000 * total && cut <= n * (total - 1) && n > 0
    ensures 10000 < sum + n
  {
    if sum + n <= 10000 {
      Monotone(sum + n, 10000, total);
      Distribute(sum, n, total);
      LessPerShare(n, total);
    }
  }

  lemma LessPerShare(n: nat, total: nat)
    requires n > 0 && total > 0
    ensures n * (total - 1) < n * total
  {
  }

  /** For any non-negative values with a positive total, the shares shown for the k priced legs and idle cash add up
      to at least 10000 - k and at most 10000 basis points, and fall short exactly by what the divisions cut off. */
  lemma {:induction false} ShownSharesNearlyAddUp(legs: seq<LegValue>, idleUsdc: nat)
    requires TotalWad(legs, idleUsdc) > 0
    ensures var total := TotalWad(legs, idleUsdc);
            var idle := ShareBps(Some(idleUsdc * IDLE_SCALE), total);
            && idle.Some?
            && 10000 - PricedCount(legs) <= ShownBps(legs, total) + idle.value <= 10000
            && (ShownBps(legs, total) + idle.value) * total
               + (Cut(legs, total) + idleUsdc * IDLE_SCALE * 10000 % total) == 10000 * total
  {
    var total := TotalWad(legs, idleUsdc);
    SharesAndCutsAddUp(legs, total);
    WithIdle(ShownBps(legs, total), Cut(legs, total), BasketWad(legs), PricedCount(legs), idleUsdc * IDLE_SCALE);
  }

  /** The whole: the legs' account, and idle cash as one more share. */
  lemma {:induction false} WithIdle(shown: nat, cut: nat, basket: nat, count: nat, idleWad: nat)
    requires var total := basket + idleWad;
             total > 0 && shown * total + cut == basket * 10000 && cut <= count * (total - 1)
    ensures var total := basket + idleWad;
            && 10000 - count <= shown + idleWad * 10000 / total <= 10000
            && (shown + idleWad * 10000 / total) * total + (cut + idleWad * 10000 % total) == 10000 * total
  {
    var total := basket + idleWad;
    OneMoreShare(shown, cut, basket, count, idleWad, total);
    var sum, cuts := shown + idleWad * 10000 / total, cut + idleWad * 10000 % total;
    NotOver(sum, cuts, total);
    NotFarUnder(sum, cuts, count + 1, total);
  }

  lemma {:induction false} RemoveLeg(legs: seq<LegValue>, more: seq<LegValue>, total: nat)
    requires total > 0
    ensures BasketWad(legs + [None] + more) == BasketWad(legs + more)
    ensures ShownBps(legs + [None] + more, total) == ShownBps(legs + more, total)
  {
    if more == [] {
      assert (legs + [None])[..|legs|] == legs;
      assert legs + [None] + more == legs + [None] && legs + more == legs;
    } else {
      var front, last := more[..|more| - 1], more[|more| - 1];
      RemoveLeg(legs, front, total);
      var a, b := legs + [None] + more, legs + more;
      assert a[..|a| - 1] == legs + [None] + front && b[..|b| - 1] == legs + front;
    }
  }

  /** A leg whose price could not be read is in neither numerator nor denominator: dropping it from the basket changes
      no other leg's share. */
  lemma {:induction false} UnpricedLegDoesNotCount(legs: seq<LegValue>, more: seq<LegValue>, idleUsdc: nat,
      part: LegValue)
    ensures TotalWad(legs + [None] + more, idleUsdc) == TotalWad(legs + more, idleUsdc)
    ensures ShareBps(part, TotalWad(legs + [None] + more, idleUsdc)) == ShareBps(part, TotalWad(legs + more, idleUsdc))
    ensures ShareBps(None, TotalWad(legs + [None] + more, idleUsdc)) == None
  {
    RemoveLeg(legs, more, 1);
  }

  /** Both ends of the bound are reached: one dust leg beside one idle dollar-unit costs a basis point. */
  lemma {:induction false} BoundIsReached()
    ensures var total := TotalWad([Some(1)], 1);
            ShownBps([Some(1)], total) + ShareBps(Some(IDLE_SCALE), total).value == 10000 - PricedCount([Some(1)])
    ensures var total := TotalWad([], 1);
            ShownBps([], total) + ShareBps(Some(IDLE_SCALE), total).value == 10000
  {
    var one: seq<LegValue> := [Some(1)];
    var none: seq<LegValue> := [];
    assert one[..0] == none;
    assert BasketWad(one) == 1 && PricedCount(one) == 1;
    assert TotalWad(one, 1) == 1_000_000_000_001;
    assert ShownBps(one, 1_000_000_000_001) == 0;
    assert IDLE_SCALE * 10000 / 1_000_000_000_001 == 9999;
    assert TotalWad(none, 1) == IDLE_SCALE;
  }
}
