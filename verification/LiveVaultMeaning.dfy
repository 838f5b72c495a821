/**
 * What the numbers of an assembled vault are (live-vaults.ts over chain-reader.mjs), in terms of the answers the chain
 * gave: each field is the answer to its own call, a leg's value is its balance at its price, and a weight is its share
 * of NAV, both cut once.
 */
module LiveVaultMeaning {
  import opened Text
  import opened LiveVaults

  /** `q` is `a / b`, cut: multiplied back it is at most `a`, and one more would be over. */
  predicate Cut(q: nat, a: nat, b: nat) { q * b <= a < (q + 1) * b }

  lemma DivisionCuts(a: nat, b: nat)
    requires b > 0
    ensures Cut(a / b, a, b)
  {
    var q, r := a / b, a % b;
    assert a == q * b + r && r < b;
    assert (q + 1) * b == q * b + b;
  }

  // ---------------------------------------------------------------- one leg

  /** A leg is worth its balance at its price, in units of the asset; an asset without a unit is worth nothing, and an
      asset without a price has no value at all. */
  lemma {:induction false} LegIsWorth(r: RawLeg, age: nat)
    ensures var leg := AssembleLeg(r, age);
            && leg.address == r.address && leg.assetUnit == r.assetUnit && leg.balance == r.balance
            && leg.priceWad == r.price && (leg.valueWad.None? <==> r.price.None?)
            && (r.price.Some? && r.assetUnit == 0 ==> leg.valueWad == Some(0))
            && (r.price.Some? && r.assetUnit > 0 ==> Cut(leg.valueWad.value, r.balance * r.price.value, r.assetUnit))
            && leg.feed == r.feed && leg.maxStalenessSec == r.heartbeat && leg.oracleUpdatedAt == age
  {
    if r.price.Some? && r.assetUnit > 0 { DivisionCuts(r.balance * r.price.value, r.assetUnit); }
  }

  /** What one asset's answers say, read item by item. */
  datatype Answers = Answers(unit: CallResult, balance: CallResult, price: CallResult, feed: seq<Value>,
                             round: CallResult)

  /** The asset's own five answers, with `feedOf` answering five outputs. */
  ghost predicate Gave(f: Call -> CallResult, h: Call -> CallResult, vault: string, oracle: string, a: string,
      given: Answers) {
    && f(AssetUnit(vault, a)) == given.unit && f(AssetBalance(vault, a)) == given.balance
    && f(PriceWad(oracle, a)) == given.price
    && f(FeedOf(oracle, a)) == Success(Tuple(given.feed)) && |given.feed| == 5
    && (given.feed[0].Addr? ==> h(LatestRoundData(given.feed[0].a)) == given.round)
  }

  /** A leg, answer by answer: unit, balance and price as read, value as above, feed and heartbeat the first two outputs
      of `feedOf`, and the age the fourth output of the feed's round, or the epoch when that could not be read. */
  lemma {:induction false} LegSaysAnswers(f: Call -> CallResult, h: Call -> CallResult, vault: string, oracle: string,
      a: string, given: Answers, leg: Leg)
    requires Gave(f, h, vault, oracle, a, given) && DirectLeg(f, h, vault, oracle, a) == Some(leg)
    ensures given.unit == Success(Num(leg.assetUnit)) && given.balance == Success(Num(leg.balance))
    ensures if given.price.Failure? then leg.priceWad.None? && leg.valueWad.None?
            else leg.priceWad.Some? && leg.valueWad.Some? && given.price == Success(Num(leg.priceWad.value))
    ensures leg.priceWad.Some? && leg.assetUnit > 0 ==>
              Cut(leg.valueWad.value, leg.balance * leg.priceWad.value, leg.assetUnit)
    ensures leg.priceWad.Some? && leg.assetUnit == 0 ==> leg.valueWad == Some(0)
    ensures given.feed[0] == Addr(leg.feed) && given.feed[1] == Num(leg.maxStalenessSec)
    ensures given.round.Failure? ==> leg.oracleUpdatedAt == 0
    ensures given.round.Success? && given.round.value.Tuple? && |given.round.value.items| == 5 ==>
              given.round.value.items[3] == Num(leg.oracleUpdatedAt)
  {
    var raw := DirectRawLeg(f, vault, oracle, a).value;
    StructFields(given.feed);
    if given.round.Success? && given.round.value.Tuple? && |given.round.value.items| == 5 {
      StructFields(given.round.value.items);
    }
    LegIsWorth(raw, leg.oracleUpdatedAt);
  }

  /** A safety answer alarms exactly on the boolean true and clears exactly on the boolean false. */
  lemma {:induction false} TriIs(r: CallResult)
    ensures TriOf(r) == Alarming <==> r.Success? && r.value.Flag? && r.value.b
    ensures TriOf(r) == Clear <==> r.Success? && r.value.Flag? && !r.value.b
    ensures TriOf(r) == Unknown <==> r.Failure? || !r.value.Flag?
  {
  }

  // ---------------------------------------------------------------- rounds one and two

  /** Each view of the vault is the answer to its own call. */
  lemma {:induction false} CoreSaysAnswers(f: Call -> CallResult, vault: string, core: CoreReads)
    requires ReadCore(Multicall(Some(f), PlanCore(vault)).value) == Some(core)
    ensures if core.navWad.None? then f(Core(vault, NavWad)).Failure?
            else f(Core(vault, NavWad)) == Success(Num(core.navWad.value))
    ensures f(Core(vault, TotalShares)) == Success(Num(core.totalShares))
    ensures f(Core(vault, IdleUsdc)) == Success(Num(core.idleUsdc))
    ensures f(Core(vault, UsdcScalar)) == Success(Num(core.usdcScalar))
    ensures f(Core(vault, TotalPendingUsdc)) == Success(Num(core.totalPendingUsdc))
    ensures f(Core(vault, BasketLength)) == Success(Num(core.basketLength))
    ensures f(Core(vault, ChildVaultCount)) == Success(Num(core.childVaultCount))
    ensures f(Core(vault, Oracle)) == Success(Addr(core.oracle))
    ensures f(Core(vault, Governance)) == Success(Addr(core.governance))
    ensures f(Core(vault, Creator)) == Success(Addr(core.creator))
    ensures f(Core(vault, OperatorRegistry)) == Success(Addr(core.operatorRegistry))
    ensures f(Core(vault, HolderCount)) == Success(Num(core.holderCount))
    ensures f(Core(vault, NonCreatorMemberCount)) == Success(Num(core.nonCreatorMemberCount))
  {
    var r := Multicall(Some(f), PlanCore(vault)).value;
    assert r[0] == f(Core(vault, NavWad)) && r[1] == f(Core(vault, TotalShares)) && r[2] == f(Core(vault, IdleUsdc));
    assert r[3] == f(Core(vault, UsdcScalar)) && r[4] == f(Core(vault, TotalPendingUsdc));
    assert r[5] == f(Core(vault, BasketLength)) && r[6] == f(Core(vault, ChildVaultCount));
    assert r[7] == f(Core(vault, Oracle)) && r[8] == f(Core(vault, Governance)) && r[9] == f(Core(vault, Creator));
    assert r[10] == f(Core(vault, OperatorRegistry)) && r[11] == f(Core(vault, HolderCount));
    assert r[12] == f(Core(vault, NonCreatorMemberCount));
  }

  /** The basket, in order, the active proposal and the operator are the answers to their own calls, made to the
      contracts that round one named. */
  lemma {:induction false} SecondSaysAnswers(f: Call -> CallResult, vault: string, core: CoreReads, second: SecondReads)
    requires ReadSecond(Some(f), vault, core) == Some(second)
    ensures |second.assets| == core.basketLength
    ensures forall i :: 0 <= i < |second.assets| ==> f(BasketAsset(vault, i)) == Success(Addr(second.assets[i]))
    ensures f(ActiveProposalOf(core.governance, vault)) == Success(Num(second.pid))
    ensures f(OperatorIdOf(core.operatorRegistry, core.creator)) == Success(Num(second.operatorId))
  {
    var results := Multicall(Some(f), PlanBasketAssets(vault, core.basketLength)).value;
    assert |results| == core.basketLength;
    assert forall i :: 0 <= i < |results| ==> results[i] == f(BasketAsset(vault, i));
  }

  /** The proposal is read exactly when there is one, and is the answer to its own call. */
  lemma {:induction false} ProposalSaysAnswer(f: Call -> CallResult, governance: string, pid: nat,
      proposal: Option<seq<Value>>)
    requires ReadProposal(Some(f), governance, pid) == Some(proposal)
    ensures proposal.None? <==> pid == 0
    ensures proposal.Some? ==> f(Proposals(governance, pid)) == Success(Tuple(proposal.value))
  {
  }

  /** Everything gathered is what its own round read. */
  lemma {:induction false} GatheredRounds(c: Client, vault: string, g: Gathered)
    requires Gather(c, vault) == Some(g)
    ensures c.first.Some? && ReadCore(Multicall(c.first, PlanCore(vault)).value) == Some(g.core)
    ensures c.second.Some? && ReadSecond(c.second, vault, g.core) == Some(g.second)
    ensures ReadProposal(c.third, g.core.governance, g.second.pid) == Some(g.proposal)
  {
    assert |PlanCore(vault)| == 13;
  }

  // ---------------------------------------------------------------- the vault

  /** A weight is the leg's value as a share of NAV in basis points, cut once; without a NAV all weights are zero. */
  lemma {:induction false} WeightIsShare(legs: seq<Leg>, nav: nat, i: nat)
    requires WeightsBps(legs, nav).Some? && i < |legs|
    ensures |WeightsBps(legs, nav).value| == |legs|
    ensures nav == 0 ==> WeightsBps(legs, nav).value[i] == 0
    ensures nav > 0 ==>
              legs[i].valueWad.Some? && Cut(WeightsBps(legs, nav).value[i], legs[i].valueWad.value * 10_000, nav)
  {
    if nav > 0 { DivisionCuts(legs[i].valueWad.value * 10_000, nav); }
  }

  /** The assembled vault: its own reads, attested exactly when the operator has an id, and each leg with its weight. */
  lemma {:induction false} VaultSaysReads(vault: string, g: Gathered, v: Vault, i: nat)
    requires AssembleVault(vault, g) == Some(v) && i < |v.basket|
    ensures v.address == vault && v.core == g.core && v.proposal == g.proposal
    ensures v.attested <==> g.second.operatorId > 0
    ensures |v.basket| == |g.legs| && v.basket[i].leg == g.legs[i]
    ensures var nav := if g.core.navWad.Some? then g.core.navWad.value else 0;
            if nav == 0 then v.basket[i].weightBps == 0
            else g.legs[i].valueWad.Some? && Cut(v.basket[i].weightBps, g.legs[i].valueWad.value * 10_000, nav)
  {
    AssembledLeg(vault, g, v, i);
    WeightIsShare(g.legs, if g.core.navWad.Some? then g.core.navWad.value else 0, i);
  }
}
