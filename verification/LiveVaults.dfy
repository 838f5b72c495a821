/**
 * The batched read pipeline (live-vaults.ts over chain-reader.mjs). Calls for all assets go out as one flat batch per
 * round and the answers are told apart by position; the lemmas compare that with asking about each asset directly.
 */
module LiveVaults {
  import opened Text

  // ---------------------------------------------------------------- calls and answers

  datatype Call =
    | Core(vault: string, field: CoreField)
    | BasketAsset(vault: string, index: nat)
    | ActiveProposalOf(governance: string, vault: string)
    | ConfigOf(governance: string, vault: string)
    | OperatorIdOf(registry: string, creator: string)
    | AssetUnit(vault: string, asset: string)
    | AssetBalance(vault: string, asset: string)
    | PriceWad(oracle: string, asset: string)
    | FeedOf(oracle: string, asset: string)
    | Proposals(governance: string, pid: nat)
    | DelegatedForWeight(governance: string, pid: nat)
    | Paused(asset: string)
    | IsBlacklisted(asset: string, vault: string)
    | LatestRoundData(feed: string)

  /** The thirteen views read off the vault itself, in the order of the batch. */
  datatype CoreField =
    | NavWad | TotalShares | IdleUsdc | UsdcScalar | TotalPendingUsdc | BasketLength | ChildVaultCount | Oracle
    | Governance
    | Creator | OperatorRegistry | HolderCount | NonCreatorMemberCount

  datatype Value = Undefined | Num(n: nat) | Addr(a: string) | Flag(b: bool) | Tuple(items: seq<Value>)

  datatype CallResult = Success(value: Value) | Failure

  /** One round's network: missing when the batch request itself fails. */
  type Network = Option<Call -> CallResult>

  /** A batch; an empty one makes no request. Missing when the request throws. */
  function Multicall(net: Network, calls: seq<Call>): Option<seq<CallResult>> {
    if calls == [] then Some([])
    else if net.None? then None
    else Some(seq(|calls|, i requires 0 <= i < |calls| => net.value(calls[i])))
  }

  // ---------------------------------------------------------------- named structs

  /** Names zipped with positions: the last output of a name wins, unnamed outputs are skipped, and a position beyond
      the tuple reads as undefined. */
  function Zip(outputs: seq<string>, items: seq<Value>): map<string, Value> {
    if outputs == [] then map[]
    else
      var n := |outputs| - 1;
      var front := Zip(outputs[..n], items);
      if outputs[n] == "" then front else front[outputs[n] := if n < |items| then items[n] else Undefined]
  }

  function Member(obj: map<string, Value>, name: string): Value { if name in obj then obj[name] else Undefined }

  /** Missing where the source throws. */
  function Named(outputs: seq<string>, r: CallResult): Option<map<string, Value>> {
    if r.Success? && r.value.Tuple? then Some(Zip(outputs, r.value.items)) else None
  }

  method NamedStruct(outputs: Option<seq<string>>, value: Value) returns (obj: Option<map<string, Value>>)
    ensures outputs.Some? ==> obj == Named(outputs.value, Success(value))
    ensures outputs.None? ==> obj.None?
  {
    if outputs.None? || !value.Tuple? { return None; }
    var named: map<string, Value> := map[];
    for i := 0 to |outputs.value|
      invariant named == Zip(outputs.value[..i], value.items)
    {
      assert outputs.value[..i + 1][..i] == outputs.value[..i];
      if outputs.value[i] != "" {
        named := named[outputs.value[i] := if i < |value.items| then value.items[i] else Undefined];
      }
    }
    assert outputs.value[..|outputs.value|] == outputs.value;
    return Some(named);
  }

  /** With distinct names, each field is the answer at its own position. */
  lemma {:induction false} ZipAt(outputs: seq<string>, items: seq<Value>, i: nat)
    requires i < |outputs| && outputs[i] != ""
    requires forall j, k :: 0 <= j < k < |outputs| ==> outputs[j] != outputs[k]
    ensures outputs[i] in Zip(outputs, items)
    ensures Zip(outputs, items)[outputs[i]] == if i < |items| then items[i] else Undefined
  {
    var n := |outputs| - 1;
    if i < n {
      ZipAt(outputs[..n], items, i);
      assert outputs[..n][i] == outputs[i];
    }
  }

  const FEED_OF_OUTPUTS: seq<string> := ["feed", "heartbeat", "scale", "minPriceWad", "maxPriceWad"]

  const ROUND_DATA_OUTPUTS: seq<string> := ["roundId", "answer", "startedAt", "updatedAt", "answeredInRound"]

  /** The two structs read here come out field by field: the feed's address and heartbeat are its first two outputs,
      and a round's `updatedAt` is its fourth. */
  lemma {:induction false} StructFields(items: seq<Value>)
    requires |items| == 5
    ensures Member(Zip(FEED_OF_OUTPUTS, items), "feed") == items[0]
            && Member(Zip(FEED_OF_OUTPUTS, items), "heartbeat") == items[1]
    ensures Member(Zip(ROUND_DATA_OUTPUTS, items), "updatedAt") == items[3]
  {
    assert "feed"[0] == 'f' && "heartbeat"[0] == 'h' && "scale"[0] == 's' && "minPriceWad"[1] == 'i'
           && "maxPriceWad"[1] == 'a'
           && "minPriceWad"[0] == "maxPriceWad"[0] == 'm';
    assert "roundId"[0] == 'r' && "answer"[3] == 'w' && "startedAt"[0] == 's' && "updatedAt"[0] == 'u'
           && "answeredInRound"[0] == 'a'
           && |"answer"| != |"answeredInRound"|;
    ZipAt(FEED_OF_OUTPUTS, items, 0);
    ZipAt(FEED_OF_OUTPUTS, items, 1);
    ZipAt(ROUND_DATA_OUTPUTS, items, 3);
  }

  // ---------------------------------------------------------------- legs

  datatype RawLeg = RawLeg(address: string, assetUnit: nat, balance: nat, price: Option<nat>, feed: string,
                           heartbeat: nat)

  /** A leg as assembled, before weights and safety. Price and value are missing when the price read failed. */
  datatype Leg = Leg(address: string, assetUnit: nat, balance: nat, priceWad: Option<nat>, valueWad: Option<nat>,
                     feed: string, maxStalenessSec: nat, oracleUpdatedAt: nat)

  function PlanLegs(vault: string, oracle: string, assets: seq<string>): (calls: seq<Call>)
    ensures |calls| == 4 * |assets|
  {
    if assets == [] then []
    else
      var a := assets[|assets| - 1];
      PlanLegs(vault, oracle, assets[..|assets| - 1])
        + [AssetUnit(vault, a), AssetBalance(vault, a), PriceWad(oracle, a), FeedOf(oracle, a)]
  }

  function PlanLegSafety(vault: string, assets: seq<string>): (calls: seq<Call>)
    ensures |calls| == 2 * |assets|
  {
    if assets == [] then []
    else
      var a := assets[|assets| - 1];
      PlanLegSafety(vault, assets[..|assets| - 1]) + [Paused(a), IsBlacklisted(a, vault)]
  }

  function PlanFeeds(legs: seq<RawLeg>): seq<Call> {
    seq(|legs|, i requires 0 <= i < |legs| => LatestRoundData(legs[i].feed))
  }

  function NumOf(r: CallResult): Option<nat> {
    if r.Success? && r.value.Num? then Some(r.value.n) else None
  }

  function AddrOf(r: CallResult): Option<string> {
    if r.Success? && r.value.Addr? then Some(r.value.a) else None
  }

  /** One leg from its four answers; missing where the source throws. Only the price may fail. */
  function RawLegFrom(asset: string, unit: CallResult, balance: CallResult, price: CallResult,
      feed: CallResult): Option<RawLeg> {
    var struct := Named(FEED_OF_OUTPUTS, feed);
    if NumOf(unit).None? || NumOf(balance).None? || struct.None? then None
    else
      var f, h := Member(struct.value, "feed"), Member(struct.value, "heartbeat");
      if (price.Success? && !price.value.Num?) || !f.Addr? || !h.Num? then None
      else Some(RawLeg(asset, NumOf(unit).value, NumOf(balance).value, NumOf(price), f.a, h.n))
  }

  function RawLegAt(results: seq<CallResult>, assets: seq<string>, i: nat): Option<RawLeg>
    requires |results| == 4 * |assets| && i < |assets|
  {
    var base := i * 4;
    RawLegFrom(assets[i], results[base], results[base + 1], results[base + 2], results[base + 3])
  }

  function ReadLegs(results: seq<CallResult>, assets: seq<string>): Option<seq<RawLeg>>
    requires |results| == 4 * |assets|
  {
    if forall i :: 0 <= i < |assets| ==> RawLegAt(results, assets, i).Some?
    then Some(seq(|assets|, i requires 0 <= i < |assets| && RawLegAt(results, assets, i).Some?
                  => RawLegAt(results, assets, i).value))
    else None
  }

  /** When a feed cannot be read its age is the epoch, the stalest there is. */
  function FeedAge(r: CallResult): Option<nat> {
    if r.Failure? then Some(0)
    else
      var round := Named(ROUND_DATA_OUTPUTS, r);
      if round.Some? && Member(round.value, "updatedAt").Num? then Some(Member(round.value, "updatedAt").n) else None
  }

  function ReadFeedAges(results: seq<CallResult>): Option<seq<nat>> {
    if forall i :: 0 <= i < |results| ==> FeedAge(results[i]).Some?
    then Some(seq(|results|, i requires 0 <= i < |results| && FeedAge(results[i]).Some? => FeedAge(results[i]).value))
    else None
  }

  function LegValueWad(assetUnit: nat, balance: nat, priceWad: nat): nat {
    if assetUnit == 0 then 0 else balance * priceWad / assetUnit
  }

  /** Assembled with a stand-in price of zero when the price failed; price and value are then blanked for display. */
  function AssembleLeg(r: RawLeg, age: nat): Leg {
    var price := if r.price.Some? then r.price.value else 0;
    var leg := Leg(r.address, r.assetUnit, r.balance, Some(price), Some(LegValueWad(r.assetUnit, r.balance, price)),
                   r.feed, r.heartbeat, age);
    if r.price.None? then leg.(priceWad := None, valueWad := None) else leg
  }

  function AssembleLegs(third: Network, fourth: Network, vault: string, oracle: string,
      assets: seq<string>): Option<seq<Leg>> {
    var results := Multicall(third, PlanLegs(vault, oracle, assets));
    if results.None? then None
    else
      var raw := ReadLegs(results.value, assets);
      if raw.None? then None
      else
        var rounds := Multicall(fourth, PlanFeeds(raw.value));
        if rounds.None? then None
        else
          var ages := ReadFeedAges(rounds.value);
          if ages.None? then None
          else Some(seq(|raw.value|, i requires 0 <= i < |raw.value|
                        => AssembleLeg(raw.value[i], if i < |ages.value| then ages.value[i] else 0)))
  }

  // ---------------------------------------------------------------- one asset, asked about directly

  function DirectRawLeg(f: Call -> CallResult, vault: string, oracle: string, a: string): Option<RawLeg> {
    RawLegFrom(a, f(AssetUnit(vault, a)), f(AssetBalance(vault, a)), f(PriceWad(oracle, a)), f(FeedOf(oracle, a)))
  }

  /** A leg from its asset's own four core calls and its own feed's one call. */
  function DirectLeg(f: Call -> CallResult, g: Call -> CallResult, vault: string, oracle: string,
      a: string): Option<Leg> {
    var raw := DirectRawLeg(f, vault, oracle, a);
    if raw.None? then None
    else
      var age := FeedAge(g(LatestRoundData(raw.value.feed)));
      if age.None? then None else Some(AssembleLeg(raw.value, age.value))
  }

  lemma {:induction false} PlanLegsAt(vault: string, oracle: string, assets: seq<string>, i: nat)
    requires i < |assets|
    ensures var calls := PlanLegs(vault, oracle, assets);
            && calls[4 * i] == AssetUnit(vault, assets[i]) && calls[4 * i + 1] == AssetBalance(vault, assets[i])
            && calls[4 * i + 2] == PriceWad(oracle, assets[i]) && calls[4 * i + 3] == FeedOf(oracle, assets[i])
  {
    if i < |assets| - 1 { PlanLegsAt(vault, oracle, assets[..|assets| - 1], i); }
  }

  lemma {:induction false} RawLegIsDirect(f: Call -> CallResult, vault: string, oracle: string, assets: seq<string>,
      results: seq<CallResult>, i: nat)
    requires assets != [] && Multicall(Some(f), PlanLegs(vault, oracle, assets)) == Some(results) && i < |assets|
    ensures |results| == 4 * |assets|
    ensures RawLegAt(results, assets, i) == DirectRawLeg(f, vault, oracle, assets[i])
  {
    PlanLegsAt(vault, oracle, assets, i);
  }

  /** Round three, demultiplexed. */
  lemma {:induction false} RawLegsAreDirect(f: Call -> CallResult, vault: string, oracle: string, assets: seq<string>,
      results: seq<CallResult>)
    requires Multicall(Some(f), PlanLegs(vault, oracle, assets)) == Some(results)
    ensures |results| == 4 * |assets|
    ensures var raw := ReadLegs(results, assets);
            && (raw.Some? <==> forall i :: 0 <= i < |assets| ==> DirectRawLeg(f, vault, oracle, assets[i]).Some?)
            && (raw.Some? ==> |raw.value| == |assets|
                              && forall i ::
                               0 <= i < |assets| ==> Some(raw.value[i]) == DirectRawLeg(f, vault, oracle, assets[i]))
  {
    forall i | 0 <= i < |assets| ensures RawLegAt(results, assets, i) == DirectRawLeg(f, vault, oracle, assets[i]) {
      RawLegIsDirect(f, vault, oracle, assets, results, i);
    }
    if ReadLegs(results, assets).None? {
      var i :| 0 <= i < |assets| && RawLegAt(results, assets, i).None?;
      assert DirectRawLeg(f, vault, oracle, assets[i]).None?;
    }
  }

  /** Round four, demultiplexed. */
  lemma {:induction false} AgesAreDirect(g: Call -> CallResult, raw: seq<RawLeg>, rounds: seq<CallResult>)
    requires Multicall(Some(g), PlanFeeds(raw)) == Some(rounds)
    ensures var ages := ReadFeedAges(rounds);
            && (ages.Some? <==> forall i :: 0 <= i < |raw| ==> FeedAge(g(LatestRoundData(raw[i].feed))).Some?)
            && (ages.Some? ==> |ages.value| == |raw|
                               && forall i ::
                                    0 <= i < |raw| ==> Some(ages.value[i]) == FeedAge(g(LatestRoundData(raw[i].feed))))
  {
    assert forall i :: 0 <= i < |raw| ==> rounds[i] == g(LatestRoundData(raw[i].feed));
    if ReadFeedAges(rounds).None? {
      var i :| 0 <= i < |rounds| && FeedAge(rounds[i]).None?;
      assert FeedAge(g(LatestRoundData(raw[i].feed))).None?;
    }
  }

  /** Batch demultiplexing: for a basket of any size, leg i of the batched pipeline is the leg its own asset's calls
      give when asked alone. The pipeline fails exactly when some asset, asked alone, fails. */
  lemma {:induction false} BatchedLegsAreDirect(f: Call -> CallResult, g: Call -> CallResult, vault: string,
      oracle: string, assets: seq<string>)
    ensures var legs := AssembleLegs(Some(f), Some(g), vault, oracle, assets);
            && (legs.Some? <==> forall i :: 0 <= i < |assets| ==> DirectLeg(f, g, vault, oracle, assets[i]).Some?)
            && (legs.Some? ==> |legs.value| == |assets|
                               && forall i ::
                                0 <= i < |assets| ==> Some(legs.value[i]) == DirectLeg(f, g, vault, oracle, assets[i]))
  {
    var results := Multicall(Some(f), PlanLegs(vault, oracle, assets)).value;
    RawLegsAreDirect(f, vault, oracle, assets, results);
    var raw := ReadLegs(results, assets);
    if raw.None? {
      var i :| 0 <= i < |assets| && DirectRawLeg(f, vault, oracle, assets[i]).None?;
      assert DirectLeg(f, g, vault, oracle, assets[i]).None?;
    } else {
      var rounds := Multicall(Some(g), PlanFeeds(raw.value)).value;
      AgesAreDirect(g, raw.value, rounds);
      forall i | 0 <= i < |assets|
        ensures DirectLeg(f, g, vault, oracle, assets[i]).Some?
                <==> FeedAge(g(LatestRoundData(raw.value[i].feed))).Some?
      {
        assert Some(raw.value[i]) == DirectRawLeg(f, vault, oracle, assets[i]);
      }
    }
  }

  /** No cross-talk: changing any answers but asset i's own four and its own feed's leaves leg i as it was. */
  lemma {:induction false} LegUsesOwnAnswersOnly(f: Call -> CallResult, g: Call -> CallResult, f': Call -> CallResult,
      g': Call -> CallResult, vault: string, oracle: string, assets: seq<string>, i: nat)
    requires i < |assets|
    requires AssembleLegs(Some(f), Some(g), vault, oracle, assets).Some?
             && AssembleLegs(Some(f'), Some(g'), vault, oracle, assets).Some?
    requires |AssembleLegs(Some(f), Some(g), vault, oracle, assets).value| == |assets|
    requires var a := assets[i];
             && f(AssetUnit(vault, a)) == f'(AssetUnit(vault, a))
             && f(AssetBalance(vault, a)) == f'(AssetBalance(vault, a))
             && f(PriceWad(oracle, a)) == f'(PriceWad(oracle, a)) && f(FeedOf(oracle, a)) == f'(FeedOf(oracle, a))
    requires var feed := AssembleLegs(Some(f), Some(g), vault, oracle, assets).value[i].feed;
             g(LatestRoundData(feed)) == g'(LatestRoundData(feed))
    ensures |AssembleLegs(Some(f'), Some(g'), vault, oracle, assets).value| == |assets|
    ensures AssembleLegs(Some(f), Some(g), vault, oracle, assets).value[i]
            == AssembleLegs(Some(f'), Some(g'), vault, oracle, assets).value[i]
  {
    BatchedLegsAreDirect(f, g, vault, oracle, assets);
    BatchedLegsAreDirect(f', g', vault, oracle, assets);
  }

  /** A failed price read blanks the price and value of that leg and nothing else about it; a failed feed read makes
      that leg's age the epoch; a failed unit, balance or feed-address read fails the basket. */
  lemma {:induction false} WhatEachFailureDoes(f: Call -> CallResult, g: Call -> CallResult, vault: string,
      oracle: string, a: string)
    ensures f(AssetUnit(vault, a)).Failure? || f(AssetBalance(vault, a)).Failure? || f(FeedOf(oracle, a)).Failure?
            ==> DirectLeg(f, g, vault, oracle, a).None?
    ensures var leg := DirectLeg(f, g, vault, oracle, a);
            leg.Some? ==>
              && leg.value.address == a
              && Success(Num(leg.value.assetUnit)) == f(AssetUnit(vault, a))
              && Success(Num(leg.value.balance)) == f(AssetBalance(vault, a))
              && (f(PriceWad(oracle, a)).Failure? <==> leg.value.priceWad.None?)
              && (leg.value.priceWad.None? <==> leg.value.valueWad.None?)
              && (leg.value.priceWad.Some? ==>
                    && f(PriceWad(oracle, a)) == Success(Num(leg.value.priceWad.value))
                    && leg.value.valueWad == Some(LegValueWad(leg.value.assetUnit, leg.value.balance,
                                                              leg.value.priceWad.value)))
              && (g(LatestRoundData(leg.value.feed)).Failure? ==> leg.value.oracleUpdatedAt == 0)
  {
  }

  // ---------------------------------------------------------------- safety, matched by address

  datatype Tri = Unknown | Clear | Alarming

  datatype Safety = Safety(address: string, paused: Tri, blacklisted: Tri)

  /** Only the exact booleans count. */
  function TriOf(r: CallResult): Tri {
    if r == Success(Flag(true)) then Alarming else if r == Success(Flag(false)) then Clear else Unknown
  }

  function ReadLegSafety(results: seq<CallResult>, assets: seq<string>): seq<Safety>
    requires |results| == 2 * |assets|
  {
    seq(|assets|, i requires 0 <= i < |assets| => Safety(assets[i], TriOf(results[i * 2]), TriOf(results[i * 2 + 1])))
  }

  datatype SafetyIndex = SafetyIndex(byAddress: map<string, Safety>, ambiguous: set<string>)

  /** Records by lower-case address; an address named twice maps to nothing. */
  function IndexSafety(records: seq<Safety>): SafetyIndex {
    if records == [] then SafetyIndex(map[], {})
    else
      var before := IndexSafety(records[..|records| - 1]);
      var rec := records[|records| - 1];
      var key := Lower(rec.address);
      if key == "" then before
      else if key in before.byAddress || key in before.ambiguous
        then SafetyIndex(before.byAddress - {key}, before.ambiguous + {key})
      else before.(byAddress := before.byAddress[key := rec])
  }

  function Naming(records: seq<Safety>, key: string): (own: seq<Safety>)
    ensures forall r :: r in own <==> r in records && Lower(r.address) == key
  {
    if records == [] then []
    else
      var front := Naming(records[..|records| - 1], key);
      if Lower(records[|records| - 1].address) == key then front + [records[|records| - 1]] else front
  }

  /** The index answers an address exactly when one record, and only one, names it. */
  lemma {:induction false} IndexIsUniqueName(records: seq<Safety>, key: string)
    requires key != ""
    ensures var ix, own := IndexSafety(records), Naming(records, key);
            && (key in ix.byAddress <==> |own| == 1)
            && (key in ix.byAddress ==> ix.byAddress[key] == own[0])
            && (key in ix.ambiguous <==> |own| >= 2)
  {
    if records != [] { IndexIsUniqueName(records[..|records| - 1], key); }
  }

  function SafetyFor(ix: SafetyIndex, address: string): (Tri, Tri) {
    if Lower(address) in ix.byAddress
      then (ix.byAddress[Lower(address)].paused, ix.byAddress[Lower(address)].blacklisted)
    else (Unknown, Unknown)
  }

  lemma {:induction false} PlanSafetyAt(vault: string, assets: seq<string>, i: nat)
    requires i < |assets|
    ensures PlanLegSafety(vault, assets)[2 * i] == Paused(assets[i])
            && PlanLegSafety(vault, assets)[2 * i + 1] == IsBlacklisted(assets[i], vault)
  {
    if i < |assets| - 1 { PlanSafetyAt(vault, assets[..|assets| - 1], i); }
  }

  lemma {:induction false} NamingOnce(records: seq<Safety>, i: nat)
    requires i < |records|
    requires forall j :: 0 <= j < |records| && j != i ==> Lower(records[j].address) != Lower(records[i].address)
    ensures Naming(records, Lower(records[i].address)) == [records[i]]
  {
    var n := |records| - 1;
    if i == n {
      NamingNone(records[..n], Lower(records[i].address));
    } else {
      NamingOnce(records[..n], i);
    }
  }

  lemma {:induction false} NamingNone(records: seq<Safety>, key: string)
    requires forall r :: r in records ==> Lower(r.address) != key
    ensures Naming(records, key) == []
  {
    if records != [] { NamingNone(records[..|records| - 1], key); }
  }

  /** In a basket with no address twice, each leg carries its own asset's two safety answers and no other's. */
  lemma {:induction false} SafetyIsOwn(f: Call -> CallResult, vault: string, assets: seq<string>, i: nat)
    requires i < |assets| && assets[i] != ""
    requires forall j :: 0 <= j < |assets| && j != i ==> Lower(assets[j]) != Lower(assets[i])
    ensures var results := Multicall(Some(f), PlanLegSafety(vault, assets)).value;
            SafetyFor(IndexSafety(ReadLegSafety(results, assets)), assets[i])
            == (TriOf(f(Paused(assets[i]))), TriOf(f(IsBlacklisted(assets[i], vault))))
  {
    var results := Multicall(Some(f), PlanLegSafety(vault, assets)).value;
    var records := ReadLegSafety(results, assets);
    PlanSafetyAt(vault, assets, i);
    NamingOnce(records, i);
    IndexIsUniqueName(records, Lower(assets[i]));
  }

  /** A basket naming an address twice gets no safety answer for it at all. */
  lemma {:induction false} DoubledAddressIsUnknown(f: Call -> CallResult, vault: string, assets: seq<string>, i: nat,
      j: nat)
    requires i < j < |assets| && Lower(assets[i]) == Lower(assets[j]) && assets[i] != ""
    ensures var results := Multicall(Some(f), PlanLegSafety(vault, assets)).value;
            SafetyFor(IndexSafety(ReadLegSafety(results, assets)), assets[i]) == (Unknown, Unknown)
  {
    var records := ReadLegSafety(Multicall(Some(f), PlanLegSafety(vault, assets)).value, assets);
    IndexIsUniqueName(records, Lower(assets[i]));
    NamedTwice(records, i, j);
  }

  lemma {:induction false} NamedTwice(records: seq<Safety>, i: nat, j: nat)
    requires i < j < |records| && Lower(records[i].address) == Lower(records[j].address)
    ensures |Naming(records, Lower(records[i].address))| >= 2
  {
    var n := |records| - 1;
    if j < n {
      NamedTwice(records[..n], i, j);
    } else {
      assert records[..n][i] in Naming(records[..n], Lower(records[i].address));
    }
  }

  // ---------------------------------------------------------------- one vault

  /** The network of each round; a later round may see a later block. */
  datatype Client = Client(first: Network, second: Network, third: Network, fourth: Network)

  const CORE_FIELDS: seq<CoreField> :=
    [NavWad, TotalShares, IdleUsdc, UsdcScalar, TotalPendingUsdc, BasketLength, ChildVaultCount, Oracle, Governance,
     Creator, OperatorRegistry, HolderCount, NonCreatorMemberCount]

  datatype BasketLeg = BasketLeg(leg: Leg, weightBps: nat, paused: Tri, blacklisted: Tri)

  datatype CoreReads = CoreReads(navWad: Option<nat>, totalShares: nat, idleUsdc: nat, usdcScalar: nat,
                                 totalPendingUsdc: nat, basketLength: nat, childVaultCount: nat, oracle: string,
                                 governance: string, creator: string,
                                 operatorRegistry: string, holderCount: nat, nonCreatorMemberCount: nat)

  datatype Vault = Vault(address: string, core: CoreReads, attested: bool, proposal: Option<seq<Value>>,
                         basket: seq<BasketLeg>)

  /** Round one; only the NAV may fail. */
  function ReadCore(r: seq<CallResult>): Option<CoreReads>
    requires |r| == 13
  {
    if || (r[0].Success? && !r[0].value.Num?)
       || NumOf(r[1]).None? || NumOf(r[2]).None? || NumOf(r[3]).None? || NumOf(r[4]).None? || NumOf(r[5]).None?
       || NumOf(r[6]).None? || AddrOf(r[7]).None? || AddrOf(r[8]).None? || AddrOf(r[9]).None? || AddrOf(r[10]).None?
       || NumOf(r[11]).None? || NumOf(r[12]).None?
    then None
    else Some(CoreReads(NumOf(r[0]), NumOf(r[1]).value, NumOf(r[2]).value, NumOf(r[3]).value, NumOf(r[4]).value,
                        NumOf(r[5]).value, NumOf(r[6]).value, AddrOf(r[7]).value, AddrOf(r[8]).value,
                        AddrOf(r[9]).value, AddrOf(r[10]).value,
                        NumOf(r[11]).value, NumOf(r[12]).value))
  }

  function PlanCore(vault: string): seq<Call> {
    seq(13, i requires 0 <= i < 13 => Core(vault, CORE_FIELDS[i]))
  }

  function PlanBasketAssets(vault: string, n: nat): seq<Call> {
    seq(n, i requires 0 <= i < n => BasketAsset(vault, i))
  }

  function AddrsOf(results: seq<CallResult>): Option<seq<string>> {
    if forall i :: 0 <= i < |results| ==> AddrOf(results[i]).Some?
    then Some(seq(|results|, i requires 0 <= i < |results| && AddrOf(results[i]).Some? => AddrOf(results[i]).value))
    else None
  }

  /** Round two: the basket, the proposal id, the governance configuration and the operator. */
  datatype SecondReads = SecondReads(assets: seq<string>, pid: nat, operatorId: nat)

  function ReadSecond(net: Network, vault: string, core: CoreReads): Option<SecondReads> {
    var assets := Multicall(net, PlanBasketAssets(vault, core.basketLength));
    var ids := Multicall(net, [ActiveProposalOf(core.governance, vault), ConfigOf(core.governance, vault)]);
    var operator := Multicall(net, [OperatorIdOf(core.operatorRegistry, core.creator)]);
    if assets.None? || ids.None? || operator.None? then None
    else if AddrsOf(assets.value).None? || NumOf(ids.value[0]).None?
      || !(ids.value[1].Success? && ids.value[1].value.Tuple?)
            || NumOf(operator.value[0]).None? then None
    else Some(SecondReads(AddrsOf(assets.value).value, NumOf(ids.value[0]).value, NumOf(operator.value[0]).value))
  }

  /** The proposal record, read only when there is one; missing outside where the read fails. */
  function ReadProposal(net: Network, governance: string, pid: nat): Option<Option<seq<Value>>> {
    if pid == 0 then Some(None)
    else
      var results := Multicall(net, [Proposals(governance, pid), DelegatedForWeight(governance, pid)]);
      if results.None? || !(results.value[0].Success? && results.value[0].value.Tuple?) then None
      else Some(Some(results.value[0].value.items))
  }

  datatype Gathered = Gathered(core: CoreReads, second: SecondReads, legs: seq<Leg>, safety: seq<Safety>,
                               proposal: Option<seq<Value>>)

  /** Every read of every round; missing when any structural read fails. */
  function Gather(c: Client, vault: string): Option<Gathered> {
    var first := Multicall(c.first, PlanCore(vault));
    if first.None? then None
    else
      var core := ReadCore(first.value);
      if core.None? then None
      else
        var second := ReadSecond(c.second, vault, core.value);
        if second.None? then None
        else
          var assets := second.value.assets;
          var safety := Multicall(c.third, PlanLegSafety(vault, assets));
          var proposal := ReadProposal(c.third, core.value.governance, second.value.pid);
          var legs := AssembleLegs(c.third, c.fourth, vault, core.value.oracle, assets);
          if safety.None? || proposal.None? || legs.None? then None
          else Some(Gathered(core.value, second.value, legs.value, ReadLegSafety(safety.value, assets), proposal.value))
  }

  /** Weights in basis points of NAV. A blanked value meets a nonzero NAV as null times a bigint, which throws. */
  function WeightsBps(legs: seq<Leg>, navWad: nat): Option<seq<nat>> {
    if navWad == 0 then Some(seq(|legs|, i => 0))
    else if forall i :: 0 <= i < |legs| ==> legs[i].valueWad.Some?
    then Some(seq(|legs|, i requires 0 <= i < |legs| && legs[i].valueWad.Some?
                  => legs[i].valueWad.value * 10_000 / navWad))
    else None
  }

  function AssembleVault(vault: string, g: Gathered): Option<Vault> {
    var weights := WeightsBps(g.legs, if g.core.navWad.Some? then g.core.navWad.value else 0);
    if weights.None? then None
    else
      var ix := IndexSafety(g.safety);
      Some(Vault(vault, g.core, g.second.operatorId != 0, g.proposal,
                 seq(|g.legs|, i requires 0 <= i < |g.legs| =>
                       BasketLeg(g.legs[i], if i < |weights.value| then weights.value[i] else 0,
                                 SafetyFor(ix, g.legs[i].address).0, SafetyFor(ix, g.legs[i].address).1))))
  }

  function ReadOneVault(c: Client, vault: string): Option<Vault> {
    var g := Gather(c, vault);
    if g.None? then None else AssembleVault(vault, g.value)
  }

  /** `Promise.all`: one rejection rejects the list. */
  function FetchLiveVaults(c: Client, blockNumber: Option<nat>, addresses: seq<string>): Option<seq<(Vault, nat)>> {
    if blockNumber.None? || exists i :: 0 <= i < |addresses| && ReadOneVault(c, addresses[i]).None? then None
    else Some(seq(|addresses|, i requires 0 <= i < |addresses| && ReadOneVault(c, addresses[i]).Some?
                  => (ReadOneVault(c, addresses[i]).value, blockNumber.value)))
  }

  /** Where the gathered legs and safety records come from. */
  lemma {:induction false} GatheredFrom(c: Client, vault: string, g: Gathered)
    requires Gather(c, vault) == Some(g) && g.legs != []
    ensures c.third.Some? && c.fourth.Some?
    ensures Some(g.legs) == AssembleLegs(c.third, c.fourth, vault, g.core.oracle, g.second.assets)
    ensures g.safety == ReadLegSafety(Multicall(c.third, PlanLegSafety(vault, g.second.assets)).value, g.second.assets)
  {
    assert |PlanLegs(vault, g.core.oracle, g.second.assets)| > 0;
  }

  lemma {:induction false} AssembledLeg(vault: string, g: Gathered, v: Vault, i: nat)
    requires AssembleVault(vault, g) == Some(v) && i < |v.basket|
    ensures |v.basket| == |g.legs| && v.basket[i].leg == g.legs[i]
    ensures (v.basket[i].paused, v.basket[i].blacklisted) == SafetyFor(IndexSafety(g.safety), g.legs[i].address)
  {
  }

  /** Leg i of an assembled vault is its own asset's direct leg, with that asset's own safety answers when its address
      occurs once, whatever the other assets answered. */
  lemma {:induction false} VaultLegIsDirect(c: Client, vault: string, g: Gathered, v: Vault, i: nat)
    requires Gather(c, vault) == Some(g) && ReadOneVault(c, vault) == Some(v) && i < |v.basket|
    ensures c.third.Some? && c.fourth.Some?
    ensures OwnLeg(c.third.value, c.fourth.value, vault, g.core.oracle, g.second.assets, v.basket, i)
  {
    AssembledLeg(vault, g, v, i);
    GatheredFrom(c, vault, g);
    GatheredLegIsOwn(c.third.value, c.fourth.value, vault, g, v, i);
  }

  /** Leg `i` of the basket is what asset `i`'s own calls answer: its value always, its safety if no other asset has the
      same address. */
  predicate OwnLeg(f: Call -> CallResult, h: Call -> CallResult, vault: string, oracle: string, assets: seq<string>,
      basket: seq<BasketLeg>, i: nat)
    requires i < |basket|
  {
    && |basket| == |assets|
    && Some(basket[i].leg) == DirectLeg(f, h, vault, oracle, assets[i])
    && (assets[i] != "" && (forall j :: 0 <= j < |assets| && j != i ==> Lower(assets[j]) != Lower(assets[i]))
        ==>
          (basket[i].paused, basket[i].blacklisted)
          == (TriOf(f(Paused(assets[i]))), TriOf(f(IsBlacklisted(assets[i], vault)))))
  }

  lemma {:induction false} GatheredLegIsOwn(f: Call -> CallResult, h: Call -> CallResult, vault: string, g: Gathered,
      v: Vault, i: nat)
    requires i < |v.basket| == |g.legs| && v.basket[i].leg == g.legs[i]
    requires (v.basket[i].paused, v.basket[i].blacklisted) == SafetyFor(IndexSafety(g.safety), g.legs[i].address)
    requires Some(g.legs) == AssembleLegs(Some(f), Some(h), vault, g.core.oracle, g.second.assets)
    requires g.safety == ReadLegSafety(Multicall(Some(f), PlanLegSafety(vault, g.second.assets)).value, g.second.assets)
    ensures OwnLeg(f, h, vault, g.core.oracle, g.second.assets, v.basket, i)
  {
    var assets := g.second.assets;
    BatchedLegsAreDirect(f, h, vault, g.core.oracle, assets);
    assert g.legs[i].address == assets[i];
    if assets[i] != "" && (forall j :: 0 <= j < |assets| && j != i ==> Lower(assets[j]) != Lower(assets[i])) {
      SafetyIsOwn(f, vault, assets, i);
    }
  }

  /** A failed price read does not always cost its own leg alone. Once every structural read has succeeded, the vault,
      and with it the whole list, is rejected exactly when some leg's price failed while the NAV was read and is not
      zero: the weights then multiply the blanked value. */
  lemma {:induction false} UnpricedLegRejectsVaultIff(c: Client, vault: string)
    requires Gather(c, vault).Some?
    ensures ReadOneVault(c, vault).None? <==>
            var g := Gather(c, vault).value;
            g.core.navWad.Some? && g.core.navWad.value > 0 && exists i :: 0 <= i < |g.legs| && g.legs[i].priceWad.None?
  {
    var g := Gather(c, vault).value;
    GatheredLegs(c, vault);
    UnpricedLegRejects(vault, g);
  }

  lemma {:induction false} UnpricedLegRejects(vault: string, g: Gathered)
    requires forall i :: 0 <= i < |g.legs| ==> (g.legs[i].priceWad.None? <==> g.legs[i].valueWad.None?)
    ensures AssembleVault(vault, g).None? <==>
            g.core.navWad.Some? && g.core.navWad.value > 0 && exists i :: 0 <= i < |g.legs| && g.legs[i].priceWad.None?
  {
    if AssembleVault(vault, g).None? {
      var i :| 0 <= i < |g.legs| && g.legs[i].valueWad.None?;
      assert g.legs[i].priceWad.None?;
    }
  }

  predicate NamesAnAddress(f: CoreField) { f.Oracle? || f.Governance? || f.Creator? || f.OperatorRegistry? }

  /** Every read succeeds, the NAV is 1, and the basket is one asset whose price read fails. */
  function LatePriceFailure(): Client {
    Client(
      Some((x: Call) => if x.Core? && NamesAnAddress(x.field) then Success(Addr("0xo")) else Success(Num(1))),
      Some((x: Call) => if x.BasketAsset? then Success(Addr("0xa")) else if x.ConfigOf? then Success(Tuple([]))
           else Success(Num(0))),
      Some((x: Call) => if x.PriceWad? then Failure
                        else if x.FeedOf? then Success(Tuple([Addr("0xf"), Num(1), Num(1), Num(1), Num(1)]))
                          else Success(Num(1))),
      Some((x: Call) => Failure))
  }

  lemma {:induction false} LatePriceFailureAnswer(vault: string, i: nat)
    requires i < 13
    ensures Multicall(LatePriceFailure().first, PlanCore(vault)).value[i]
            == if 7 <= i <= 10 then Success(Addr("0xo")) else Success(Num(1))
  {
    assert NamesAnAddress(CORE_FIELDS[i]) <==> 7 <= i <= 10;
  }

  lemma {:induction false} LatePriceFailureCore(vault: string)
    ensures ReadCore(Multicall(LatePriceFailure().first, PlanCore(vault)).value)
            == Some(CoreReads(Some(1), 1, 1, 1, 1, 1, 1, "0xo", "0xo", "0xo", "0xo", 1, 1))
  {
    var r := Multicall(LatePriceFailure().first, PlanCore(vault)).value;
    forall i | 0 <= i < 13 ensures r[i] == if 7 <= i <= 10 then Success(Addr("0xo")) else Success(Num(1)) {
      LatePriceFailureAnswer(vault, i);
    }
  }

  lemma {:induction false} LatePriceFailureLeg(vault: string)
    ensures var c := LatePriceFailure();
            DirectLeg(c.third.value, c.fourth.value, vault, "0xo", "0xa")
              == Some(Leg("0xa", 1, 1, None, None, "0xf", 1, 0))
  {
    StructFields([Addr("0xf"), Num(1), Num(1), Num(1), Num(1)]);
  }

  lemma {:induction false} LatePriceFailureSecond(vault: string, core: CoreReads)
    requires core.basketLength == 1
    ensures ReadSecond(LatePriceFailure().second, vault, core) == Some(SecondReads(["0xa"], 0, 0))
  {
    var results := Multicall(LatePriceFailure().second, PlanBasketAssets(vault, 1)).value;
    assert AddrsOf(results).value == ["0xa"];
  }

  lemma {:induction false} LatePriceFailureGathers(vault: string)
    ensures var g := Gather(LatePriceFailure(), vault);
            g.Some? && g.value.core.navWad == Some(1) && |g.value.legs| == 1 && g.value.legs[0].priceWad.None?
  {
    var c := LatePriceFailure();
    LatePriceFailureCore(vault);
    var core := ReadCore(Multicall(c.first, PlanCore(vault)).value).value;
    LatePriceFailureSecond(vault, core);
    LatePriceFailureLegs(vault);
  }

  lemma {:induction false} LatePriceFailureLegs(vault: string)
    ensures var c := LatePriceFailure();
            AssembleLegs(c.third, c.fourth, vault, "0xo", ["0xa"]) == Some([Leg("0xa", 1, 1, None, None, "0xf", 1, 0)])
  {
    var c := LatePriceFailure();
    LatePriceFailureLeg(vault);
    BatchedLegsAreDirect(c.third.value, c.fourth.value, vault, "0xo", ["0xa"]);
    var legs := AssembleLegs(c.third, c.fourth, vault, "0xo", ["0xa"]);
    assert legs.Some? by {
      forall i | 0 <= i < 1 ensures DirectLeg(c.third.value, c.fourth.value, vault, "0xo", ["0xa"][i]).Some? {}
    }
    assert Some(legs.value[0]) == DirectLeg(c.third.value, c.fourth.value, vault, "0xo", ["0xa"][0]);
    assert legs.value == [legs.value[0]];
  }

  /** So it happens: all structural reads succeed, one price fails, and the vault list is rejected. */
  lemma {:induction false} OneFailedPriceCanRejectTheList(vault: string)
    ensures Gather(LatePriceFailure(), vault).Some?
    ensures FetchLiveVaults(LatePriceFailure(), Some(0), [vault]).None?
  {
    LatePriceFailureGathers(vault);
    UnpricedLegRejectsVaultIff(LatePriceFailure(), vault);
    assert ReadOneVault(LatePriceFailure(), [vault][0]).None?;
  }

  lemma {:induction false} GatheredLegs(c: Client, vault: string)
    requires Gather(c, vault).Some?
    ensures forall i :: 0 <= i < |Gather(c, vault).value.legs| ==>
              (Gather(c, vault).value.legs[i].priceWad.None? <==> Gather(c, vault).value.legs[i].valueWad.None?)
  {
  }

  /** A structural failure, or an unpriced leg beside a readable NAV, rejects the whole list; no partial vault is ever
      in it, and vault i of the list is the reading of address i. */
  lemma {:induction false} ListIsAllOrNothing(c: Client, blockNumber: Option<nat>, addresses: seq<string>)
    ensures FetchLiveVaults(c, blockNumber, addresses).Some? <==>
            blockNumber.Some? && forall i :: 0 <= i < |addresses| ==> ReadOneVault(c, addresses[i]).Some?
    ensures forall i ::
              0 <= i < |addresses| && Gather(c, addresses[i]).None? ==> FetchLiveVaults(c, blockNumber, addresses).None?
    ensures var list := FetchLiveVaults(c, blockNumber, addresses);
            list.Some? ==> |list.value| == |addresses|
                           && forall i ::
                                0 <= i < |addresses| ==>
                                  && Some(list.value[i].0) == ReadOneVault(c, addresses[i])
                                  && list.value[i].0.address == addresses[i]
  {
    forall i | 0 <= i < |addresses| && ReadOneVault(c, addresses[i]).Some?
      ensures ReadOneVault(c, addresses[i]).value.address == addresses[i] {}
  }
}
