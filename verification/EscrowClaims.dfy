/**
 * Escrow claims (EscrowClaims.tsx): claims on several assets run at once, each in pieces between its awaits. The
 * panel keeps one flow per asset and the list of claimable rows.
 */
module EscrowClaims {
  import opened Text
  import opened TxStatus
  import opened SignedWrites

  datatype Row = Row(asset: string, amount: nat)

  datatype Message =
    | SubmittedLine(hash: string)
    | ClaimedLine(minedHash: string)
    | ReplacedLine(hash: string)
    | UnconfirmedLine(hash: string, detail: string)

  datatype Problem = SendFailed(error: SendError) | RevertedOnChain(hash: string)

  datatype FlowState = FlowState(busy: bool, message: Option<Message>, error: Option<Problem>)

  const IDLE := FlowState(false, None, None)

  datatype PanelState = PanelState(claim: map<string, FlowState>, claimable: Option<seq<Row>>)
  {
    function Flow(asset: string): FlowState {
      if asset in claim then claim[asset] else IDLE
    }
  }

  /** The pieces of `handleClaim`, each run when the one await before it answers. */
  datatype ClaimEvent =
    | Began(asset: string)
    | Failed(asset: string, error: SendError)
    | WasSent(asset: string, hash: string)
    | Answered(asset: string, hash: string, wait: ReceiptWait)

  predicate IsConfirmation(e: ClaimEvent) { e.Answered? && Outcome(e.wait, e.hash).Confirmed? }

  /** Rows whose asset, ignoring case, is not in `gone`; order is kept. */
  function Keep(rows: seq<Row>, gone: set<string>): (kept: seq<Row>)
    ensures forall r :: r in kept <==> r in rows && Lower(r.asset) !in gone
  {
    if rows == [] then []
    else (if Lower(rows[0].asset) in gone then [] else [rows[0]]) + Keep(rows[1..], gone)
  }

  function FlowAfter(e: ClaimEvent): FlowState {
    match e
    case Began(_) => FlowState(true, None, None)
    case Failed(_, error) => FlowState(false, None, Some(SendFailed(error)))
    case WasSent(_, hash) => FlowState(true, Some(SubmittedLine(hash)), None)
    case Answered(_, hash, wait) =>
      match Outcome(wait, hash)
      case Confirmed(m) => FlowState(false, Some(ClaimedLine(m)), None)
      case Reverted(m) => FlowState(false, None, Some(RevertedOnChain(m)))
      case Replaced(_) => FlowState(false, Some(ReplacedLine(hash)), None)
      case Unconfirmed(d) => FlowState(false, Some(UnconfirmedLine(hash, d)), None)
  }

  function Step(s: PanelState, e: ClaimEvent): PanelState {
    PanelState(s.claim[e.asset := FlowAfter(e)],
               if IsConfirmation(e) && s.claimable.Some?
               then Some(Keep(s.claimable.value, {Lower(e.asset)}))
               else s.claimable)
  }

  function After(s: PanelState, events: seq<ClaimEvent>): PanelState {
    if events == [] then s
    else Step(After(s, events[..|events| - 1]), events[|events| - 1])
  }

  // ---------------------------------------------------------------- the component

  class EscrowPanel {
    var claim: map<string, FlowState>
    var claimable: Option<seq<Row>>

    constructor (claimable: Option<seq<Row>>)
      ensures View() == PanelState(map[], claimable)
    {
      claim := map[];
      this.claimable := claimable;
    }

    function View(): PanelState reads this { PanelState(claim, claimable) }

    method SetClaim(asset: string, s: FlowState)
      modifies this`claim
      ensures claim == old(claim)[asset := s]
    {
      claim := claim[asset := s];
    }

    /** What runs once the receipt wait answers. */
    method Settle(asset: string, hash: string, wait: ReceiptWait)
      modifies this
      ensures View() == Step(old(View()), Answered(asset, hash, wait))
    {
      var outcome := ConfirmTx(wait, hash);
      if outcome.Confirmed? {
        SetClaim(asset, FlowState(false, Some(ClaimedLine(outcome.hash)), None));
        if claimable.Some? {
          var kept: seq<Row> := [];
          for i := 0 to |claimable.value|
            invariant claimable == old(claimable)
            invariant claim == old(claim)[asset := FlowState(false, Some(ClaimedLine(outcome.hash)), None)]
            invariant kept == Keep(claimable.value[..i], {Lower(asset)})
          {
            KeepOneMore(claimable.value[..i], claimable.value[i], {Lower(asset)});
            assert claimable.value[..i] + [claimable.value[i]] == claimable.value[..i + 1];
            if Lower(claimable.value[i].asset) != Lower(asset) {
              kept := kept + [claimable.value[i]];
            }
          }
          assert claimable.value[..|claimable.value|] == claimable.value;
          claimable := Some(kept);
        }
      } else if outcome.Reverted? {
        SetClaim(asset, FlowState(false, None, Some(RevertedOnChain(outcome.hash))));
      } else if outcome.Replaced? {
        SetClaim(asset, FlowState(false, Some(ReplacedLine(hash)), None));
      } else {
        SetClaim(asset, FlowState(false, Some(UnconfirmedLine(hash, outcome.detail)), None));
      }
    }

    /** The whole handler, when nothing else runs between its pieces. */
    method HandleClaim(actions: ChainActions, connected: bool, account: string, vault: string, asset: string,
        e: WriteEnv, wait: ReceiptWait)
        returns (events: seq<ClaimEvent>)
      modifies this, actions`log
      ensures View() == After(old(View()), events)
      ensures connected <==> events != []
      ensures !connected ==> actions.log == old(actions.log)
      ensures connected ==>
                var t := Drive(actions.list, Begin(actions.list, account, ClaimEscrowed(vault, asset), e.gateAt),
                               WriteAnswers(e));
                && actions.log == old(actions.log) + t.log
                && events == [Began(asset)] + match t.pc
                                              case Finished(h) => [WasSent(asset, h), Answered(asset, h, wait)]
                                              case Failed(error) => [ClaimEvent.Failed(asset, error)]
                                              case _ => []
    {
      events := [];
      if !connected { return; }
      events := [Began(asset)];
      SetClaim(asset, FlowState(true, None, None));
      var r := actions.SendClaimEscrowed(account, vault, asset, e);
      if r.Err? {
        SetClaim(asset, FlowState(false, None, Some(SendFailed(r.error))));
        AfterOneMore(old(View()), events, ClaimEvent.Failed(asset, r.error));
        AfterOneMore(old(View()), [], Began(asset));
        events := events + [ClaimEvent.Failed(asset, r.error)];
        return;
      }
      SetClaim(asset, FlowState(true, Some(SubmittedLine(r.value)), None));
      AfterOneMore(old(View()), [], Began(asset));
      AfterOneMore(old(View()), events, WasSent(asset, r.value));
      events := events + [WasSent(asset, r.value)];
      Settle(asset, r.value, wait);
      AfterOneMore(old(View()), events, Answered(asset, r.value, wait));
      events := events + [Answered(asset, r.value, wait)];
      assert events == [Began(asset)] + [WasSent(asset, r.value), Answered(asset, r.value, wait)];
    }
  }

  lemma {:induction false} AfterOneMore(s: PanelState, events: seq<ClaimEvent>, e: ClaimEvent)
    ensures After(s, events + [e]) == Step(After(s, events), e)
  {
    assert (events + [e])[..|events + [e]| - 1] == events;
  }

  lemma {:induction false} KeepOneMore(rows: seq<Row>, r: Row, gone: set<string>)
    ensures Keep(rows + [r], gone) == Keep(rows, gone) + if Lower(r.asset) in gone then [] else [r]
  {
    if rows == [] {
      assert rows + [r] == [r];
    } else {
      assert (rows + [r])[1..] == rows[1..] + [r];
      KeepOneMore(rows[1..], r, gone);
    }
  }

  // ---------------------------------------------------------------- any interleaving

  function ConfirmedAssets(events: seq<ClaimEvent>): set<string> {
    set e | e in events && IsConfirmation(e) :: Lower(e.asset)
  }

  lemma {:induction false} KeepTwice(rows: seq<Row>, a: set<string>, b: set<string>)
    ensures Keep(Keep(rows, a), b) == Keep(rows, a + b)
  {
    if rows != [] {
      KeepTwice(rows[1..], a, b);
      if Lower(rows[0].asset) !in a {
        assert Keep(rows, a) == [rows[0]] + Keep(rows[1..], a);
        assert Keep(rows, a)[1..] == Keep(rows[1..], a);
      } else {
        assert Keep(rows, a) == [] + Keep(rows[1..], a) == Keep(rows[1..], a);
      }
    }
  }

  lemma {:induction false} KeepAll(rows: seq<Row>)
    ensures Keep(rows, {}) == rows
  {
    if rows != [] { KeepAll(rows[1..]); }
  }

  /** For any interleaving of claims, with no re-read, the final list is the initial one minus exactly the confirmed
      assets, in order. Reverted, replaced, unconfirmed and failed claims leave their rows. */
  lemma {:induction false} ListLosesExactlyConfirmed(s: PanelState, events: seq<ClaimEvent>)
    ensures After(s, events).claimable ==
            if s.claimable.None? then None else Some(Keep(s.claimable.value, ConfirmedAssets(events)))
  {
    if events == [] {
      assert ConfirmedAssets(events) == {};
      if s.claimable.Some? { KeepAll(s.claimable.value); }
    } else {
      var before := events[..|events| - 1];
      var e := events[|events| - 1];
      ListLosesExactlyConfirmed(s, before);
      assert events == before + [e];
      if IsConfirmation(e) {
        assert ConfirmedAssets(events) == ConfirmedAssets(before) + {Lower(e.asset)};
        if s.claimable.Some? { KeepTwice(s.claimable.value, ConfirmedAssets(before), {Lower(e.asset)}); }
      } else {
        assert ConfirmedAssets(events) == ConfirmedAssets(before);
      }
    }
  }

  /** The pieces of the claims on one asset, in order. */
  function OfAsset(events: seq<ClaimEvent>, asset: string): (own: seq<ClaimEvent>)
    ensures forall e :: e in own <==> e in events && e.asset == asset
  {
    if events == [] then []
    else
      var last := events[|events| - 1];
      OfAsset(events[..|events| - 1], asset) + if last.asset == asset then [last] else []
  }

  /** No claim touches another asset's flow: it is decided by the asset's own last piece. */
  lemma {:induction false} FlowFromOwnEvents(s: PanelState, events: seq<ClaimEvent>, asset: string)
    ensures var own := OfAsset(events, asset);
            && (asset in After(s, events).claim <==> asset in s.claim || own != [])
            && After(s, events).Flow(asset) == if own == [] then s.Flow(asset) else FlowAfter(own[|own| - 1])
  {
    if events != [] { FlowFromOwnEvents(s, events[..|events| - 1], asset); }
  }

  /** What a flow shows, over any interleaving from an idle panel: each line appears exactly when the last piece of the
      asset's own claims is the one it is about, and quotes its hash. */
  lemma {:induction false} FlowShowsOutcome(s: PanelState, events: seq<ClaimEvent>, asset: string)
    requires s.claim == map[]
    ensures var f, own := After(s, events).Flow(asset), OfAsset(events, asset);
            && (own == [] <==> f.message.None? && f.error.None? && !f.busy)
            && (own != [] ==> ShowsPiece(f, own[|own| - 1]))
  {
    FlowFromOwnEvents(s, events, asset);
  }

  /** The flow is the right one to show after this piece. */
  ghost predicate ShowsPiece(f: FlowState, e: ClaimEvent) {
    && (f.busy <==> e.Began? || e.WasSent?)
    && (f.message.None? && f.error.None? <==> e.Began?)
    && (forall h :: f.message == Some(SubmittedLine(h)) <==> e.WasSent? && e.hash == h)
    && (forall m :: f.message == Some(ClaimedLine(m)) <==> e.Answered? && Outcome(e.wait, e.hash) == Confirmed(m))
    && (forall m :: f.error == Some(RevertedOnChain(m)) <==> e.Answered? && Outcome(e.wait, e.hash) == Reverted(m))
    && (forall h :: f.message == Some(ReplacedLine(h)) <==>
          e.Answered? && e.hash == h && Outcome(e.wait, e.hash).Replaced?)
    && (forall h, d :: f.message == Some(UnconfirmedLine(h, d)) <==>
          e.Answered? && e.hash == h && Outcome(e.wait, e.hash) == Unconfirmed(d))
    && (forall error :: f.error == Some(SendFailed(error)) <==> e.Failed? && e.error == error)
  }

  /** Two panels show the same flow for this asset. */
  predicate FlowsAgree(s1: PanelState, s2: PanelState, a: string) {
    (a in s1.claim <==> a in s2.claim) && (a in s1.claim && a in s2.claim ==> s1.claim[a] == s2.claim[a])
  }

  lemma {:induction false} SameOwnEventsSameFlow(s: PanelState, e1: seq<ClaimEvent>, e2: seq<ClaimEvent>, a: string)
    requires OfAsset(e1, a) == OfAsset(e2, a)
    ensures FlowsAgree(After(s, e1), After(s, e2), a)
  {
    FlowFromOwnEvents(s, e1, a);
    FlowFromOwnEvents(s, e2, a);
    assert After(s, e1).Flow(a) == After(s, e2).Flow(a);
  }

  lemma {:induction false} PanelsEqual(s1: PanelState, s2: PanelState)
    requires s1.claimable == s2.claimable && forall a :: FlowsAgree(s1, s2, a)
    ensures s1 == s2
  {
    forall a ensures a in s1.claim <==> a in s2.claim { assert FlowsAgree(s1, s2, a); }
    assert s1.claim.Keys == s2.claim.Keys;
    forall a | a in s1.claim ensures s1.claim[a] == s2.claim[a] { assert FlowsAgree(s1, s2, a); }
    assert s1.claim == s2.claim;
  }

  /** The same pieces for each asset, interleaved in possibly different ways. */
  ghost predicate SameClaims(e1: seq<ClaimEvent>, e2: seq<ClaimEvent>) {
    forall a :: OfAsset(e1, a) == OfAsset(e2, a)
  }

  lemma {:induction false} SameClaimsSameConfirmed(e1: seq<ClaimEvent>, e2: seq<ClaimEvent>)
    requires SameClaims(e1, e2)
    ensures ConfirmedAssets(e1) <= ConfirmedAssets(e2)
  {
    forall e | e in e1 && IsConfirmation(e) ensures e in e2 {
      assert e in OfAsset(e1, e.asset);
      assert OfAsset(e1, e.asset) == OfAsset(e2, e.asset);
    }
  }

  lemma {:induction false} SameClaimsSameFlows(s: PanelState, e1: seq<ClaimEvent>, e2: seq<ClaimEvent>)
    requires SameClaims(e1, e2)
    ensures forall a :: FlowsAgree(After(s, e1), After(s, e2), a)
  {
    forall a ensures FlowsAgree(After(s, e1), After(s, e2), a) {
      assert OfAsset(e1, a) == OfAsset(e2, a);
      SameOwnEventsSameFlow(s, e1, e2, a);
    }
  }

  /** Confluence: two interleavings of the same claims leave the panel in the same state. */
  lemma {:induction false} InterleavingsAgree(s: PanelState, e1: seq<ClaimEvent>, e2: seq<ClaimEvent>)
    requires SameClaims(e1, e2)
    ensures After(s, e1) == After(s, e2)
  {
    assert After(s, e1).claimable == After(s, e2).claimable by {
      ListLosesExactlyConfirmed(s, e1);
      ListLosesExactlyConfirmed(s, e2);
      SameClaimsSameConfirmed(e1, e2);
      assert SameClaims(e2, e1);
      SameClaimsSameConfirmed(e2, e1);
      assert ConfirmedAssets(e1) == ConfirmedAssets(e2);
    }
    SameClaimsSameFlows(s, e1, e2);
    PanelsEqual(After(s, e1), After(s, e2));
  }

  // ---------------------------------------------------------------- what the disabled button buys

  /** An await of the handler: the send of a claim, or the receipt wait on what it sent. */
  datatype Await = Send | Settling(hash: string)

  /** The await a piece follows; `Began` follows none. */
  function Follows(e: ClaimEvent): Await
    requires !e.Began?
  {
    if e.Answered? then Settling(e.hash) else Send
  }

  /** The awaits outstanding on an asset. */
  function Awaits(events: seq<ClaimEvent>, asset: string): multiset<Await> {
    if events == [] then multiset{}
    else
      var before := Awaits(events[..|events| - 1], asset);
      var e := events[|events| - 1];
      if e.asset != asset then before
      else if e.Began? then before + multiset{Send}
      else before - multiset{Follows(e)} + if e.WasSent? then multiset{Settling(e.hash)} else multiset{}
  }

  /** A claim may begin at any time; every other piece follows an await of its own that is outstanding. */
  predicate Possible(events: seq<ClaimEvent>) {
    events == []
    || (var before := events[..|events| - 1];
        var e := events[|events| - 1];
        Possible(before) && (e.Began? || Follows(e) in Awaits(before, e.asset)))
  }

  /** Claims begin only from a button that is not disabled. */
  predicate FromEnabledButton(s: PanelState, events: seq<ClaimEvent>) {
    events == []
    || (var before := events[..|events| - 1];
        var e := events[|events| - 1];
        FromEnabledButton(s, before) && (e.Began? ==> !After(s, before).Flow(e.asset).busy))
  }

  /** Claims on this asset begun and not yet ended. */
  function Outstanding(events: seq<ClaimEvent>, asset: string): int {
    if events == [] then 0
    else
      var e := events[|events| - 1];
      Outstanding(events[..|events| - 1], asset)
      + if e.asset != asset then 0 else if e.Began? then 1 else if e.WasSent? then 0 else -1
  }

  lemma {:induction false} TakeOne(awaits: multiset<Await>, a: Await)
    requires a in awaits
    ensures |awaits - multiset{a}| == |awaits| - 1
  {
    assert awaits == awaits - multiset{a} + multiset{a};
  }

  /** Every claim outstanding holds exactly one await. */
  lemma {:induction false} OneAwaitEach(events: seq<ClaimEvent>, asset: string)
    requires Possible(events)
    ensures Outstanding(events, asset) == |Awaits(events, asset)|
  {
    if events != [] {
      var before, e := events[..|events| - 1], events[|events| - 1];
      OneAwaitEach(before, asset);
      if e.asset == asset && !e.Began? { TakeOne(Awaits(before, asset), Follows(e)); }
    }
  }

  /** Along any interleaving in which claims begin only from enabled buttons, at most one claim on an asset is
      outstanding, and its flow is busy exactly while one is. */
  lemma {:induction false} BusyIffInFlight(s: PanelState, events: seq<ClaimEvent>, asset: string)
    requires s.claim == map[] && Possible(events) && FromEnabledButton(s, events)
    ensures Outstanding(events, asset) == |Awaits(events, asset)| <= 1
    ensures After(s, events).Flow(asset).busy <==> Outstanding(events, asset) == 1
  {
    OneAwaitEach(events, asset);
    if events != [] {
      BusyIffInFlight(s, events[..|events| - 1], asset);
    }
  }

  /** So a second claim on an asset never begins while one is outstanding. */
  lemma {:induction false} OneClaimInFlight(s: PanelState, before: seq<ClaimEvent>, asset: string)
    requires s.claim == map[] && Possible(before) && FromEnabledButton(s, before + [Began(asset)])
    ensures Outstanding(before, asset) == 0
  {
    assert (before + [Began(asset)])[..|before + [Began(asset)]| - 1] == before;
    BusyIffInFlight(s, before, asset);
  }

  lemma {:induction false} OneMore(events: seq<ClaimEvent>, e: ClaimEvent)
    ensures Outstanding(events + [e], e.asset)
            == Outstanding(events, e.asset) + if e.Began? then 1 else if e.WasSent? then 0 else -1
    ensures Possible(events + [e]) <==> Possible(events) && (e.Began? || Follows(e) in Awaits(events, e.asset))
    ensures e.Began? ==> Awaits(events + [e], e.asset) == Awaits(events, e.asset) + multiset{Send}
  {
    assert (events + [e])[..|events + [e]| - 1] == events;
  }

  /** The guard is what does it: if a claim begins on top of another, two are outstanding, and when the first to end
      fails, the flow is no longer busy while a claim still is. */
  lemma {:induction false} WithoutTheGuard(s: PanelState, asset: string, error: SendError)
    requires s.claim == map[]
    ensures var two := [Began(asset)] + [Began(asset)];
            && Possible(two) && !FromEnabledButton(s, two) && Outstanding(two, asset) == 2
    ensures var three := [Began(asset)] + [Began(asset)] + [ClaimEvent.Failed(asset, error)];
            && Possible(three) && Outstanding(three, asset) == 1 && !After(s, three).Flow(asset).busy
  {
    var none: seq<ClaimEvent> := [];
    var one := none + [Began(asset)];
    var two := one + [Began(asset)];
    OneMore(none, Began(asset));
    OneMore(one, Began(asset));
    OneMore(two, ClaimEvent.Failed(asset, error));
    AfterOneMore(s, none, Began(asset));
    AfterOneMore(s, two, ClaimEvent.Failed(asset, error));
    assert one == [Began(asset)] && two[..|two| - 1] == one;
  }

  /** Whatever has begun and ended, a flow never shows both a message and an error, nor an error while busy. */
  lemma {:induction false} FlowsWellFormed(s: PanelState, events: seq<ClaimEvent>, asset: string)
    requires s.claim == map[]
    ensures var f := After(s, events).Flow(asset); !(f.message.Some? && f.error.Some?) && (f.busy ==> f.error.None?)
  {
    FlowFromOwnEvents(s, events, asset);
  }

  /** A row is gone if and only if a claim on its asset, ignoring case, was confirmed. */
  lemma {:induction false} RowGoneIffClaimed(s: PanelState, events: seq<ClaimEvent>, row: Row)
    requires s.claimable.Some? && row in s.claimable.value
    ensures After(s, events).claimable.Some?
    ensures row !in After(s, events).claimable.value <==>
            exists e :: e in events && IsConfirmation(e) && Lower(e.asset) == Lower(row.asset)
  {
    ListLosesExactlyConfirmed(s, events);
  }
}
