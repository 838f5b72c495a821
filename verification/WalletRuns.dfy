/**
 * Whole conversations with a wallet (wallet.tsx), from any state of the component: what connecting, being refused,
 * switching and disconnecting leave on screen.
 */
module WalletRuns {
  import opened Text
  import opened Guards
  import opened Wallet
  import opened Digits

  // ---------------------------------------------------------------- chain ids

  /** The character stands for this digit. */
  predicate IsDigit(c: char, d: nat) {
    d < 16 && (c == "0123456789abcdef"[d] || c == "0123456789ABCDEF"[d])
  }

  ghost predicate IsHex(c: char) { exists d :: IsDigit(c, d) }

  ghost predicate HexDigits(s: string) { forall i :: 0 <= i < |s| ==> IsHex(s[i]) }

  lemma {:induction false} DigitIsHex(c: char)
    ensures IsHexDigit(c) <==> IsHex(c)
    ensures IsHexDigit(c) ==> IsDigit(c, HexDigit(c))
  {
    if IsHexDigit(c) { assert IsDigit(c, HexDigit(c)); }
  }

  /** A chain id is read in base 16, most significant digit first. */
  lemma {:induction false} HexIsBase16(s: string, i: nat)
    requires (forall c :: c in s ==> IsHexDigit(c)) && i < |s|
    ensures IsDigit(s[i], DigitAt(HexValue(s), 16, |s| - 1 - i))
  {
    var front, last := s[..|s| - 1], s[|s| - 1];
    LastDigit(HexValue(front), 16, HexDigit(last));
    if i < |front| {
      HexIsBase16(front, i);
      HigherDigit(HexValue(s), 16, |front| - 1 - i);
    } else {
      DigitIsHex(last);
    }
  }

  lemma {:induction false} DigitsAreHex(s: string)
    ensures HexDigits(s) <==> forall c :: c in s ==> IsHexDigit(c)
  {
    if HexDigits(s) {
      forall c | c in s ensures IsHexDigit(c) {
        var i :| 0 <= i < |s| && s[i] == c;
        DigitIsHex(c);
      }
    }
    if forall c :: c in s ==> IsHexDigit(c) {
      forall i | 0 <= i < |s| ensures IsHex(s[i]) { DigitIsHex(s[i]); }
    }
  }

  /** What is a chain id: exactly `0x` and hex digits, at least one; each digit of its value is written out. */
  lemma {:induction false} ChainIdExactly(hex: string)
    ensures HexToNumber(Some(hex)).Some? <==> 2 < |hex| && hex[..2] == "0x" && HexDigits(hex[2..])
    ensures HexToNumber(Some(hex)).Some? ==>
              forall i :: 2 <= i < |hex| ==>
                IsDigit(hex[i], DigitAt(HexToNumber(Some(hex)).value, 16, |hex| - 1 - i))
  {
    if 2 < |hex| && hex[..2] == "0x" {
      var digits := hex[2..];
      DigitsAreHex(digits);
      if HexDigits(digits) {
        forall i | 2 <= i < |hex| ensures IsDigit(hex[i], DigitAt(HexValue(digits), 16, |hex| - 1 - i)) {
          HexIsBase16(digits, i - 2);
        }
      }
    }
  }

  // ---------------------------------------------------------------- which wallet

  /** Asked for by name; or the first one discovered; or, with none, the injected one. */
  predicate Picks(s: State, uuid: Option<string>, injected: bool, wallet: string) {
    || uuid == Some(wallet)
    || (uuid.None? && s.providers != [] && wallet == s.providers[0].uuid)
    || (uuid.None? && s.providers == [] && injected && wallet == "legacy-window-ethereum")
  }

  /** The wallet is there to be asked. */
  predicate Reachable(s: State, wallet: string, injected: bool) {
    if wallet == "legacy-window-ethereum" then injected else exists p :: p in s.providers && p.uuid == wallet
  }

  lemma {:induction false} FindExactly(ps: seq<Discovered>, uuid: string)
    ensures Find(ps, uuid).Some? <==> exists p :: p in ps && p.uuid == uuid
  {
    if ps != [] {
      FindExactly(ps[1..], uuid);
      assert ps == [ps[0]] + ps[1..];
    }
  }

  lemma {:induction false} PicksOne(s: State, uuid: Option<string>, injected: bool, wallet: string)
    ensures Picks(s, uuid, injected, wallet) <==> Chosen(s, uuid, injected) == Some(wallet)
  {
  }

  lemma {:induction false} ReachableIsAvailable(s: State, wallet: string, injected: bool)
    ensures Reachable(s, wallet, injected) <==> Available(s, wallet, injected)
  {
    FindExactly(s.providers, wallet);
  }

  lemma {:induction false} FromThree(cfg: Config, s: State, a: Event, b: Event, c: Event)
    ensures From(cfg, s, [a, b, c]) == Step(cfg, Step(cfg, Step(cfg, s, a), b), c)
  {
    FromTwo(cfg, Step(cfg, s, a), b, c);
    assert [a, b, c][1..] == [b, c];
  }

  lemma {:induction false} FromFour(cfg: Config, s: State, a: Event, b: Event, c: Event, d: Event)
    ensures From(cfg, s, [a, b, c, d]) == Step(cfg, Step(cfg, Step(cfg, Step(cfg, s, a), b), c), d)
  {
    FromThree(cfg, Step(cfg, s, a), b, c, d);
    assert [a, b, c, d][1..] == [b, c, d];
  }

  lemma {:induction false} BackAgain(pending: multiset<Await>, a: Await)
    ensures pending + multiset{a} - multiset{a} == pending
  {
  }

  // ---------------------------------------------------------------- connecting

  /** What a chain answer puts on screen. */
  predicate ShowsChain(cfg: Config, s: State, wallet: string, chain: Option<nat>) {
    && s.chainId == chain && s.chainFrom == Some(wallet)
    && s.status == if chain == Some(cfg.target) then Connected else WrongNetwork
  }

  /** A connection waiting for accounts. */
  function Connects(s: State, wallet: string): State {
    s.(activeUuid := Some(wallet), error := None, status := Connecting,
       pending := s.pending + multiset{AccountsRequest(wallet)})
  }

  lemma {:induction false} Asked(cfg: Config, s: State, uuid: Option<string>, injected: bool, wallet: string)
    requires wallet != "" && Picks(s, uuid, injected, wallet) && Reachable(s, wallet, injected)
    ensures Step(cfg, s, ConnectCalled(uuid, injected)) == Connects(s, wallet)
  {
    PicksOne(s, uuid, injected, wallet);
    ReachableIsAvailable(s, wallet, injected);
  }

  /** A granted connection shows the wallet's account, screened, and its chain, and clears any error; what else was
      outstanding still is. */
  lemma {:induction false} GrantedConnection(cfg: Config, s: State, uuid: Option<string>, injected: bool,
      wallet: string, account: string, hex: Option<string>)
    requires wallet != "" && Picks(s, uuid, injected, wallet) && Reachable(s, wallet, injected) && account != ""
    ensures var t := From(cfg, s, [ConnectCalled(uuid, injected), AccountsAnswered(wallet, Some(account)),
                                   ConnectChainAnswered(wallet, hex)]);
            && t.providers == s.providers && t.activeUuid == Some(wallet) && t.error == None
            && t.address == Some(account) && t.addressFrom == Some(wallet)
            && (t.sanctioned <==> Listed(cfg.list, account))
            && ShowsChain(cfg, t, wallet, HexToNumber(hex)) && t.pending == s.pending
  {
    FromThree(cfg, s, ConnectCalled(uuid, injected), AccountsAnswered(wallet, Some(account)),
              ConnectChainAnswered(wallet, hex));
    Asked(cfg, s, uuid, injected, wallet);
    var granted := StepConnectAccounts(cfg, Connects(s, wallet), wallet, Some(account));
    BackAgain(s.pending, AccountsRequest(wallet));
    assert granted.pending == s.pending + multiset{ConnectChainRequest(wallet)};
    BackAgain(s.pending, ConnectChainRequest(wallet));
    ListedIsSanctioned(cfg.list, account);
  }

  /** A refused connection, or one without an account, shows the error and no address, and keeps the chain shown. */
  lemma {:induction false} RefusedConnection(cfg: Config, s: State, uuid: Option<string>, injected: bool,
      wallet: string, message: string)
    requires wallet != "" && Picks(s, uuid, injected, wallet) && Reachable(s, wallet, injected)
    ensures var threw := From(cfg, s, [ConnectCalled(uuid, injected), ConnectThrew(AccountsRequest(wallet), message)]);
            && Refused(s, threw, wallet) && threw.error == Some(message)
    ensures var none := From(cfg, s, [ConnectCalled(uuid, injected), AccountsAnswered(wallet, None)]);
            && Refused(s, none, wallet) && none.error == Some("Wallet returned no account.")
  {
    FromTwo(cfg, s, ConnectCalled(uuid, injected), ConnectThrew(AccountsRequest(wallet), message));
    FromTwo(cfg, s, ConnectCalled(uuid, injected), AccountsAnswered(wallet, None));
    Asked(cfg, s, uuid, injected, wallet);
    BackAgain(s.pending, AccountsRequest(wallet));
  }

  predicate Refused(s: State, t: State, wallet: string) {
    && t.activeUuid == Some(wallet) && t.status == Disconnected && t.address == None && !t.sanctioned
    && t.chainId == s.chainId && t.providers == s.providers && t.pending == s.pending
  }

  /** With a wallet that is gone, or none at all, connecting asks nothing: only the error changes, and the choice when
      there was one. */
  lemma {:induction false} NothingToAsk(cfg: Config, s: State, uuid: Option<string>, injected: bool, wallet: string)
    ensures wallet != "" && Picks(s, uuid, injected, wallet) && !Reachable(s, wallet, injected) ==>
              Step(cfg, s, ConnectCalled(uuid, injected))
              == s.(activeUuid := Some(wallet), error := Some("Selected wallet is no longer available."))
    ensures (forall w :: Picks(s, uuid, injected, w) ==> w == "") ==>
              Step(cfg, s, ConnectCalled(uuid, injected)) == s.(error := Some(NO_WALLET))
  {
    ReachableIsAvailable(s, wallet, injected);
    var target := Chosen(s, uuid, injected);
    if target.Some? { PicksOne(s, uuid, injected, target.value); }
    PicksOne(s, uuid, injected, wallet);
  }

  // ---------------------------------------------------------------- switching

  lemma {:induction false} ReachableIsActive(s: State, wallet: string, injected: bool)
    requires s.activeUuid == Some(wallet) && Reachable(s, wallet, injected)
    ensures HasActiveProvider(s.providers, s.activeUuid, injected)
  {
    FindExactly(s.providers, wallet);
  }

  /** A switch that has ended shows the chain the wallet is on and nothing else new but the error. */
  predicate Switched(cfg: Config, s: State, t: State, wallet: string, hex: Option<string>, error: Option<string>) {
    && ShowsChain(cfg, t, wallet, HexToNumber(hex)) && t.error == error
    && t.activeUuid == s.activeUuid && t.address == s.address && t.sanctioned == s.sanctioned
    && t.providers == s.providers && t.pending == s.pending
  }

  /** Switching reads the chain back however the wallet answered; an error other than 4902 is shown. */
  lemma {:induction false} SwitchedOrRefused(cfg: Config, s: State, wallet: string, injected: bool, code: Option<int>,
      message: string, hex: Option<string>)
    requires s.activeUuid == Some(wallet) && Reachable(s, wallet, injected) && code != Some(4902)
    ensures Switched(cfg, s, From(cfg, s, [SwitchCalled(injected), SwitchAnswered(wallet),
                                           SwitchChainAnswered(wallet, hex)]), wallet, hex, None)
    ensures Switched(cfg, s, From(cfg, s, [SwitchCalled(injected), SwitchThrew(wallet, code, message),
                                           SwitchChainAnswered(wallet, hex)]), wallet, hex, Some(message))
  {
    FromThree(cfg, s, SwitchCalled(injected), SwitchAnswered(wallet), SwitchChainAnswered(wallet, hex));
    FromThree(cfg, s, SwitchCalled(injected), SwitchThrew(wallet, code, message), SwitchChainAnswered(wallet, hex));
    Started(cfg, s, wallet, injected);
    AnsweredThenReads(cfg, s, wallet, code, message);
    ReadBack(cfg, s, wallet, None, hex);
    ReadBack(cfg, s, wallet, Some(message), hex);
  }

  lemma {:induction false} Started(cfg: Config, s: State, wallet: string, injected: bool)
    requires s.activeUuid == Some(wallet) && Reachable(s, wallet, injected)
    ensures Step(cfg, s, SwitchCalled(injected)) == Waiting(s, SwitchRequest(wallet))
  {
    ReachableIsActive(s, wallet, injected);
  }

  /** A switch reading the chain back, whatever came of it. */
  function ReadingBack(s: State, wallet: string, error: Option<string>): State {
    Waiting(s, SwitchChainRequest(wallet)).(error := error)
  }

  lemma {:induction false} ReadBack(cfg: Config, s: State, wallet: string, error: Option<string>, hex: Option<string>)
    ensures Switched(cfg, s, Step(cfg, ReadingBack(s, wallet, error), SwitchChainAnswered(wallet, hex)), wallet, hex,
                     error)
  {
    BackAgain(s.pending, SwitchChainRequest(wallet));
  }

  lemma {:induction false} AnsweredThenReads(cfg: Config, s: State, wallet: string, code: Option<int>, message: string)
    requires code != Some(4902)
    ensures Step(cfg, Waiting(s, SwitchRequest(wallet)), SwitchAnswered(wallet)) == ReadingBack(s, wallet, None)
    ensures Step(cfg, Waiting(s, SwitchRequest(wallet)), SwitchThrew(wallet, code, message))
            == ReadingBack(s, wallet, Some(message))
  {
    BackAgain(s.pending, SwitchRequest(wallet));
  }

  /** With 4902 the chain is offered to the wallet first, and only the answer to that can be an error. */
  lemma {:induction false} SwitchedByAdding(cfg: Config, s: State, wallet: string, injected: bool, first: string,
      message: string, hex: Option<string>)
    requires s.activeUuid == Some(wallet) && Reachable(s, wallet, injected)
    ensures Switched(cfg, s, From(cfg, s, [SwitchCalled(injected), SwitchThrew(wallet, Some(4902), first),
                                           AddAnswered(wallet), SwitchChainAnswered(wallet, hex)]), wallet, hex, None)
    ensures Switched(cfg, s, From(cfg, s, [SwitchCalled(injected), SwitchThrew(wallet, Some(4902), first),
                                           AddThrew(wallet, message), SwitchChainAnswered(wallet, hex)]),
                     wallet, hex, Some(message))
  {
    FromFour(cfg, s, SwitchCalled(injected), SwitchThrew(wallet, Some(4902), first), AddAnswered(wallet),
             SwitchChainAnswered(wallet, hex));
    FromFour(cfg, s, SwitchCalled(injected), SwitchThrew(wallet, Some(4902), first), AddThrew(wallet, message),
             SwitchChainAnswered(wallet, hex));
    Offered(cfg, s, wallet, injected, first);
    AddedThenReads(cfg, s, wallet, message);
    ReadBack(cfg, s, wallet, None, hex);
    ReadBack(cfg, s, wallet, Some(message), hex);
  }

  /** A switch waiting for `a`, on the active wallet. */
  function Waiting(s: State, a: Await): State {
    s.(status := Switching, error := None, pending := s.pending + multiset{a})
  }

  lemma {:induction false} Offered(cfg: Config, s: State, wallet: string, injected: bool, first: string)
    requires s.activeUuid == Some(wallet) && Reachable(s, wallet, injected)
    ensures Step(cfg, Step(cfg, s, SwitchCalled(injected)), SwitchThrew(wallet, Some(4902), first))
            == Waiting(s, AddRequest(wallet))
  {
    Started(cfg, s, wallet, injected);
    BackAgain(s.pending, SwitchRequest(wallet));
  }

  lemma {:induction false} AddedThenReads(cfg: Config, s: State, wallet: string, message: string)
    ensures Step(cfg, Waiting(s, AddRequest(wallet)), AddAnswered(wallet)) == ReadingBack(s, wallet, None)
    ensures Step(cfg, Waiting(s, AddRequest(wallet)), AddThrew(wallet, message))
            == ReadingBack(s, wallet, Some(message))
  {
    BackAgain(s.pending, AddRequest(wallet));
  }

  // ---------------------------------------------------------------- between conversations

  /** Disconnecting forgets the session: the discovered wallets and the outstanding awaits are all that is left. */
  lemma {:induction false} DisconnectForgets(cfg: Config, s: State)
    ensures Step(cfg, s, DisconnectCalled) == INITIAL.(providers := s.providers, pending := s.pending)
  {
  }

  /** After a granted connection the wallet may move on: another account is screened anew and leaves the chain alone;
      another chain leaves the account alone and decides the status again; and losing the account disconnects. */
  lemma {:induction false} WalletMovesOn(cfg: Config, s: State, wallet: string, account: string, hex: Option<string>)
    requires OnAChain(s) && account != ""
    ensures var t := Step(cfg, s, AccountsChanged(wallet, Some(account)));
            && t.address == Some(account) && (t.sanctioned <==> Listed(cfg.list, account))
            && t.status == s.status && t.chainId == s.chainId && t.activeUuid == s.activeUuid && t.pending == s.pending
    ensures var t := Step(cfg, s, ChainChanged(wallet, hex));
            && ShowsChain(cfg, t, wallet, HexToNumber(hex))
            && t.address == s.address && t.sanctioned == s.sanctioned && t.pending == s.pending
    ensures var t := Step(cfg, s, AccountsChanged(wallet, None));
            t.status == Disconnected && t.address == None && !t.sanctioned && t.chainId == s.chainId
  {
    ListedIsSanctioned(cfg.list, account);
  }

  /** Before a chain is shown, a chain event is remembered and changes no status. */
  lemma {:induction false} ChainBeforeLanding(cfg: Config, s: State, wallet: string, hex: Option<string>)
    requires !OnAChain(s)
    ensures var t := Step(cfg, s, ChainChanged(wallet, hex));
            t.status == s.status && t.chainId == HexToNumber(hex) && t.address == s.address
  {
  }

  /** A wallet announced with its parts is there to be asked from then on, under the name it gave or else its reverse
      domain name, whatever happens in between. */
  lemma {:induction false} AnnouncedIsReachable(cfg: Config, events: seq<Event>, info: Announcement, more: seq<Event>)
    requires Truthy(info.uuid) && Truthy(info.rdns) && info.hasProvider
    ensures exists p :: p in Run(cfg, events + [Announced(info)] + more).providers && p.uuid == info.uuid.value
    ensures (forall p :: p in Run(cfg, events).providers ==> p.uuid != info.uuid.value) ==>
              exists p :: p in Run(cfg, events + [Announced(info)]).providers && p.uuid == info.uuid.value
                 && p.name == (if info.name.Some? then info.name else info.rdns).value && p.rdns == info.rdns.value
  {
    var s := Run(cfg, events);
    var t := Run(cfg, events + [Announced(info)]);
    RunOne(cfg, events, Announced(info));
    ProvidersOnlyGrow(cfg, events + [Announced(info)], more);
    if exists p :: p in s.providers && p.uuid == info.uuid.value {
      var p :| p in s.providers && p.uuid == info.uuid.value;
      assert p in t.providers;
    } else {
      var p := ShownAs(info);
      assert t.providers == s.providers + [p] && p in t.providers;
    }
    var p :| p in t.providers && p.uuid == info.uuid.value;
    assert p in Run(cfg, events + [Announced(info)] + more).providers;
  }
}
