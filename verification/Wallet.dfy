/**
 * The wallet provider's state (wallet.tsx). `connect` and `switchToTarget` are cut at their awaits; the pieces
 * interleave freely with account, chain, announce and disconnect events.
 */
module Wallet {
  import opened Text
  import opened Guards

  datatype Status = Disconnected | Connecting | Connected | WrongNetwork | Switching

  datatype Discovered = Discovered(uuid: string, name: string, icon: string, rdns: string)

  /** An announcement; any part may be missing. */
  datatype Announcement = Announcement(uuid: Option<string>, rdns: Option<string>, name: Option<string>,
                                       icon: Option<string>, hasProvider: bool)

  /** Awaits outstanding, each on the provider it was made to: the accounts and chain requests of `connect`, then those
      of `switchToTarget`. */
  datatype Await =
    | AccountsRequest(provider: string)
    | ConnectChainRequest(provider: string)
    | SwitchRequest(provider: string)
    | AddRequest(provider: string)
    | SwitchChainRequest(provider: string)

  /** The target chain and the vendored sanctions list. */
  datatype Config = Config(target: nat, list: SdnList)

  /** The component's fields, and three things it does not keep: the awaits outstanding, and which provider the shown
      address and chain came from. */
  datatype State = State(providers: seq<Discovered>, activeUuid: Option<string>, address: Option<string>,
                         chainId: Option<nat>, status: Status, error: Option<string>, sanctioned: bool,
                         pending: multiset<Await>, addressFrom: Option<string>, chainFrom: Option<string>)

  const LEGACY_UUID := "legacy-window-ethereum"

  const CHAIN_NOT_ADDED := 4902

  const NO_WALLET := "No wallet found. Install a browser wallet extension (EIP-1193/EIP-6963) and reload."

  const INITIAL := State([], None, None, None, Disconnected, None, false, multiset{}, None, None)

  // ---------------------------------------------------------------- hex chain ids

  predicate IsHexDigit(c: char) { '0' <= c <= '9' || 'a' <= c <= 'f' || 'A' <= c <= 'F' }

  function HexDigit(c: char): nat
    requires IsHexDigit(c)
  {
    if c <= '9' then (c - '0') as nat else if c <= 'F' then (c - 'A') as nat + 10 else (c - 'a') as nat + 10
  }

  function HexValue(s: string): nat
    requires forall c :: c in s ==> IsHexDigit(c)
  {
    if s == [] then 0 else 16 * HexValue(s[..|s| - 1]) + HexDigit(s[|s| - 1])
  }

  /** `0x` and at least one hex digit, nothing else; anything else, a non-string included, is no chain id. */
  function HexToNumber(hex: Option<string>): Option<nat> {
    if hex.Some? && |hex.value| > 2 && hex.value[..2] == "0x" && (forall c :: c in hex.value[2..] ==> IsHexDigit(c))
    then Some(HexValue(hex.value[2..]))
    else None
  }

  // ---------------------------------------------------------------- events

  datatype Event =
    | Announced(info: Announcement)
    | AccountsChanged(from: string, first: Option<string>)
    | ChainChanged(from: string, hex: Option<string>)
    | ConnectCalled(uuid: Option<string>, injected: bool)
    | AccountsAnswered(from: string, first: Option<string>)
    | ConnectChainAnswered(from: string, hex: Option<string>)
    | ConnectThrew(at: Await, message: string)
    | DisconnectCalled
    | SwitchCalled(injected: bool)
    | SwitchAnswered(from: string)
    | SwitchThrew(from: string, code: Option<int>, message: string)
    | AddAnswered(from: string)
    | AddThrew(from: string, message: string)
    | SwitchChainAnswered(from: string, hex: Option<string>)

  predicate Truthy(s: Option<string>) { s.Some? && s.value != "" }

  function Find(providers: seq<Discovered>, uuid: string): Option<Discovered> {
    if providers == [] then None
    else if providers[0].uuid == uuid then Some(providers[0])
    else Find(providers[1..], uuid)
  }

  /** Whether a provider is active: a discovered one, or the injected one under the legacy name. */
  predicate HasActiveProvider(providers: seq<Discovered>, activeUuid: Option<string>, injected: bool) {
    activeUuid.Some? && (Find(providers, activeUuid.value).Some? || (activeUuid.value == LEGACY_UUID && injected))
  }

  function LandOn(cfg: Config, s: State, from: string, chain: Option<nat>): State {
    s.(chainId := chain, chainFrom := Some(from),
       status := if chain == Some(cfg.target) then Connected else WrongNetwork)
  }

  function FailConnect(s: State, message: string): State {
    s.(status := Disconnected, address := None, addressFrom := None, sanctioned := false, error := Some(message))
  }

  function Show(cfg: Config, s: State, from: string, first: Option<string>): State {
    s.(address := first, addressFrom := if first.Some? then Some(from) else None,
       sanctioned := IsSanctioned(cfg.list, first))
  }

  function Took(s: State, a: Await): State { s.(pending := s.pending - multiset{a}) }

  function Waits(s: State, a: Await): State { s.(pending := s.pending + multiset{a}) }

  /** A provider goes by its name, or by its reverse domain name when it gives none. */
  function ShownAs(info: Announcement): Discovered
    requires info.uuid.Some? && info.rdns.Some?
  {
    Discovered(info.uuid.value, if info.name.Some? then info.name.value else info.rdns.value,
               if info.icon.Some? then info.icon.value else "", info.rdns.value)
  }

  function StepAnnounce(s: State, info: Announcement): State {
    if !Truthy(info.uuid) || !Truthy(info.rdns) || !info.hasProvider then s
    else if exists p :: p in s.providers && p.uuid == info.uuid.value then s
    else s.(providers := s.providers + [ShownAs(info)])
  }

  /** The wallet asked for, or the first one discovered, or the injected one. */
  function Chosen(s: State, uuid: Option<string>, injected: bool): Option<string> {
    if uuid.Some? then uuid
    else if s.providers != [] then Some(s.providers[0].uuid)
    else if injected then Some(LEGACY_UUID) else None
  }

  predicate Available(s: State, uuid: string, injected: bool) {
    if uuid == LEGACY_UUID then injected else Find(s.providers, uuid).Some?
  }

  function StepConnect(s: State, uuid: Option<string>, injected: bool): State {
    var target := Chosen(s, uuid, injected);
    if !Truthy(target) then s.(error := Some(NO_WALLET))
    else if !Available(s, target.value, injected) then
      s.(activeUuid := target, error := Some("Selected wallet is no longer available."))
    else
      s.(activeUuid := target, error := None, status := Connecting,
         pending := s.pending + multiset{AccountsRequest(target.value)})
  }

  function StepAccounts(cfg: Config, s: State, from: string, first: Option<string>): State {
    Show(cfg, s, from, first).(status := if Truthy(first) then s.status else Disconnected)
  }

  function StepChain(cfg: Config, s: State, from: string, hex: Option<string>): State {
    if OnAChain(s) then LandOn(cfg, s, from, HexToNumber(hex))
    else s.(chainId := HexToNumber(hex), chainFrom := Some(from))
  }

  predicate OnAChain(s: State) { s.status == Connected || s.status == WrongNetwork }

  /** An answer with no such await outstanding changes nothing. */
  function StepConnectAccounts(cfg: Config, s: State, from: string, first: Option<string>): State {
    if AccountsRequest(from) !in s.pending then s
    else if !Truthy(first) then FailConnect(Took(s, AccountsRequest(from)), "Wallet returned no account.")
    else Waits(Show(cfg, Took(s, AccountsRequest(from)), from, first), ConnectChainRequest(from))
  }

  function StepConnectChain(cfg: Config, s: State, from: string, hex: Option<string>): State {
    if ConnectChainRequest(from) !in s.pending then s
    else LandOn(cfg, Took(s, ConnectChainRequest(from)), from, HexToNumber(hex))
  }

  function StepConnectThrew(s: State, at: Await, message: string): State {
    if at !in s.pending || !(at.AccountsRequest? || at.ConnectChainRequest?) then s
    else FailConnect(Took(s, at), message)
  }

  function StepDisconnect(s: State): State {
    s.(activeUuid := None, address := None, chainId := None, addressFrom := None, chainFrom := None,
       status := Disconnected, error := None, sanctioned := false)
  }

  function StepSwitch(s: State, injected: bool): State {
    if !HasActiveProvider(s.providers, s.activeUuid, injected) then s
    else Waits(s.(status := Switching, error := None), SwitchRequest(s.activeUuid.value))
  }

  function StepSwitchAnswered(s: State, from: string): State {
    if SwitchRequest(from) !in s.pending then s else Waits(Took(s, SwitchRequest(from)), SwitchChainRequest(from))
  }

  function StepSwitchThrew(s: State, from: string, code: Option<int>, message: string): State {
    if SwitchRequest(from) !in s.pending then s
    else if code == Some(CHAIN_NOT_ADDED) then Waits(Took(s, SwitchRequest(from)), AddRequest(from))
    else Waits(Took(s, SwitchRequest(from)).(error := Some(message)), SwitchChainRequest(from))
  }

  function StepAddAnswered(s: State, from: string): State {
    if AddRequest(from) !in s.pending then s else Waits(Took(s, AddRequest(from)), SwitchChainRequest(from))
  }

  function StepAddThrew(s: State, from: string, message: string): State {
    if AddRequest(from) !in s.pending then s
    else Waits(Took(s, AddRequest(from)).(error := Some(message)), SwitchChainRequest(from))
  }

  function StepSwitchChain(cfg: Config, s: State, from: string, hex: Option<string>): State {
    if SwitchChainRequest(from) !in s.pending then s
    else LandOn(cfg, Took(s, SwitchChainRequest(from)), from, HexToNumber(hex))
  }

  function Step(cfg: Config, s: State, e: Event): State {
    match e
    case Announced(info) => StepAnnounce(s, info)
    case AccountsChanged(from, first) => StepAccounts(cfg, s, from, first)
    case ChainChanged(from, hex) => StepChain(cfg, s, from, hex)
    case ConnectCalled(uuid, injected) => StepConnect(s, uuid, injected)
    case AccountsAnswered(from, first) => StepConnectAccounts(cfg, s, from, first)
    case ConnectChainAnswered(from, hex) => StepConnectChain(cfg, s, from, hex)
    case ConnectThrew(at, message) => StepConnectThrew(s, at, message)
    case DisconnectCalled => StepDisconnect(s)
    case SwitchCalled(injected) => StepSwitch(s, injected)
    case SwitchAnswered(from) => StepSwitchAnswered(s, from)
    case SwitchThrew(from, code, message) => StepSwitchThrew(s, from, code, message)
    case AddAnswered(from) => StepAddAnswered(s, from)
    case AddThrew(from, message) => StepAddThrew(s, from, message)
    case SwitchChainAnswered(from, hex) => StepSwitchChain(cfg, s, from, hex)
  }

  function Run(cfg: Config, events: seq<Event>): State {
    if events == [] then INITIAL else Step(cfg, Run(cfg, events[..|events| - 1]), events[|events| - 1])
  }

  // ---------------------------------------------------------------- the component

  class WalletProvider {
    const cfg: Config
    var providers: seq<Discovered>
    var activeUuid: Option<string>
    var address: Option<string>
    var chainId: Option<nat>
    var status: Status
    var error: Option<string>
    var sanctioned: bool
    /** Awaits held by the runtime, and where the shown address and chain came from. */
    ghost var pending: multiset<Await>
    ghost var addressFrom: Option<string>
    ghost var chainFrom: Option<string>

    constructor (cfg: Config)
      ensures this.cfg == cfg && View() == INITIAL
    {
      this.cfg := cfg;
      providers, activeUuid, address, chainId := [], None, None, None;
      status, error, sanctioned, pending := Disconnected, None, false, multiset{};
      addressFrom, chainFrom := None, None;
    }

    ghost function View(): State reads this {
      State(providers, activeUuid, address, chainId, status, error, sanctioned, pending, addressFrom, chainFrom)
    }

    method OnAnnounce(info: Announcement)
      modifies this
      ensures View() == StepAnnounce(old(View()), info)
    {
      if !Truthy(info.uuid) || !Truthy(info.rdns) || !info.hasProvider { return; }
      for i := 0 to |providers|
        invariant View() == old(View())
        invariant forall j :: 0 <= j < i ==> providers[j].uuid != info.uuid.value
      {
        if providers[i].uuid == info.uuid.value { return; }
      }
      providers := providers + [ShownAs(info)];
    }

    method OnAccounts(from: string, first: Option<string>)
      modifies this
      ensures View() == StepAccounts(cfg, old(View()), from, first)
    {
      ShowAddress(from, first);
      if !Truthy(first) { status := Disconnected; }
    }

    /** An address is never shown without being looked up. */
    method ShowAddress(from: string, first: Option<string>)
      modifies this
      ensures View() == Show(cfg, old(View()), from, first)
    {
      address := first;
      addressFrom := if first.Some? then Some(from) else None;
      sanctioned := IsSanctioned(cfg.list, first);
    }

    method OnChain(from: string, hex: Option<string>)
      modifies this
      ensures View() == StepChain(cfg, old(View()), from, hex)
    {
      var next := HexToNumber(hex);
      chainId := next;
      chainFrom := Some(from);
      if status == Connected || status == WrongNetwork {
        status := if next == Some(cfg.target) then Connected else WrongNetwork;
      }
    }

    method Connect(uuid: Option<string>, injected: bool)
      modifies this
      ensures View() == StepConnect(old(View()), uuid, injected)
    {
      error := None;
      var target := uuid;
      if target.None? {
        if providers != [] { target := Some(providers[0].uuid); } else if injected { target := Some(LEGACY_UUID); }
      }
      if !Truthy(target) {
        error := Some(NO_WALLET);
        return;
      }
      activeUuid := target;
      var available := if target.value == LEGACY_UUID then injected else Find(providers, target.value).Some?;
      if !available {
        error := Some("Selected wallet is no longer available.");
        return;
      }
      status := Connecting;
      pending := pending + multiset{AccountsRequest(target.value)};
    }

    method ConnectGotAccounts(from: string, first: Option<string>)
      requires AccountsRequest(from) in pending
      modifies this
      ensures View() == StepConnectAccounts(cfg, old(View()), from, first)
    {
      pending := pending - multiset{AccountsRequest(from)};
      if !Truthy(first) {
        ConnectCatch("Wallet returned no account.");
        return;
      }
      ShowAddress(from, first);
      pending := pending + multiset{ConnectChainRequest(from)};
    }

    /** A chain id read from `from` decides what is shown. */
    method Land(from: string, chain: Option<nat>)
      modifies this
      ensures View() == LandOn(cfg, old(View()), from, chain)
    {
      chainId := chain;
      chainFrom := Some(from);
      status := if chain == Some(cfg.target) then Connected else WrongNetwork;
    }

    method ConnectGotChain(from: string, hex: Option<string>)
      requires ConnectChainRequest(from) in pending
      modifies this
      ensures View() == StepConnectChain(cfg, old(View()), from, hex)
    {
      pending := pending - multiset{ConnectChainRequest(from)};
      Land(from, HexToNumber(hex));
    }

    method ConnectCatch(message: string)
      modifies this
      ensures View() == FailConnect(old(View()), message)
    {
      status := Disconnected;
      address := None;
      addressFrom := None;
      sanctioned := false;
      error := Some(message);
    }

    method Disconnect()
      modifies this
      ensures View() == StepDisconnect(old(View()))
    {
      activeUuid := None;
      address := None;
      chainId := None;
      addressFrom, chainFrom := None, None;
      status := Disconnected;
      error := None;
      sanctioned := false;
    }

    method SwitchToTarget(injected: bool)
      modifies this
      ensures View() == StepSwitch(old(View()), injected)
    {
      if !HasActiveProvider(providers, activeUuid, injected) { return; }
      status := Switching;
      error := None;
      pending := pending + multiset{SwitchRequest(activeUuid.value)};
    }

    method SwitchCatch(from: string, code: Option<int>, message: string)
      requires SwitchRequest(from) in pending
      modifies this
      ensures View() == StepSwitchThrew(old(View()), from, code, message)
    {
      pending := pending - multiset{SwitchRequest(from)};
      if code == Some(CHAIN_NOT_ADDED) {
        pending := pending + multiset{AddRequest(from)};
      } else {
        error := Some(message);
        pending := pending + multiset{SwitchChainRequest(from)};
      }
    }

    method AddCatch(from: string, message: string)
      requires AddRequest(from) in pending
      modifies this
      ensures View() == StepAddThrew(old(View()), from, message)
    {
      pending := pending - multiset{AddRequest(from)};
      error := Some(message);
      pending := pending + multiset{SwitchChainRequest(from)};
    }

    method SwitchFinally(from: string, hex: Option<string>)
      requires SwitchChainRequest(from) in pending
      modifies this
      ensures View() == StepSwitchChain(cfg, old(View()), from, hex)
    {
      pending := pending - multiset{SwitchChainRequest(from)};
      Land(from, HexToNumber(hex));
    }
  }

  // ---------------------------------------------------------------- every interleaving

  ghost predicate DistinctUuids(ps: seq<Discovered>) {
    forall i, j :: 0 <= i < j < |ps| ==> ps[i].uuid != ps[j].uuid
  }

  ghost predicate Inv(cfg: Config, s: State) {
    && s.sanctioned == IsSanctioned(cfg.list, s.address)
    && (s.status == Connected ==> s.chainId == Some(cfg.target))
    && (s.status == WrongNetwork ==> s.chainId != Some(cfg.target))
    && DistinctUuids(s.providers)
    && (forall p :: p in s.providers ==> p.uuid != "" && p.rdns != "")
    && Spinning(s)
  }

  /** While the status says connecting or switching, an await of that kind is outstanding. */
  ghost predicate Spinning(s: State) {
    && (s.status == Connecting ==> exists a :: a in s.pending && OfConnect(a))
    && (s.status == Switching ==> exists a :: a in s.pending && !OfConnect(a))
  }

  predicate OfConnect(a: Await) { a.AccountsRequest? || a.ConnectChainRequest? }

  lemma {:induction false} AnnounceKeepsInv(cfg: Config, s: State, info: Announcement)
    requires Inv(cfg, s)
    ensures Inv(cfg, Step(cfg, s, Announced(info)))
  {
  }

  lemma {:induction false} AccountsKeepInv(cfg: Config, s: State, from: string, first: Option<string>)
    requires Inv(cfg, s)
    ensures Inv(cfg, Step(cfg, s, AccountsChanged(from, first)))
  {
  }

  lemma {:induction false} ChainKeepsInv(cfg: Config, s: State, from: string, hex: Option<string>)
    requires Inv(cfg, s)
    ensures Inv(cfg, Step(cfg, s, ChainChanged(from, hex)))
  {
  }

  lemma {:induction false} DisconnectKeepsInv(cfg: Config, s: State)
    requires Inv(cfg, s)
    ensures Inv(cfg, Step(cfg, s, DisconnectCalled))
  {
  }

  lemma {:induction false} ConnectKeepsSpinning(s: State, uuid: Option<string>, injected: bool)
    requires Spinning(s)
    ensures Spinning(StepConnect(s, uuid, injected))
  {
    var s' := StepConnect(s, uuid, injected);
    if s'.pending != s.pending { assert AccountsRequest(s'.activeUuid.value) in s'.pending; }
  }

  lemma {:induction false} ConnectKeepsRest(s: State, uuid: Option<string>, injected: bool)
    ensures var s' := StepConnect(s, uuid, injected);
            && s'.sanctioned == s.sanctioned && s'.address == s.address && s'.chainId == s.chainId
            && s'.providers == s.providers && (s'.status == s.status || s'.status == Connecting)
  {
  }

  lemma {:induction false} ConnectKeepsInv(cfg: Config, s: State, uuid: Option<string>, injected: bool)
    requires Inv(cfg, s)
    ensures Inv(cfg, Step(cfg, s, ConnectCalled(uuid, injected)))
  {
    ConnectKeepsSpinning(s, uuid, injected);
    ConnectKeepsRest(s, uuid, injected);
  }

  /** Trading one await for another of the same kind leaves one of each kind that was there. */
  lemma {:induction false} TradeKeeps(s: State, taken: Await, added: Await)
    requires taken in s.pending && OfConnect(taken) == OfConnect(added)
    ensures var p := s.pending - multiset{taken} + multiset{added};
            && ((exists a :: a in s.pending && OfConnect(a)) ==> exists a :: a in p && OfConnect(a))
            && ((exists a :: a in s.pending && !OfConnect(a)) ==> exists a :: a in p && !OfConnect(a))
  {
    var p := s.pending - multiset{taken} + multiset{added};
    assert added in p;
    assert forall a :: a in s.pending && a != taken ==> a in p;
  }

  lemma {:induction false} ConnectAccountsKeepsInv(cfg: Config, s: State, from: string, first: Option<string>)
    requires Inv(cfg, s)
    ensures Inv(cfg, Step(cfg, s, AccountsAnswered(from, first)))
  {
    if AccountsRequest(from) in s.pending { TradeKeeps(s, AccountsRequest(from), ConnectChainRequest(from)); }
  }

  lemma {:induction false} ConnectEndsKeepInv(cfg: Config, s: State, from: string, hex: Option<string>, at: Await,
      message: string)
    requires Inv(cfg, s)
    ensures Inv(cfg, Step(cfg, s, ConnectChainAnswered(from, hex)))
    ensures Inv(cfg, Step(cfg, s, ConnectThrew(at, message)))
  {
  }

  lemma {:induction false} SwitchKeepsInv(cfg: Config, s: State, injected: bool, from: string, hex: Option<string>)
    requires Inv(cfg, s)
    ensures Inv(cfg, Step(cfg, s, SwitchCalled(injected)))
    ensures Inv(cfg, Step(cfg, s, SwitchChainAnswered(from, hex)))
  {
    if HasActiveProvider(s.providers, s.activeUuid, injected) {
      assert SwitchRequest(s.activeUuid.value) in StepSwitch(s, injected).pending;
    }
  }

  lemma {:induction false} SwitchAnsweredKeepsInv(cfg: Config, s: State, from: string)
    requires Inv(cfg, s)
    ensures Inv(cfg, Step(cfg, s, SwitchAnswered(from)))
  {
    if SwitchRequest(from) in s.pending { TradeKeeps(s, SwitchRequest(from), SwitchChainRequest(from)); }
  }

  lemma {:induction false} SwitchThrewKeepsInv(cfg: Config, s: State, from: string, code: Option<int>, message: string)
    requires Inv(cfg, s)
    ensures Inv(cfg, Step(cfg, s, SwitchThrew(from, code, message)))
  {
    if SwitchRequest(from) in s.pending {
      TradeKeeps(s, SwitchRequest(from), AddRequest(from));
      TradeKeeps(s, SwitchRequest(from), SwitchChainRequest(from));
    }
  }

  lemma {:induction false} AddAnswersKeepInv(cfg: Config, s: State, from: string, message: string)
    requires Inv(cfg, s)
    ensures Inv(cfg, Step(cfg, s, AddAnswered(from)))
    ensures Inv(cfg, Step(cfg, s, AddThrew(from, message)))
  {
    if AddRequest(from) in s.pending { TradeKeeps(s, AddRequest(from), SwitchChainRequest(from)); }
  }

  lemma {:induction false} StepKeepsInv(cfg: Config, s: State, e: Event)
    requires Inv(cfg, s)
    ensures Inv(cfg, Step(cfg, s, e))
  {
    match e {
      case Announced(info) => AnnounceKeepsInv(cfg, s, info);
      case AccountsChanged(from, first) => AccountsKeepInv(cfg, s, from, first);
      case ChainChanged(from, hex) => ChainKeepsInv(cfg, s, from, hex);
      case ConnectCalled(uuid, injected) => ConnectKeepsInv(cfg, s, uuid, injected);
      case AccountsAnswered(from, first) => ConnectAccountsKeepsInv(cfg, s, from, first);
      case ConnectChainAnswered(from, hex) => ConnectEndsKeepInv(cfg, s, from, hex, AccountsRequest(from), "");
      case ConnectThrew(at, message) => ConnectEndsKeepInv(cfg, s, "", None, at, message);
      case DisconnectCalled => DisconnectKeepsInv(cfg, s);
      case SwitchCalled(injected) => SwitchKeepsInv(cfg, s, injected, "", None);
      case SwitchAnswered(from) => SwitchAnsweredKeepsInv(cfg, s, from);
      case SwitchThrew(from, code, message) => SwitchThrewKeepsInv(cfg, s, from, code, message);
      case AddAnswered(from) => AddAnswersKeepInv(cfg, s, from, "");
      case AddThrew(from, message) => AddAnswersKeepInv(cfg, s, from, message);
      case SwitchChainAnswered(from, hex) => SwitchKeepsInv(cfg, s, false, from, hex);
    }
  }

  /** Over every interleaving: the sanctioned flag is the list lookup of the current address; `connected` means the
      target chain and `wrong-network` means another; provider uuids are pairwise distinct; and while the status says
      connecting or switching, an await of that kind is outstanding, so neither spinner can be left behind. */
  lemma {:induction false} WalletInvariant(cfg: Config, events: seq<Event>)
    ensures Inv(cfg, Run(cfg, events))
  {
    if events != [] {
      WalletInvariant(cfg, events[..|events| - 1]);
      StepKeepsInv(cfg, Run(cfg, events[..|events| - 1]), events[|events| - 1]);
    }
  }

  lemma {:induction false} StepKeepsProviders(cfg: Config, s: State, e: Event)
    ensures s.providers <= Step(cfg, s, e).providers
  {
  }

  lemma {:induction false} OneStepGrows(cfg: Config, events: seq<Event>, e: Event)
    ensures Run(cfg, events).providers <= Run(cfg, events + [e]).providers
  {
    RunOne(cfg, events, e);
    StepKeepsProviders(cfg, Run(cfg, events), e);
  }

  lemma PrefixTransitive(a: seq<Discovered>, b: seq<Discovered>, c: seq<Discovered>)
    requires a <= b && b <= c
    ensures a <= c
  {
  }

  /** Discovery only appends: a provider once listed keeps its place. */
  lemma {:induction false} ProvidersOnlyGrow(cfg: Config, events: seq<Event>, more: seq<Event>)
    ensures Run(cfg, events).providers <= Run(cfg, events + more).providers
    decreases |more|
  {
    if more == [] {
      assert events + more == events;
    } else {
      var front, last := more[..|more| - 1], more[|more| - 1];
      var middle := events + front;
      ProvidersOnlyGrow(cfg, events, front);
      OneStepGrows(cfg, middle, last);
      assert middle + [last] == events + more;
      PrefixTransitive(Run(cfg, events).providers, Run(cfg, middle).providers, Run(cfg, events + more).providers);
    }
  }

  // ---------------------------------------------------------------- connected without an address

  /** `connected` does not imply an address: after any run that leaves a switch outstanding, disconnecting and then
      letting the switch land on the target chain shows `connected` with no address. Callers test the address too. */
  lemma {:induction false} ConnectedWithoutAddress(cfg: Config, before: seq<Event>, from: string, hex: string)
    requires SwitchRequest(from) in Run(cfg, before).pending && HexToNumber(Some(hex)) == Some(cfg.target)
    ensures var s := Run(cfg, before + [DisconnectCalled] + [SwitchAnswered(from)]
                         + [SwitchChainAnswered(from, Some(hex))]);
            s.status == Connected && s.address == None
  {
    RunOne(cfg, before, DisconnectCalled);
    RunOne(cfg, before + [DisconnectCalled], SwitchAnswered(from));
    RunOne(cfg, before + [DisconnectCalled] + [SwitchAnswered(from)], SwitchChainAnswered(from, Some(hex)));
    var s := StepSwitchAnswered(StepDisconnect(Run(cfg, before)), from);
    assert SwitchChainRequest(from) in s.pending;
  }

  /** Such runs exist. */
  lemma {:induction false} SwitchCanBeOutstanding(cfg: Config)
    ensures var s := Run(cfg, [ConnectCalled(Some(LEGACY_UUID), true)] + [SwitchCalled(true)]);
            SwitchRequest(LEGACY_UUID) in s.pending
  {
    RunOne(cfg, [], ConnectCalled(Some(LEGACY_UUID), true));
    assert [] + [ConnectCalled(Some(LEGACY_UUID), true)] == [ConnectCalled(Some(LEGACY_UUID), true)];
    RunOne(cfg, [ConnectCalled(Some(LEGACY_UUID), true)], SwitchCalled(true));
    assert StepConnect(INITIAL, Some(LEGACY_UUID), true).activeUuid == Some(LEGACY_UUID);
  }

  /** The other way: two connections wait for accounts, one is granted, the other refused, and then the first one's
      chain answer lands on what the refusal has cleared. */
  lemma {:induction false} ConnectedAfterRefusal(cfg: Config, before: seq<Event>, granted: string, refused: string,
      first: string, hex: string)
    requires granted != refused && first != "" && HexToNumber(Some(hex)) == Some(cfg.target)
    requires AccountsRequest(granted) in Run(cfg, before).pending
    requires AccountsRequest(refused) in Run(cfg, before).pending
    ensures var s := Run(cfg, before + [AccountsAnswered(granted, Some(first))]
                              + [ConnectThrew(AccountsRequest(refused), "refused")]
                              + [ConnectChainAnswered(granted, Some(hex))]);
            s.status == Connected && s.address == None
  {
    var one := before + [AccountsAnswered(granted, Some(first))];
    var two := one + [ConnectThrew(AccountsRequest(refused), "refused")];
    RunOne(cfg, before, AccountsAnswered(granted, Some(first)));
    RunOne(cfg, one, ConnectThrew(AccountsRequest(refused), "refused"));
    RunOne(cfg, two, ConnectChainAnswered(granted, Some(hex)));
    RefusalLands(cfg, Run(cfg, before), granted, refused, first, hex);
  }

  lemma {:induction false} RefusalLands(cfg: Config, s: State, granted: string, refused: string, first: string,
      hex: string)
    requires granted != refused && first != "" && HexToNumber(Some(hex)) == Some(cfg.target)
    requires AccountsRequest(granted) in s.pending && AccountsRequest(refused) in s.pending
    ensures var granting := Step(cfg, s, AccountsAnswered(granted, Some(first)));
            var refusing := Step(cfg, granting, ConnectThrew(AccountsRequest(refused), "refused"));
            var landed := Step(cfg, refusing, ConnectChainAnswered(granted, Some(hex)));
            landed.status == Connected && landed.address == None
  {
    GrantedLeaves(cfg, s, granted, refused, first);
    RefusedLeaves(StepConnectAccounts(cfg, s, granted, Some(first)), granted, refused);
  }

  lemma {:induction false} GrantedLeaves(cfg: Config, s: State, granted: string, refused: string, first: string)
    requires granted != refused && first != ""
    requires AccountsRequest(granted) in s.pending && AccountsRequest(refused) in s.pending
    ensures var p := StepConnectAccounts(cfg, s, granted, Some(first)).pending;
            ConnectChainRequest(granted) in p && AccountsRequest(refused) in p
  {
  }

  lemma {:induction false} RefusedLeaves(s: State, granted: string, refused: string)
    requires ConnectChainRequest(granted) in s.pending && AccountsRequest(refused) in s.pending
    ensures var s' := StepConnectThrew(s, AccountsRequest(refused), "refused");
            ConnectChainRequest(granted) in s'.pending && s'.address == None
  {
  }

  /** Such runs exist: the wallet picker stays clickable while a connection waits. */
  lemma {:induction false} TwoConnectionsCanBeOutstanding(cfg: Config, info: Announcement)
    requires Truthy(info.uuid) && Truthy(info.rdns) && info.hasProvider && info.uuid.value != LEGACY_UUID
    ensures var s := Run(cfg, [Announced(info)] + [ConnectCalled(info.uuid, true)]
                              + [ConnectCalled(Some(LEGACY_UUID), true)]);
            && AccountsRequest(info.uuid.value) in s.pending && AccountsRequest(LEGACY_UUID) in s.pending
            && s.activeUuid == Some(LEGACY_UUID)
  {
    var one := [Announced(info)];
    var two := one + [ConnectCalled(info.uuid, true)];
    RunOne(cfg, [], Announced(info));
    assert [] + one == one;
    RunOne(cfg, one, ConnectCalled(info.uuid, true));
    RunOne(cfg, two, ConnectCalled(Some(LEGACY_UUID), true));
    assert |Run(cfg, one).providers| == 1 && Run(cfg, one).providers[0].uuid == info.uuid.value;
    assert Find(Run(cfg, one).providers, info.uuid.value).Some?;
    assert AccountsRequest(info.uuid.value) in Run(cfg, two).pending;
  }

  lemma {:induction false} RunOne(cfg: Config, events: seq<Event>, e: Event)
    ensures Run(cfg, events + [e]) == Step(cfg, Run(cfg, events), e)
  {
    assert (events + [e])[..|events + [e]| - 1] == events;
  }

  /** Some await is outstanding whose answer will set `connected` or `wrong-network`. */
  predicate Landing(s: State) {
    exists a :: a in s.pending && !a.AccountsRequest?
  }

  predicate LandingAnswer(e: Event) {
    || e.ConnectChainAnswered? || e.SwitchAnswered? || e.SwitchThrew? || e.AddAnswered? || e.AddThrew?
    || e.SwitchChainAnswered?
  }

  /** The answer or failure of an await. */
  predicate IsAnswer(e: Event) { LandingAnswer(e) || e.AccountsAnswered? || e.ConnectThrew? }

  /** The await that an answer answers. */
  function Answered(e: Event): Await
    requires IsAnswer(e)
  {
    match e
    case AccountsAnswered(from, _) => AccountsRequest(from)
    case ConnectChainAnswered(from, _) => ConnectChainRequest(from)
    case ConnectThrew(at, _) => at
    case SwitchAnswered(from) => SwitchRequest(from)
    case SwitchThrew(from, _, _) => SwitchRequest(from)
    case AddAnswered(from) => AddRequest(from)
    case AddThrew(from, _) => AddRequest(from)
    case SwitchChainAnswered(from, _) => SwitchChainRequest(from)
  }

  /** An answer to nothing outstanding changes nothing. */
  lemma {:induction false} StrayAnswer(cfg: Config, s: State, e: Event)
    requires IsAnswer(e) && (Answered(e) !in s.pending || (e.ConnectThrew? && !OfConnect(e.at)))
    ensures Step(cfg, s, e) == s
  {
  }

  /** Answering what is outstanding, and nothing else, can show a chain without an address. */
  ghost predicate CanLandWithoutAddress(cfg: Config, s: State) {
    exists answers: seq<Event> ::
      && (forall e :: e in answers ==> IsAnswer(e))
      && OnAChain(From(cfg, s, answers)) && !Truthy(From(cfg, s, answers).address)
  }

  function From(cfg: Config, s: State, events: seq<Event>): State
    decreases |events|
  {
    if events == [] then s else From(cfg, Step(cfg, s, events[0]), events[1..])
  }

  /** A connection is outstanding beside another await: if it fails it clears the address the other one lands with. */
  predicate AtRisk(s: State) { |s.pending| >= 2 && exists a :: a in s.pending && OfConnect(a) }

  /** No answer to what is outstanding, in whatever order, lands without an address. */
  predicate Safe(s: State) {
    (OnAChain(s) || Landing(s) ==> Truthy(s.address)) && !AtRisk(s)
  }

  /** With nothing else outstanding, taking the one await leaves none. */
  lemma {:induction false} TookLast(pending: multiset<Await>, a: Await)
    requires a in pending && |pending| <= 1
    ensures pending == multiset{a} && pending - multiset{a} == multiset{}
  {
    var rest := pending - multiset{a};
    assert pending == rest + multiset{a};
    assert |rest| == 0;
  }

  lemma {:induction false} ConnectAnswerKeepsSafe(cfg: Config, s: State, e: Event)
    requires IsAnswer(e) && Safe(s) && Answered(e) in s.pending && OfConnect(Answered(e))
    ensures Safe(Step(cfg, s, e))
  {
    TookLast(s.pending, Answered(e));
    if e.ConnectChainAnswered? { assert Landing(s); }
  }

  /** Same address, one await of a switch traded for another. */
  lemma {:induction false} TradeKeepsSafe(s: State, s': State, taken: Await, added: Await)
    requires Safe(s) && taken in s.pending && !OfConnect(taken) && !OfConnect(added)
    requires s'.pending == s.pending - multiset{taken} + multiset{added} && s'.address == s.address
    ensures Safe(s')
  {
    assert Landing(s);
    assert s.pending == s.pending - multiset{taken} + multiset{taken};
    assert |s'.pending| == |s.pending|;
    forall a | a in s'.pending && a != added ensures a in s.pending {}
  }

  lemma {:induction false} LandingKeepsSafe(cfg: Config, s: State, taken: Await, chain: Option<nat>)
    requires Safe(s) && taken in s.pending && !OfConnect(taken)
    ensures Safe(LandOn(cfg, Took(s, taken), taken.provider, chain))
  {
    assert Landing(s);
    assert s.pending == s.pending - multiset{taken} + multiset{taken};
    forall a | a in s.pending - multiset{taken} ensures a in s.pending {}
  }

  lemma {:induction false} SwitchAnsweredKeepsSafe(cfg: Config, s: State, from: string)
    requires Safe(s) && SwitchRequest(from) in s.pending
    ensures Safe(Step(cfg, s, SwitchAnswered(from)))
  {
    TradeKeepsSafe(s, StepSwitchAnswered(s, from), SwitchRequest(from), SwitchChainRequest(from));
  }

  lemma {:induction false} SwitchThrewKeepsSafe(cfg: Config, s: State, from: string, code: Option<int>, message: string)
    requires Safe(s) && SwitchRequest(from) in s.pending
    ensures Safe(Step(cfg, s, SwitchThrew(from, code, message)))
  {
    var next := if code == Some(CHAIN_NOT_ADDED) then AddRequest(from) else SwitchChainRequest(from);
    TradeKeepsSafe(s, StepSwitchThrew(s, from, code, message), SwitchRequest(from), next);
  }

  lemma {:induction false} SwitchLandingKeepsSafe(cfg: Config, s: State, from: string, hex: Option<string>)
    requires Safe(s) && SwitchChainRequest(from) in s.pending
    ensures Safe(Step(cfg, s, SwitchChainAnswered(from, hex)))
  {
    LandingKeepsSafe(cfg, s, SwitchChainRequest(from), HexToNumber(hex));
  }

  lemma {:induction false} AddAnswerKeepsSafe(cfg: Config, s: State, e: Event)
    requires e.AddAnswered? || e.AddThrew?
    requires Safe(s) && Answered(e) in s.pending
    ensures Safe(Step(cfg, s, e))
  {
    TradeKeepsSafe(s, Step(cfg, s, e), AddRequest(e.from), SwitchChainRequest(e.from));
  }

  lemma {:induction false} AnswerKeepsSafe(cfg: Config, s: State, e: Event)
    requires IsAnswer(e) && Safe(s)
    ensures Safe(Step(cfg, s, e))
  {
    if Answered(e) !in s.pending || (e.ConnectThrew? && !OfConnect(e.at)) {
      StrayAnswer(cfg, s, e);
    } else if OfConnect(Answered(e)) {
      ConnectAnswerKeepsSafe(cfg, s, e);
    } else if e.AddAnswered? || e.AddThrew? {
      AddAnswerKeepsSafe(cfg, s, e);
    } else if e.SwitchAnswered? {
      SwitchAnsweredKeepsSafe(cfg, s, e.from);
    } else if e.SwitchThrew? {
      SwitchThrewKeepsSafe(cfg, s, e.from, e.code, e.message);
    } else {
      SwitchLandingKeepsSafe(cfg, s, e.from, e.hex);
    }
  }

  lemma {:induction false} AnswersKeepSafe(cfg: Config, s: State, answers: seq<Event>)
    requires (forall e :: e in answers ==> IsAnswer(e)) && Safe(s)
    ensures Safe(From(cfg, s, answers))
    decreases |answers|
  {
    if answers != [] {
      var e := answers[0];
      assert IsAnswer(e);
      AnswerKeepsSafe(cfg, s, e);
      AnswersKeepSafe(cfg, Step(cfg, s, e), answers[1..]);
    }
  }

  lemma {:induction false} FromOneMore(cfg: Config, s: State, e: Event, rest: seq<Event>)
    ensures From(cfg, s, [e] + rest) == From(cfg, Step(cfg, s, e), rest)
  {
    assert ([e] + rest)[1..] == rest;
  }

  lemma {:induction false} FromTwo(cfg: Config, s: State, a: Event, b: Event)
    ensures From(cfg, s, [a]) == Step(cfg, s, a)
    ensures From(cfg, s, [a, b]) == Step(cfg, Step(cfg, s, a), b)
  {
    assert [a][1..] == [] && [b][1..] == [] && [a, b][1..] == [b];
    assert From(cfg, Step(cfg, s, a), [b]) == From(cfg, Step(cfg, Step(cfg, s, a), b), []);
  }

  /** The answers to one await that land. */
  lemma {:induction false} Land(cfg: Config, s: State, a: Await) returns (answers: seq<Event>)
    requires a in s.pending && !a.AccountsRequest?
    ensures forall e :: e in answers ==> LandingAnswer(e)
    ensures var t := From(cfg, s, answers);
            && OnAChain(t) && t.address == s.address && t.addressFrom == s.addressFrom
            && t.activeUuid == s.activeUuid && t.chainFrom == Some(a.provider)
  {
    var last := SwitchChainAnswered(a.provider, None);
    if a.ConnectChainRequest? {
      answers := [ConnectChainAnswered(a.provider, None)];
      FromTwo(cfg, s, answers[0], last);
    } else if a.SwitchChainRequest? {
      answers := [last];
      FromTwo(cfg, s, last, last);
    } else {
      var first := if a.SwitchRequest? then SwitchAnswered(a.provider) else AddAnswered(a.provider);
      answers := [first, last];
      assert SwitchChainRequest(a.provider) in Step(cfg, s, first).pending;
      FromTwo(cfg, s, first, last);
    }
  }

  /** Failing one connection and landing another await shows a chain without an address. */
  lemma {:induction false} FailThenLand(cfg: Config, s: State, failed: Await, landed: Await)
      returns (answers: seq<Event>)
    requires failed in s.pending && OfConnect(failed)
    requires landed in s.pending - multiset{failed} && !landed.AccountsRequest?
    ensures forall e :: e in answers ==> IsAnswer(e)
    ensures OnAChain(From(cfg, s, answers)) && !Truthy(From(cfg, s, answers).address)
  {
    var threw := ConnectThrew(failed, "");
    var rest := Land(cfg, Step(cfg, s, threw), landed);
    FromOneMore(cfg, s, threw, rest);
    answers := [threw] + rest;
  }

  /** Two connections that both still wait for accounts: one is granted, the other fails, and the first one lands. */
  lemma {:induction false} GrantThenFail(cfg: Config, s: State, granted: Await, failed: Await)
      returns (answers: seq<Event>)
    requires granted.AccountsRequest? && failed.AccountsRequest?
    requires granted in s.pending && failed in s.pending - multiset{granted}
    ensures forall e :: e in answers ==> IsAnswer(e)
    ensures OnAChain(From(cfg, s, answers)) && !Truthy(From(cfg, s, answers).address)
  {
    var grant := AccountsAnswered(granted.provider, Some("0x1"));
    var s' := Step(cfg, s, grant);
    var landed := ConnectChainRequest(granted.provider);
    assert s'.pending == s.pending - multiset{granted} + multiset{landed};
    var rest := FailThenLand(cfg, s', failed, landed);
    FromOneMore(cfg, s, grant, rest);
    answers := [grant] + rest;
  }

  lemma {:induction false} RiskLands(cfg: Config, s: State)
    requires AtRisk(s)
    ensures CanLandWithoutAddress(cfg, s)
  {
    var a :| a in s.pending && OfConnect(a);
    var others := s.pending - multiset{a};
    assert s.pending == others + multiset{a};
    assert |others| >= 1;
    var b :| b in others;
    if !b.AccountsRequest? {
      var answers := FailThenLand(cfg, s, a, b);
    } else if !a.AccountsRequest? {
      assert a in s.pending - multiset{b};
      var answers := FailThenLand(cfg, s, b, a);
    } else {
      var answers := GrantThenFail(cfg, s, a, b);
    }
  }

  /** Exactly when answering what is outstanding can show a chain without an address: there is none now and a chain is
      shown or about to be, or a connection is outstanding beside another await. A caller that starts nothing else can
      test this in the current state. */
  lemma {:induction false} LandsWithoutAddressIff(cfg: Config, s: State)
    ensures CanLandWithoutAddress(cfg, s) <==> ((OnAChain(s) || Landing(s)) && !Truthy(s.address)) || AtRisk(s)
  {
    if Safe(s) {
      if CanLandWithoutAddress(cfg, s) {
        var answers: seq<Event> :| && (forall e :: e in answers ==> IsAnswer(e))
                                   && OnAChain(From(cfg, s, answers)) && !Truthy(From(cfg, s, answers).address);
        AnswersKeepSafe(cfg, s, answers);
      }
    } else if AtRisk(s) {
      RiskLands(cfg, s);
    } else if OnAChain(s) {
      assert From(cfg, s, []) == s;
    } else {
      var a :| a in s.pending && !a.AccountsRequest?;
      var answers := Land(cfg, s, a);
    }
  }

  /** No event leaves the address missing while an answer that will land is outstanding. */
  predicate NeverClearedMidway(cfg: Config, events: seq<Event>) {
    events == []
    || (NeverClearedMidway(cfg, events[..|events| - 1])
        && (Landing(Run(cfg, events)) ==> Truthy(Run(cfg, events).address)))
  }

  /** Along a run where that never happens, `connected` and `wrong-network` imply an address. */
  lemma {:induction false} AddressWhenConnected(cfg: Config, events: seq<Event>)
    requires NeverClearedMidway(cfg, events)
    ensures OnAChain(Run(cfg, events)) ==> Truthy(Run(cfg, events).address)
  {
    if events != [] {
      var before := events[..|events| - 1];
      AddressWhenConnected(cfg, before);
      StepKeepsAddress(cfg, Run(cfg, before), events[|events| - 1]);
      assert before == [] ==> Run(cfg, before) == INITIAL;
      assert Landing(Run(cfg, before)) ==> Truthy(Run(cfg, before).address);
    }
  }

  lemma {:induction false} LandingAnswerKeepsAddress(cfg: Config, s: State, e: Event)
    requires LandingAnswer(e)
    ensures Step(cfg, s, e).address == s.address && (OnAChain(Step(cfg, s, e)) ==> OnAChain(s) || Landing(s))
  {
    if Answered(e) !in s.pending { StrayAnswer(cfg, s, e); }
  }

  lemma {:induction false} StepKeepsAddress(cfg: Config, s: State, e: Event)
    requires Landing(s) || OnAChain(s) ==> Truthy(s.address)
    ensures OnAChain(Step(cfg, s, e)) ==> Truthy(Step(cfg, s, e).address)
  {
    if LandingAnswer(e) {
      LandingAnswerKeepsAddress(cfg, s, e);
    } else if e.ConnectCalled? {
      ConnectKeepsAddress(s, e.uuid, e.injected);
    }
  }

  lemma {:induction false} ConnectKeepsAddress(s: State, uuid: Option<string>, injected: bool)
    ensures OnAChain(StepConnect(s, uuid, injected)) ==> OnAChain(s)
    ensures StepConnect(s, uuid, injected).address == s.address
  {
  }

  /** At no point of the run could the outstanding answers have landed without an address. */
  ghost predicate NeverExposed(cfg: Config, events: seq<Event>) {
    forall n :: 0 <= n <= |events| ==> !CanLandWithoutAddress(cfg, Run(cfg, events[..n]))
  }

  lemma NeverExposedStep(cfg: Config, events: seq<Event>)
    requires events != []
    ensures NeverExposed(cfg, events) <==>
            NeverExposed(cfg, events[..|events| - 1]) && !CanLandWithoutAddress(cfg, Run(cfg, events))
  {
    var before := events[..|events| - 1];
    assert forall n :: 0 <= n <= |before| ==> before[..n] == events[..n];
    assert events[..|events|] == events;
    if NeverExposed(cfg, events) {
      assert !CanLandWithoutAddress(cfg, Run(cfg, events[..|events|]));
      forall n | 0 <= n <= |before| ensures !CanLandWithoutAddress(cfg, Run(cfg, before[..n])) {
        assert !CanLandWithoutAddress(cfg, Run(cfg, events[..n]));
      }
    }
  }

  /** At no point of the run is a connection outstanding beside another await. */
  predicate NeverAtRisk(cfg: Config, events: seq<Event>) {
    !AtRisk(Run(cfg, events)) && (events == [] || NeverAtRisk(cfg, events[..|events| - 1]))
  }

  /** The runs that are never exposed are exactly those in which the address is never cleared while an answer that will
      land is outstanding, and no connection is ever outstanding beside another await. */
  lemma {:induction false} ClearedMidwayIff(cfg: Config, events: seq<Event>)
    ensures NeverExposed(cfg, events) <==> NeverClearedMidway(cfg, events) && NeverAtRisk(cfg, events)
    decreases |events|
  {
    LandsWithoutAddressIff(cfg, Run(cfg, events));
    if events == [] {
      assert events[..0] == events;
    } else {
      ClearedMidwayIff(cfg, events[..|events| - 1]);
      NeverExposedStep(cfg, events);
      if NeverClearedMidway(cfg, events) { AddressWhenConnected(cfg, events); }
    }
  }
}
