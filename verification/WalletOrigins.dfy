/**
 * Whose address and chain the wallet provider shows (wallet.tsx). A continuation keeps talking to the provider it was
 * started on, while the active provider may have changed or gone; the lemmas say exactly when what is shown can come
 * from a wallet other than the active one.
 */
module WalletOrigins {
  import opened Text
  import opened Guards
  import opened Wallet

  /** What is shown comes from the active provider. */
  predicate Own(s: State) {
    && s.activeUuid.Some? && s.chainFrom == s.activeUuid
    && (s.address.Some? ==> s.addressFrom == s.activeUuid)
  }

  /** Answering what is outstanding, and nothing else, can show what is not the active provider's. */
  ghost predicate CanShowForeign(cfg: Config, s: State) {
    exists answers: seq<Event> ::
      (forall e :: e in answers ==> IsAnswer(e)) && OnAChain(From(cfg, s, answers)) && !Own(From(cfg, s, answers))
  }

  /** Some await is outstanding on a provider that is not the active one. */
  predicate ForeignAwait(s: State) { exists a :: a in s.pending && Some(a.provider) != s.activeUuid }

  predicate ForeignAddress(s: State) { s.address.Some? && s.addressFrom != s.activeUuid }

  /** Nothing foreign is shown or on its way. */
  ghost predicate AllOwn(s: State) {
    && (OnAChain(s) ==> Own(s))
    && !ForeignAwait(s)
    && (Landing(s) ==> !ForeignAddress(s))
  }

  /** Same session, one await traded for another on the same provider. */
  lemma {:induction false} TradeKeepsOwn(s: State, s': State, taken: Await, added: Await)
    requires AllOwn(s) && taken in s.pending && !taken.AccountsRequest? && added.provider == taken.provider
    requires s'.pending == s.pending - multiset{taken} + multiset{added}
    requires s'.activeUuid == s.activeUuid && s'.status == s.status && s'.chainFrom == s.chainFrom
    requires s'.address == s.address && s'.addressFrom == s.addressFrom
    ensures AllOwn(s')
  {
    assert Landing(s);
    forall a | a in s'.pending ensures Some(a.provider) == s.activeUuid { assert a == added || a in s.pending; }
  }

  lemma {:induction false} LandingKeepsOwn(cfg: Config, s: State, taken: Await, chain: Option<nat>)
    requires AllOwn(s) && taken in s.pending && !taken.AccountsRequest?
    ensures AllOwn(LandOn(cfg, Took(s, taken), taken.provider, chain))
  {
    var s' := LandOn(cfg, Took(s, taken), taken.provider, chain);
    assert Landing(s) && Some(taken.provider) == s.activeUuid;
    forall a | a in s'.pending ensures Some(a.provider) == s.activeUuid { assert a in s.pending; }
  }

  lemma {:induction false} AccountsKeepOwn(cfg: Config, s: State, from: string, first: Option<string>)
    requires AllOwn(s) && AccountsRequest(from) in s.pending
    ensures AllOwn(StepConnectAccounts(cfg, s, from, first))
  {
    var s' := StepConnectAccounts(cfg, s, from, first);
    assert Some(AccountsRequest(from).provider) == s.activeUuid;
    forall a | a in s'.pending ensures Some(a.provider) == s.activeUuid {
      assert a == ConnectChainRequest(from) || a in s.pending;
    }
  }

  lemma {:induction false} ThrewKeepsOwn(s: State, at: Await, message: string)
    requires AllOwn(s) && at in s.pending
    ensures AllOwn(StepConnectThrew(s, at, message))
  {
    forall a | a in Took(s, at).pending ensures Some(a.provider) == s.activeUuid { assert a in s.pending; }
  }

  lemma {:induction false} SwitchAnsweredKeepsOwn(cfg: Config, s: State, from: string)
    requires AllOwn(s) && SwitchRequest(from) in s.pending
    ensures AllOwn(Step(cfg, s, SwitchAnswered(from)))
  {
    TradeKeepsOwn(s, StepSwitchAnswered(s, from), SwitchRequest(from), SwitchChainRequest(from));
  }

  lemma {:induction false} SwitchThrewKeepsOwn(cfg: Config, s: State, from: string, code: Option<int>, message: string)
    requires AllOwn(s) && SwitchRequest(from) in s.pending
    ensures AllOwn(Step(cfg, s, SwitchThrew(from, code, message)))
  {
    var next := if code == Some(CHAIN_NOT_ADDED) then AddRequest(from) else SwitchChainRequest(from);
    TradeKeepsOwn(s, StepSwitchThrew(s, from, code, message), SwitchRequest(from), next);
  }

  lemma {:induction false} AddAnsweredKeepsOwn(cfg: Config, s: State, from: string)
    requires AllOwn(s) && AddRequest(from) in s.pending
    ensures AllOwn(Step(cfg, s, AddAnswered(from)))
  {
    TradeKeepsOwn(s, StepAddAnswered(s, from), AddRequest(from), SwitchChainRequest(from));
  }

  lemma {:induction false} AddThrewKeepsOwn(cfg: Config, s: State, from: string, message: string)
    requires AllOwn(s) && AddRequest(from) in s.pending
    ensures AllOwn(Step(cfg, s, AddThrew(from, message)))
  {
    TradeKeepsOwn(s, StepAddThrew(s, from, message), AddRequest(from), SwitchChainRequest(from));
  }

  lemma {:induction false} ConnectAnswerKeepsOwn(cfg: Config, s: State, e: Event)
    requires e.AccountsAnswered? || e.ConnectChainAnswered? || e.ConnectThrew?
    requires AllOwn(s) && Answered(e) in s.pending
    ensures AllOwn(Step(cfg, s, e))
  {
    if e.AccountsAnswered? {
      AccountsKeepOwn(cfg, s, e.from, e.first);
      assert Step(cfg, s, e) == StepConnectAccounts(cfg, s, e.from, e.first);
    } else if e.ConnectChainAnswered? {
      LandingKeepsOwn(cfg, s, ConnectChainRequest(e.from), HexToNumber(e.hex));
      assert Step(cfg, s, e) == LandOn(cfg, Took(s, ConnectChainRequest(e.from)), e.from, HexToNumber(e.hex));
    } else {
      ThrewKeepsOwn(s, e.at, e.message);
      assert Step(cfg, s, e) == StepConnectThrew(s, e.at, e.message);
    }
  }

  lemma {:induction false} SwitchAnswerKeepsOwn(cfg: Config, s: State, e: Event)
    requires e.SwitchAnswered? || e.SwitchThrew? || e.SwitchChainAnswered?
    requires AllOwn(s) && Answered(e) in s.pending
    ensures AllOwn(Step(cfg, s, e))
  {
    if e.SwitchAnswered? {
      SwitchAnsweredKeepsOwn(cfg, s, e.from);
      assert e == SwitchAnswered(e.from);
    } else if e.SwitchThrew? {
      SwitchThrewKeepsOwn(cfg, s, e.from, e.code, e.message);
      assert e == SwitchThrew(e.from, e.code, e.message);
    } else {
      LandingKeepsOwn(cfg, s, SwitchChainRequest(e.from), HexToNumber(e.hex));
      assert Step(cfg, s, e) == LandOn(cfg, Took(s, SwitchChainRequest(e.from)), e.from, HexToNumber(e.hex));
    }
  }

  lemma {:induction false} AddAnswerKeepsOwn(cfg: Config, s: State, e: Event)
    requires e.AddAnswered? || e.AddThrew?
    requires AllOwn(s) && Answered(e) in s.pending
    ensures AllOwn(Step(cfg, s, e))
  {
    if e.AddAnswered? {
      AddAnsweredKeepsOwn(cfg, s, e.from);
      assert e == AddAnswered(e.from);
    } else {
      AddThrewKeepsOwn(cfg, s, e.from, e.message);
      assert e == AddThrew(e.from, e.message);
    }
  }

  lemma {:induction false} AnswerKeepsOwn(cfg: Config, s: State, e: Event)
    requires IsAnswer(e) && AllOwn(s)
    ensures AllOwn(Step(cfg, s, e))
  {
    if Answered(e) !in s.pending {
      StrayAnswer(cfg, s, e);
    } else if e.AccountsAnswered? || e.ConnectChainAnswered? || e.ConnectThrew? {
      ConnectAnswerKeepsOwn(cfg, s, e);
    } else if e.AddAnswered? || e.AddThrew? {
      AddAnswerKeepsOwn(cfg, s, e);
    } else {
      SwitchAnswerKeepsOwn(cfg, s, e);
    }
  }

  lemma {:induction false} AnswersKeepOwn(cfg: Config, s: State, answers: seq<Event>)
    requires (forall e :: e in answers ==> IsAnswer(e)) && AllOwn(s)
    ensures AllOwn(From(cfg, s, answers))
    decreases |answers|
  {
    if answers != [] {
      assert IsAnswer(answers[0]);
      AnswerKeepsOwn(cfg, s, answers[0]);
      AnswersKeepOwn(cfg, Step(cfg, s, answers[0]), answers[1..]);
    }
  }

  /** Answers that land what an outstanding await was started for. */
  lemma {:induction false} LandForeign(cfg: Config, s: State, a: Await)
    requires a in s.pending
    requires Some(a.provider) != s.activeUuid || (!a.AccountsRequest? && ForeignAddress(s))
    ensures CanShowForeign(cfg, s)
  {
    if a.AccountsRequest? {
      var first, last := AccountsAnswered(a.provider, Some("0x1")), ConnectChainAnswered(a.provider, None);
      FromTwo(cfg, s, first, last);
      assert ConnectChainRequest(a.provider) in Step(cfg, s, first).pending;
      var answers := [first, last];
      assert OnAChain(From(cfg, s, answers)) && !Own(From(cfg, s, answers));
    } else {
      var answers := Land(cfg, s, a);
      assert OnAChain(From(cfg, s, answers)) && !Own(From(cfg, s, answers));
    }
  }

  /** Exactly when what is shown can come to be another wallet's without anything new being started: it is already, or
      an await is outstanding on a provider that is not the active one, or an address of another provider stands while
      an answer that shows a chain is outstanding. */
  lemma {:induction false} ShowsForeignIff(cfg: Config, s: State)
    ensures CanShowForeign(cfg, s)
            <==> (OnAChain(s) && !Own(s)) || ForeignAwait(s) || (Landing(s) && ForeignAddress(s))
  {
    if AllOwn(s) {
      if CanShowForeign(cfg, s) {
        var answers: seq<Event> :| (forall e :: e in answers ==> IsAnswer(e))
                                   && OnAChain(From(cfg, s, answers)) && !Own(From(cfg, s, answers));
        AnswersKeepOwn(cfg, s, answers);
      }
    } else if OnAChain(s) && !Own(s) {
      assert From(cfg, s, []) == s;
    } else if ForeignAwait(s) {
      var a :| a in s.pending && Some(a.provider) != s.activeUuid;
      LandForeign(cfg, s, a);
    } else {
      var a :| a in s.pending && !a.AccountsRequest?;
      LandForeign(cfg, s, a);
    }
  }

  // ---------------------------------------------------------------- runs that start one thing at a time

  /** Nothing is started, and the session is not ended, while an answer is outstanding; a wallet is chosen only when
      none is shown and a switch is asked for only when one is; account and chain events come from the active
      provider. */
  predicate Orderly(s: State, e: Event) {
    match e
    case ConnectCalled(_, _) => s.pending == multiset{} && !OnAChain(s)
    case DisconnectCalled => s.pending == multiset{}
    case SwitchCalled(_) => s.pending == multiset{} && OnAChain(s)
    case AccountsChanged(from, _) => Some(from) == s.activeUuid
    case ChainChanged(from, _) => Some(from) == s.activeUuid
    case _ => true
  }

  predicate OrderlyRun(cfg: Config, events: seq<Event>) {
    events == []
    || (OrderlyRun(cfg, events[..|events| - 1]) && Orderly(Run(cfg, events[..|events| - 1]), events[|events| - 1]))
  }

  lemma {:induction false} SwitchKeepsOwn(s: State, injected: bool)
    requires AllOwn(s) && s.pending == multiset{} && OnAChain(s)
    ensures AllOwn(StepSwitch(s, injected))
  {
    forall a | a in StepSwitch(s, injected).pending ensures Some(a.provider) == s.activeUuid {}
  }

  lemma {:induction false} ConnectKeepsOwn(s: State, uuid: Option<string>, injected: bool)
    requires AllOwn(s) && s.pending == multiset{} && !OnAChain(s)
    ensures AllOwn(StepConnect(s, uuid, injected))
  {
    var s' := StepConnect(s, uuid, injected);
    forall a | a in s'.pending ensures a.AccountsRequest? && Some(a.provider) == s'.activeUuid {}
  }

  lemma {:induction false} ProviderEventsKeepOwn(cfg: Config, s: State, from: string, first: Option<string>,
      hex: Option<string>)
    requires AllOwn(s) && Some(from) == s.activeUuid
    ensures AllOwn(StepAccounts(cfg, s, from, first)) && AllOwn(StepChain(cfg, s, from, hex))
  {
  }

  lemma {:induction false} OrderlyKeepsOwn(cfg: Config, s: State, e: Event)
    requires AllOwn(s) && Orderly(s, e)
    ensures AllOwn(Step(cfg, s, e))
  {
    if IsAnswer(e) {
      AnswerKeepsOwn(cfg, s, e);
    } else {
      match e {
        case Announced(info) => assert StepAnnounce(s, info) == s.(providers := StepAnnounce(s, info).providers);
        case AccountsChanged(from, first) => ProviderEventsKeepOwn(cfg, s, from, first, None);
        case ChainChanged(from, hex) => ProviderEventsKeepOwn(cfg, s, from, None, hex);
        case ConnectCalled(uuid, injected) => ConnectKeepsOwn(s, uuid, injected);
        case DisconnectCalled =>
        case SwitchCalled(injected) => SwitchKeepsOwn(s, injected);
      }
    }
  }

  /** Along runs that start one thing at a time, a shown chain, and any shown address with it, are always the active
      provider's. */
  lemma {:induction false} OrderlyRunsShowOwn(cfg: Config, events: seq<Event>)
    requires OrderlyRun(cfg, events)
    ensures AllOwn(Run(cfg, events))
    ensures OnAChain(Run(cfg, events)) ==> Own(Run(cfg, events))
  {
    if events != [] {
      var before := events[..|events| - 1];
      OrderlyRunsShowOwn(cfg, before);
      OrderlyKeepsOwn(cfg, Run(cfg, before), events[|events| - 1]);
    }
  }

  // ---------------------------------------------------------------- runs that do not

  /** After any run that leaves the accounts request of a connection outstanding, its two answers show that wallet's
      address and chain, whichever provider is active by then. */
  lemma {:induction false} LateConnectionLands(cfg: Config, before: seq<Event>, from: string, first: string,
      hex: string)
    requires AccountsRequest(from) in Run(cfg, before).pending && first != ""
             && HexToNumber(Some(hex)) == Some(cfg.target)
    ensures var s := Run(cfg, before + [AccountsAnswered(from, Some(first))] + [ConnectChainAnswered(from, Some(hex))]);
            && s.status == Connected && s.address == Some(first) && s.addressFrom == s.chainFrom == Some(from)
            && s.activeUuid == Run(cfg, before).activeUuid
  {
    var answered := before + [AccountsAnswered(from, Some(first))];
    RunOne(cfg, before, AccountsAnswered(from, Some(first)));
    RunOne(cfg, answered, ConnectChainAnswered(from, Some(hex)));
    assert ConnectChainRequest(from) in Run(cfg, answered).pending;
  }

  /** Disconnecting does not stop a connection: the run that connects, disconnects and then lets the answers arrive
      shows `connected`, with an address, and no active provider to switch or sign with. */
  lemma {:induction false} ConnectedAcrossDisconnect(cfg: Config, first: string, hex: string)
    requires first != "" && HexToNumber(Some(hex)) == Some(cfg.target)
    ensures var s := Run(cfg, [ConnectCalled(Some(LEGACY_UUID), true)] + [DisconnectCalled]
                              + [AccountsAnswered(LEGACY_UUID, Some(first))]
                                + [ConnectChainAnswered(LEGACY_UUID, Some(hex))]);
            s.status == Connected && s.address == Some(first) && s.activeUuid == None
  {
    var one := [ConnectCalled(Some(LEGACY_UUID), true)];
    RunOne(cfg, [], one[0]);
    assert [] + one == one;
    RunOne(cfg, one, DisconnectCalled);
    LateConnectionLands(cfg, one + [DisconnectCalled], LEGACY_UUID, first, hex);
  }

  /** Two connections at once pair one wallet's address and chain with the other as the active provider. */
  lemma {:induction false} OverlappingConnections(cfg: Config, info: Announcement, first: string, hex: string)
    requires first != "" && HexToNumber(Some(hex)) == Some(cfg.target)
    requires Truthy(info.uuid) && Truthy(info.rdns) && info.hasProvider && info.uuid.value != LEGACY_UUID
    ensures var s := Run(cfg, [Announced(info)] + [ConnectCalled(info.uuid, true)]
                         + [ConnectCalled(Some(LEGACY_UUID), true)]
                              + [AccountsAnswered(info.uuid.value, Some(first))]
                              + [ConnectChainAnswered(info.uuid.value, Some(hex))]);
            && s.status == Connected && s.address == Some(first)
            && s.addressFrom == s.chainFrom == info.uuid && s.activeUuid == Some(LEGACY_UUID)
  {
    var three := [Announced(info)] + [ConnectCalled(info.uuid, true)] + [ConnectCalled(Some(LEGACY_UUID), true)];
    TwoConnectionsCanBeOutstanding(cfg, info);
    LateConnectionLands(cfg, three, info.uuid.value, first, hex);
  }
}
