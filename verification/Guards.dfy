/** The two write-layer guards: sanctions screening (sanctions.ts) and per-vault deposit policy (vault-policy.ts). */
module Guards {
  import opened Text

  const SDN_LIST_MAX_AGE_DAYS := 30
  const MS_PER_DAY := 86_400_000

  /** Functions a stale list does not block: a member taking their own money out. */
  const STALE_LIST_EXEMPT_FUNCTIONS: set<string> := {"requestExit", "claimEscrowed"}

  /** The vendored list: when it was fetched and the addresses it carries. */
  datatype SdnList = SdnList(fetchedAtMs: int, addresses: seq<string>)

  datatype Refusal = ListStale | AddressListed

  predicate IsStale(list: SdnList, now: int) {
    now - list.fetchedAtMs > SDN_LIST_MAX_AGE_DAYS * MS_PER_DAY
  }

  /** A missing or empty address is not on the list. */
  predicate IsSanctioned(list: SdnList, address: Option<string>) {
    && address.Some? && address.value != ""
    && exists a :: a in list.addresses && Lower(a) == Lower(address.value)
  }

  /** The gate every signed write passes first; staleness is tested before the address. */
  function AssertNotSanctioned(list: SdnList, address: Option<string>, now: int, functionName: string)
      : (r: Result<(), Refusal>)
    ensures r.Ok? <==>
            !IsSanctioned(list, address) && (functionName in STALE_LIST_EXEMPT_FUNCTIONS || !IsStale(list, now))
  {
    if functionName !in STALE_LIST_EXEMPT_FUNCTIONS && IsStale(list, now) then Err(ListStale)
    else if IsSanctioned(list, address) then Err(AddressListed)
    else Ok(())
  }

  /** Some listed address has the letters of this one, in either case. */
  predicate Listed(list: SdnList, address: string) {
    address != "" && exists i :: 0 <= i < |list.addresses| && SameLetters(list.addresses[i], address)
  }

  lemma {:induction false} ListedIsSanctioned(list: SdnList, address: string)
    ensures Listed(list, address) <==> IsSanctioned(list, Some(address))
  {
    forall a | a in list.addresses ensures Lower(a) == Lower(address) <==> SameLetters(a, address) {
      LowerEqualIff(a, address);
    }
    if IsSanctioned(list, Some(address)) {
      var a :| a in list.addresses && Lower(a) == Lower(address);
      var i :| 0 <= i < |list.addresses| && list.addresses[i] == a;
      assert SameLetters(list.addresses[i], address);
    }
  }

  /** What the gate refuses, spelled out: any function but the two exempt ones once the list is more than 2,592,000,000
      milliseconds old, and otherwise a listed address. */
  lemma {:induction false} RefusesExactly(list: SdnList, address: string, now: int, functionName: string)
    ensures var refused := AssertNotSanctioned(list, Some(address), now, functionName);
            var stale := now > list.fetchedAtMs + 2_592_000_000
                         && functionName != "requestExit" && functionName != "claimEscrowed";
            && (refused == Err(ListStale) <==> stale)
            && (refused == Err(AddressListed) <==> !stale && Listed(list, address))
  {
    ListedIsSanctioned(list, address);
  }

  /** Vaults this app no longer takes deposits into, by lower-case address. */
  const DEPOSITS_CLOSED_VAULTS: map<string, string> :=
    map["0x4eae5c6d753aac0b4825d41c12e71f0a8be579f6" := "v1-closed"]

  predicate DepositsClosed(vault: string) { Lower(vault) in DEPOSITS_CLOSED_VAULTS }

  /** Closed to deposits: the one retired vault, in either case of its letters. */
  lemma {:induction false} ClosedExactly(vault: string)
    ensures DepositsClosed(vault) <==> SameLetters(vault, "0x4eae5c6d753aac0b4825d41c12e71f0a8be579f6")
  {
    var closed := "0x4eae5c6d753aac0b4825d41c12e71f0a8be579f6";
    LowerIs(closed, closed);
    LowerEqualIff(vault, closed);
  }
}
