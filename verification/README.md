# Vault application: verified models of its off-chain core

This project models the parts of the repository that carry a protocol, a state machine or arithmetic, and proves what
they promise for every input, every run and every interleaving. `dafny verify dfyconfig.toml` checks all of it.

**Signed writes** (`TxStatus`, `Guards`, `SignedWrites`, `SignedWriteSafety`, `MemberFlows`, `EscrowClaims`,
`MinedActions`). A member's deposit, exit, vote or claim is a multi-step protocol between the app, a wallet and a chain.
`TxStatus` says what a receipt wait proves about a chain on which the wallet may cancel, reprice or replace a
transaction at the same nonce. `SignedWrites` gives each `send*` function twice: as the straight-line code it is, and as
a task cut at its awaits, and proves the two agree. `SignedWriteSafety` interleaves any number of tasks with an
environment that answers anything at any time and proves safety of every trace. `MemberFlows` and `EscrowClaims` add
what the member is shown, and `MinedActions` ties what is shown to what the chain mined.

**The interface generator** (`Cheatcodes`, `CheatcodeMeaning`, `Printer`, `PrintedLines`, `SolidityReader`,
`PrinterProperties`). The comparator, the list that grows while it is enumerated, the exclusive-or fold, and the
indenting printer with its nested calls, whose text is proved to be exactly its rows, stated apart from it, and is
compared with what a Solidity reader of that text sees.

**The static-analysis gate** (`SlitherBaseline`, `FindingKeys`). Keys are derived and counted, and the verdict is
multiset inclusion with one deliberately fuzzy key; the generator and the checker fit together, and keys tell places
apart.

**State and reads** (`Wallet`, `WalletRuns`, `WalletOrigins`, `TermsStore`, `Holdings`, `LiveVaults`,
`LiveVaultMeaning`, `PoolReads`). The wallet provider under every interleaving of its continuations with wallet events,
and whole conversations with a wallet; terms acceptance under arbitrary storage failures; shares of NAV in integer basis
points; and the flat-batch read pipeline against asking about each asset alone, with every number traced to the answer it
came from.

`Text` and `Digits` hold the string operations and the positional numbers the others share. Each class follows the source
object whose fields it updates, and each of its methods is proved to perform one step of a specification function. The
lemmas are about those functions; where a function computes something a reader would want to know outright, a lemma
states it by its parts, without that function (`EachOutcomeExactly`, `KeySaysPlace`, `LegIsWorth`, `ContractShown` and
the like).

## Where the code does less than it says

- **A receipt wait without values.** `isSameCall` compares `value` with `===`, so two missing values count as equal.
  `TxStatus.FieldsProveSameCallIff` and `ConfirmSoundIff` give the exact condition, `MissingValueCreditsAlteredCall` an
  instance. A repriced contract creation, which has no `to`, is never credited.
- **Freshness of the sanctions list.** It is tested when the gate runs, before the simulation, not when the wallet is
  asked. `SignedWriteSafety.FreshFromGateIff` and `FreshWritesIff` say how much life the gate must see for a given bound
  on the simulation's time; `StaleWriteAfterSlowSimulation` is a run with one millisecond too little.
- **One failed price.** The pipeline means a failed price read to blank its own leg only
  (`apps/vaults-ui/src/lib/live-vaults.ts:151-157` and `333-340`). It does in the leg assembly, but when the NAV read
  succeeded with a nonzero value `weightsBps` multiplies the blanked value by a bigint and throws, which rejects the
  whole list. `LiveVaults.UnpricedLegRejectsVaultIff` is the exact condition, `OneFailedPriceCanRejectTheList` an
  instance. The four rounds are separate requests, so a NAV read that succeeds before a price read that fails is possible.
- **Connected without an address.** Disconnecting while a chain switch is outstanding ends in `connected` with no address
  (`Wallet.ConnectedWithoutAddress`). So does refusing one of two connections while the other, already granted, waits for
  its chain (`ConnectedAfterRefusal`): the refusal clears the address the other one lands with.
  `LandsWithoutAddressIff` and `ClearedMidwayIff` say exactly when.
- **Another wallet's address.** A continuation of `connect` keeps talking to the wallet it was started on. It lands
  after a disconnect, and over a newer connection (`WalletOrigins.ConnectedAcrossDisconnect`, `OverlappingConnections`);
  `ShowsForeignIff` says exactly when.
- **A baseline entry without a count.** The comparison reads it as zero, but the informational list of shrunk keys raises
  `KeyError`, so no status is returned (`SlitherBaseline.CrashesIff`, `UncountedEntryCrashes`).
- **An empty group name.** `group` indexes its first character, so inserting headers raises, with the list half rewritten
  (`Cheatcodes.CheatList.PrefixWithGroupHeaders`).
- **Forgotten acceptances.** A read that fails before a write that succeeds drops every other address
  (`TermsStore.FailedReadForgetsOthers`; `RecordChangesOthersIff` is the exact condition); the failure is in the safe
  direction.
- **Comments that end early.** The printer splits a description at newlines only. Solidity also ends a `//` comment at
  VT, FF, CR, NEL, LS and PS, so what follows one of these in a line of the description is read as code
  (`PrinterProperties.CarriageReturnLeaks`). `SolidityReader.HiddenIff` is the exact condition; carriage returns at line
  ends, as Windows leaves them, do no harm (`WindowsLinesAreHidden`). In the other documentation style the same goes for
  a closing mark (`BlockCommentLeaks`, `BlockClosesIff`).

## Model

| member | source | states |
|---|---|---|
| TxStatus.ConfirmTx | apps/vaults-ui/src/lib/tx-status.ts:68-86 | the loop that lets each replacement report overwrite the last one reaches the verdict `Outcome`, on which the next rows stand |
| TxStatus.RequireConfirmed | apps/vaults-ui/src/lib/tx-status.ts:112-127 | a step that a later write depends on succeeds exactly when its outcome is confirmed, and hands on the mined hash |
| TxStatus.EachOutcomeExactly | apps/vaults-ui/src/lib/tx-status.ts:68-86 | each outcome in terms of the wait alone: a wait that threw is unconfirmed with its error; replaced means exactly a foreign receipt that the last report does not account for, field by field and ignoring only letter case, and carries that report's reason; otherwise the receipt's status decides |
| TxStatus.ConfirmSound | apps/vaults-ui/src/lib/tx-status.ts:51-86 | on a chain with one mined transaction per sender and nonce, when the receipt is the transaction's own or the last report carries a value, a credited hash was mined with that very status, makes the call that was sent, and is the only transaction mined in that slot |
| TxStatus.ConfirmSoundIff | apps/vaults-ui/src/lib/tx-status.ts:51-86 | a wait that credits is right about every chain its client may be describing if and only if it shows a value in that sense |
| TxStatus.CreditedIff | apps/vaults-ui/src/lib/tx-status.ts:68-86 | with a complete last report, a settled wait is credited if and only if the mined transaction is the member's own or a true repricing of it; a cancelled or altered one is always reported as replaced |
| TxStatus.FieldsProveSameCallIff | apps/vaults-ui/src/lib/tx-status.ts:56-66 | the four field comparisons prove the two transactions make the same call, without trusting `reason`, exactly when the report carries a value |
| TxStatus.MissingValueCreditsAlteredCall | apps/vaults-ui/src/lib/tx-status.ts:63 | a concrete truthful wait without values in which a call that moves a different value is credited as the member's own |
| TxStatus.CreditedVerdictsAgree | apps/vaults-ui/src/lib/tx-status.ts:68-86 | a credited verdict is final: a later wait on the same hash, on a grown chain, agrees on status and on the mined hash |
| Guards.AssertNotSanctioned | apps/vaults-ui/src/lib/sanctions.ts:125-131 | a write passes if and only if its address is not on the list and the list is fresh or the function is one of the two exempt ones |
| Guards.RefusesExactly | apps/vaults-ui/src/lib/sanctions.ts:42-131 | stale means more than 2,592,000,000 milliseconds and any function but the two named ones, and is reported before a listed address; listed means equal to some entry up to the case of ASCII letters |
| Guards.ClosedExactly | apps/vaults-ui/src/lib/vault-policy.ts:35-45 | the one retired vault, and no other, is closed to deposits, in either case of its letters |
| SignedWrites.ChainActions.SimulateThenWrite | apps/vaults-ui/src/lib/chain-actions.ts:539-556 | what one write asks for, in order, and how it fails: nothing at all when refused, a simulation only when it would revert |
| SignedWrites.ChainActions.SendDeposit | apps/vaults-ui/src/lib/chain-actions.ts:568-596 | the straight-line function asks for exactly what its state machine asks for, fails with the same error, and reports the mined approval |
| SignedWrites.ChainActions.SendCommitVote | apps/vaults-ui/src/lib/chain-actions.ts:604-629 | as above for a commit: one signature, whose commitment is the one gated write's argument; a refused signature ends it |
| SignedWrites.ChainActions.SendRevealVote | apps/vaults-ui/src/lib/chain-actions.ts:634-653 | as above for a reveal: nothing is asked for unless custody is ready, and then the salt written is the one custody holds |
| SignedWrites.ChainActions.SendRequestExit | apps/vaults-ui/src/lib/chain-actions.ts:657-672 | as above for an exit |
| SignedWrites.ChainActions.SendClaimEscrowed | apps/vaults-ui/src/lib/chain-actions.ts:681-696 | as above for an escrow claim |
| SignedWrites.DriveDeposit | apps/vaults-ui/src/lib/chain-actions.ts:568-596 | a deposit cut at its awaits and resumed answer by answer is the same run as the straight-line function, on every path |
| SignedWrites.DriveWrite | apps/vaults-ui/src/lib/chain-actions.ts:539-556 | a gated write cut at its two awaits is the same run as the straight-line function |
| SignedWriteSafety.NextOk | apps/vaults-ui/src/lib/chain-actions.ts:539-696 | the invariant of the protocol: every event of an arbitrary interleaving keeps each activation on its script, its log equal to its part of the global trace |
| SignedWriteSafety.RunOk | apps/vaults-ui/src/lib/chain-actions.ts:539-696 | that invariant holds in every reachable world |
| SignedWriteSafety.WriteGate | apps/vaults-ui/src/lib/chain-actions.ts:539-556 | in every run, each transaction handed to the wallet is the request that a successful simulation of the same activation came back with; that simulation was of a call whose gate passed right before it, from an address not on the list, with the list fresh or the function exempt; with a client that returns the call it simulated, the transaction is that call |
| SignedWriteSafety.WritesDoNotShareASimulation | apps/vaults-ui/src/lib/chain-actions.ts:539-556 | between two writes of one activation stands another successful simulation: the second write of a deposit is gated again |
| SignedWriteSafety.StaleWriteAfterSlowSimulation | apps/vaults-ui/src/lib/chain-actions.ts:544-555 | a concrete run: a gate in the last millisecond of the list's life and a simulation of one millisecond lead to a non-exempt write on an expired list |
| SignedWriteSafety.FreshFromGateIff | apps/vaults-ui/src/lib/chain-actions.ts:544-555 | for a latency bound d and a gate time: every run whose simulation answers within d of that gate asks the wallet on a fresh list if and only if the gate refuses or sees at least d of the list's life left |
| SignedWriteSafety.FreshWritesIff | apps/vaults-ui/src/lib/chain-actions.ts:544-555 | for a latency bound d and a latest gate time: every run within them asks for all its non-exempt writes on a fresh list if and only if d is zero or the list has d to live at the latest gate; the converse is a run of the protocol |
| SignedWriteSafety.OwnGatePassed | apps/vaults-ui/src/lib/sanctions.ts:125-131 | the gate a write last passed saw a fresh list, or the function is exempt |
| SignedWriteSafety.ListedAddressNeverSimulates | apps/vaults-ui/src/lib/chain-actions.ts:535-544 | no activation by a listed address ever reaches a simulation or a write, in any run |
| SignedWriteSafety.DepositOnlyAfterMinedApproval | apps/vaults-ui/src/lib/chain-actions.ts:568-596 | in every run, with a wallet that may cancel, reprice or replace and receipt waits that are truthful and show values, a deposit(amount) on a vault is written only after approve(vault, the same amount), by the same account and on the token whose address that vault answered earlier in the same activation, was mined successfully; both calls are stated by target, name and arguments |
| SignedWriteSafety.UnconfirmedApprovalEndsTheRun | apps/vaults-ui/src/lib/tx-status.ts:112-127 | an approval that reverted, was replaced or could not be settled is the last thing its activation does: nothing of the deposit is simulated or written, then or later |
| SignedWriteSafety.ClosedVaultAsksNothing | apps/vaults-ui/src/lib/vault-policy.ts:54-58 | a deposit leaves no trace at all if and only if its vault is closed |
| SignedWriteSafety.FinishedDeposit | apps/vaults-ui/src/lib/chain-actions.ts:568-596 | a finished deposit made exactly two writes, each of what its own simulation came back with: approve(vault, amount) on the token read, then deposit(amount) on the vault; it reports the mined approval and the deposit it broadcast |
| MemberFlows.SettleFlow | apps/vaults-ui/src/components/MemberActions.tsx:86-109 | shows a pending line, then one settled state; answers true exactly when the receipt was confirmed |
| MemberFlows.MemberActions.HandleDeposit | apps/vaults-ui/src/components/MemberActions.tsx:272-285 | the flow passes through exactly the states of a deposit run; the input is cleared exactly when the deposit was confirmed; a closed vault or bad input asks the chain for nothing |
| MemberFlows.MemberActions.HandleExit | apps/vaults-ui/src/components/MemberActions.tsx:287-299 | as above for an exit |
| MemberFlows.MemberActions.HandleCommit | apps/vaults-ui/src/components/MemberActions.tsx:301-310 | as above for a vote commit |
| MemberFlows.MemberActions.HandleReveal | apps/vaults-ui/src/components/MemberActions.tsx:312-321 | as above for a vote reveal |
| MemberFlows.RunStates | apps/vaults-ui/src/components/MemberActions.tsx:86-109 | along one run every state is well formed, only the last is settled, and a success line appears exactly on a confirmed run, quoting the mined hash |
| MemberFlows.RunShowsOutcome | apps/vaults-ui/src/components/MemberActions.tsx:86-109 | a run that sent its call shows a busy state, a pending line with the broadcast hash, and then the line of exactly its outcome, for all four outcomes, named for its own call and quoting the hash it is about |
| MemberFlows.RunShowsError | apps/vaults-ui/src/components/MemberActions.tsx:272-321 | a run with bad input shows that error alone; a run whose send failed shows that failure after a busy state |
| MemberFlows.FlowStatesSafe | apps/vaults-ui/src/components/MemberActions.tsx:86-109 | over any merge of runs a flow never shows both a message and an error, nor an error while busy, and a success line always has a confirmed receipt of its own flow behind it |
| MemberFlows.FlowEndsSettled | apps/vaults-ui/src/components/MemberActions.tsx:272-321 | once its runs have ended, a flow that was ever started is not busy and shows exactly one of message and error |
| MemberFlows.FlowPanel.With | apps/vaults-ui/src/components/MemberActions.tsx:272-321 | setting one flow of the panel leaves the three others as they were |
| MemberFlows.FlowsIndependent | apps/vaults-ui/src/components/MemberActions.tsx:272-321 | with the four flows in one panel that every run steps, what one flow shows is decided by its own runs alone |
| EscrowClaims.EscrowPanel.Settle | apps/vaults-ui/src/components/EscrowClaims.tsx:119-141 | a receipt answer moves the claim map and the row list together as one step of the panel |
| EscrowClaims.EscrowPanel.HandleClaim | apps/vaults-ui/src/components/EscrowClaims.tsx:110-145 | one claim run is a sequence of panel steps, with the same requests as the state machine of a claim; without a wallet nothing happens |
| EscrowClaims.ListLosesExactlyConfirmed | apps/vaults-ui/src/components/EscrowClaims.tsx:120-141 | for any interleaving the final list is the initial one minus exactly the confirmed assets, in order |
| EscrowClaims.RowGoneIffClaimed | apps/vaults-ui/src/components/EscrowClaims.tsx:122-125 | a row is gone if and only if some claim on its asset, ignoring case, was confirmed |
| EscrowClaims.FlowFromOwnEvents | apps/vaults-ui/src/components/EscrowClaims.tsx:110-145 | the flow of an asset is decided by the last piece of its own claims |
| EscrowClaims.FlowShowsOutcome | apps/vaults-ui/src/components/EscrowClaims.tsx:112-145 | over any interleaving from a panel without claims a flow shows a claimed line, a revert error, a replaced line or an unconfirmed line if and only if its last own piece is an answer with exactly that outcome, quoting the hash it is about; a pending line exactly while sent, an error exactly when sending failed |
| EscrowClaims.InterleavingsAgree | apps/vaults-ui/src/components/EscrowClaims.tsx:110-145 | confluence: two interleavings of the same claims leave the panel in the same state |
| EscrowClaims.OneAwaitEach | apps/vaults-ui/src/components/EscrowClaims.tsx:110-145 | the claims begun and not yet ended on an asset are exactly as many as its outstanding awaits |
| EscrowClaims.BusyIffInFlight | apps/vaults-ui/src/components/EscrowClaims.tsx:187-199 | with claims begun only from a button that is not disabled, at most one claim on an asset is outstanding, and its flow is busy exactly while one is |
| EscrowClaims.OneClaimInFlight | apps/vaults-ui/src/components/EscrowClaims.tsx:115-117 | so a second claim on an asset never begins while one is outstanding |
| EscrowClaims.WithoutTheGuard | apps/vaults-ui/src/components/EscrowClaims.tsx:194 | without the disabled button two claims can be outstanding, and after one fails the flow is not busy while the other still is |
| EscrowClaims.FlowsWellFormed | apps/vaults-ui/src/components/EscrowClaims.tsx:110-145 | in any interleaving a flow never shows both a message and an error, nor an error while busy |
| MinedActions.RunWrites | apps/vaults-ui/src/lib/chain-actions.ts:539-696 | in every run each activation that is not a deposit has got exactly as far as its state says with the one call its action is about, given by target, name and arguments; a commit's carries the commitment that was signed, a reveal's what custody holds |
| MinedActions.RunTells | apps/vaults-ui/src/lib/chain-actions.ts:539-696 | the error an activation ended with says how far it got: closed or not ready before anything was asked, refused with nothing asked since the last answer, a revert when a simulation of that function was the last thing asked, a rejection when a write or a signature was, and an unconfirmed approval with the very outcome of its receipt |
| MinedActions.FinishedIsMined | apps/vaults-ui/src/lib/tx-status.ts:68-86 | a finished activation whose receipt wait confirms: the chain mined successfully the very call its action is about |
| MinedActions.ApprovalIsMined | apps/vaults-ui/src/lib/chain-actions.ts:580-595 | the approval a finished deposit reports was mined successfully as approve(vault, amount), on the token its vault answered |
| MinedActions.DriveIsRun | apps/vaults-ui/src/lib/chain-actions.ts:568-696 | a send function run straight through is an activation of a run, so what holds of runs holds of the handlers |
| MinedActions.SuccessLineIsMined | apps/vaults-ui/src/components/MemberActions.tsx:86-109 | end to end: over any merge of handler runs, a success line quotes a hash that the chain mined successfully and that makes the call of a run of that flow |
| MinedActions.ClaimedLineIsMined | apps/vaults-ui/src/components/EscrowClaims.tsx:112-145 | a claimed line in the escrow panel quotes a hash that was mined successfully, as this account's claimEscrowed of that asset on that vault |
| MinedActions.DepositLineIsMined | apps/vaults-ui/src/components/MemberActions.tsx:279-281 | end to end: the line of a deposit quotes an approval and a deposit, and the chain mined both: approve(vault, amount) on the token the vault answered and deposit(amount) on the vault, by the same account |
| MinedActions.RowGoneOnlyIfMined | apps/vaults-ui/src/components/EscrowClaims.tsx:120-125 | end to end: an escrow row disappears only if claimEscrowed of that asset, by this account on that vault, was mined successfully |
| Cheatcodes.CompareIsTotalOrder | contracts/lib/forge-std/scripts/vm.py:128-153 | the comparator is a total order on (group, status, safety, id): antisymmetric, transitive, zero exactly on equal keys |
| CheatcodeMeaning.OrderedExactly | contracts/lib/forge-std/scripts/vm.py:144-154 | the comparison is negative exactly when, at the first of group, status, safety and id that differs, the first differing character is the smaller one or the text ends first |
| Cheatcodes.SortedIsUnique | contracts/lib/forge-std/scripts/vm.py:48-49 | when keys identify entries there is one sorted arrangement, so the generated file does not depend on the input order |
| Cheatcodes.CheatList.PrefixWithGroupHeaders | contracts/lib/forge-std/scripts/vm.py:157-169 | the loop that inserts into the list it enumerates terminates and produces `WithHeaders`; it fails exactly on an entry with an empty group, with the list rewritten up to there |
| Cheatcodes.EraseHeaders | contracts/lib/forge-std/scripts/vm.py:157-169 | erasing the first entry of each group from the result gives the input back, in order |
| Cheatcodes.FirstsAreHeaders | contracts/lib/forge-std/scripts/vm.py:157-169 | the erased entries are the headers of the first entries of the groups, in order |
| Cheatcodes.OneHeaderPerGroup | contracts/lib/forge-std/scripts/vm.py:157-169 | there are as many of them as distinct groups |
| Cheatcodes.HeaderPrecedesItsGroup | contracts/lib/forge-std/scripts/vm.py:157-169 | each header stands immediately before the first entry of its group |
| Cheatcodes.HeadersKeepGroupsAscending | contracts/lib/forge-std/scripts/vm.py:48-57 | after sorting and header insertion the groups still ascend |
| Cheatcodes.SectionsAreContiguous | contracts/lib/forge-std/scripts/vm.py:48-57 | after sorting, every entry lies under the one header of its own group with nothing of another group between, and headers strictly ascend |
| Cheatcodes.InterfaceId | contracts/lib/forge-std/scripts/vm.py:112-119 | the loop computes the exclusive or of the selectors |
| Cheatcodes.InterfaceIdIgnoresOrder | contracts/lib/forge-std/scripts/vm.py:112-119 | the id is the same for any permutation of the list, as section "How Interfaces are Identified" of ERC-165 asks |
| Cheatcodes.InterfaceIdFits | contracts/lib/forge-std/scripts/vm.py:118-122 | with four-byte selectors the id fits the eight hex digits that are printed and later matched |
| CheatcodeMeaning.BytesAreDigits | contracts/lib/forge-std/scripts/vm.py:118 | a selector is read base 256 with its first byte the most significant |
| CheatcodeMeaning.IdBitIsParity | contracts/lib/forge-std/scripts/vm.py:112-119 | each bit of the id says whether an odd number of selectors have it |
| Cheatcodes.FoldAfterHeaders | contracts/lib/forge-std/scripts/vm.py:112-119 | folding after header insertion would cancel the first selector of each group |
| Cheatcodes.FoldAfterHeadersRightIff | contracts/lib/forge-std/scripts/vm.py:44-57 | and would give the right id exactly when those selectors fold to zero: the order of the calls matters |
| Cheatcodes.SafetySplitIsComplete | contracts/lib/forge-std/scripts/vm.py:40-46 | the safe and unsafe lists account for every released cheatcode exactly when none has a third kind of safety |
| CheatcodeMeaning.SelectedExactly | contracts/lib/forge-std/scripts/vm.py:40-57 | a selection keeps every occurrence of the entries of its safety that are neither experimental nor internal, and no other entry |
| Cheatcodes.InterfaceIsComplete | contracts/lib/forge-std/scripts/vm.py:40-57 | end to end: the printed list holds every selected cheatcode once in ascending sections, and the id is that of the unsorted selection |
| Printer.CheatcodesPrinter.Finish | contracts/lib/forge-std/scripts/vm.py:473-476 | returns the text so far without trailing space and starts over |
| Printer.CheatcodesPrinter.PIndent | contracts/lib/forge-std/scripts/vm.py:637-639 | appends the indentation of the current level; none at or below zero |
| Printer.CheatcodesPrinter.PLine | contracts/lib/forge-std/scripts/vm.py:628-631 | appends one indented line |
| Printer.CheatcodesPrinter.PComment | contracts/lib/forge-std/scripts/vm.py:588-621 | appends the comment of a description in the chosen style, and nothing for a blank one |
| Printer.CheatcodesPrinter.PDeclaredAll | contracts/lib/forge-std/scripts/vm.py:525-539 | appends each declaration with its comment, the indentation doubled as the nested calls double it |
| Printer.CheatcodesPrinter.PEnum | contracts/lib/forge-std/scripts/vm.py:545-560 | restores the indentation level and appends exactly one enum |
| Printer.CheatcodesPrinter.PStruct | contracts/lib/forge-std/scripts/vm.py:566-578 | restores the indentation level and appends exactly one struct |
| Printer.CheatcodesPrinter.PItems | contracts/lib/forge-std/scripts/vm.py:497-510 | restores the indentation level and appends the items in the configured order |
| Printer.CheatcodesPrinter.PPrelude | contracts/lib/forge-std/scripts/vm.py:512-523 | appends license and pragma |
| Printer.CheatcodesPrinter.PContract | contracts/lib/forge-std/scripts/vm.py:478-495 | changes nothing already printed, restores the indentation level through all nested calls, and appends exactly the contract text |
| PrintedLines.ContractShown | contracts/lib/forge-std/scripts/vm.py:478-621 | a printed contract is exactly its rows, stated apart from the printer: license, pragma, opening line, every item of the order with its comment, each declaration, each variant with a comma unless it is the last, each field with its type first, all at their depth (a line without a comment is indented twice), and the closing brace |
| PrintedLines.CheatcodeIsShown | contracts/lib/forge-std/scripts/vm.py:44-75 | end to end, in the interface printed for a sorted list every cheatcode's declaration is a line of its own below the header line that displays its group's name |
| PrintedLines.DeclarationUnderHeader | contracts/lib/forge-std/scripts/vm.py:157-177 | between that header and the declaration stand only entries of the same group |
| PrintedLines.StripExactly | contracts/lib/forge-std/scripts/vm.py:589-593 | stripping removes all white space at both ends and nothing else |
| PrintedLines.SplitExactly | contracts/lib/forge-std/scripts/vm.py:593 | the lines of a description joined by newlines are the description again |
| PrinterProperties.CommentIsContained | contracts/lib/forge-std/scripts/vm.py:588-621 | in line style every newline-delimited line of a comment is indentation, marker, and one line of the description, whatever the description contains |
| PrinterProperties.CommentRoundTrip | contracts/lib/forge-std/scripts/vm.py:588-621 | removing indentation and markers gives back the left-stripped lines of the stripped description |
| SolidityReader.HiddenIff | contracts/lib/forge-std/scripts/vm.py:606-621 | a printed line comment shows Solidity, which ends such a comment at any of seven line terminators, nothing of its description but white space if and only if every line of the description is blank from its first terminator on |
| SolidityReader.BlockClosesIff | contracts/lib/forge-std/scripts/vm.py:594-605 | a printed block comment closes at its own end and nowhere before if and only if no line of the description contains a closing mark |
| PrinterProperties.CarriageReturnLeaks | contracts/lib/forge-std/scripts/vm.py:606-621 | in line style a description with a carriage return followed by a brace is not hidden, and its comment unbalances the text |
| PrinterProperties.WindowsLinesAreHidden | contracts/lib/forge-std/scripts/vm.py:606-621 | a description with carriage returns at its line ends is hidden |
| PrinterProperties.BlockCommentLeaks | contracts/lib/forge-std/scripts/vm.py:594-605 | in block style a description that closes its comment and opens a brace unbalances the text |
| PrinterProperties.ContractBalanced | contracts/lib/forge-std/scripts/vm.py:478-586 | the braces of a printed contract nest and balance: reading every character when member text has no braces, and reading as Solidity does, in either style, when every description is one its comment hides |
| PrinterProperties.GeneratedInterfaceBalanced | contracts/lib/forge-std/scripts/vm.py:44-75 | end to end, a generated interface with its group headers is balanced to a Solidity reader when descriptions and group names are ones their comments hide |
| SlitherBaseline.Nearest | contracts/scripts/slither_baseline_check.py:59-67 | the walk up the parents returns the name of the first node of that kind, and nothing when the chain has none |
| SlitherBaseline.Check | contracts/scripts/slither_baseline_check.py:116-153 | the two loops, in any key order, reach the verdict: refused, crashed, 0 or 1 |
| SlitherBaseline.Generate | contracts/scripts/slither_baseline_check.py:156-171 | the loop writes one entry per key of the report and leaves the file alone when it refuses |
| SlitherBaseline.VerdictIsInclusion | contracts/scripts/slither_baseline_check.py:89-153 | 0 is returned exactly for an accepted report and a fully counted baseline with every stable key included as a multiset and the fuzzy key allowed if present |
| SlitherBaseline.CrashesIff | contracts/scripts/slither_baseline_check.py:129-133 | a run ends in an exception exactly when some baseline entry has no count, whatever the report holds |
| SlitherBaseline.RefusesIff | contracts/scripts/slither_baseline_check.py:89-113 | a run refuses exactly on an unsuccessful or empty report, or a baseline that is missing or not shaped as one |
| SlitherBaseline.UncountedEntryCrashes | contracts/scripts/slither_baseline_check.py:129-133 | a concrete baseline on which no accepted report gets a verdict |
| SlitherBaseline.VerdictIgnoresOrder | contracts/scripts/slither_baseline_check.py:104 | the verdict does not depend on the order of the findings |
| SlitherBaseline.SubReportPasses | contracts/scripts/slither_baseline_check.py:116-153 | a pass is kept by every non-empty sub-report |
| SlitherBaseline.RaisedBaselinePasses | contracts/scripts/slither_baseline_check.py:116-153 | a pass is kept by raising baseline counts |
| SlitherBaseline.FuzzyCountDoesNotMatter | contracts/scripts/slither_baseline_check.py:123-125 | the verdict is the same for all positive counts of the fuzzy key |
| SlitherBaseline.GeneratedBaselineJudgesGrowth | contracts/scripts/slither_baseline_check.py:116-171 | against a baseline generated from an earlier report, a report passes if and only if no stable key grew and the fuzzy one is not new |
| SlitherBaseline.GateIsPreorder | contracts/scripts/slither_baseline_check.py:116-171 | a report passes its own baseline, and passing is transitive along generated baselines |
| SlitherBaseline.GenerateKeepsReasons | contracts/scripts/slither_baseline_check.py:162-165 | generating keeps exactly the report's keys and each surviving reason, marks new keys, and is idempotent |
| SlitherBaseline.GenerateThenCheck | contracts/scripts/slither_baseline_check.py:116-171 | generate followed by check on the same accepted report passes, whatever baseline stood there before |
| FindingKeys.KeySaysPlace | contracts/scripts/slither_baseline_check.py:59-86 | a key is the detector, two colons and the place: contract and function, each the first node of its kind going up; the contract alone when there is no function or the element is a contract; else the element's own name |
| FindingKeys.KeysAgreeIff | contracts/scripts/slither_baseline_check.py:70-86 | with names free of colons and dots, a finding in a function shares its key with another finding exactly when detector, contract and function agree |
| FindingKeys.FuzzyFinding | contracts/scripts/slither_baseline_check.py:56 | the fuzzy key is the key of a finding in `_mintShares` of `VaultCore` |
| FindingKeys.NewPlaceFails | contracts/scripts/slither_baseline_check.py:116-171 | a report with a finding in a function where the earlier report has none of that detector returns 1 against the baseline generated from the earlier one |
| Wallet.WalletProvider.ShowAddress | apps/vaults-ui/src/lib/wallet.tsx:132-138 | an address is never shown without being looked up |
| Wallet.WalletProvider.Land | apps/vaults-ui/src/lib/wallet.tsx:178-181 | a chain id decides the status: the target or a wrong network |
| Wallet.WalletProvider.OnAnnounce | apps/vaults-ui/src/lib/wallet.tsx:101-110 | the scan appends an announcement at most once, and only when complete |
| Wallet.WalletProvider.OnAccounts | apps/vaults-ui/src/lib/wallet.tsx:132-140 | one step of the machine: address, flag and status move together |
| Wallet.WalletProvider.OnChain | apps/vaults-ui/src/lib/wallet.tsx:141-145 | one step of the machine: only a landed status follows the chain |
| Wallet.WalletProvider.Connect | apps/vaults-ui/src/lib/wallet.tsx:154-168 | one step: picks the wallet and starts waiting, or only reports an error |
| Wallet.WalletProvider.ConnectGotAccounts | apps/vaults-ui/src/lib/wallet.tsx:169-178 | one step: screens the account before asking for the chain; no account fails the connection |
| Wallet.WalletProvider.ConnectGotChain | apps/vaults-ui/src/lib/wallet.tsx:178-181 | one step: lands on the target or on a wrong network |
| Wallet.WalletProvider.ConnectCatch | apps/vaults-ui/src/lib/wallet.tsx:182-187 | a failed connection leaves no address and no flag |
| Wallet.WalletProvider.Disconnect | apps/vaults-ui/src/lib/wallet.tsx:190-199 | clears the session but not what is still outstanding |
| Wallet.WalletProvider.SwitchToTarget | apps/vaults-ui/src/lib/wallet.tsx:201-207 | one step: without an active provider nothing happens |
| Wallet.WalletProvider.SwitchCatch | apps/vaults-ui/src/lib/wallet.tsx:208-229 | one step: only code 4902 leads to an offer to add the chain |
| Wallet.WalletProvider.SwitchFinally | apps/vaults-ui/src/lib/wallet.tsx:230-235 | one step: whatever was answered, the chain is read again and lands |
| Wallet.StepKeepsInv | apps/vaults-ui/src/lib/wallet.tsx:101-236 | every step of every continuation and event keeps the invariant |
| Wallet.WalletInvariant | apps/vaults-ui/src/lib/wallet.tsx:101-236 | over every interleaving: the flag is the lookup of the current address, `connected` means the target chain, `wrong-network` means another, uuids are pairwise distinct, and a spinner always has its await outstanding |
| Wallet.ProvidersOnlyGrow | apps/vaults-ui/src/lib/wallet.tsx:106-109 | discovery only appends |
| WalletRuns.ChainIdExactly | apps/vaults-ui/src/lib/wallet.tsx:86-88 | a chain id is `0x` and one or more hex digits, read in base 16 digit by digit |
| WalletRuns.GrantedConnection | apps/vaults-ui/src/lib/wallet.tsx:154-181 | from any state, a granted connection to the wallet asked for, or the first discovered, or the injected one, shows its account, flagged exactly if listed, and its chain, connected exactly on the target; every other await is still outstanding |
| WalletRuns.RefusedConnection | apps/vaults-ui/src/lib/wallet.tsx:154-187 | a refusal, or an answer without an account, shows its error and no address |
| WalletRuns.NothingToAsk | apps/vaults-ui/src/lib/wallet.tsx:154-167 | with no wallet, or one that is gone, only an error is shown |
| WalletRuns.SwitchedOrRefused | apps/vaults-ui/src/lib/wallet.tsx:201-236 | a switch reads the chain back however the wallet answered; an error other than 4902 is shown |
| WalletRuns.SwitchedByAdding | apps/vaults-ui/src/lib/wallet.tsx:210-236 | with 4902 the chain is offered first, and only a refusal of that is shown |
| WalletRuns.WalletMovesOn | apps/vaults-ui/src/lib/wallet.tsx:132-145 | another account is screened and leaves the chain alone; another chain leaves the account alone and decides the status; losing the account disconnects |
| WalletRuns.DisconnectForgets | apps/vaults-ui/src/lib/wallet.tsx:190-199 | disconnecting leaves the initial state but for discovered wallets and outstanding awaits |
| WalletRuns.AnnouncedIsReachable | apps/vaults-ui/src/lib/wallet.tsx:101-110 | a complete announcement can be connected to after any run, under the name it gave or else its reverse domain name |
| Wallet.ConnectedWithoutAddress | apps/vaults-ui/src/lib/wallet.tsx:190-236 | disconnecting during a switch and letting the switch land shows `connected` with no address |
| Wallet.SwitchCanBeOutstanding | apps/vaults-ui/src/lib/wallet.tsx:201-207 | runs with a switch outstanding exist, so that happens |
| Wallet.ConnectedAfterRefusal | apps/vaults-ui/src/lib/wallet.tsx:168-187 | granting one of two waiting connections, refusing the other and letting the first one land shows `connected` with no address |
| Wallet.TwoConnectionsCanBeOutstanding | apps/vaults-ui/src/components/WalletConnect.tsx:20-28 | runs with two waiting connections exist, so that happens |
| Wallet.LandsWithoutAddressIff | apps/vaults-ui/src/lib/wallet.tsx:154-236 | answering what is outstanding, failures included, can show a chain without an address exactly when there is no address now and a chain is shown or about to be, or a connection is outstanding beside another await |
| Wallet.AddressWhenConnected | apps/vaults-ui/src/lib/wallet.tsx:130-236 | along runs where the address is never cleared while such an answer is outstanding, a shown chain implies an address |
| Wallet.ClearedMidwayIff | apps/vaults-ui/src/lib/wallet.tsx:130-236 | the runs never exposed to it at any point are exactly those in which the address is never cleared while such an answer is outstanding and no connection is ever outstanding beside another await |
| WalletOrigins.ShowsForeignIff | apps/vaults-ui/src/lib/wallet.tsx:154-236 | answering what is outstanding can show an address or chain that is not the active provider's exactly when it is shown already, an await is outstanding on another provider, or another provider's address stands while a chain is about to land |
| WalletOrigins.OrderlyRunsShowOwn | apps/vaults-ui/src/lib/wallet.tsx:130-236 | along runs that start one thing at a time and hear only the active provider, a shown chain and any shown address are the active provider's |
| WalletOrigins.LateConnectionLands | apps/vaults-ui/src/lib/wallet.tsx:168-181 | a connection left outstanding lands with its own wallet's address and chain, whichever provider is active by then |
| WalletOrigins.ConnectedAcrossDisconnect | apps/vaults-ui/src/lib/wallet.tsx:154-199 | a connection outstanding across a disconnect lands `connected`, with an address and no active provider |
| WalletOrigins.OverlappingConnections | apps/vaults-ui/src/lib/wallet.tsx:154-188 | two overlapping connections pair one wallet's address and chain with the other as the active provider |
| TermsStore.BrowserStore.ReadAll | apps/vaults-ui/src/lib/terms-acceptance.ts:53-67 | the loop keeps exactly the well-formed entries of a readable object, and nothing otherwise |
| TermsStore.BrowserStore.WriteAll | apps/vaults-ui/src/lib/terms-acceptance.ts:69-77 | a refused write leaves the store as it was |
| TermsStore.BrowserStore.RecordTermsAcceptance | apps/vaults-ui/src/lib/terms-acceptance.ts:80-85 | one step of the store under any failure of its read and its write |
| TermsStore.BrowserStore.HasAcceptedCurrentTerms | apps/vaults-ui/src/lib/terms-acceptance.ts:100-104 | the answer as a value; no address or no hash is a no |
| TermsStore.YesExactly | apps/vaults-ui/src/lib/terms-acceptance.ts:39-104 | a yes means a readable store holding an object whose entry at the lower-case address is well formed and has exactly this version and this hash |
| TermsStore.RecordWrites | apps/vaults-ui/src/lib/terms-acceptance.ts:80-85 | a write leaves the four members of the record at the lower-case address and, elsewhere, exactly the well-formed entries that were read |
| TermsStore.AcceptedIffLastDecidingRecord | apps/vaults-ui/src/lib/terms-acceptance.ts:53-104 | after any run with reads and writes failing arbitrarily, the answer is yes if and only if the last record that decides for the address accepted exactly this version and hash |
| TermsStore.AcceptanceWasRecorded | apps/vaults-ui/src/lib/terms-acceptance.ts:53-104 | from an empty or unusable store a yes names an earlier successful record of that address, version and hash, the last one that decides |
| TermsStore.OtherAddressesKeepTheirAnswer | apps/vaults-ui/src/lib/terms-acceptance.ts:80-85 | with working reads a record never changes the answer for another address |
| TermsStore.FailedReadForgetsOthers | apps/vaults-ui/src/lib/terms-acceptance.ts:80-85 | with a failed read and a successful write it forgets every other address |
| TermsStore.RecordChangesOthersIff | apps/vaults-ui/src/lib/terms-acceptance.ts:80-85 | a record changes the answer for another address exactly when its read failed, its write did not, and the answer was yes |
| Holdings.ShownSharesNearlyAddUp | apps/vaults-ui/src/components/Holdings.tsx:75-86 | for k priced legs and idle cash the shown basis points add up to at least 10000 - k and at most 10000, short by exactly what the divisions cut off |
| Holdings.SharesAndCutsAddUp | apps/vaults-ui/src/components/Holdings.tsx:83-86 | shown shares and cut remainders account for the whole basket |
| Holdings.ShareIsCut | apps/vaults-ui/src/components/Holdings.tsx:83-86 | a shown share is the part of the whole in basis points, cut once, and missing exactly for an unpriced part or an empty whole |
| Holdings.DollarIsDollar | apps/vaults-ui/src/components/Holdings.tsx:77-79 | n whole idle USDC weigh exactly what a leg worth n dollars weighs |
| Holdings.UnpricedLegDoesNotCount | apps/vaults-ui/src/components/Holdings.tsx:75-86 | an unpriced leg is in neither numerator nor denominator: dropping it changes no other share |
| Holdings.BoundIsReached | apps/vaults-ui/src/components/Holdings.tsx:75-86 | both ends of the bound are reached |
| LiveVaults.NamedStruct | apps/vaults-ui/src/lib/live-vaults.ts:88-100 | the loop zips names with positions; no outputs or no array is an error |
| LiveVaults.ZipAt | apps/vaults-ui/src/lib/live-vaults.ts:95-99 | with distinct names each field is the answer at its own position |
| LiveVaults.StructFields | apps/vaults-ui/src/lib/live-vaults.ts:173-176 | the two structs read here yield the feed, the heartbeat and the update time from the right positions |
| LiveVaults.BatchedLegsAreDirect | apps/vaults-ui/src/lib/live-vaults.ts:158-206 | for any basket size leg i of the flat batches is the leg asset i's own calls give when asked alone; the batch fails exactly when some asset alone would |
| LiveVaults.LegUsesOwnAnswersOnly | apps/vaults-ui/src/lib/live-vaults.ts:158-206 | changing any answers but asset i's own four and its own feed's leaves leg i as it was |
| LiveVaults.WhatEachFailureDoes | apps/vaults-ui/src/lib/live-vaults.ts:166-205 | a failed price blanks price and value of its leg only, a failed feed read gives age zero, a failed structural read gives no leg |
| LiveVaultMeaning.LegIsWorth | apps/web/src/chain-reader.mjs:506-551 | a priced leg is worth its balance at its price in units of the asset, cut once: value * unit <= balance * price < (value + 1) * unit; zero without a unit |
| LiveVaultMeaning.LegSaysAnswers | apps/vaults-ui/src/lib/live-vaults.ts:158-205 | a leg answer by answer: unit, balance and price as read, feed and heartbeat the first two outputs of feedOf, the update time the fourth output of its round or the epoch when that failed |
| LiveVaultMeaning.CoreSaysAnswers | apps/vaults-ui/src/lib/live-vaults.ts:256-294 | each view of the vault is the answer to its own call; only the NAV may be missing |
| LiveVaultMeaning.SecondSaysAnswers | apps/vaults-ui/src/lib/live-vaults.ts:296-315 | basket, active proposal and operator are the answers to their own calls, made to the contracts round one named |
| LiveVaultMeaning.VaultSaysReads | apps/web/src/chain-reader.mjs:520-523 | the assembled vault holds its own reads, is attested exactly with a nonzero operator id, and each weight is its leg's value as a share of NAV in basis points, cut once |
| LiveVaults.IndexIsUniqueName | apps/web/src/chain-reader.mjs:685-769 | the safety index answers an address exactly when one record, and only one, names it |
| LiveVaults.SafetyIsOwn | apps/vaults-ui/src/lib/live-vaults.ts:209-224 | without doubled addresses each leg carries its own asset's two safety answers |
| LiveVaults.DoubledAddressIsUnknown | apps/web/src/chain-reader.mjs:685-769 | a basket naming an address twice gets no safety answer for it |
| LiveVaultMeaning.TriIs | apps/web/src/chain-reader.mjs:595-602 | a safety answer alarms exactly on the boolean true, clears exactly on the boolean false, and is unknown otherwise |
| LiveVaults.VaultLegIsDirect | apps/vaults-ui/src/lib/live-vaults.ts:322-340 | leg i of an assembled vault is asset i's own, values and safety alike |
| LiveVaults.UnpricedLegRejectsVaultIff | apps/web/src/chain-reader.mjs:520-523 | once the structural reads succeeded, the vault is rejected exactly when some price failed beside a NAV that was read and is not zero |
| LiveVaults.OneFailedPriceCanRejectTheList | apps/vaults-ui/src/lib/live-vaults.ts:333-340 | a concrete client in which one failed price rejects the whole list |
| LiveVaults.ListIsAllOrNothing | apps/vaults-ui/src/lib/live-vaults.ts:500-507 | the list succeeds exactly when every vault does; a structural failure rejects it whole, and vault i is the reading of address i |
| PoolReads.ResolvePool | apps/vaults-ui/src/lib/chain-actions.ts:234-257 | returns the first tier's pool, and only if every earlier tier answered that it has none: a failed read ends the search |
| PoolReads.IsPoolExactly | apps/vaults-ui/src/lib/chain-actions.ts:249 | an answer names a pool unless it is empty or the zero address |

## Left out

- The Solidity contracts (`contracts/src`), the marketing site, the geofence middleware, continuous integration and all prose documents: other components than the ones modelled here.
- The client library, the wallet and the chain: abstract. What the client reports is `TxStatus.Truthful`, what a client returns from a simulation is `SignedWriteSafety.ClientFaithful`, and what a wallet broadcasts is `SignedWriteSafety.EnvTruthful`: it broadcasts the request it was handed, so a member editing an approval inside the wallet before signing is not modelled.
- ABI encoding, hashing, vote signatures and salts, number parsing, and the decoding of revert reasons: parameters or abstract values.
- Letter case: folding covers the ASCII letters, which is all that addresses, hashes and calldata contain; Python's `upper` on a group's first character likewise.
- Object keys that JavaScript inherits (`__proto__`, `toString`), arrays stored where an object is expected, and the JSON text itself: stored terms and baselines are modelled as parsed values.
- Floating point: `toFixed`, `Math.log10` and conversions of large integers to numbers; only the integers that feed them are modelled.
- Rendering and the wording of lines: a line is its kind and the hashes it quotes.
- The re-reads of the claimable list in `EscrowClaims.tsx` and the effects that start them.
- The stale closure over `providers` that a `connect` callback may hold, and the subscription to one provider: wallet events arrive at any time in any order, which allows more runs than the source.
- `LiveVaults`: an answer whose decoded type is not the declared one rejects the vault, where the source casts; the manifest check, `readAt` times, display names and the assembly of the proposal text are not modelled. The manifest check can also reject the list, since its batch request may throw.
- `readTicks`, `readExitGateInputs`, `readPoolSizeImpactInputs`, `sdnListAgeDays`: position-by-position maps and single expressions that would only add easy members.
- `sorted` over keys in the static-analysis gate: the loops visit keys in an arbitrary order, which includes the sorted one; Python's `list.sort` is any sorted permutation.
- The printer's function attributes (visibility, mutability, signature), the regular expressions that rewrite `memory` to `calldata`, `forge fmt`, fetching and writing files.
- The printed report of the static-analysis gate, and a null count or reason in a baseline entry.
- The Solidity reader knows comments and braces; string literals are kept out by asking names and declarations to be free of quotes, and source text is read as characters, not as UTF-8 bytes.
