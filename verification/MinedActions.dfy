/**
 * From what a member is shown to what the chain did: the panels of MemberActions.tsx and EscrowClaims.tsx over any run
 * of the signed-write protocol, with a client, a wallet and receipt waits that are truthful about one chain.
 */
module MinedActions {
  import opened Text
  import opened TxStatus
  import opened Guards
  import opened SignedWrites
  import opened SignedWriteSafety
  import E = EscrowClaims
  import M = MemberFlows

  // ---------------------------------------------------------------- what a finished activation has written

  /** The call an action is about; for a vote commit, with the commitment made right after the signature. */
  predicate Makes(t: Task, call: Call) {
    && call.account == t.account
    && match t.action
       case Deposit(vault, amountUsdc) =>
         call.target == vault && call.functionName == "deposit" && call.args == [Num(amountUsdc)]
       case CommitVote(governance, _, pid, _) =>
         && |t.log| >= 2 && t.log[1].CommitmentMade?
         && call.target == governance && call.functionName == "commitVote"
         && call.args == [Num(pid), Bytes(t.log[1].commitment)]
       case RevealVote(governance, pid, custody) =>
         && custody.Ready? && call.target == governance && call.functionName == "revealVote"
         && call.args == [Num(pid), Flag(custody.support), Bytes(custody.salt)]
       case RequestExit(vault, shares) =>
         call.target == vault && call.functionName == "requestExit" && call.args == [Num(shares)]
       case ClaimEscrowed(vault, asset) =>
         call.target == vault && call.functionName == "claimEscrowed" && call.args == [Addr(asset)]
  }

  /** How far an activation that is not a deposit has got with its one write. */
  ghost predicate OneWrite(t: Task) {
    var n := |t.log|;
    match t.pc
    case AwaitAddresses => false
    case AwaitCommitment => n == 1
    case AwaitSimulation(call) =>
      n >= 1 && t.log[n - 1].SimulateAsked? && t.log[n - 1].call == call && Makes(t, call)
    case AwaitBroadcast(request) =>
      && n >= 3 && WrittenAt(t.log, n - 1) && t.log[n - 1].request == request
      && Makes(t, t.log[n - 3].call)
    case AwaitReceipt(_) => false
    case Finished(hash) =>
      && n >= 4 && WrittenAt(t.log, n - 2) && t.log[n - 1] == Broadcast(t.log[n - 2].request, hash)
      && Makes(t, t.log[n - 4].call)
    case Failed(_) => true
  }

  ghost predicate Writes(t: Task) { !t.action.Deposit? ==> OneWrite(t) }

  lemma {:induction false} GateWrites(list: SdnList, t: Task, call: Call, now: int)
    requires !t.action.Deposit? && Makes(t, call)
    ensures Writes(Gate(list, t, call, now))
  {
  }

  lemma {:induction false} BeginWrites(list: SdnList, account: string, action: Action, now: int)
    ensures Writes(Begin(list, account, action, now))
  {
  }

  lemma {:induction false} ResumeWrites(list: SdnList, t: Task, a: Answer, now: int)
    requires Writes(t)
    ensures Writes(Resume(list, t, a, now))
  {
    if t.pc.AwaitCommitment? && a.Commitment? && t.action.CommitVote? {
      var made := t.(log := t.log + [CommitmentMade(a.commitment)]);
      GateWrites(list, made, CommitCall(t.account, t.action.governance, t.action.pid, a.commitment), now);
    }
  }

  lemma {:induction false} RunWrites(list: SdnList, labels: seq<Label>)
    ensures forall t :: t in Run(list, labels).tasks ==> Writes(t)
  {
    if labels != [] {
      var before := Run(list, labels[..|labels| - 1]);
      RunWrites(list, labels[..|labels| - 1]);
      match labels[|labels| - 1] {
        case Start(account, action, now) => BeginWrites(list, account, action, now);
        case Answered(id, answer, now) =>
          if id < |before.tasks| { ResumeWrites(list, before.tasks[id], answer, now); }
      }
    }
  }

  // ---------------------------------------------------------------- what an error says

  /** Where an activation stands, and what its error says about how far it got: an error never hides a write that the
      wallet accepted. */
  ghost predicate ErrorTells(list: SdnList, t: Task) {
    var n := |t.log|;
    match t.pc
    case AwaitAddresses => t.action.Deposit? && t.log == [AddressesAsked(t.action.vault)]
    case AwaitCommitment => t.log == [SignatureAsked]
    case AwaitSimulation(call) => n > 0 && t.log[n - 1].SimulateAsked? && t.log[n - 1].call == call
    case AwaitBroadcast(_) => n > 0 && t.log[n - 1].WriteAsked?
    case AwaitReceipt(_) => n > 0 && t.log[n - 1].Broadcast?
    case Finished(_) => true
    case Failed(error) =>
      match error
      case DepositsClosedHere => n == 0 && t.action.Deposit?
      case NotReadyToReveal => n == 0 && t.action.RevealVote? && t.action.custody.NotReady?
      case Refused(why) =>
        && (why == AddressListed ==> IsSanctioned(list, Some(t.account)))
        && (n > 0 ==> t.log[n - 1].AddressesRead? || t.log[n - 1].CommitmentMade? || t.log[n - 1].ReceiptRead?)
      case ReadFailed(_) => n == 1 && t.log[0].AddressesAsked?
      case WouldRevert(name, _) => n > 0 && t.log[n - 1].SimulateAsked? && t.log[n - 1].call.functionName == name
      case WalletRejected(_) => n > 0 && (t.log[n - 1].WriteAsked? || t.log[n - 1].SignatureAsked?)
      case ApprovalNotConfirmed(step) => n > 0 && t.log[n - 1].ReceiptRead? && StepTells(step, t.log[n - 1])
  }

  predicate StepTells(step: StepError, read: Event)
    requires read.ReceiptRead?
  {
    match step
    case StepReverted(m) => Outcome(read.wait, read.hash) == Reverted(m)
    case StepReplaced => Outcome(read.wait, read.hash).Replaced?
    case StepUnconfirmed(detail) => Outcome(read.wait, read.hash) == Unconfirmed(detail)
  }

  lemma {:induction false} ResumeTells(list: SdnList, t: Task, a: Answer, now: int)
    requires ErrorTells(list, t)
    ensures ErrorTells(list, Resume(list, t, a, now))
  {
  }

  /** In every run, an activation that failed says how far it got, and why. */
  lemma {:induction false} RunTells(list: SdnList, labels: seq<Label>)
    ensures forall t :: t in Run(list, labels).tasks ==> ErrorTells(list, t)
  {
    if labels != [] {
      var before := Run(list, labels[..|labels| - 1]);
      RunTells(list, labels[..|labels| - 1]);
      match labels[|labels| - 1] {
        case Start(account, action, now) => assert ErrorTells(list, Begin(list, account, action, now));
        case Answered(id, answer, now) =>
          if id < |before.tasks| { ResumeTells(list, before.tasks[id], answer, now); }
      }
    }
  }

  // ---------------------------------------------------------------- what the chain mined

  /** `m` was mined successfully and makes this call. */
  ghost predicate MinedCall(c: Chain, encode: (string, seq<Arg>) -> string, m: string, call: Call) {
    MinedAs(c, m, call.account, call.target, encode(call.functionName, call.args))
  }

  /** The wait is truthful, shows a value, and confirms. */
  predicate ConfirmedOn(c: Chain, wait: ReceiptWait, hash: string) {
    Truthful(wait, c, hash) && ValueShown(wait, hash) && Outcome(wait, hash).Confirmed?
  }

  /** A confirmed wait on a broadcast: what was mined makes the call that was broadcast. */
  lemma {:induction false} BroadcastIsMined(list: SdnList, w: World, id: nat, p: nat, call: Call, c: Chain,
      encode: (string, seq<Arg>) -> string, wait: ReceiptWait)
    requires WorldOk(list, w) && EnvTruthful(c, encode, w.trace) && id < |w.tasks|
    requires 3 <= p < |w.tasks[id].log| && WrittenAt(w.tasks[id].log, p - 1) && w.tasks[id].log[p].Broadcast?
    requires w.tasks[id].log[p].request == w.tasks[id].log[p - 1].request && w.tasks[id].log[p - 3].call == call
    requires ConfirmedOn(c, wait, w.tasks[id].log[p].hash)
    ensures MinedCall(c, encode, Outcome(wait, w.tasks[id].log[p].hash).hash, call)
  {
    var log := w.tasks[id].log;
    var i := LogInTrace(w.trace, id, p);
    assert w.trace[i].event.Broadcast?;
    FaithfulLog(w.trace, id, p - 2);
    ConfirmSound(wait, c, log[p].hash);
  }

  /** A finished activation whose receipt wait confirms: the chain mined the very call its action is about. */
  lemma {:induction false} FinishedIsMined(list: SdnList, labels: seq<Label>, id: nat, c: Chain,
      encode: (string, seq<Arg>) -> string, wait: ReceiptWait) returns (call: Call)
    requires id < |Run(list, labels).tasks| && Run(list, labels).tasks[id].pc.Finished?
    requires EnvTruthful(c, encode, Run(list, labels).trace)
    requires ConfirmedOn(c, wait, Run(list, labels).tasks[id].pc.hash)
    ensures var t := Run(list, labels).tasks[id];
            Makes(t, call) && MinedCall(c, encode, Outcome(wait, t.pc.hash).hash, call)
  {
    var w := Run(list, labels);
    var t := w.tasks[id];
    RunOk(list, labels);
    RunWrites(list, labels);
    if t.action.Deposit? {
      FinishedScript(t);
      call := t.log[7].call;
      BroadcastIsMined(list, w, id, 10, call, c, encode, wait);
    } else {
      assert t in w.tasks && Writes(t);
      call := t.log[|t.log| - 4].call;
      BroadcastIsMined(list, w, id, |t.log| - 1, call, c, encode, wait);
    }
  }

  /** And for a deposit, the approval it reports was mined too, on the token its vault named. */
  lemma {:induction false} ApprovalIsMined(list: SdnList, labels: seq<Label>, id: nat, c: Chain,
      encode: (string, seq<Arg>) -> string) returns (usdc: string)
    requires id < |Run(list, labels).tasks| && Run(list, labels).tasks[id].action.Deposit?
    requires Run(list, labels).tasks[id].pc.Finished? && EnvTruthful(c, encode, Run(list, labels).trace)
    ensures var t := Run(list, labels).tasks[id];
            && AddressesRead(t.action.vault, usdc) in t.log && t.minedApproval.Some?
            && MinedAs(c, t.minedApproval.value, t.account, usdc,
                       encode("approve", [Addr(t.action.vault), Num(t.action.amountUsdc)]))
  {
    RunOk(list, labels);
    FinishedScript(Run(list, labels).tasks[id]);
    usdc := ApprovalIsMinedIn(list, Run(list, labels), id, c, encode);
  }

  lemma {:induction false} ApprovalIsMinedIn(list: SdnList, w: World, id: nat, c: Chain,
      encode: (string, seq<Arg>) -> string) returns (usdc: string)
    requires WorldOk(list, w) && EnvTruthful(c, encode, w.trace) && id < |w.tasks| && CompletedDeposit(w.tasks[id])
    ensures var t := w.tasks[id];
            && AddressesRead(t.action.vault, usdc) in t.log
            && MinedAs(c, t.minedApproval.value, t.account, usdc,
                       encode("approve", [Addr(t.action.vault), Num(t.action.amountUsdc)]))
  {
    var log := w.tasks[id].log;
    usdc := log[1].usdc;
    assert log[1] in log;
    var r := LogInTrace(w.trace, id, 6);
    assert w.trace[r].event.ReceiptRead?;
    BroadcastIsMined(list, w, id, 5, log[2].call, c, encode, log[6].wait);
  }

  // ---------------------------------------------------------------- a call run straight through is a run

  lemma {:induction false} DriveMore(list: SdnList, before: seq<Label>, t: Task, answers: seq<(Answer, int)>)
      returns (labels: seq<Label>)
    requires Run(list, before).tasks == [t]
    ensures Run(list, labels).tasks == [Drive(list, t, answers)]
    decreases |answers|
  {
    if answers == [] {
      labels := before;
    } else {
      var l := Answered(0, answers[0].0, answers[0].1);
      RunOneMore(list, before, l);
      labels := DriveMore(list, before + [l], Resume(list, t, answers[0].0, answers[0].1), answers[1..]);
    }
  }

  /** What a handler drives straight through is an activation of a run, so what holds of runs holds of it. */
  lemma {:induction false} DriveIsRun(list: SdnList, account: string, action: Action, now: int,
      answers: seq<(Answer, int)>) returns (labels: seq<Label>)
    ensures Run(list, labels).tasks == [Drive(list, Begin(list, account, action, now), answers)]
  {
    var l := Start(account, action, now);
    RunOneMore(list, [], l);
    assert [] + [l] == [l];
    labels := DriveMore(list, [l], Begin(list, account, action, now), answers);
  }

  // ---------------------------------------------------------------- the member panel

  predicate IsOf(k: M.Kind, action: Action) {
    match k
    case DepositFlow => action.Deposit?
    case ExitFlow => action.RequestExit?
    case CommitFlow => action.CommitVote?
    case RevealFlow => action.RevealVote?
  }

  predicate WasSent(r: M.FlowRun) { r.started && r.sent.Ok? }

  /** `t` is the activation behind a run of a handler, as the handlers' contracts have it. */
  predicate SentBy(r: M.FlowRun, t: Task) {
    && IsOf(r.kind, t.action) && r.sent.Ok? && t.pc == Finished(r.sent.value.hash)
    && (t.action.Deposit? ==> r.sent.value.approval == t.minedApproval && r.parsed == Ok(t.action.amountUsdc))
    && (t.action.RequestExit? ==> r.parsed == Ok(t.action.shares))
  }

  /** Every run that sent something has its activation, and its receipt wait is truthful and shows a value. */
  predicate Behind(runs: seq<M.FlowRun>, owner: seq<nat>, tasks: seq<Task>, c: Chain) {
    && |owner| == |runs|
    && forall r :: 0 <= r < |runs| && WasSent(runs[r]) ==>
         && owner[r] < |tasks| && SentBy(runs[r], tasks[owner[r]])
         && Truthful(runs[r].wait, c, runs[r].sent.value.hash) && ValueShown(runs[r].wait, runs[r].sent.value.hash)
  }

  ghost predicate ShowsSuccess(runs: seq<M.FlowRun>, schedule: seq<nat>, k: M.Kind) {
    var shown := M.Panel(runs, schedule, k);
    M.Merges(runs, schedule) && shown.message.Some? && shown.message.value.DoneLine?
  }

  /** A success line is shown only for what the chain did: the hash it quotes was mined successfully and makes the call
      of a run of that flow. */
  lemma {:induction false} SuccessLineIsMined(list: SdnList, labels: seq<Label>, runs: seq<M.FlowRun>, owner: seq<nat>,
      schedule: seq<nat>, k: M.Kind, c: Chain, encode: (string, seq<Arg>) -> string) returns (r: nat, call: Call)
    requires Behind(runs, owner, Run(list, labels).tasks, c) && EnvTruthful(c, encode, Run(list, labels).trace)
    requires ShowsSuccess(runs, schedule, k)
    ensures r < |runs| && runs[r].kind == k && M.ConfirmedRun(runs[r]) && owner[r] < |Run(list, labels).tasks|
    ensures SentBy(runs[r], Run(list, labels).tasks[owner[r]])
    ensures M.Panel(runs, schedule, k).message.value.approval == runs[r].sent.value.approval
    ensures var t := Run(list, labels).tasks[owner[r]];
            && Makes(t, call)
            && MinedCall(c, encode, M.Panel(runs, schedule, k).message.value.minedHash, call)
  {
    var i;
    r, i := M.PanelSource(runs, schedule, k);
    M.RunStates(runs[r], i);
    call := FinishedIsMined(list, labels, owner[r], c, encode, runs[r].wait);
  }

  /** The line of a deposit quotes two hashes, and both were mined: this account's approval of the vault for the amount,
      on the token the vault named, and its deposit of that amount into that vault. */
  lemma {:induction false} DepositLineIsMined(list: SdnList, labels: seq<Label>, runs: seq<M.FlowRun>, owner: seq<nat>,
      schedule: seq<nat>, c: Chain, encode: (string, seq<Arg>) -> string) returns (t: Task, usdc: string)
    requires Behind(runs, owner, Run(list, labels).tasks, c) && EnvTruthful(c, encode, Run(list, labels).trace)
    requires ShowsSuccess(runs, schedule, M.DepositFlow)
    ensures t in Run(list, labels).tasks && t.action.Deposit? && AddressesRead(t.action.vault, usdc) in t.log
    ensures var line := M.Panel(runs, schedule, M.DepositFlow).message.value;
            && line.approval.Some?
            && MinedAs(c, line.approval.value, t.account, usdc,
                       encode("approve", [Addr(t.action.vault), Num(t.action.amountUsdc)]))
            && MinedAs(c, line.minedHash, t.account, t.action.vault, encode("deposit", [Num(t.action.amountUsdc)]))
  {
    var r, call := SuccessLineIsMined(list, labels, runs, owner, schedule, M.DepositFlow, c, encode);
    t := Run(list, labels).tasks[owner[r]];
    usdc := ApprovalIsMined(list, labels, owner[r], c, encode);
  }

  // ---------------------------------------------------------------- the escrow panel

  /** Every claim that was sent is an activation of this account. */
  ghost predicate ClaimsSent(tasks: seq<Task>, events: seq<E.ClaimEvent>, account: string, vault: string) {
    forall e :: e in events && e.WasSent? ==> exists t :: t in tasks && IsClaim(t, account, vault, e)
  }

  predicate IsClaim(t: Task, account: string, vault: string, e: E.ClaimEvent)
    requires e.WasSent?
  {
    t.account == account && t.action == ClaimEscrowed(vault, e.asset) && t.pc == Finished(e.hash)
  }

  predicate WaitsTruthful(c: Chain, events: seq<E.ClaimEvent>) {
    forall e :: e in events && e.Answered? ==> Truthful(e.wait, c, e.hash) && ValueShown(e.wait, e.hash)
  }

  lemma {:induction false} SettlingWasSent(events: seq<E.ClaimEvent>, asset: string, hash: string)
    requires E.Settling(hash) in E.Awaits(events, asset)
    ensures E.ClaimEvent.WasSent(asset, hash) in events
  {
    var before, e := events[..|events| - 1], events[|events| - 1];
    if E.Settling(hash) in E.Awaits(before, asset) {
      SettlingWasSent(before, asset, hash);
    } else {
      assert e == E.ClaimEvent.WasSent(asset, hash);
    }
  }

  lemma {:induction false} AnsweredWasSent(events: seq<E.ClaimEvent>, e: E.ClaimEvent)
    requires E.Possible(events) && e in events && e.Answered?
    ensures E.ClaimEvent.WasSent(e.asset, e.hash) in events
  {
    var before, last := events[..|events| - 1], events[|events| - 1];
    assert events == before + [last];
    if e in before {
      AnsweredWasSent(before, e);
    } else {
      SettlingWasSent(before, e.asset, e.hash);
    }
  }

  /** A claimed line is shown only for what the chain did: the hash it quotes was mined successfully and is this
      account's claim of that asset from that vault. */
  lemma {:induction false} ClaimedLineIsMined(list: SdnList, labels: seq<Label>, s: E.PanelState,
      events: seq<E.ClaimEvent>, asset: string, m: string, account: string, vault: string, c: Chain,
      encode: (string, seq<Arg>) -> string)
    requires EnvTruthful(c, encode, Run(list, labels).trace)
    requires ClaimsSent(Run(list, labels).tasks, events, account, vault) && WaitsTruthful(c, events)
    requires E.Possible(events) && s.claim == map[]
    requires E.After(s, events).Flow(asset).message == Some(E.ClaimedLine(m))
    ensures MinedAs(c, m, account, vault, encode("claimEscrowed", [Addr(asset)]))
  {
    var e := ClaimedLineSource(s, events, asset, m);
    ConfirmedClaimIsMined(list, labels, events, e, account, vault, c, encode);
  }

  /** The confirmed answer behind a claimed line. */
  lemma {:induction false} ClaimedLineSource(s: E.PanelState, events: seq<E.ClaimEvent>, asset: string, m: string)
      returns (e: E.ClaimEvent)
    requires s.claim == map[] && E.After(s, events).Flow(asset).message == Some(E.ClaimedLine(m))
    ensures e in events && e.asset == asset && e.Answered? && Outcome(e.wait, e.hash) == Confirmed(m)
  {
    E.FlowShowsOutcome(s, events, asset);
    var own := E.OfAsset(events, asset);
    e := own[|own| - 1];
    assert e in own;
  }

  lemma {:induction false} ConfirmedClaimIsMined(list: SdnList, labels: seq<Label>, events: seq<E.ClaimEvent>,
      e: E.ClaimEvent, account: string, vault: string, c: Chain, encode: (string, seq<Arg>) -> string)
    requires EnvTruthful(c, encode, Run(list, labels).trace)
    requires ClaimsSent(Run(list, labels).tasks, events, account, vault) && WaitsTruthful(c, events)
    requires E.Possible(events) && e in events && e.Answered? && Outcome(e.wait, e.hash).Confirmed?
    ensures MinedAs(c, Outcome(e.wait, e.hash).hash, account, vault, encode("claimEscrowed", [Addr(e.asset)]))
  {
    var w := Run(list, labels);
    AnsweredWasSent(events, e);
    var sent := E.ClaimEvent.WasSent(e.asset, e.hash);
    assert sent in events && sent.WasSent?;
    var t :| t in w.tasks && IsClaim(t, account, vault, sent);
    var id :| 0 <= id < |w.tasks| && w.tasks[id] == t;
    var call := FinishedIsMined(list, labels, id, c, encode, e.wait);
  }

  /** A row disappears only for what the chain did: this account's claim of that asset from that vault was mined
      successfully. */
  lemma {:induction false} RowGoneOnlyIfMined(list: SdnList, labels: seq<Label>, s: E.PanelState,
      events: seq<E.ClaimEvent>, row: E.Row, account: string, vault: string, c: Chain,
      encode: (string, seq<Arg>) -> string) returns (m: string, asset: string)
    requires EnvTruthful(c, encode, Run(list, labels).trace)
    requires ClaimsSent(Run(list, labels).tasks, events, account, vault) && WaitsTruthful(c, events)
    requires E.Possible(events) && s.claimable.Some? && row in s.claimable.value
    requires E.After(s, events).claimable.None? || row !in E.After(s, events).claimable.value
    ensures Lower(asset) == Lower(row.asset) && MinedAs(c, m, account, vault, encode("claimEscrowed", [Addr(asset)]))
  {
    E.RowGoneIffClaimed(s, events, row);
    var e :| e in events && E.IsConfirmation(e) && Lower(e.asset) == Lower(row.asset);
    ConfirmedClaimIsMined(list, labels, events, e, account, vault, c, encode);
    m, asset := Outcome(e.wait, e.hash).hash, e.asset;
  }
}
