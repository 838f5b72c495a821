/**
 * The signed-write protocol (chain-actions.ts). A `Task` is one activation of a `send*` function, cut at its
 * awaits; `Resume` is the code that runs when an await answers. A `World` interleaves any number of tasks with a
 * wallet, a chain client and a clock that answer whatever they like, whenever they like.
 */
module SignedWrites {
  import opened Text
  import opened TxStatus
  import opened Guards

  // ---------------------------------------------------------------- calls and actions

  datatype Arg = Addr(a: string) | Num(n: int) | Flag(b: bool) | Bytes(h: string)

  datatype Call = Call(target: string, functionName: string, args: seq<Arg>, account: string)

  /** What a custody read concluded; only `Ready` carries a salt. */
  datatype Custody = Ready(support: bool, salt: string) | NotReady(status: string)

  datatype Action =
    | Deposit(vault: string, amountUsdc: int)
    | CommitVote(governance: string, vault: string, pid: int, support: bool)
    | RevealVote(governance: string, pid: int, custody: Custody)
    | RequestExit(vault: string, shares: int)
    | ClaimEscrowed(vault: string, asset: string)

  function ApproveCall(account: string, usdc: string, vault: string, amountUsdc: int): Call {
    Call(usdc, "approve", [Addr(vault), Num(amountUsdc)], account)
  }

  function DepositCall(account: string, vault: string, amountUsdc: int): Call {
    Call(vault, "deposit", [Num(amountUsdc)], account)
  }

  function CommitCall(account: string, governance: string, pid: int, commitment: string): Call {
    Call(governance, "commitVote", [Num(pid), Bytes(commitment)], account)
  }

  function RevealCall(account: string, governance: string, pid: int, support: bool, salt: string): Call {
    Call(governance, "revealVote", [Num(pid), Flag(support), Bytes(salt)], account)
  }

  function ExitCall(account: string, vault: string, shares: int): Call {
    Call(vault, "requestExit", [Num(shares)], account)
  }

  function ClaimCall(account: string, vault: string, asset: string): Call {
    Call(vault, "claimEscrowed", [Addr(asset)], account)
  }

  // ---------------------------------------------------------------- one activation

  /** What an activation asked of, or learned from, the outside world. */
  datatype Event =
    | AddressesAsked(vault: string)
    | AddressesRead(vault: string, usdc: string)
    | SignatureAsked
    | CommitmentMade(commitment: string)
    | SimulateAsked(call: Call, now: int)
    | SimulateOk(call: Call, request: Call)
    | WriteAsked(request: Call, now: int)
    | Broadcast(request: Call, hash: string)
    | ReceiptRead(hash: string, wait: ReceiptWait)

  datatype SendError =
    | DepositsClosedHere
    | Refused(why: Refusal)
    | ReadFailed(detail: string)
    | WouldRevert(functionName: string, detail: string)
    | WalletRejected(detail: string)
    | ApprovalNotConfirmed(step: StepError)
    | NotReadyToReveal

  datatype Pc =
    | AwaitAddresses
    | AwaitCommitment
    | AwaitSimulation(call: Call)
    | AwaitBroadcast(request: Call)
    | AwaitReceipt(hash: string)
    | Finished(hash: string)
    | Failed(error: SendError)

  /** `minedApproval` is the deposit's approval hash once confirmed; `log` is everything asked so far. */
  datatype Task = Task(account: string, action: Action, pc: Pc, minedApproval: Option<string>, log: seq<Event>)

  datatype Answer =
    | Addresses(usdc: string)
    | Commitment(commitment: string)
    | SimulationOk(request: Call)
    | BroadcastAs(hash: string)
    | ReceiptWaited(wait: ReceiptWait)
    | Throws(detail: string)

  /** Entry of `simulateThenWrite`: screen first, then ask for the simulation. What is written later is the request the
      client returns, whatever that is. */
  function Gate(list: SdnList, t: Task, call: Call, now: int): Task {
    match AssertNotSanctioned(list, Some(call.account), now, call.functionName)
    case Err(why) => t.(pc := Failed(Refused(why)))
    case Ok(_) => t.(pc := AwaitSimulation(call), log := t.log + [SimulateAsked(call, now)])
  }

  function Begin(list: SdnList, account: string, action: Action, now: int): Task {
    var t := Task(account, action, AwaitAddresses, None, []);
    match action
    case Deposit(vault, _) =>
      if DepositsClosed(vault) then t.(pc := Failed(DepositsClosedHere))
      else t.(log := [AddressesAsked(vault)])
    case CommitVote(_, _, _, _) => t.(pc := AwaitCommitment, log := [SignatureAsked])
    case RevealVote(governance, pid, custody) =>
      if custody.NotReady? then t.(pc := Failed(NotReadyToReveal))
      else Gate(list, t, RevealCall(account, governance, pid, custody.support, custody.salt), now)
    case RequestExit(vault, shares) => Gate(list, t, ExitCall(account, vault, shares), now)
    case ClaimEscrowed(vault, asset) => Gate(list, t, ClaimCall(account, vault, asset), now)
  }

  /** The continuation that runs when the pending await answers; an answer to something else changes nothing. */
  function Resume(list: SdnList, t: Task, a: Answer, now: int): Task {
    match t.pc
    case AwaitAddresses =>
      if a.Addresses? && t.action.Deposit? then
        var read := t.(log := t.log + [AddressesRead(t.action.vault, a.usdc)]);
        Gate(list, read, ApproveCall(t.account, a.usdc, t.action.vault, t.action.amountUsdc), now)
      else if a.Throws? then t.(pc := Failed(ReadFailed(a.detail)))
      else t
    case AwaitCommitment =>
      if a.Commitment? && t.action.CommitVote? then
        var made := t.(log := t.log + [CommitmentMade(a.commitment)]);
        Gate(list, made, CommitCall(t.account, t.action.governance, t.action.pid, a.commitment), now)
      else if a.Throws? then t.(pc := Failed(WalletRejected(a.detail)))
      else t
    case AwaitSimulation(call) =>
      if a.SimulationOk? then
        t.(pc := AwaitBroadcast(a.request), log := t.log + [SimulateOk(call, a.request), WriteAsked(a.request, now)])
      else if a.Throws? then t.(pc := Failed(WouldRevert(call.functionName, a.detail)))
      else t
    case AwaitBroadcast(request) =>
      if a.BroadcastAs? then
        var t' := t.(log := t.log + [Broadcast(request, a.hash)]);
        if t.action.Deposit? && t.minedApproval.None? then t'.(pc := AwaitReceipt(a.hash))
        else t'.(pc := Finished(a.hash))
      else if a.Throws? then t.(pc := Failed(WalletRejected(a.detail)))
      else t
    case AwaitReceipt(hash) =>
      if a.ReceiptWaited? && t.action.Deposit? then
        var t' := t.(log := t.log + [ReceiptRead(hash, a.wait)]);
        match Required(Outcome(a.wait, hash))
        case Err(e) => t'.(pc := Failed(ApprovalNotConfirmed(e)))
        case Ok(m) =>
          Gate(list, t'.(minedApproval := Some(m)), DepositCall(t.account, t.action.vault, t.action.amountUsdc), now)
      else t
    case Finished(_) => t
    case Failed(_) => t
  }

  // ---------------------------------------------------------------- the same functions, run straight through

  /** One write's surroundings: the clock at the gate and when the simulation answered, the request it answered with,
      and the wallet's answer. */
  datatype WriteEnv =
    WriteEnv(gateAt: int, simulatedAt: int, simulation: Result<Call, string>, wallet: Result<string, string>)

  function WriteAnswers(e: WriteEnv): seq<(Answer, int)> {
    [(if e.simulation.Ok? then SimulationOk(e.simulation.value) else Throws(e.simulation.error), e.simulatedAt),
     (if e.wallet.Ok? then BroadcastAs(e.wallet.value) else Throws(e.wallet.error), e.simulatedAt)]
  }

  /** Feed answers, in order, to one task. */
  function Drive(list: SdnList, t: Task, answers: seq<(Answer, int)>): Task
    decreases |answers|
  {
    if answers == [] then t
    else Drive(list, Resume(list, t, answers[0].0, answers[0].1), answers[1..])
  }

  datatype DepositEnv = DepositEnv(addresses: Result<string, string>, approve: WriteEnv, wait: ReceiptWait,
                                   deposit: WriteEnv)

  function DepositAnswers(e: DepositEnv): seq<(Answer, int)> {
    [(if e.addresses.Ok? then Addresses(e.addresses.value) else Throws(e.addresses.error), e.approve.gateAt)]
    + WriteAnswers(e.approve)
    + [(ReceiptWaited(e.wait), e.deposit.gateAt)]
    + WriteAnswers(e.deposit)
  }

  datatype DepositResult = DepositResult(approvalHash: string, depositHash: string)

  /** The module's functions as straight-line code. `log` is everything they asked, over all calls. */
  class ChainActions {
    const list: SdnList
    var log: seq<Event>

    constructor (list: SdnList)
      ensures this.list == list && log == []
    {
      this.list := list;
      log := [];
    }

    method SimulateThenWrite(call: Call, e: WriteEnv) returns (r: Result<string, SendError>)
      modifies this`log
      ensures r == WriteResult(list, call, e)
      ensures log == old(log) + WriteLog(list, call, e)
    {
      var gate := AssertNotSanctioned(list, Some(call.account), e.gateAt, call.functionName);
      if gate.Err? { return Err(Refused(gate.error)); }
      log := log + [SimulateAsked(call, e.gateAt)];
      if e.simulation.Err? { return Err(WouldRevert(call.functionName, e.simulation.error)); }
      var request := e.simulation.value;
      log := log + [SimulateOk(call, request), WriteAsked(request, e.simulatedAt)];
      if e.wallet.Err? { return Err(WalletRejected(e.wallet.error)); }
      log := log + [Broadcast(request, e.wallet.value)];
      return Ok(e.wallet.value);
    }

    /** `sendDeposit` asks for exactly what its task asks for, and succeeds exactly when the task finishes. */
    method SendDeposit(account: string, vault: string, amountUsdc: int, e: DepositEnv)
        returns (r: Result<DepositResult, SendError>)
      modifies this`log
      ensures var t := Drive(list, Begin(list, account, Deposit(vault, amountUsdc), e.approve.gateAt),
                             DepositAnswers(e));
              && log == old(log) + t.log
              && (r.Ok? <==> t.pc.Finished?)
              && (r.Ok? ==> t.minedApproval == Some(r.value.approvalHash) && t.pc == Finished(r.value.depositHash))
              && (r.Err? ==> t.pc == Failed(r.error))
    {
      DriveDeposit(list, account, vault, amountUsdc, e);
      if DepositsClosed(vault) { return Err(DepositsClosedHere); }
      log := log + [AddressesAsked(vault)];
      if e.addresses.Err? { return Err(ReadFailed(e.addresses.error)); }
      log := log + [AddressesRead(vault, e.addresses.value)];
      var approval := SimulateThenWrite(ApproveCall(account, e.addresses.value, vault, amountUsdc), e.approve);
      if approval.Err? { return Err(approval.error); }
      var mined := RequireConfirmed(e.wait, approval.value);
      log := log + [ReceiptRead(approval.value, e.wait)];
      if mined.Err? { return Err(ApprovalNotConfirmed(mined.error)); }
      var deposit := SimulateThenWrite(DepositCall(account, vault, amountUsdc), e.deposit);
      if deposit.Err? { return Err(deposit.error); }
      return Ok(DepositResult(mined.value, deposit.value));
    }

    method SendRequestExit(account: string, vault: string, shares: int, e: WriteEnv)
        returns (r: Result<string, SendError>)
      modifies this`log
      ensures var t := Drive(list, Begin(list, account, RequestExit(vault, shares), e.gateAt), WriteAnswers(e));
              log == old(log) + t.log && t.pc == (if r.Ok? then Finished(r.value) else Failed(r.error))
    {
      DriveWrite(list, Task(account, RequestExit(vault, shares), AwaitAddresses, None, []),
                 ExitCall(account, vault, shares), e);
      r := SimulateThenWrite(ExitCall(account, vault, shares), e);
    }

    method SendClaimEscrowed(account: string, vault: string, asset: string, e: WriteEnv)
        returns (r: Result<string, SendError>)
      modifies this`log
      ensures var t := Drive(list, Begin(list, account, ClaimEscrowed(vault, asset), e.gateAt), WriteAnswers(e));
              log == old(log) + t.log && t.pc == (if r.Ok? then Finished(r.value) else Failed(r.error))
    {
      DriveWrite(list, Task(account, ClaimEscrowed(vault, asset), AwaitAddresses, None, []),
                 ClaimCall(account, vault, asset), e);
      r := SimulateThenWrite(ClaimCall(account, vault, asset), e);
    }

    method SendRevealVote(account: string, governance: string, pid: int, custody: Custody, e: WriteEnv)
        returns (r: Result<string, SendError>)
      modifies this`log
      ensures var t := Drive(list, Begin(list, account, RevealVote(governance, pid, custody), e.gateAt),
                             WriteAnswers(e));
              log == old(log) + t.log && t.pc == (if r.Ok? then Finished(r.value) else Failed(r.error))
    {
      var t := Task(account, RevealVote(governance, pid, custody), AwaitAddresses, None, []);
      if custody.NotReady? {
        DriveStopped(list, t.(pc := Failed(NotReadyToReveal)), WriteAnswers(e));
        return Err(NotReadyToReveal);
      }
      var call := RevealCall(account, governance, pid, custody.support, custody.salt);
      DriveWrite(list, t, call, e);
      r := SimulateThenWrite(call, e);
    }

    method SendCommitVote(account: string, governance: string, vault: string, pid: int, support: bool,
        commitment: Result<string, string>, e: WriteEnv) returns (r: Result<string, SendError>)
      modifies this`log
      ensures var answer := if commitment.Ok? then Commitment(commitment.value) else Throws(commitment.error);
              var t := Drive(list, Begin(list, account, CommitVote(governance, vault, pid, support), e.gateAt),
                             [(answer, e.gateAt)] + WriteAnswers(e));
              log == old(log) + t.log && t.pc == (if r.Ok? then Finished(r.value) else Failed(r.error))
    {
      var t := Task(account, CommitVote(governance, vault, pid, support), AwaitCommitment, None, [SignatureAsked]);
      ghost var asked := (if commitment.Ok? then Commitment(commitment.value) else Throws(commitment.error), e.gateAt);
      assert ([asked] + WriteAnswers(e))[1..] == WriteAnswers(e);
      log := log + [SignatureAsked];
      if commitment.Err? {
        DriveStopped(list, t.(pc := Failed(WalletRejected(commitment.error))), WriteAnswers(e));
        return Err(WalletRejected(commitment.error));
      }
      log := log + [CommitmentMade(commitment.value)];
      var made := t.(log := [SignatureAsked, CommitmentMade(commitment.value)]);
      assert t.log + [CommitmentMade(commitment.value)] == made.log;
      var call := CommitCall(account, governance, pid, commitment.value);
      DriveWrite(list, made, call, e);
      r := SimulateThenWrite(call, e);
    }
  }

  function WriteResult(list: SdnList, call: Call, e: WriteEnv): Result<string, SendError> {
    match AssertNotSanctioned(list, Some(call.account), e.gateAt, call.functionName)
    case Err(why) => Err(Refused(why))
    case Ok(_) =>
      if e.simulation.Err? then Err(WouldRevert(call.functionName, e.simulation.error))
      else if e.wallet.Err? then Err(WalletRejected(e.wallet.error))
      else Ok(e.wallet.value)
  }

  function WriteLog(list: SdnList, call: Call, e: WriteEnv): seq<Event> {
    if AssertNotSanctioned(list, Some(call.account), e.gateAt, call.functionName).Err? then []
    else if e.simulation.Err? then [SimulateAsked(call, e.gateAt)]
    else
      var request := e.simulation.value;
      [SimulateAsked(call, e.gateAt), SimulateOk(call, request), WriteAsked(request, e.simulatedAt)]
      + if e.wallet.Err? then [] else [Broadcast(request, e.wallet.value)]
  }

  lemma {:induction false} DriveStopped(list: SdnList, t: Task, answers: seq<(Answer, int)>)
    requires t.pc.Failed? || t.pc.Finished?
    ensures Drive(list, t, answers) == t
    decreases |answers|
  {
    if answers != [] { DriveStopped(list, t, answers[1..]); }
  }

  lemma {:induction false} DriveAppend(list: SdnList, t: Task, a: seq<(Answer, int)>, b: seq<(Answer, int)>)
    ensures Drive(list, t, a + b) == Drive(list, Drive(list, t, a), b)
    decreases |a|
  {
    if a == [] {
      assert a + b == b;
    } else {
      assert (a + b)[1..] == a[1..] + b;
      DriveAppend(list, Resume(list, t, a[0].0, a[0].1), a[1..], b);
    }
  }

  /** Gate, simulate and write, as the state machine runs them. */
  lemma {:induction false} DriveWrite(list: SdnList, t: Task, call: Call, e: WriteEnv)
    ensures var d := Drive(list, Gate(list, t, call, e.gateAt), WriteAnswers(e));
            && d.log == t.log + WriteLog(list, call, e)
            && d.account == t.account && d.action == t.action && d.minedApproval == t.minedApproval
            && match WriteResult(list, call, e)
               case Err(error) => d.pc == Failed(error)
               case Ok(h) => d.pc == (if t.action.Deposit? && t.minedApproval.None? then AwaitReceipt(h)
                                      else Finished(h))
  {
    var g := Gate(list, t, call, e.gateAt);
    var answers := WriteAnswers(e);
    assert answers[1..][1..] == [];
    var r1 := Resume(list, g, answers[0].0, answers[0].1);
    var r2 := Resume(list, r1, answers[1].0, answers[1].1);
    assert Drive(list, g, answers) == Drive(list, r1, answers[1..]) == Drive(list, r2, []);
  }

  lemma {:induction false} DriveDeposit(list: SdnList, account: string, vault: string, amountUsdc: int, e: DepositEnv)
    ensures var t := Drive(list, Begin(list, account, Deposit(vault, amountUsdc), e.approve.gateAt), DepositAnswers(e));
            if DepositsClosed(vault) then t.log == [] && t.pc == Failed(DepositsClosedHere)
            else if e.addresses.Err? then
              t.log == [AddressesAsked(vault)] && t.pc == Failed(ReadFailed(e.addresses.error))
            else
              var ap := ApproveCall(account, e.addresses.value, vault, amountUsdc);
              var log1 := [AddressesAsked(vault), AddressesRead(vault, e.addresses.value)]
                + WriteLog(list, ap, e.approve);
              match WriteResult(list, ap, e.approve)
              case Err(error) => t.log == log1 && t.pc == Failed(error)
              case Ok(h) =>
                var log2 := log1 + [ReceiptRead(h, e.wait)];
                match Required(Outcome(e.wait, h))
                case Err(step) => t.log == log2 && t.pc == Failed(ApprovalNotConfirmed(step))
                case Ok(m) =>
                  var dep := DepositCall(account, vault, amountUsdc);
                  && t.log == log2 + WriteLog(list, dep, e.deposit)
                  && t.minedApproval == Some(m)
                  && t.pc == (match WriteResult(list, dep, e.deposit) case Err(error) => Failed(error)
                              case Ok(d) => Finished(d))
  {
    var t0 := Begin(list, account, Deposit(vault, amountUsdc), e.approve.gateAt);
    var answers := DepositAnswers(e);
    if DepositsClosed(vault) {
      DriveStopped(list, t0, answers);
      return;
    }
    var rest := WriteAnswers(e.approve) + ([answers[3]] + WriteAnswers(e.deposit));
    assert answers == [answers[0]] + rest;
    assert answers[1..] == rest;
    var t1 := Resume(list, t0, answers[0].0, answers[0].1);
    if e.addresses.Err? {
      DriveStopped(list, t1, rest);
      return;
    }
    var ap := ApproveCall(account, e.addresses.value, vault, amountUsdc);
    var read := t0.(log := [AddressesAsked(vault), AddressesRead(vault, e.addresses.value)]);
    assert t0.log + [AddressesRead(vault, e.addresses.value)] == read.log;
    DriveAppend(list, t1, WriteAnswers(e.approve), [answers[3]] + WriteAnswers(e.deposit));
    DriveWrite(list, read, ap, e.approve);
    var t2 := Drive(list, t1, WriteAnswers(e.approve));
    if WriteResult(list, ap, e.approve).Err? {
      DriveStopped(list, t2, [answers[3]] + WriteAnswers(e.deposit));
      return;
    }
    assert ([answers[3]] + WriteAnswers(e.deposit))[1..] == WriteAnswers(e.deposit);
    var h := WriteResult(list, ap, e.approve).value;
    assert t2.pc == AwaitReceipt(h);
    var t3 := t2.(log := t2.log + [ReceiptRead(h, e.wait)]);
    match Required(Outcome(e.wait, h)) {
      case Err(step) => DriveStopped(list, t3.(pc := Failed(ApprovalNotConfirmed(step))), WriteAnswers(e.deposit));
      case Ok(m) => DriveWrite(list, t3.(minedApproval := Some(m)), DepositCall(account, vault, amountUsdc), e.deposit);
    }
  }
}
