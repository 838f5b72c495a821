/**
 * The four signed flows of the member panel (MemberActions.tsx): what a member is shown, state by state. The
 * handlers are straight-line code over `ChainActions`; `Panel` merges any number of their runs in any order.
 */
module MemberFlows {
  import opened Text
  import opened TxStatus
  import opened Guards
  import opened SignedWrites

  datatype Kind = DepositFlow | ExitFlow | CommitFlow | RevealFlow

  /** Lines are kept apart by what they claim and which hashes they quote; their wording is not modelled. */
  datatype Line =
    | Approving
    | SubmittedLine(name: string, hash: string)
    | DoneLine(kind: Kind, approval: Option<string>, minedHash: string)
    | ReplacedLine(name: string, hash: string)
    | UnconfirmedLine(name: string, hash: string, detail: string)

  datatype ErrorLine =
    | BadInput(detail: string)
    | SendFailed(error: SendError)
    | RevertedOnChain(action: string, hash: string, approvalStands: bool)

  datatype FlowState = FlowState(busy: bool, message: Option<Line>, error: Option<ErrorLine>)

  const IDLE := FlowState(false, None, None)

  /** The four flows of the panel. */
  datatype FlowPanel = FlowPanel(onDeposit: FlowState, onExit: FlowState, onCommit: FlowState, onReveal: FlowState)
  {
    function Flow(k: Kind): FlowState {
      match k
      case DepositFlow => onDeposit
      case ExitFlow => onExit
      case CommitFlow => onCommit
      case RevealFlow => onReveal
    }

    function With(k: Kind, s: FlowState): (p: FlowPanel)
      ensures p.Flow(k) == s && forall other: Kind :: other != k ==> p.Flow(other) == Flow(other)
    {
      match k
      case DepositFlow => this.(onDeposit := s)
      case ExitFlow => this.(onExit := s)
      case CommitFlow => this.(onCommit := s)
      case RevealFlow => this.(onReveal := s)
    }
  }

  const IDLE_PANEL := FlowPanel(IDLE, IDLE, IDLE, IDLE)

  predicate WellFormed(s: FlowState) {
    !(s.message.Some? && s.error.Some?) && (s.busy ==> s.error.None?)
  }

  predicate Settled(s: FlowState) {
    !s.busy && (s.message.Some? <==> s.error.None?)
  }

  function LabelOf(k: Kind): string {
    match k
    case DepositFlow => "deposit"
    case ExitFlow => "requestExit"
    case CommitFlow => "commitVote"
    case RevealFlow => "revealVote"
  }

  function ActionOf(k: Kind): string {
    match k
    case DepositFlow => "deposit"
    case ExitFlow => "exit request"
    case CommitFlow => "vote commit"
    case RevealFlow => "vote reveal"
  }

  /** What a send reports back: the broadcast hash and, for a deposit, the approval that was mined. */
  datatype Sent = Sent(hash: string, approval: Option<string>)

  /** One run of a handler, with everything its surroundings answered. */
  datatype FlowRun = FlowRun(kind: Kind, started: bool, parsed: Result<int, string>, sent: Result<Sent, SendError>,
                             wait: ReceiptWait)

  function FinalState(k: Kind, sent: Sent, wait: ReceiptWait): FlowState {
    match Outcome(wait, sent.hash)
    case Confirmed(h) => FlowState(false, Some(DoneLine(k, sent.approval, h)), None)
    case Reverted(h) => FlowState(false, None, Some(RevertedOnChain(ActionOf(k), h, k == DepositFlow)))
    case Replaced(_) => FlowState(false, Some(ReplacedLine(LabelOf(k), sent.hash)), None)
    case Unconfirmed(d) => FlowState(false, Some(UnconfirmedLine(LabelOf(k), sent.hash, d)), None)
  }

  function SettleShown(k: Kind, sent: Sent, wait: ReceiptWait): seq<FlowState> {
    [FlowState(true, Some(SubmittedLine(LabelOf(k), sent.hash)), None), FinalState(k, sent, wait)]
  }

  /** Every state a run sets, in order. */
  function Shown(r: FlowRun): seq<FlowState> {
    if !r.started then []
    else if r.kind in {DepositFlow, ExitFlow} && r.parsed.Err?
      then [FlowState(false, None, Some(BadInput(r.parsed.error)))]
    else
      [FlowState(true, if r.kind == DepositFlow then Some(Approving) else None, None)]
      + match r.sent
        case Err(e) => [FlowState(false, None, Some(SendFailed(e)))]
        case Ok(sent) => SettleShown(r.kind, sent, r.wait)
  }

  // ---------------------------------------------------------------- the handlers

  /** One flow's state; `shown` keeps every state it has been set to. */
  class FlowCell {
    var state: FlowState
    ghost var shown: seq<FlowState>

    constructor ()
      ensures state == IDLE && shown == []
    {
      state, shown := IDLE, [];
    }

    method Set(s: FlowState)
      modifies this
      ensures state == s && shown == old(shown) + [s]
    {
      state := s;
      shown := shown + [s];
    }
  }

  /** `now` is the flow after showing `added`, one state after another. */
  ghost predicate Advanced(before: seq<FlowState>, was: FlowState, after: seq<FlowState>, now: FlowState,
      added: seq<FlowState>) {
    after == before + added && now == (if added == [] then was else added[|added| - 1])
  }

  method SettleFlow(cell: FlowCell, k: Kind, sent: Sent, wait: ReceiptWait) returns (ok: bool)
    modifies cell
    ensures Advanced(old(cell.shown), old(cell.state), cell.shown, cell.state, SettleShown(k, sent, wait))
    ensures ok <==> Outcome(wait, sent.hash).Confirmed?
  {
    cell.Set(FlowState(true, Some(SubmittedLine(LabelOf(k), sent.hash)), None));
    var outcome := ConfirmTx(wait, sent.hash);
    if outcome.Confirmed? {
      cell.Set(FlowState(false, Some(DoneLine(k, sent.approval, outcome.hash)), None));
      return true;
    }
    if outcome.Reverted? {
      cell.Set(FlowState(false, None, Some(RevertedOnChain(ActionOf(k), outcome.hash, k == DepositFlow))));
    } else if outcome.Replaced? {
      cell.Set(FlowState(false, Some(ReplacedLine(LabelOf(k), sent.hash)), None));
    } else {
      cell.Set(FlowState(false, Some(UnconfirmedLine(LabelOf(k), sent.hash, outcome.detail)), None));
    }
    return false;
  }

  class MemberActions {
    const actions: ChainActions
    const depositFlow: FlowCell
    const exitFlow: FlowCell
    const commitFlow: FlowCell
    const revealFlow: FlowCell
    var depositInput: string
    var exitInput: string

    constructor (actions: ChainActions)
      ensures this.actions == actions && Valid() && View() == IDLE_PANEL
      ensures fresh(depositFlow) && fresh(exitFlow) && fresh(commitFlow) && fresh(revealFlow)
    {
      this.actions := actions;
      depositFlow := new FlowCell();
      exitFlow := new FlowCell();
      commitFlow := new FlowCell();
      revealFlow := new FlowCell();
      depositInput, exitInput := "", "";
    }

    /** Four flows, not one shown four times. */
    ghost predicate Valid() {
      && depositFlow != exitFlow && depositFlow != commitFlow && depositFlow != revealFlow
      && exitFlow != commitFlow && exitFlow != revealFlow && commitFlow != revealFlow
    }

    function View(): FlowPanel
      reads depositFlow, exitFlow, commitFlow, revealFlow
    {
      FlowPanel(depositFlow.state, exitFlow.state, commitFlow.state, revealFlow.state)
    }

    /** `run` reports the handler's run: what was sent is the outcome of the activation `SendDeposit` drives. A closed
        vault shows nothing and asks for nothing; the input is cleared exactly when the deposit is confirmed. */
    method HandleDeposit(connected: bool, account: string, vault: string, parsed: Result<int, string>, e: DepositEnv,
        wait: ReceiptWait)
        returns (run: FlowRun)
      requires Valid()
      modifies depositFlow, actions`log, this`depositInput
      ensures View() == old(View()).With(DepositFlow, depositFlow.state)
      ensures run.kind == DepositFlow && run.started == (connected && !DepositsClosed(vault)) && run.parsed == parsed
              && run.wait == wait
      ensures Advanced(old(depositFlow.shown), old(depositFlow.state), depositFlow.shown, depositFlow.state, Shown(run))
      ensures !run.started || parsed.Err? ==> actions.log == old(actions.log)
      ensures run.started && parsed.Ok? ==>
                var began := Begin(actions.list, account, Deposit(vault, parsed.value), e.approve.gateAt);
                var t := Drive(actions.list, began, DepositAnswers(e));
                && actions.log == old(actions.log) + t.log
                && t.pc == (if run.sent.Ok? then Finished(run.sent.value.hash) else Failed(run.sent.error))
                && (run.sent.Ok? ==> run.sent.value.approval == t.minedApproval && t.minedApproval.Some?)
      ensures depositInput == if ConfirmedRun(run) then "" else old(depositInput)
    {
      run := FlowRun(DepositFlow, connected && !DepositsClosed(vault), parsed, Err(NotReadyToReveal), wait);
      if DepositsClosed(vault) { return; }
      if !connected { return; }
      if parsed.Err? {
        depositFlow.Set(FlowState(false, None, Some(BadInput(parsed.error))));
        return;
      }
      depositFlow.Set(FlowState(true, Some(Approving), None));
      var r := actions.SendDeposit(account, vault, parsed.value, e);
      if r.Err? {
        run := run.(sent := Err(r.error));
        depositFlow.Set(FlowState(false, None, Some(SendFailed(r.error))));
        return;
      }
      var sent := Sent(r.value.depositHash, Some(r.value.approvalHash));
      run := run.(sent := Ok(sent));
      var ok := SettleFlow(depositFlow, DepositFlow, sent, wait);
      if ok { depositInput := ""; }
    }

    method HandleExit(connected: bool, account: string, vault: string, parsed: Result<int, string>, e: WriteEnv,
        wait: ReceiptWait)
        returns (run: FlowRun)
      requires Valid()
      modifies exitFlow, actions`log, this`exitInput
      ensures View() == old(View()).With(ExitFlow, exitFlow.state)
      ensures run.kind == ExitFlow && run.started == connected && run.parsed == parsed && run.wait == wait
      ensures Advanced(old(exitFlow.shown), old(exitFlow.state), exitFlow.shown, exitFlow.state, Shown(run))
      ensures !run.started || parsed.Err? ==> actions.log == old(actions.log)
      ensures run.started && parsed.Ok? ==>
                var began := Begin(actions.list, account, RequestExit(vault, parsed.value), e.gateAt);
                var t := Drive(actions.list, began, WriteAnswers(e));
                && actions.log == old(actions.log) + t.log
                && t.pc == (if run.sent.Ok? then Finished(run.sent.value.hash) else Failed(run.sent.error))
      ensures exitInput == if ConfirmedRun(run) then "" else old(exitInput)
    {
      run := FlowRun(ExitFlow, connected, parsed, Err(NotReadyToReveal), wait);
      if !connected { return; }
      if parsed.Err? {
        exitFlow.Set(FlowState(false, None, Some(BadInput(parsed.error))));
        return;
      }
      exitFlow.Set(FlowState(true, None, None));
      var r := actions.SendRequestExit(account, vault, parsed.value, e);
      if r.Err? {
        run := run.(sent := Err(r.error));
        exitFlow.Set(FlowState(false, None, Some(SendFailed(r.error))));
        return;
      }
      run := run.(sent := Ok(Sent(r.value, None)));
      var ok := SettleFlow(exitFlow, ExitFlow, Sent(r.value, None), wait);
      if ok { exitInput := ""; }
    }

    method HandleCommit(connected: bool, account: string, governance: Option<string>, vault: string, pid: Option<int>,
        support: bool, commitment: Result<string, string>, e: WriteEnv, wait: ReceiptWait) returns (run: FlowRun)
      requires Valid()
      modifies commitFlow, actions`log
      ensures View() == old(View()).With(CommitFlow, commitFlow.state)
      ensures run.kind == CommitFlow && run.started == (connected && governance.Some? && pid.Some?) && run.wait == wait
      ensures Advanced(old(commitFlow.shown), old(commitFlow.state), commitFlow.shown, commitFlow.state, Shown(run))
      ensures !run.started ==> actions.log == old(actions.log)
      ensures run.started ==>
                var answer := if commitment.Ok? then Commitment(commitment.value) else Throws(commitment.error);
                var action := CommitVote(governance.value, vault, pid.value, support);
                var began := Begin(actions.list, account, action, e.gateAt);
                var t := Drive(actions.list, began, [(answer, e.gateAt)] + WriteAnswers(e));
                && actions.log == old(actions.log) + t.log
                && t.pc == (if run.sent.Ok? then Finished(run.sent.value.hash) else Failed(run.sent.error))
    {
      run := FlowRun(CommitFlow, connected && governance.Some? && pid.Some?, Ok(0), Err(NotReadyToReveal), wait);
      if !connected || governance.None? || pid.None? { return; }
      commitFlow.Set(FlowState(true, None, None));
      var r := actions.SendCommitVote(account, governance.value, vault, pid.value, support, commitment, e);
      if r.Err? {
        run := run.(sent := Err(r.error));
        commitFlow.Set(FlowState(false, None, Some(SendFailed(r.error))));
        return;
      }
      run := run.(sent := Ok(Sent(r.value, None)));
      var _ := SettleFlow(commitFlow, CommitFlow, Sent(r.value, None), wait);
    }

    method HandleReveal(connected: bool, account: string, governance: Option<string>, pid: Option<int>,
        custody: Option<Custody>, e: WriteEnv, wait: ReceiptWait) returns (run: FlowRun)
      requires Valid()
      modifies revealFlow, actions`log
      ensures View() == old(View()).With(RevealFlow, revealFlow.state)
      ensures run.kind == RevealFlow && run.started == (connected && governance.Some? && pid.Some? && custody.Some?)
              && run.wait == wait
      ensures Advanced(old(revealFlow.shown), old(revealFlow.state), revealFlow.shown, revealFlow.state, Shown(run))
      ensures !run.started ==> actions.log == old(actions.log)
      ensures run.started ==>
                var action := RevealVote(governance.value, pid.value, custody.value);
                var t := Drive(actions.list, Begin(actions.list, account, action, e.gateAt), WriteAnswers(e));
                && actions.log == old(actions.log) + t.log
                && t.pc == (if run.sent.Ok? then Finished(run.sent.value.hash) else Failed(run.sent.error))
    {
      var started := connected && governance.Some? && pid.Some? && custody.Some?;
      run := FlowRun(RevealFlow, started, Ok(0), Err(NotReadyToReveal), wait);
      if !connected || governance.None? || pid.None? || custody.None? { return; }
      revealFlow.Set(FlowState(true, None, None));
      var r := actions.SendRevealVote(account, governance.value, pid.value, custody.value, e);
      if r.Err? {
        run := run.(sent := Err(r.error));
        revealFlow.Set(FlowState(false, None, Some(SendFailed(r.error))));
        return;
      }
      run := run.(sent := Ok(Sent(r.value, None)));
      var _ := SettleFlow(revealFlow, RevealFlow, Sent(r.value, None), wait);
    }
  }

  /** The run got as far as a receipt, and the receipt confirmed it. */
  predicate ConfirmedRun(r: FlowRun) {
    r.started && (r.kind in {DepositFlow, ExitFlow} ==> r.parsed.Ok?) && r.sent.Ok?
      && Outcome(r.wait, r.sent.value.hash).Confirmed?
  }

  // ---------------------------------------------------------------- all runs, merged

  /** How often run `r` has advanced. */
  function Steps(schedule: seq<nat>, r: nat): nat {
    if schedule == [] then 0
    else Steps(schedule[..|schedule| - 1], r) + if schedule[|schedule| - 1] == r then 1 else 0
  }

  /** A merge: each entry of the schedule lets one run set its next state. */
  ghost predicate Merges(runs: seq<FlowRun>, schedule: seq<nat>) {
    forall r :: 0 <= r < |runs| ==> Steps(schedule, r) <= |Shown(runs[r])|
  }

  /** The panel after a schedule: each step sets the flow of the run that took it. */
  function PanelAfter(runs: seq<FlowRun>, schedule: seq<nat>): FlowPanel {
    if schedule == [] then IDLE_PANEL
    else
      var r := schedule[|schedule| - 1];
      var before := schedule[..|schedule| - 1];
      var panel := PanelAfter(runs, before);
      if r < |runs| && Steps(before, r) < |Shown(runs[r])|
      then panel.With(runs[r].kind, Shown(runs[r])[Steps(before, r)])
      else panel
  }

  function Panel(runs: seq<FlowRun>, schedule: seq<nat>, k: Kind): FlowState { PanelAfter(runs, schedule).Flow(k) }

  /** What one run shows: well-formed states throughout, and a settled last one. */
  lemma {:induction false} RunStates(r: FlowRun, i: nat)
    requires i < |Shown(r)|
    ensures WellFormed(Shown(r)[i])
    ensures i == |Shown(r)| - 1 <==> Settled(Shown(r)[i])
    ensures Shown(r)[i].message.Some? && Shown(r)[i].message.value.DoneLine? ==>
              && ConfirmedRun(r) && Shown(r)[i].message.value.kind == r.kind
              && Outcome(r.wait, r.sent.value.hash) == Confirmed(Shown(r)[i].message.value.minedHash)
              && Shown(r)[i].message.value.approval == r.sent.value.approval
    ensures ConfirmedRun(r) && i == |Shown(r)| - 1 ==> Shown(r)[i].message.Some? && Shown(r)[i].message.value.DoneLine?
  {
  }

  /** The name of the call and of the action, and whether an approval stands when it reverts. */
  predicate Named(k: Kind, call: string, action: string, approvalStands: bool) {
    || (k == DepositFlow && call == "deposit" && action == "deposit" && approvalStands)
    || (k == ExitFlow && call == "requestExit" && action == "exit request" && !approvalStands)
    || (k == CommitFlow && call == "commitVote" && action == "vote commit" && !approvalStands)
    || (k == RevealFlow && call == "revealVote" && action == "vote reveal" && !approvalStands)
  }

  /** What a run that sent its call shows: a busy state, a busy state quoting the broadcast hash, and then exactly the
      line its receipt calls for, quoting the mined hash only when it was mined as sent. */
  lemma {:induction false} RunShowsOutcome(r: FlowRun, call: string, action: string, approvalStands: bool)
    requires r.started && (r.kind in {DepositFlow, ExitFlow} ==> r.parsed.Ok?) && r.sent.Ok?
    requires Named(r.kind, call, action, approvalStands)
    ensures var shown, hash := Shown(r), r.sent.value.hash;
            && |shown| == 3 && shown[0].busy && (shown[0].message == Some(Approving) <==> r.kind == DepositFlow)
            && shown[1].busy && shown[1].message == Some(SubmittedLine(call, hash))
            && (forall m :: shown[2].message == Some(DoneLine(r.kind, r.sent.value.approval, m)) <==>
                  Outcome(r.wait, hash) == Confirmed(m))
            && (forall m :: shown[2].error == Some(RevertedOnChain(action, m, approvalStands)) <==>
                  Outcome(r.wait, hash) == Reverted(m))
            && (shown[2].message == Some(ReplacedLine(call, hash)) <==> Outcome(r.wait, hash).Replaced?)
            && (forall d :: shown[2].message == Some(UnconfirmedLine(call, hash, d)) <==>
                  Outcome(r.wait, hash) == Unconfirmed(d))
  {
  }

  /** And what a run shows that sent nothing: its input's error, or the error of its send, after a busy state. */
  lemma {:induction false} RunShowsError(r: FlowRun)
    requires r.started
    ensures r.kind in {DepositFlow, ExitFlow} && r.parsed.Err? ==>
              |Shown(r)| == 1 && Shown(r)[0].error == Some(BadInput(r.parsed.error))
    ensures (r.kind in {DepositFlow, ExitFlow} ==> r.parsed.Ok?) && r.sent.Err? ==>
              |Shown(r)| == 2 && Shown(r)[0].busy && Shown(r)[1].error == Some(SendFailed(r.sent.error))
  {
  }

  /** Which run put flow `k` in its present state, and at which of its steps, unless the schedule steps some run past
      its last state. */
  lemma {:induction false} PanelSource(runs: seq<FlowRun>, schedule: seq<nat>, k: Kind) returns (r: nat, i: nat)
    ensures Panel(runs, schedule, k) == IDLE
            || (&& r < |runs| && runs[r].kind == k && i < Steps(schedule, r) && i < |Shown(runs[r])|
                && Panel(runs, schedule, k) == Shown(runs[r])[i]
                && i + 1 == Steps(schedule, r))
            || (r < |runs| && Steps(schedule, r) > |Shown(runs[r])|)
  {
    r, i := 0, 0;
    if schedule != [] {
      var last := schedule[|schedule| - 1];
      var before := schedule[..|schedule| - 1];
      if last < |runs| && runs[last].kind == k && Steps(before, last) < |Shown(runs[last])| {
        r, i := last, Steps(before, last);
      } else {
        r, i := PanelSource(runs, before, k);
      }
    }
  }

  /** In every state of every merge of runs, each flow shows at most one of message and error, and no error while
      busy; a success line is shown only if the receipt of a run of that flow was confirmed, and quotes its mined
      hash. */
  lemma {:induction false} FlowStatesSafe(runs: seq<FlowRun>, schedule: seq<nat>, k: Kind)
    requires Merges(runs, schedule)
    ensures WellFormed(Panel(runs, schedule, k))
    ensures Panel(runs, schedule, k).message.Some? && Panel(runs, schedule, k).message.value.DoneLine? ==>
              exists r :: 0 <= r < |runs| && runs[r].kind == k && ConfirmedRun(runs[r])
                 && Outcome(runs[r].wait, runs[r].sent.value.hash)
                    == Confirmed(Panel(runs, schedule, k).message.value.minedHash)
  {
    var r, i := PanelSource(runs, schedule, k);
    if Panel(runs, schedule, k) != IDLE {
      RunStates(runs[r], i);
    }
  }

  /** Once every run of a flow has ended, the flow is settled: not busy, with exactly one of message and error, unless
      nothing ever started it. */
  lemma {:induction false} FlowEndsSettled(runs: seq<FlowRun>, schedule: seq<nat>, k: Kind)
    requires Merges(runs, schedule)
    requires forall r :: 0 <= r < |runs| && runs[r].kind == k ==> Steps(schedule, r) == |Shown(runs[r])|
    ensures if exists r :: 0 <= r < |runs| && runs[r].kind == k && runs[r].started
            then Settled(Panel(runs, schedule, k))
            else Panel(runs, schedule, k) == IDLE
  {
    var r, i := PanelSource(runs, schedule, k);
    if Panel(runs, schedule, k) != IDLE {
      RunStates(runs[r], i);
    }
    if exists s :: 0 <= s < |runs| && runs[s].kind == k && runs[s].started {
      var s: nat :| 0 <= s < |runs| && runs[s].kind == k && runs[s].started;
      SomethingShown(runs, schedule, k, s);
    }
  }

  lemma {:induction false} SomethingShown(runs: seq<FlowRun>, schedule: seq<nat>, k: Kind, s: nat)
    requires s < |runs| && runs[s].kind == k && 0 < Steps(schedule, s) && Shown(runs[s]) != []
    ensures Panel(runs, schedule, k) != IDLE
  {
    var last := schedule[|schedule| - 1];
    var before := schedule[..|schedule| - 1];
    if last < |runs| && runs[last].kind == k && Steps(before, last) < |Shown(runs[last])| {
      RunStates(runs[last], Steps(before, last));
      assert Shown(runs[last])[Steps(before, last)] != IDLE;
    } else {
      if last == s && Steps(before, s) == 0 { assert false; }
      SomethingShown(runs, before, k, s);
    }
  }

  /** The schedule with the steps of other flows removed. */
  function OnlyFlow(runs: seq<FlowRun>, schedule: seq<nat>, k: Kind): seq<nat> {
    if schedule == [] then []
    else
      var last := schedule[|schedule| - 1];
      OnlyFlow(runs, schedule[..|schedule| - 1], k)
      + if last < |runs| && runs[last].kind == k then [last] else []
  }

  lemma {:induction false} OnlyFlowSteps(runs: seq<FlowRun>, schedule: seq<nat>, k: Kind, r: nat)
    requires r < |runs| && runs[r].kind == k
    ensures Steps(OnlyFlow(runs, schedule, k), r) == Steps(schedule, r)
  {
    if schedule != [] {
      var front := OnlyFlow(runs, schedule[..|schedule| - 1], k);
      OnlyFlowSteps(runs, schedule[..|schedule| - 1], k, r);
      var last := schedule[|schedule| - 1];
      assert (front + [last])[..|front + [last]| - 1] == front;
      assert front + [] == front;
    }
  }

  lemma {:induction false} PanelOneMore(runs: seq<FlowRun>, before: seq<nat>, last: nat, k: Kind)
    ensures Panel(runs, before + [last], k) ==
            if last < |runs| && runs[last].kind == k && Steps(before, last) < |Shown(runs[last])|
            then Shown(runs[last])[Steps(before, last)]
            else Panel(runs, before, k)
  {
    assert (before + [last])[..|before + [last]| - 1] == before;
  }

  /** Flows do not interfere: what one flow of the panel shows is decided by its own runs alone, in whatever order the
      others run. */
  lemma {:induction false} FlowsIndependent(runs: seq<FlowRun>, schedule: seq<nat>, k: Kind)
    ensures Panel(runs, schedule, k) == Panel(runs, OnlyFlow(runs, schedule, k), k)
  {
    if schedule != [] {
      var before := schedule[..|schedule| - 1];
      var last := schedule[|schedule| - 1];
      var front := OnlyFlow(runs, before, k);
      FlowsIndependent(runs, before, k);
      PanelOneMore(runs, before, last, k);
      assert before + [last] == schedule;
      if last < |runs| && runs[last].kind == k {
        OnlyFlowSteps(runs, before, k, last);
        PanelOneMore(runs, front, last, k);
        assert OnlyFlow(runs, schedule, k) == front + [last];
      } else {
        assert OnlyFlow(runs, schedule, k) == front + [] == front;
      }
    }
  }
}
