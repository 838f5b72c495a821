/**
 * Safety of the signed-write protocol over whole runs: any number of activations, interleaved in any order, with
 * every answer, failure and clock reading chosen by the environment.
 */
module SignedWriteSafety {
  import opened Text
  import opened TxStatus
  import opened Guards
  import opened SignedWrites

  // ---------------------------------------------------------------- worlds and runs

  datatype Label =
    | Start(account: string, action: Action, now: int)
    | Answered(id: nat, answer: Answer, now: int)

  datatype Entry = Entry(id: nat, event: Event)

  datatype World = World(tasks: seq<Task>, trace: seq<Entry>)

  function Tagged(id: nat, events: seq<Event>): seq<Entry> {
    seq(|events|, i requires 0 <= i < |events| => Entry(id, events[i]))
  }

  /** A task's log only grows, so what a step adds is its tail. */
  function Added(before: Task, after: Task): seq<Event> {
    if |before.log| <= |after.log| then after.log[|before.log|..] else []
  }

  predicate IdsInRange(w: World) {
    forall i :: 0 <= i < |w.trace| ==> w.trace[i].id < |w.tasks|
  }

  function Next(list: SdnList, w: World, l: Label): (w': World)
    ensures IdsInRange(w) ==> IdsInRange(w')
  {
    match l
    case Start(account, action, now) =>
      var t := Begin(list, account, action, now);
      World(w.tasks + [t], w.trace + Tagged(|w.tasks|, t.log))
    case Answered(id, answer, now) =>
      if id >= |w.tasks| then w
      else
        var t := Resume(list, w.tasks[id], answer, now);
        World(w.tasks[id := t], w.trace + Tagged(id, Added(w.tasks[id], t)))
  }

  function Run(list: SdnList, labels: seq<Label>): (w: World)
    ensures IdsInRange(w)
  {
    if labels == [] then World([], [])
    else Next(list, Run(list, labels[..|labels| - 1]), labels[|labels| - 1])
  }

  /** The events of one task, in trace order. */
  function Of(trace: seq<Entry>, id: nat): seq<Event> {
    if trace == [] then []
    else
      var front := Of(trace[..|trace| - 1], id);
      var last := trace[|trace| - 1];
      if last.id == id then front + [last.event] else front
  }

  // ---------------------------------------------------------------- what every task keeps

  /** A write stands right after its own simulation's success and hands over the request that success carried; the
      success stands right after the gate passed the call it is about, made by the task's own account. */
  ghost predicate GoodAt(list: SdnList, account: string, log: seq<Event>, i: nat)
    requires i < |log|
  {
    match log[i]
    case WriteAsked(request, _) =>
      && i >= 2 && log[i - 1].SimulateOk? && log[i - 1].request == request
      && log[i - 2].SimulateAsked? && log[i - 2].call == log[i - 1].call
    case SimulateAsked(call, now) =>
      call.account == account && AssertNotSanctioned(list, Some(account), now, call.functionName).Ok?
    case _ => true
  }

  ghost predicate DisciplinedLog(list: SdnList, account: string, log: seq<Event>) {
    forall i :: 0 <= i < |log| ==> GoodAt(list, account, log, i)
  }

  ghost predicate Disciplined(list: SdnList, t: Task) {
    && DisciplinedLog(list, t.account, t.log)
    && (t.pc.AwaitSimulation? ==>
          |t.log| > 0 && t.log[|t.log| - 1].SimulateAsked? && t.log[|t.log| - 1].call == t.pc.call)
  }

  /** The log of a deposit is a prefix of one fixed script; `pc` says how long a prefix. */
  ghost predicate DepositScript(t: Task)
    requires t.action.Deposit?
  {
    var n := |t.log|;
    && n in {0, 1, 2, 3, 5, 6, 7, 8, 10, 11}
    && (DepositsClosed(t.action.vault) <==> n == 0)
    && (n == 0 ==> t.pc.Failed?)
    && (n >= 1 ==> t.log[0] == AddressesAsked(t.action.vault))
    && (n >= 2 ==> t.log[1].AddressesRead? && t.log[1].vault == t.action.vault)
    && (n >= 3 ==> t.log[2].SimulateAsked?
                   && t.log[2].call == ApproveCall(t.account, t.log[1].usdc, t.action.vault, t.action.amountUsdc))
    && (n >= 5 ==> WrittenAt(t.log, 4))
    && (n >= 6 ==> t.log[5].Broadcast? && t.log[5].request == t.log[4].request)
    && (n >= 7 ==> t.log[6].ReceiptRead? && t.log[6].hash == t.log[5].hash)
    && (n >= 8 ==> Outcome(t.log[6].wait, t.log[6].hash).Confirmed?
                   && t.minedApproval == Some(Outcome(t.log[6].wait, t.log[6].hash).hash)
                   && t.log[7].SimulateAsked?
                   && t.log[7].call == DepositCall(t.account, t.action.vault, t.action.amountUsdc))
    && (n >= 10 ==> WrittenAt(t.log, 9))
    && (n == 11 ==> t.log[10].Broadcast? && t.log[10].request == t.log[9].request && t.pc == Finished(t.log[10].hash))
    && (n < 7 ==> t.minedApproval.None?)
    && match t.pc
       case AwaitAddresses => n == 1
       case AwaitCommitment => false
       case AwaitSimulation(call) =>
         (n == 3 || n == 8) && call == t.log[n - 1].call && (n == 3 ==> t.minedApproval.None?)
       case AwaitBroadcast(request) =>
         (n == 5 || n == 10) && t.log[n - 1].request == request && (n == 5 ==> t.minedApproval.None?)
       case AwaitReceipt(hash) => n == 6 && t.log[5].hash == hash
       case Finished(_) => n == 11
       case Failed(_) =>
         n != 11 && (n == 7 && t.minedApproval.None? ==> !Outcome(t.log[6].wait, t.log[6].hash).Confirmed?)
  }

  /** `log[p]` writes the request that the simulation right before it came back with. */
  predicate WrittenAt(log: seq<Event>, p: nat)
    requires 2 <= p < |log|
  {
    && log[p].WriteAsked? && log[p - 1].SimulateOk? && log[p].request == log[p - 1].request
    && log[p - 2].SimulateAsked? && log[p - 1].call == log[p - 2].call
  }

  /** Only a deposit ever asks for `approve` or `deposit`. */
  ghost predicate NoDepositCalls(t: Task) {
    && (forall i :: 0 <= i < |t.log| && t.log[i].SimulateAsked? ==>
          t.log[i].call.functionName !in {"approve", "deposit"})
    && (forall i :: 0 <= i < |t.log| ==> !t.log[i].ReceiptRead?)
    && !t.pc.AwaitReceipt? && t.minedApproval.None?
  }

  ghost predicate TaskOk(list: SdnList, t: Task) {
    && Disciplined(list, t)
    && (if t.action.Deposit? then DepositScript(t) else NoDepositCalls(t))
  }

  lemma {:induction false} FunctionNamesDiffer()
    ensures "commitVote" !in {"approve", "deposit"} && "revealVote" !in {"approve", "deposit"}
    ensures "requestExit" !in {"approve", "deposit"} && "claimEscrowed" !in {"approve", "deposit"}
    ensures "approve" != "deposit"
    ensures "approve" !in STALE_LIST_EXEMPT_FUNCTIONS && "deposit" !in STALE_LIST_EXEMPT_FUNCTIONS
  {
    assert "commitVote"[0] == 'c' && "revealVote"[0] == 'r' && "requestExit"[0] == 'r' && "claimEscrowed"[0] == 'c';
    assert "approve"[0] == 'a' && "deposit"[0] == 'd';
  }

  lemma {:induction false} BeginOk(list: SdnList, account: string, action: Action, now: int)
    ensures TaskOk(list, Begin(list, account, action, now))
  {
    FunctionNamesDiffer();
  }

  lemma {:induction false} ResumeExtendsLog(list: SdnList, t: Task, a: Answer, now: int)
    ensures t.log <= Resume(list, t, a, now).log
    ensures Resume(list, t, a, now).action == t.action && Resume(list, t, a, now).account == t.account
  {
  }

  lemma {:induction false} LogOneMore(list: SdnList, account: string, log: seq<Event>, e: Event)
    requires DisciplinedLog(list, account, log) && GoodAt(list, account, log + [e], |log|)
    ensures DisciplinedLog(list, account, log + [e])
  {
    forall i | 0 <= i < |log| ensures GoodAt(list, account, log + [e], i) {
      assert GoodAt(list, account, log, i);
    }
  }

  lemma {:induction false} GateDisciplined(list: SdnList, t: Task, call: Call, now: int)
    requires DisciplinedLog(list, t.account, t.log) && call.account == t.account
    ensures Disciplined(list, Gate(list, t, call, now))
  {
    if AssertNotSanctioned(list, Some(call.account), now, call.functionName).Ok? {
      LogOneMore(list, t.account, t.log, SimulateAsked(call, now));
    }
  }

  lemma {:induction false} ResumeDisciplined(list: SdnList, t: Task, a: Answer, now: int)
    requires Disciplined(list, t)
    ensures Disciplined(list, Resume(list, t, a, now))
  {
    match t.pc {
      case AwaitAddresses =>
        if a.Addresses? && t.action.Deposit? {
          var read := t.(log := t.log + [AddressesRead(t.action.vault, a.usdc)]);
          LogOneMore(list, t.account, t.log, AddressesRead(t.action.vault, a.usdc));
          GateDisciplined(list, read, ApproveCall(t.account, a.usdc, t.action.vault, t.action.amountUsdc), now);
        }
      case AwaitCommitment =>
        if a.Commitment? && t.action.CommitVote? {
          var made := t.(log := t.log + [CommitmentMade(a.commitment)]);
          LogOneMore(list, t.account, t.log, CommitmentMade(a.commitment));
          GateDisciplined(list, made, CommitCall(t.account, t.action.governance, t.action.pid, a.commitment), now);
        }
      case AwaitSimulation(call) =>
        if a.SimulationOk? {
          var ok, write := SimulateOk(call, a.request), WriteAsked(a.request, now);
          LogOneMore(list, t.account, t.log, ok);
          LogOneMore(list, t.account, t.log + [ok], write);
          assert t.log + [ok, write] == t.log + [ok] + [write];
        }
      case AwaitBroadcast(request) =>
        if a.BroadcastAs? { LogOneMore(list, t.account, t.log, Broadcast(request, a.hash)); }
      case AwaitReceipt(hash) =>
        if a.ReceiptWaited? && t.action.Deposit? {
          LogOneMore(list, t.account, t.log, ReceiptRead(hash, a.wait));
          var read := t.(log := t.log + [ReceiptRead(hash, a.wait)]);
          match Required(Outcome(a.wait, hash)) {
            case Err(e) =>
            case Ok(m) =>
              GateDisciplined(list, read.(minedApproval := Some(m)),
                              DepositCall(t.account, t.action.vault, t.action.amountUsdc), now);
          }
        }
      case Finished(_) =>
      case Failed(_) =>
    }
  }

  lemma {:induction false} ResumeScript(list: SdnList, t: Task, a: Answer, now: int)
    requires t.action.Deposit? && DepositScript(t)
    ensures Resume(list, t, a, now).action == t.action && DepositScript(Resume(list, t, a, now))
  {
    var n := |t.log|;
    var t' := Resume(list, t, a, now);
    ResumeExtendsLog(list, t, a, now);
    assert forall i :: 0 <= i < n ==> t'.log[i] == t.log[i];
  }

  lemma {:induction false} ResumeNoDepositCalls(list: SdnList, t: Task, a: Answer, now: int)
    requires !t.action.Deposit? && NoDepositCalls(t)
    ensures NoDepositCalls(Resume(list, t, a, now))
  {
    FunctionNamesDiffer();
  }

  lemma {:induction false} ResumeOk(list: SdnList, t: Task, a: Answer, now: int)
    requires TaskOk(list, t)
    ensures TaskOk(list, Resume(list, t, a, now))
  {
    ResumeExtendsLog(list, t, a, now);
    ResumeDisciplined(list, t, a, now);
    if t.action.Deposit? { ResumeScript(list, t, a, now); } else { ResumeNoDepositCalls(list, t, a, now); }
  }

  // ---------------------------------------------------------------- what every world keeps

  ghost predicate WorldOk(list: SdnList, w: World) {
    && (forall id :: 0 <= id < |w.tasks| ==> TaskOk(list, w.tasks[id]) && Of(w.trace, id) == w.tasks[id].log)
    && IdsInRange(w)
  }

  lemma {:induction false} OfAppend(trace: seq<Entry>, more: seq<Entry>, id: nat)
    ensures Of(trace + more, id) == Of(trace, id) + Of(more, id)
    decreases |more|
  {
    if more == [] {
      assert trace + more == trace;
    } else {
      var whole := trace + more;
      assert whole[..|whole| - 1] == trace + more[..|more| - 1];
      assert whole[|whole| - 1] == more[|more| - 1];
      OfAppend(trace, more[..|more| - 1], id);
    }
  }

  lemma {:induction false} OfTagged(id: nat, events: seq<Event>, other: nat)
    ensures Of(Tagged(id, events), other) == if other == id then events else []
    decreases |events|
  {
    if events != [] {
      var front := events[..|events| - 1];
      assert Tagged(id, events)[..|events| - 1] == Tagged(id, front);
      OfTagged(id, front, other);
      assert front + [events[|events| - 1]] == events;
    }
  }

  lemma {:induction false} OfStep(trace: seq<Entry>, id: nat, events: seq<Event>, other: nat)
    ensures Of(trace + Tagged(id, events), other) == if other == id then Of(trace, other) + events else Of(trace, other)
  {
    OfAppend(trace, Tagged(id, events), other);
    OfTagged(id, events, other);
    assert Of(trace, other) + [] == Of(trace, other);
  }

  lemma {:induction false} OfNobody(trace: seq<Entry>, id: nat)
    requires forall i :: 0 <= i < |trace| ==> trace[i].id != id
    ensures Of(trace, id) == []
  {
    if trace != [] { OfNobody(trace[..|trace| - 1], id); }
  }

  lemma {:induction false} NextOk(list: SdnList, w: World, l: Label)
    requires WorldOk(list, w)
    ensures WorldOk(list, Next(list, w, l))
  {
    var w' := Next(list, w, l);
    forall id | 0 <= id < |w'.tasks| ensures TaskOk(list, w'.tasks[id]) && Of(w'.trace, id) == w'.tasks[id].log {
      NextTaskOk(list, w, l, id);
    }
  }

  lemma {:induction false} NextTaskOk(list: SdnList, w: World, l: Label, id: nat)
    requires WorldOk(list, w) && id < |Next(list, w, l).tasks|
    ensures var w' := Next(list, w, l); TaskOk(list, w'.tasks[id]) && Of(w'.trace, id) == w'.tasks[id].log
  {
    match l {
      case Start(account, action, now) =>
        BeginOk(list, account, action, now);
        OfStep(w.trace, |w.tasks|, Begin(list, account, action, now).log, id);
        if id == |w.tasks| { OfNobody(w.trace, id); }
      case Answered(target, answer, now) =>
        if target < |w.tasks| {
          var t := w.tasks[target];
          var t' := Resume(list, t, answer, now);
          ResumeOk(list, t, answer, now);
          ResumeExtendsLog(list, t, answer, now);
          OfStep(w.trace, target, Added(t, t'), id);
          assert t.log + Added(t, t') == t'.log;
        }
    }
  }

  lemma {:induction false} RunOk(list: SdnList, labels: seq<Label>)
    ensures WorldOk(list, Run(list, labels))
  {
    if labels != [] {
      RunOk(list, labels[..|labels| - 1]);
      NextOk(list, Run(list, labels[..|labels| - 1]), labels[|labels| - 1]);
    }
  }

  /** The position of a trace entry in its own task's log. */
  lemma {:induction false} EntryInLog(trace: seq<Entry>, i: nat)
    requires i < |trace|
    ensures |Of(trace[..i], trace[i].id)| < |Of(trace, trace[i].id)|
    ensures Of(trace, trace[i].id)[|Of(trace[..i], trace[i].id)|] == trace[i].event
    ensures Of(trace[..i], trace[i].id) <= Of(trace, trace[i].id)
  {
    var front := trace[..|trace| - 1];
    if i == |front| {
    } else {
      EntryInLog(front, i);
      assert front[..i] == trace[..i];
    }
  }

  /** Where a log entry sits in the trace. */
  lemma {:induction false} LogInTrace(trace: seq<Entry>, id: nat, p: nat) returns (i: nat)
    requires p < |Of(trace, id)|
    ensures i < |trace| && trace[i] == Entry(id, Of(trace, id)[p]) && |Of(trace[..i], id)| == p
  {
    var front := trace[..|trace| - 1];
    if p < |Of(front, id)| {
      i := LogInTrace(front, id, p);
      assert front[..i] == trace[..i];
    } else {
      i := |front|;
    }
  }

  /** Logged earlier means traced earlier: everything before `p` in the log of entry `i` is before `i` in the trace. */
  lemma {:induction false} EarlierInTrace(trace: seq<Entry>, i: nat, q: nat) returns (j: nat)
    requires i < |trace| && q < |Of(trace[..i], trace[i].id)|
    ensures q < |Of(trace, trace[i].id)|
    ensures j < i && trace[j] == Entry(trace[i].id, Of(trace, trace[i].id)[q])
    ensures |Of(trace[..j], trace[i].id)| == q
  {
    EntryInLog(trace, i);
    j := LogInTrace(trace[..i], trace[i].id, q);
    assert trace[..i][..j] == trace[..j];
  }

  // ---------------------------------------------------------------- the write gate

  /** `trace[i]` is a write and `trace[j]` the gate its own activation last passed before it. */
  ghost predicate OwnGate(trace: seq<Entry>, j: nat, i: nat) {
    && j < i < |trace| && trace[i].event.WriteAsked?
    && trace[j].id == trace[i].id && trace[j].event.SimulateAsked?
    && forall m :: j < m < i && trace[m].id == trace[i].id ==> !trace[m].event.SimulateAsked?
  }

  /** `trace[i]` is a write; `j` and `k` are its own simulation, asked for and answered. The gate passed at `j`, and
      what is written is the request answered at `k`. */
  ghost predicate GatedWrite(list: SdnList, trace: seq<Entry>, j: nat, k: nat, i: nat)
    requires j < k < i < |trace| && trace[i].event.WriteAsked?
  {
    && OwnGate(trace, j, i)
    && trace[k] == Entry(trace[i].id, SimulateOk(trace[j].event.call, trace[i].event.request))
    && !IsSanctioned(list, Some(trace[j].event.call.account))
    && (Exempt(trace[j].event.call) || !IsStale(list, trace[j].event.now))
  }

  predicate Exempt(call: Call) { call.functionName in STALE_LIST_EXEMPT_FUNCTIONS }

  /** The client's side of the bargain: the request a simulation returns makes the call that was simulated. */
  ghost predicate ClientFaithful(trace: seq<Entry>) {
    forall i :: 0 <= i < |trace| && trace[i].event.SimulateOk? ==> trace[i].event.request == trace[i].event.call
  }

  lemma {:induction false} EntryGood(list: SdnList, w: World, i: nat) returns (p: nat)
    requires WorldOk(list, w) && i < |w.trace|
    ensures var t := w.tasks[w.trace[i].id];
            && TaskOk(list, t) && Of(w.trace, w.trace[i].id) == t.log
            && p < |t.log| && p == |Of(w.trace[..i], w.trace[i].id)|
            && t.log[p] == w.trace[i].event && GoodAt(list, t.account, t.log, p)
  {
    EntryInLog(w.trace, i);
    p := |Of(w.trace[..i], w.trace[i].id)|;
  }

  lemma {:induction false} WriteGateIn(list: SdnList, w: World, i: nat) returns (j: nat, k: nat)
    requires WorldOk(list, w) && i < |w.trace| && w.trace[i].event.WriteAsked?
    ensures j < k < i && GatedWrite(list, w.trace, j, k, i)
  {
    var p := EntryGood(list, w, i);
    k := EarlierInTrace(w.trace, i, p - 1);
    j := EarlierInTrace(w.trace, k, p - 2);
    var q := EntryGood(list, w, j);
    forall m | j < m < i && w.trace[m].id == w.trace[i].id ensures !w.trace[m].event.SimulateAsked? {
      var r := EntryGood(list, w, m);
      LaterInTrace(w.trace, j, m);
      LaterInTrace(w.trace, m, i);
    }
  }

  /** Over every interleaving: each transaction handed to the wallet is the request a successful simulation came back
      with, and that simulation was of a call whose gate passed right before it: made from an address not on the list,
      with the list fresh at that moment unless the function is one of the two exempt ones. With a client that returns
      the call it simulated, the transaction is that very call. */
  lemma {:induction false} WriteGate(list: SdnList, labels: seq<Label>, i: nat) returns (j: nat, k: nat)
    requires i < |Run(list, labels).trace| && Run(list, labels).trace[i].event.WriteAsked?
    ensures var trace := Run(list, labels).trace;
            && j < k < i && GatedWrite(list, trace, j, k, i)
            && (ClientFaithful(trace) ==> trace[i].event.request == trace[j].event.call)
  {
    RunOk(list, labels);
    j, k := WriteGateIn(list, Run(list, labels), i);
  }

  /** `trace[k]` is a simulation of the activation of the write `trace[i]` that came back with what is written. */
  predicate SimulatedAt(trace: seq<Entry>, k: nat, i: nat)
    requires k < i < |trace| && trace[i].event.WriteAsked?
  {
    trace[k].id == trace[i].id && trace[k].event.SimulateOk? && trace[k].event.request == trace[i].event.request
  }

  lemma {:induction false} OwnSimulationIn(list: SdnList, w: World, i1: nat, i2: nat) returns (k: nat)
    requires WorldOk(list, w) && i1 < i2 < |w.trace| && w.trace[i1].id == w.trace[i2].id
    requires w.trace[i1].event.WriteAsked? && w.trace[i2].event.WriteAsked?
    ensures i1 < k < i2 && SimulatedAt(w.trace, k, i2)
  {
    var p1 := EntryGood(list, w, i1);
    var p2 := EntryGood(list, w, i2);
    LaterInTrace(w.trace, i1, i2);
    k := EarlierInTrace(w.trace, i2, p2 - 1);
    if k < i1 { LaterInTrace(w.trace, k, i1); }
  }

  /** Each write has a simulation of its own: between two writes of one activation there is another success. */
  lemma {:induction false} WritesDoNotShareASimulation(list: SdnList, labels: seq<Label>, i1: nat, i2: nat)
      returns (k: nat)
    requires var trace := Run(list, labels).trace;
             && i1 < i2 < |trace| && trace[i1].id == trace[i2].id
             && trace[i1].event.WriteAsked? && trace[i2].event.WriteAsked?
    ensures var trace := Run(list, labels).trace;
            i1 < k < i2 && SimulatedAt(trace, k, i2)
  {
    RunOk(list, labels);
    k := OwnSimulationIn(list, Run(list, labels), i1, i2);
  }

  /** Traced earlier means logged earlier. */
  lemma {:induction false} LaterInTrace(trace: seq<Entry>, i: nat, j: nat)
    requires i < j < |trace| && trace[i].id == trace[j].id
    ensures |Of(trace[..i], trace[i].id)| < |Of(trace[..j], trace[i].id)|
  {
    EntryInLog(trace[..j], i);
    assert trace[..j][..i] == trace[..i];
  }

  // ---------------------------------------------------------------- how fresh the list is when the wallet is asked

  /** How long the list stays fresh from `now` on. */
  function LifeLeft(list: SdnList, now: int): int {
    list.fetchedAtMs + SDN_LIST_MAX_AGE_DAYS * MS_PER_DAY - now
  }

  /** Every simulation answers within `d` of its gate. */
  ghost predicate AnsweredWithin(trace: seq<Entry>, d: nat) {
    forall j: nat, i: nat :: OwnGate(trace, j, i) ==> trace[i].event.now - trace[j].event.now <= d
  }

  /** Every gate of a function that is not exempt runs by `latest`. */
  ghost predicate GatesBy(trace: seq<Entry>, latest: int) {
    forall j: nat, i: nat :: OwnGate(trace, j, i) && !Exempt(trace[j].event.call) ==> trace[j].event.now <= latest
  }

  /** The list is still fresh whenever the wallet is asked for a write that is not exempt. */
  ghost predicate FreshWrites(list: SdnList, trace: seq<Entry>) {
    forall j: nat, i: nat :: OwnGate(trace, j, i) && !Exempt(trace[j].event.call) ==> !IsStale(list, trace[i].event.now)
  }

  ghost predicate AlwaysFresh(list: SdnList, d: nat, latest: int) {
    forall labels: seq<Label> ::
      AnsweredWithin(Run(list, labels).trace, d) && GatesBy(Run(list, labels).trace, latest)
      ==> FreshWrites(list, Run(list, labels).trace)
  }

  lemma {:induction false} OwnGatePassed(list: SdnList, labels: seq<Label>, j: nat, i: nat)
    requires OwnGate(Run(list, labels).trace, j, i)
    ensures Exempt(Run(list, labels).trace[j].event.call) || LifeLeft(list, Run(list, labels).trace[j].event.now) >= 0
  {
    var g, k := WriteGate(list, labels, i);
    assert g == j;
  }

  /** The run of one reveal: gated at `gate`, its simulation answered at `at`. */
  lemma {:induction false} SlowReveal(list: SdnList, account: string, gate: int, at: int)
      returns (labels: seq<Label>, call: Call)
    requires !IsSanctioned(list, Some(account)) && LifeLeft(list, gate) >= 0
    ensures !Exempt(call)
    ensures Run(list, labels).trace
            == [Entry(0, SimulateAsked(call, gate)), Entry(0, SimulateOk(call, call)), Entry(0, WriteAsked(call, at))]
  {
    FunctionNamesDiffer();
    call := RevealCall(account, "0xg", 1, true, "0x");
    var s := Start(account, RevealVote("0xg", 1, Ready(true, "0x")), gate);
    var a := Answered(0, SimulationOk(call), at);
    labels := [s, a];
    RunOneMore(list, [], s);
    RunOneMore(list, [s], a);
    assert [] + [s] == [s] && [s] + [a] == labels;
    var t := Begin(list, account, s.action, gate);
    assert t.log == [SimulateAsked(call, gate)];
    var t' := Resume(list, t, SimulationOk(call), at);
    assert t'.log == [SimulateAsked(call, gate), SimulateOk(call, call), WriteAsked(call, at)];
    assert Added(t, t') == [SimulateOk(call, call), WriteAsked(call, at)];
  }

  lemma {:induction false} RunOneMore(list: SdnList, labels: seq<Label>, l: Label)
    ensures Run(list, labels + [l]) == Next(list, Run(list, labels), l)
  {
    assert (labels + [l])[..|labels + [l]| - 1] == labels;
  }

  lemma {:induction false} SlowRevealIsStale(list: SdnList, trace: seq<Entry>, call: Call, gate: int, at: int)
    requires trace == [Entry(0, SimulateAsked(call, gate)), Entry(0, SimulateOk(call, call)),
                       Entry(0, WriteAsked(call, at))]
    requires !Exempt(call) && IsStale(list, at)
    ensures forall d: nat :: at - gate <= d ==> AnsweredWithin(trace, d)
    ensures forall latest :: gate <= latest ==> GatesBy(trace, latest)
    ensures !FreshWrites(list, trace)
  {
    assert OwnGate(trace, 0, 2);
  }

  /** What a gate must see for the wallet never to be asked on a stale list: with simulations that answer within `d`,
      every run whose gates run by `latest` is fresh at each write if and only if the list still has `d` to live at
      `latest`, or the answers take no time. Otherwise some unlisted address has a run that is not. */
  lemma {:induction false} FreshWritesIff(list: SdnList, account: string, d: nat, latest: int)
    requires !IsSanctioned(list, Some(account))
    ensures AlwaysFresh(list, d, latest) <==> d == 0 || LifeLeft(list, latest) >= d
  {
    if d == 0 || LifeLeft(list, latest) >= d {
      forall labels: seq<Label>
        | AnsweredWithin(Run(list, labels).trace, d) && GatesBy(Run(list, labels).trace, latest)
        ensures FreshWrites(list, Run(list, labels).trace)
      {
        PromptRunIsFresh(list, labels, d, latest);
      }
    } else {
      var gate := if LifeLeft(list, latest) >= 0 then latest else latest + LifeLeft(list, latest);
      var at := gate + LifeLeft(list, gate) + 1;
      var labels, call := SlowReveal(list, account, gate, at);
      SlowRevealIsStale(list, Run(list, labels).trace, call, gate, at);
      assert AnsweredWithin(Run(list, labels).trace, d) && GatesBy(Run(list, labels).trace, latest);
    }
  }

  lemma {:induction false} PromptRunIsFresh(list: SdnList, labels: seq<Label>, d: nat, latest: int)
    requires d == 0 || LifeLeft(list, latest) >= d
    requires AnsweredWithin(Run(list, labels).trace, d) && GatesBy(Run(list, labels).trace, latest)
    ensures FreshWrites(list, Run(list, labels).trace)
  {
    var trace := Run(list, labels).trace;
    forall j: nat, i: nat | OwnGate(trace, j, i) && !Exempt(trace[j].event.call)
      ensures !IsStale(list, trace[i].event.now)
    {
      OwnGatePassed(list, labels, j, i);
    }
  }

  /** The writes whose own gate ran at `gate`. */
  ghost predicate AlwaysFreshAt(list: SdnList, d: nat, gate: int) {
    forall labels: seq<Label>, j: nat, i: nat ::
      && OwnGate(Run(list, labels).trace, j, i) && !Exempt(Run(list, labels).trace[j].event.call)
      && Run(list, labels).trace[j].event.now == gate && Run(list, labels).trace[i].event.now <= gate + d
      ==> !IsStale(list, Run(list, labels).trace[i].event.now)
  }

  /** The same for one gate, whatever the others do: a simulation that answers within `d` always leads to a write on a
      fresh list if and only if the gate does not pass at all or sees `d` left. */
  lemma {:induction false} FreshFromGateIff(list: SdnList, account: string, d: nat, gate: int)
    requires !IsSanctioned(list, Some(account))
    ensures AlwaysFreshAt(list, d, gate) <==> IsStale(list, gate) || LifeLeft(list, gate) >= d
  {
    if IsStale(list, gate) || LifeLeft(list, gate) >= d {
      forall labels: seq<Label>, j: nat, i: nat
        | && OwnGate(Run(list, labels).trace, j, i) && !Exempt(Run(list, labels).trace[j].event.call)
          && Run(list, labels).trace[j].event.now == gate && Run(list, labels).trace[i].event.now <= gate + d
        ensures !IsStale(list, Run(list, labels).trace[i].event.now)
      {
        OwnGatePassed(list, labels, j, i);
      }
    } else {
      var labels, call := SlowReveal(list, account, gate, gate + LifeLeft(list, gate) + 1);
      assert OwnGate(Run(list, labels).trace, 0, 2);
    }
  }

  /** For instance: a gate that runs in the last millisecond of the list's life, with a simulation that takes one
      millisecond, leads to a write on an expired list. */
  lemma {:induction false} StaleWriteAfterSlowSimulation() returns (list: SdnList, labels: seq<Label>)
    ensures var trace := Run(list, labels).trace;
            && OwnGate(trace, 0, 2) && !Exempt(trace[0].event.call)
            && trace[0].event.now == 30 * MS_PER_DAY && trace[2].event.now == 30 * MS_PER_DAY + 1
            && !IsStale(list, trace[0].event.now) && IsStale(list, trace[2].event.now)
  {
    list := SdnList(0, []);
    var call;
    labels, call := SlowReveal(list, "0xa", 30 * MS_PER_DAY, 30 * MS_PER_DAY + 1);
  }

  // ---------------------------------------------------------------- the deposit protocol

  /** The client returns the calls it simulates, the wallet broadcasts what it is asked to, and receipt waits are
      truthful about this chain and show values. */
  ghost predicate EnvTruthful(c: Chain, encode: (string, seq<Arg>) -> string, trace: seq<Entry>) {
    && ValidChain(c)
    && ClientFaithful(trace)
    && (forall i :: 0 <= i < |trace| && trace[i].event.Broadcast? ==>
          Carries(c, encode, trace[i].event.hash, trace[i].event.request))
    && (forall i :: 0 <= i < |trace| && trace[i].event.ReceiptRead? ==>
          && Truthful(trace[i].event.wait, c, trace[i].event.hash)
          && ValueShown(trace[i].event.wait, trace[i].event.hash))
  }

  /** `hash` names a transaction that makes this call. */
  predicate Carries(c: Chain, encode: (string, seq<Arg>) -> string, hash: string, call: Call) {
    && Lower(hash) in c.txs
    && c.txs[Lower(hash)].sender == Lower(call.account)
    && c.txs[Lower(hash)].to == Some(Lower(call.target))
    && c.txs[Lower(hash)].value == 0
    && c.txs[Lower(hash)].input == encode(call.functionName, call.args)
  }

  /** An approval of `vault` for the amount, on the token `usdc`. */
  predicate IsApproval(call: Call, account: string, usdc: string, vault: string, amountUsdc: int) {
    && call.target == usdc && call.functionName == "approve" && call.args == [Addr(vault), Num(amountUsdc)]
    && call.account == account
  }

  /** A deposit of the amount into `vault`. */
  predicate IsDeposit(call: Call, account: string, vault: string, amountUsdc: int) {
    && call.target == vault && call.functionName == "deposit" && call.args == [Num(amountUsdc)]
    && call.account == account
  }

  /** `m` was mined successfully; `account` sent it to `target`, with no value and this input. */
  ghost predicate MinedAs(c: Chain, m: string, account: string, target: string, input: string) {
    && Lower(m) in c.mined && c.mined[Lower(m)] == Success && Lower(m) in c.txs
    && c.txs[Lower(m)].sender == Lower(account) && c.txs[Lower(m)].to == Some(Lower(target))
    && c.txs[Lower(m)].value == 0 && c.txs[Lower(m)].input == input
  }

  /** What must already be true when entry `i`, a write of `deposit`, is asked for. Earlier and in the same activation,
      entry `a` read `usdc` as the token of the vault and entry `r` read a receipt confirming `mined`, and `mined` is
      this account's successful approval of that vault for that amount, sent to that token. */
  ghost predicate ApprovedFirst(c: Chain, encode: (string, seq<Arg>) -> string, w: World, i: nat, a: nat, r: nat,
                                mined: string, usdc: string)
    requires IdsInRange(w) && i < |w.trace| && w.trace[i].event.WriteAsked?
  {
    var t := w.tasks[w.trace[i].id];
    && t.action.Deposit? && IsDeposit(w.trace[i].event.request, t.account, t.action.vault, t.action.amountUsdc)
    && a < r < i && w.trace[a] == Entry(w.trace[i].id, AddressesRead(t.action.vault, usdc))
    && w.trace[r].id == w.trace[i].id && w.trace[r].event.ReceiptRead?
    && Outcome(w.trace[r].event.wait, w.trace[r].event.hash) == Confirmed(mined)
    && t.minedApproval == Some(mined)
    && MinedAs(c, mined, t.account, usdc, encode("approve", [Addr(t.action.vault), Num(t.action.amountUsdc)]))
  }

  lemma {:induction false} DepositWritePosition(list: SdnList, t: Task, p: nat)
    requires TaskOk(list, t) && p < |t.log| && t.log[p].WriteAsked? && t.log[p].request.functionName == "deposit"
    requires p > 0 && t.log[p - 1].SimulateOk? && t.log[p - 1].request == t.log[p - 1].call
    ensures t.action.Deposit? && p == 9 && |t.log| >= 10
    ensures t.log[9].request == DepositCall(t.account, t.action.vault, t.action.amountUsdc)
  {
    FunctionNamesDiffer();
    assert GoodAt(list, t.account, t.log, p);
    assert t.log[p - 2].SimulateAsked? && t.log[p - 2].call.functionName == "deposit";
    assert t.action.Deposit?;
    assert p != 0 && p != 1 && p != 2 && p != 3 && p != 4 && p != 5 && p != 6 && p != 7 && p != 8 && p != 10;
  }

  lemma {:induction false} ApprovedFirstIn(list: SdnList, w: World, c: Chain, encode: (string, seq<Arg>) -> string,
      i: nat)
      returns (a: nat, r: nat, mined: string, usdc: string)
    requires WorldOk(list, w) && EnvTruthful(c, encode, w.trace)
    requires i < |w.trace| && w.trace[i].event.WriteAsked? && w.trace[i].event.request.functionName == "deposit"
    ensures ApprovedFirst(c, encode, w, i, a, r, mined, usdc)
  {
    var p := EntryGood(list, w, i);
    var t := w.tasks[w.trace[i].id];
    var own := EarlierInTrace(w.trace, i, p - 1);
    DepositWritePosition(list, t, p);
    usdc := t.log[1].usdc;
    r := EarlierInTrace(w.trace, i, 6);
    var b := EarlierInTrace(w.trace, i, 5);
    var approved := EarlierInTrace(w.trace, i, 3);
    a := EarlierInTrace(w.trace, r, 1);
    assert w.trace[b].event.Broadcast? && w.trace[b].event.request == t.log[2].call;
    mined := Outcome(t.log[6].wait, t.log[6].hash).hash;
    ConfirmSound(t.log[6].wait, c, t.log[6].hash);
  }

  /** Over every run and every interleaving, with a wallet that may cancel, reprice or replace: the wallet is asked
      for a deposit only after this same account's approval of that vault for that amount, on the token the vault
      itself named, was mined successfully. */
  lemma {:induction false} DepositOnlyAfterMinedApproval(list: SdnList, labels: seq<Label>, c: Chain,
      encode: (string, seq<Arg>) -> string, i: nat) returns (a: nat, r: nat, mined: string, usdc: string)
    requires var trace := Run(list, labels).trace;
             && EnvTruthful(c, encode, trace)
             && i < |trace| && trace[i].event.WriteAsked? && trace[i].event.request.functionName == "deposit"
    ensures ApprovedFirst(c, encode, Run(list, labels), i, a, r, mined, usdc)
  {
    RunOk(list, labels);
    a, r, mined, usdc := ApprovedFirstIn(list, Run(list, labels), c, encode, i);
  }

  lemma {:induction false} UnconfirmedReceiptIsLast(list: SdnList, t: Task, p: nat)
    requires TaskOk(list, t) && p < |t.log| && t.log[p].ReceiptRead?
    requires !Outcome(t.log[p].wait, t.log[p].hash).Confirmed?
    ensures p == 6 && |t.log| == 7 && t.pc.Failed?
  {
    assert t.action.Deposit?;
    assert p != 0 && p != 1 && p != 2 && p != 3 && p != 4 && p != 5 && p != 7 && p != 8 && p != 9 && p != 10;
  }

  lemma {:induction false} UnconfirmedEndsIn(list: SdnList, w: World, i: nat)
    requires WorldOk(list, w) && i < |w.trace| && w.trace[i].event.ReceiptRead?
    requires !Outcome(w.trace[i].event.wait, w.trace[i].event.hash).Confirmed?
    ensures w.tasks[w.trace[i].id].pc.Failed? && forall k :: i < k < |w.trace| ==> w.trace[k].id != w.trace[i].id
  {
    var p := EntryGood(list, w, i);
    UnconfirmedReceiptIsLast(list, w.tasks[w.trace[i].id], p);
    forall k | i < k < |w.trace| ensures w.trace[k].id != w.trace[i].id {
      if w.trace[k].id == w.trace[i].id {
        var q := EntryGood(list, w, k);
        LaterInTrace(w.trace, i, k);
        assert false;
      }
    }
  }

  /** An approval that reverted, was cancelled or changed, or could not be settled ends the run: nothing about the
      deposit is simulated or written, then or later. */
  lemma {:induction false} UnconfirmedApprovalEndsTheRun(list: SdnList, labels: seq<Label>, i: nat)
    requires var trace := Run(list, labels).trace;
             i < |trace| && trace[i].event.ReceiptRead? && !Outcome(trace[i].event.wait, trace[i].event.hash).Confirmed?
    ensures var w := Run(list, labels);
            && w.tasks[w.trace[i].id].pc.Failed?
            && forall k :: i < k < |w.trace| ==> w.trace[k].id != w.trace[i].id
  {
    RunOk(list, labels);
    UnconfirmedEndsIn(list, Run(list, labels), i);
  }

  /** A deposit into a closed vault asks for nothing at all, not even a read. */
  lemma {:induction false} ClosedVaultAsksNothing(list: SdnList, labels: seq<Label>, id: nat)
    requires id < |Run(list, labels).tasks|
    ensures var w := Run(list, labels);
            w.tasks[id].action.Deposit? ==>
              (DepositsClosed(w.tasks[id].action.vault) <==> forall i :: 0 <= i < |w.trace| ==> w.trace[i].id != id)
  {
    RunOk(list, labels);
    var w := Run(list, labels);
    if forall i :: 0 <= i < |w.trace| ==> w.trace[i].id != id {
      OfNobody(w.trace, id);
    } else {
      var i: nat :| i < |w.trace| && w.trace[i].id == id;
      EntryInLog(w.trace, i);
    }
  }

  /** The log of a deposit that finished: exactly two writes, each of what its simulation came back with, and the
      results it reports. */
  ghost predicate CompletedDeposit(t: Task) {
    && t.action.Deposit? && |t.log| == 11 && t.pc.Finished?
    && t.log[1].AddressesRead? && t.log[1].vault == t.action.vault
    && t.log[2].SimulateAsked?
    && IsApproval(t.log[2].call, t.account, t.log[1].usdc, t.action.vault, t.action.amountUsdc)
    && WrittenAt(t.log, 4)
    && t.log[5].Broadcast? && t.log[5].request == t.log[4].request
    && t.log[6].ReceiptRead? && t.log[6].hash == t.log[5].hash
    && t.minedApproval.Some? && Outcome(t.log[6].wait, t.log[6].hash) == Confirmed(t.minedApproval.value)
    && t.log[7].SimulateAsked? && IsDeposit(t.log[7].call, t.account, t.action.vault, t.action.amountUsdc)
    && WrittenAt(t.log, 9)
    && t.log[10] == Broadcast(t.log[9].request, t.pc.hash)
    && forall p :: 0 <= p < 11 && p != 4 && p != 9 ==> !t.log[p].WriteAsked?
  }

  lemma {:induction false} FinishedScript(t: Task)
    requires t.action.Deposit? && DepositScript(t) && t.pc.Finished?
    ensures CompletedDeposit(t)
  {
    forall p | 0 <= p < 11 && p != 4 && p != 9 ensures !t.log[p].WriteAsked? {
      assert p == 0 || p == 1 || p == 2 || p == 3 || p == 5 || p == 6 || p == 7 || p == 8 || p == 10;
    }
  }

  lemma {:induction false} FaithfulLog(trace: seq<Entry>, id: nat, p: nat)
    requires ClientFaithful(trace) && p < |Of(trace, id)| && Of(trace, id)[p].SimulateOk?
    ensures Of(trace, id)[p].request == Of(trace, id)[p].call
  {
    var i := LogInTrace(trace, id, p);
    assert trace[i].event.SimulateOk?;
  }

  /** A finished deposit reports the approval that was mined, not the one that was broadcast, and the hash of the
      deposit it broadcast; it asked for exactly two writes, the approval and the deposit, in that order. */
  lemma {:induction false} FinishedDeposit(list: SdnList, labels: seq<Label>, id: nat)
    requires id < |Run(list, labels).tasks|
    requires Run(list, labels).tasks[id].action.Deposit? && Run(list, labels).tasks[id].pc.Finished?
    ensures var t := Run(list, labels).tasks[id];
            && CompletedDeposit(t) && Of(Run(list, labels).trace, id) == t.log
            && (ClientFaithful(Run(list, labels).trace) ==>
                  && IsApproval(t.log[4].request, t.account, t.log[1].usdc, t.action.vault, t.action.amountUsdc)
                  && IsDeposit(t.log[9].request, t.account, t.action.vault, t.action.amountUsdc))
  {
    RunOk(list, labels);
    var trace := Run(list, labels).trace;
    FinishedScript(Run(list, labels).tasks[id]);
    if ClientFaithful(trace) {
      FaithfulLog(trace, id, 3);
      FaithfulLog(trace, id, 8);
    }
  }

  lemma {:induction false} ListedNeverSimulatesIn(list: SdnList, w: World, i: nat)
    requires WorldOk(list, w) && i < |w.trace| && w.trace[i].event.SimulateAsked?
    ensures !IsSanctioned(list, Some(w.tasks[w.trace[i].id].account))
  {
    var p := EntryGood(list, w, i);
  }

  /** No listed address ever gets as far as a simulation, whatever else is going on. */
  lemma {:induction false} ListedAddressNeverSimulates(list: SdnList, labels: seq<Label>, i: nat)
    requires i < |Run(list, labels).trace|
    requires var w := Run(list, labels); IsSanctioned(list, Some(w.tasks[w.trace[i].id].account))
    ensures !Run(list, labels).trace[i].event.SimulateAsked? && !Run(list, labels).trace[i].event.WriteAsked?
  {
    RunOk(list, labels);
    var w := Run(list, labels);
    if w.trace[i].event.SimulateAsked? {
      ListedNeverSimulatesIn(list, w, i);
    } else if w.trace[i].event.WriteAsked? {
      var j, k := WriteGateIn(list, w, i);
      ListedNeverSimulatesIn(list, w, j);
    }
  }
}
