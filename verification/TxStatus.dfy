/**
 * What a broadcast hash does and does not prove (tx-status.ts). `ConfirmTx` reads one receipt wait; the lemmas
 * relate its verdict to a chain on which at most one transaction per sender and nonce is ever mined.
 */
module TxStatus {
  import opened Text

  // ---------------------------------------------------------------- what the client reports

  /** A transaction as the client describes it: everything but the hash may be missing. */
  datatype TxLike = TxLike(hash: string, from: Option<string>, to: Option<string>, value: Option<int>,
                           input: Option<string>)

  datatype Replacement = Replacement(reason: string, replacedTransaction: TxLike, transaction: TxLike)

  datatype Receipt = Receipt(status: string, transactionHash: string)

  datatype WaitEnd = Threw(detail: string) | Resolved(receipt: Receipt)

  /** One receipt wait: the `onReplaced` calls the client made, in order, and how the promise ended. */
  datatype ReceiptWait = ReceiptWait(reports: seq<Replacement>, end: WaitEnd)

  datatype TxOutcome =
    | Confirmed(hash: string)
    | Reverted(hash: string)
    | Replaced(reason: string)
    | Unconfirmed(detail: string)
  {
    /** The outcome claims that the member's own call was mined. */
    predicate Credited() { Confirmed? || Reverted? }
  }

  predicate Same(a: Option<string>, b: Option<string>) {
    a.Some? && b.Some? && Lower(a.value) == Lower(b.value)
  }

  predicate IsSameCall(r: Replacement) {
    && r.reason == "repriced"
    && Same(r.replacedTransaction.from, r.transaction.from)
    && Same(r.replacedTransaction.to, r.transaction.to)
    && r.replacedTransaction.value == r.transaction.value
    && Same(r.replacedTransaction.input, r.transaction.input)
  }

  function LastReport(reports: seq<Replacement>): Option<Replacement> {
    if reports == [] then None else Some(reports[|reports| - 1])
  }

  predicate Credits(replacement: Option<Replacement>, receipt: Receipt) {
    && replacement.Some?
    && IsSameCall(replacement.value)
    && Lower(replacement.value.transaction.hash) == Lower(receipt.transactionHash)
  }

  /** The verdict on a wait, as a value; `ConfirmTx` computes it step by step. */
  function Outcome(w: ReceiptWait, hash: string): TxOutcome {
    match w.end
    case Threw(detail) => Unconfirmed(detail)
    case Resolved(receipt) =>
      var own := Lower(receipt.transactionHash) == Lower(hash);
      var last := LastReport(w.reports);
      if !own && !Credits(last, receipt) then
        Replaced(if last.Some? then last.value.reason else "unknown")
      else
        var mined := if own then hash else receipt.transactionHash;
        if receipt.status == "success" then Confirmed(mined)
        else if receipt.status == "reverted" then Reverted(mined)
        else Unconfirmed("unexpected receipt status")
  }

  method ConfirmTx(w: ReceiptWait, hash: string) returns (outcome: TxOutcome)
    ensures outcome == Outcome(w, hash)
  {
    var replacement: Option<Replacement> := None;
    // The client calls the handler any number of times; each call overwrites `replacement`.
    for i := 0 to |w.reports|
      invariant replacement == LastReport(w.reports[..i])
    {
      replacement := Some(w.reports[i]);
    }
    assert w.reports[..|w.reports|] == w.reports;
    if w.end.Threw? {
      return Unconfirmed(w.end.detail);
    }
    var receipt := w.end.receipt;
    var mined := hash;
    if Lower(receipt.transactionHash) != Lower(hash) {
      if replacement.None? {
        return Replaced("unknown");
      }
      if !IsSameCall(replacement.value)
         || Lower(replacement.value.transaction.hash) != Lower(receipt.transactionHash) {
        return Replaced(replacement.value.reason);
      }
      mined := receipt.transactionHash;
    }
    if receipt.status == "success" { return Confirmed(mined); }
    if receipt.status == "reverted" { return Reverted(mined); }
    return Unconfirmed("unexpected receipt status");
  }

  /** The wait was replaced: it resolved to a foreign receipt that the last report does not account for. */
  predicate Unaccounted(w: ReceiptWait, hash: string) {
    && w.end.Resolved? && !SameLetters(w.end.receipt.transactionHash, hash)
    && (w.reports == []
        || w.reports[|w.reports| - 1].reason != "repriced"
        || w.reports[|w.reports| - 1].replacedTransaction.value != w.reports[|w.reports| - 1].transaction.value
        || !SameLetters(w.reports[|w.reports| - 1].transaction.hash, w.end.receipt.transactionHash)
        || !SameCaller(w.reports[|w.reports| - 1].replacedTransaction, w.reports[|w.reports| - 1].transaction))
  }

  /** The two descriptions give the same sender, recipient and input, none of them missing. */
  predicate SameCaller(a: TxLike, b: TxLike) {
    && a.from.Some? && b.from.Some? && SameLetters(a.from.value, b.from.value)
    && a.to.Some? && b.to.Some? && SameLetters(a.to.value, b.to.value)
    && a.input.Some? && b.input.Some? && SameLetters(a.input.value, b.input.value)
  }

  /** Each outcome in terms of the wait alone: a wait that threw is unconfirmed, with its error; only an unaccounted
      receipt is replaced, for the reason last reported; and the rest goes by the receipt's status. */
  lemma {:induction false} EachOutcomeExactly(w: ReceiptWait, hash: string)
    ensures var o := Outcome(w, hash);
            && (forall d :: w.end == Threw(d) ==> o == Unconfirmed(d))
            && (o.Replaced? <==> Unaccounted(w, hash))
            && (o.Replaced? && w.reports == [] ==> o.reason == "unknown")
            && (o.Replaced? && w.reports != [] ==> o.reason == w.reports[|w.reports| - 1].reason)
            && (w.end.Resolved? && !Unaccounted(w, hash) ==>
                  && (o.Confirmed? <==> w.end.receipt.status == "success")
                  && (o.Reverted? <==> w.end.receipt.status == "reverted")
                  && (o.Unconfirmed? ==> o.detail == "unexpected receipt status")
                  && (o.Credited() ==> SameLetters(o.hash, w.end.receipt.transactionHash)))
  {
    if w.end.Resolved? {
      LowerEqualIff(w.end.receipt.transactionHash, hash);
      assert SameLetters(hash, w.end.receipt.transactionHash) <==> SameLetters(w.end.receipt.transactionHash, hash);
      if w.reports != [] {
        var r := w.reports[|w.reports| - 1];
        LowerEqualIff(r.transaction.hash, w.end.receipt.transactionHash);
        SameCallExactly(r);
      }
    }
  }

  lemma {:induction false} SameExactly(a: Option<string>, b: Option<string>)
    ensures Same(a, b) <==> a.Some? && b.Some? && SameLetters(a.value, b.value)
  {
    if a.Some? && b.Some? { LowerEqualIff(a.value, b.value); }
  }

  lemma {:induction false} SameCallExactly(r: Replacement)
    ensures IsSameCall(r) <==> && r.reason == "repriced" && r.replacedTransaction.value == r.transaction.value
                               && SameCaller(r.replacedTransaction, r.transaction)
  {
    SameExactly(r.replacedTransaction.from, r.transaction.from);
    SameExactly(r.replacedTransaction.to, r.transaction.to);
    SameExactly(r.replacedTransaction.input, r.transaction.input);
  }

  datatype StepError = StepReverted(hash: string) | StepReplaced | StepUnconfirmed(detail: string)

  function Required(outcome: TxOutcome): Result<string, StepError> {
    match outcome
    case Confirmed(h) => Ok(h)
    case Reverted(h) => Err(StepReverted(h))
    case Replaced(_) => Err(StepReplaced)
    case Unconfirmed(d) => Err(StepUnconfirmed(d))
  }

  /** A step a later write depends on: anything but a confirmed outcome is an error. */
  method RequireConfirmed(w: ReceiptWait, hash: string) returns (r: Result<string, StepError>)
    ensures r == Required(Outcome(w, hash))
    ensures r.Ok? <==> Outcome(w, hash).Confirmed?
    ensures r.Ok? ==> r.value == Outcome(w, hash).hash
  {
    var outcome := ConfirmTx(w, hash);
    if outcome.Confirmed? { return Ok(outcome.hash); }
    if outcome.Reverted? { return Err(StepReverted(outcome.hash)); }
    if outcome.Replaced? { return Err(StepReplaced); }
    return Err(StepUnconfirmed(outcome.detail));
  }

  // ---------------------------------------------------------------- the chain

  datatype MinedStatus = Success | Failure

  /** A signed transaction; hex fields are in lower case. `to` is missing for a contract creation. */
  datatype ChainTx = ChainTx(sender: string, nonce: nat, to: Option<string>, value: int, input: string)

  /** Every transaction ever signed, by lower-case hash, and the ones that were mined. */
  datatype Chain = Chain(txs: map<string, ChainTx>, mined: map<string, MinedStatus>)

  ghost predicate ValidChain(c: Chain) {
    && c.mined.Keys <= c.txs.Keys
    && forall g, h :: g in c.mined && h in c.mined && SameSlot(c.txs[g], c.txs[h]) ==> g == h
  }

  predicate SameSlot(a: ChainTx, b: ChainTx) { a.sender == b.sender && a.nonce == b.nonce }

  predicate SameCall(a: ChainTx, b: ChainTx) {
    a.sender == b.sender && a.to == b.to && a.value == b.value && a.input == b.input
  }

  /** `t` says nothing false about `tx`. A missing field says nothing. */
  predicate Describes(t: TxLike, tx: ChainTx) {
    && (t.from.Some? ==> Lower(t.from.value) == tx.sender)
    && (t.to.Some? ==> tx.to == Some(Lower(t.to.value)))
    && (t.value.Some? ==> t.value.value == tx.value)
    && (t.input.Some? ==> Lower(t.input.value) == tx.input)
  }

  predicate Complete(t: TxLike, tx: ChainTx) {
    t.from.Some? && t.value.Some? && t.input.Some? && (tx.to.Some? ==> t.to.Some?)
  }

  predicate TruthfulReport(r: Replacement, c: Chain, hash: string) {
    && Lower(hash) in c.txs && Describes(r.replacedTransaction, c.txs[Lower(hash)])
    && Lower(r.transaction.hash) in c.txs && Describes(r.transaction, c.txs[Lower(r.transaction.hash)])
  }

  predicate TruthfulReceipt(receipt: Receipt, c: Chain, hash: string) {
    && Lower(hash) in c.txs
    && Lower(receipt.transactionHash) in c.mined && Lower(receipt.transactionHash) in c.txs
    && SameSlot(c.txs[Lower(hash)], c.txs[Lower(receipt.transactionHash)])
    && receipt.status == (if c.mined[Lower(receipt.transactionHash)].Success? then "success" else "reverted")
  }

  /** The client follows the nonce, reports the mined receipt and describes the transactions of its last report
      truthfully. Its `reason` and its earlier reports are not trusted. */
  predicate Truthful(w: ReceiptWait, c: Chain, hash: string) {
    && Lower(hash) in c.txs
    && (w.reports != [] ==> TruthfulReport(w.reports[|w.reports| - 1], c, hash))
    && (w.end.Resolved? ==> TruthfulReceipt(w.end.receipt, c, hash))
  }

  /** The receipt is the waited transaction's own, or the last report carries the value of the one it replaces. */
  predicate ValueShown(w: ReceiptWait, hash: string) {
    || (w.end.Resolved? && Lower(w.end.receipt.transactionHash) == Lower(hash))
    || (w.reports != [] && w.reports[|w.reports| - 1].replacedTransaction.value.Some?)
  }

  /** `m` was mined with `status`, it is the very call `hash` was, and nothing else holds its nonce. */
  ghost predicate MinedAsSent(c: Chain, hash: string, m: string, status: MinedStatus) {
    && Lower(hash) in c.txs && Lower(m) in c.txs && Lower(m) in c.mined
    && c.mined[Lower(m)] == status
    && SameCall(c.txs[Lower(hash)], c.txs[Lower(m)])
    && forall g :: g in c.mined && g in c.txs && SameSlot(c.txs[g], c.txs[Lower(hash)]) ==> g == Lower(m)
  }

  /** Soundness: a credited hash was mined with that status, carries the call that was sent, and is the only
      transaction mined in that slot. */
  lemma {:induction false} ConfirmSound(w: ReceiptWait, c: Chain, hash: string)
    requires ValidChain(c) && Truthful(w, c, hash) && ValueShown(w, hash)
    ensures Outcome(w, hash).Confirmed? ==> MinedAsSent(c, hash, Outcome(w, hash).hash, Success)
    ensures Outcome(w, hash).Reverted? ==> MinedAsSent(c, hash, Outcome(w, hash).hash, Failure)
  {
  }

  /** What a credited verdict claims of a chain. */
  ghost predicate VerdictHolds(w: ReceiptWait, c: Chain, hash: string)
    requires Outcome(w, hash).Credited()
  {
    MinedAsSent(c, hash, Outcome(w, hash).hash, if Outcome(w, hash).Confirmed? then Success else Failure)
  }

  /** Exactly when soundness holds: a wait that credits is right about every chain the client may be describing if and
      only if it shows a value. The chain given here says only that there is one. */
  lemma {:induction false} ConfirmSoundIff(w: ReceiptWait, c: Chain, hash: string)
    requires ValidChain(c) && Truthful(w, c, hash) && Outcome(w, hash).Credited()
    ensures (forall d: Chain :: ValidChain(d) && Truthful(w, d, hash) ==> VerdictHolds(w, d, hash))
            <==> ValueShown(w, hash)
  {
    if ValueShown(w, hash) {
      forall d: Chain | ValidChain(d) && Truthful(w, d, hash) ensures VerdictHolds(w, d, hash) {
        ConfirmSound(w, d, hash);
      }
    } else {
      var m := Lower(w.end.receipt.transactionHash);
      var d := Altered(c, m);
      assert ValidChain(d) && Truthful(w, d, hash);
      assert d.txs[m].value != c.txs[m].value;
      if VerdictHolds(w, c, hash) {
        assert !VerdictHolds(w, d, hash);
      }
    }
  }

  /** The same chain, but the transaction `h` moved another value. */
  ghost function Altered(c: Chain, h: string): Chain
    requires h in c.txs
  {
    c.(txs := c.txs[h := c.txs[h].(value := c.txs[h].value + 1)])
  }

  /** The four field comparisons prove "same call" by themselves, without trusting `reason`, exactly when the
      report carries a value: two missing values compare equal. */
  lemma {:induction false} FieldsProveSameCallIff(r: Replacement)
    requires IsSameCall(r)
    ensures (forall o: ChainTx, n: ChainTx ::
               Describes(r.replacedTransaction, o) && Describes(r.transaction, n) ==> SameCall(o, n))
            <==> r.replacedTransaction.value.Some?
  {
    if r.replacedTransaction.value.None? {
      var o := ChainTx(Lower(r.replacedTransaction.from.value), 0, Some(Lower(r.replacedTransaction.to.value)), 0,
                       Lower(r.replacedTransaction.input.value));
      var n := o.(value := 1);
      assert Describes(r.replacedTransaction, o) && Describes(r.transaction, n) && !SameCall(o, n);
    }
  }

  /** A truthful client that omits values can have an altered transaction credited: the member sent value 0,
      the wallet mined value 1, and the verdict is Confirmed. */
  lemma {:induction false} MissingValueCreditsAlteredCall() returns (w: ReceiptWait, c: Chain, hash: string)
    ensures ValidChain(c) && Truthful(w, c, hash)
    ensures Outcome(w, hash).Confirmed?
    ensures !SameCall(c.txs[Lower(hash)], c.txs[Lower(Outcome(w, hash).hash)])
  {
    hash := "0x1";
    var sent := ChainTx("0xa", 0, Some("0xb"), 0, "0x");
    c := Chain(map["0x1" := sent, "0x2" := sent.(value := 1)], map["0x2" := Success]);
    var o := TxLike("0x1", Some("0xa"), Some("0xb"), None, Some("0x"));
    w := ReceiptWait([Replacement("repriced", o, o.(hash := "0x2"))], Resolved(Receipt("success", "0x2")));
    assert Lower("0x1") == "0x1" && Lower("0x2") == "0x2" && Lower("0xa") == "0xa" && Lower("0xb") == "0xb"
           && Lower("0x") == "0x";
    assert "0x1" != "0x2" by { assert "0x1"[2] != "0x2"[2]; }
    assert LastReport(w.reports) == Some(w.reports[0]);
  }

  /** The last report describes both transactions completely. */
  predicate CompleteReport(w: ReceiptWait, c: Chain, hash: string)
    requires Truthful(w, c, hash)
  {
    w.reports != [] ==>
      var r := w.reports[|w.reports| - 1];
      && Complete(r.replacedTransaction, c.txs[Lower(hash)])
      && Complete(r.transaction, c.txs[Lower(r.transaction.hash)])
  }

  /** The mined transaction is the one waited on, or the last report names it as a repricing of the same call. */
  predicate OwnOrRepriced(w: ReceiptWait, c: Chain, hash: string)
    requires Truthful(w, c, hash) && w.end.Resolved?
  {
    var m := Lower(w.end.receipt.transactionHash);
    || m == Lower(hash)
    || (&& w.reports != []
        && w.reports[|w.reports| - 1].reason == "repriced"
        && Lower(w.reports[|w.reports| - 1].transaction.hash) == m
        && c.txs[m].to.Some?
        && SameCall(c.txs[Lower(hash)], c.txs[m]))
  }

  /** Soundness and completeness together: with a complete last report, a settled wait is credited if and only if the
      mined transaction is the member's own or a true repricing of it. A cancelled or altered replacement is never
      credited and a true repricing is never rejected; a repriced contract creation, which has no `to`, is. */
  lemma {:induction false} CreditedIff(w: ReceiptWait, c: Chain, hash: string)
    requires ValidChain(c) && Truthful(w, c, hash) && CompleteReport(w, c, hash)
    ensures Outcome(w, hash).Credited() <==> w.end.Resolved? && OwnOrRepriced(w, c, hash)
    ensures w.end.Resolved? && OwnOrRepriced(w, c, hash) ==>
              (Outcome(w, hash).Confirmed? <==> c.mined[Lower(w.end.receipt.transactionHash)] == Success)
    ensures w.end.Resolved? && !OwnOrRepriced(w, c, hash) ==> Outcome(w, hash).Replaced?
  {
    if w.end.Resolved? && w.reports != [] {
      var r := w.reports[|w.reports| - 1];
      assert TruthfulReport(r, c, hash);
      var m := Lower(w.end.receipt.transactionHash);
      if r.reason == "repriced" && Lower(r.transaction.hash) == m {
        assert IsSameCall(r) <==> c.txs[m].to.Some? && SameCall(c.txs[Lower(hash)], c.txs[m]);
      }
    }
  }

  /** The chain only grows. */
  predicate Extends(later: Chain, earlier: Chain) {
    && (forall h :: h in earlier.txs ==> h in later.txs && later.txs[h] == earlier.txs[h])
    && (forall h :: h in earlier.mined ==> h in later.mined && later.mined[h] == earlier.mined[h])
  }

  /** A credited verdict is final: any later truthful wait on the same hash that also credits agrees with it. */
  lemma {:induction false} CreditedVerdictsAgree(w1: ReceiptWait, c1: Chain, w2: ReceiptWait, c2: Chain, hash: string)
    requires ValidChain(c1) && ValidChain(c2) && Extends(c2, c1)
    requires Truthful(w1, c1, hash) && ValueShown(w1, hash) && Truthful(w2, c2, hash) && ValueShown(w2, hash)
    requires Outcome(w1, hash).Credited() && Outcome(w2, hash).Credited()
    ensures Outcome(w1, hash).Confirmed? <==> Outcome(w2, hash).Confirmed?
    ensures Lower(Outcome(w1, hash).hash) == Lower(Outcome(w2, hash).hash)
  {
    ConfirmSound(w1, c1, hash);
    ConfirmSound(w2, c2, hash);
    var m1 := Lower(Outcome(w1, hash).hash);
    assert SameSlot(c1.txs[m1], c1.txs[Lower(hash)]) by {
      assert TruthfulReceipt(w1.end.receipt, c1, hash);
    }
    assert m1 in c2.mined && SameSlot(c2.txs[m1], c2.txs[Lower(hash)]);
  }
}
