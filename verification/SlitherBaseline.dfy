/**
 * The static-analysis gate (slither_baseline_check.py): findings become keys, keys are counted, and the counts are
 * compared with a baseline; `Generate` writes a baseline from a report.
 */
module SlitherBaseline {
  import opened Text

  // ---------------------------------------------------------------- findings and keys

  /** A JSON member: left out, null, or a string. */
  datatype Field = Absent | Null | Str(s: string)

  /** A report element and its chain of parents. */
  datatype Element = Element(ty: Field, name: Field, parent: Option<Element>)

  datatype Finding = Finding(check: string, elements: seq<Element>)

  /** The one key whose count is not stable from run to run. */
  const FUZZY_KEY := "incorrect-equality::VaultCore._mintShares"

  const FUZZY_COUNT_KEYS: set<string> := {FUZZY_KEY}

  /** What Python's `.get` returns: nothing for a missing or null member. */
  function Get(f: Field): Option<string> {
    if f.Str? then Some(f.s) else None
  }

  predicate Truthy(o: Option<string>) { o.Some? && o.value != "" }

  function Chain(e: Element): seq<Element> {
    [e] + if e.parent.None? then [] else Chain(e.parent.value)
  }

  /** The first node of this kind going up from `e`. */
  function NearestOf(kind: string, nodes: seq<Element>): Option<string> {
    if nodes == [] then None
    else if nodes[0].ty == Str(kind) then Get(nodes[0].name)
    else NearestOf(kind, nodes[1..])
  }

  method Nearest(kind: string, elem: Element) returns (name: Option<string>)
    ensures name == NearestOf(kind, Chain(elem))
    ensures name.Some? ==> exists n :: n in Chain(elem) && n.ty == Str(kind) && n.name == Str(name.value)
    ensures (forall n :: n in Chain(elem) ==> n.ty != Str(kind)) ==> name.None?
  {
    NearestIsInChain(kind, Chain(elem));
    var node := Some(elem);
    while node.Some?
      invariant NearestOf(kind, Chain(elem)) == if node.None? then None else NearestOf(kind, Chain(node.value))
      decreases node
    {
      ChainFirst(node.value);
      if node.value.ty == Str(kind) { return Get(node.value.name); }
      node := node.value.parent;
    }
    return None;
  }

  lemma {:induction false} ChainFirst(e: Element)
    ensures Chain(e)[0] == e
    ensures Chain(e)[1..] == if e.parent.None? then [] else Chain(e.parent.value)
  {
  }

  lemma {:induction false} NearestIsInChain(kind: string, nodes: seq<Element>)
    ensures var name := NearestOf(kind, nodes);
            name.Some? ==> exists n :: n in nodes && n.ty == Str(kind) && n.name == Str(name.value)
    ensures (forall n :: n in nodes ==> n.ty != Str(kind)) ==> NearestOf(kind, nodes).None?
  {
    if nodes != [] {
      NearestIsInChain(kind, nodes[1..]);
      assert nodes[0] in nodes;
      assert forall n :: n in nodes[1..] ==> n in nodes;
    }
  }

  /** How an f-string shows `elem.get("name", "(unnamed)")`. */
  function ShownName(f: Field): string {
    match f case Absent => "(unnamed)" case Null => "None" case Str(s) => s
  }

  function DeriveKey(f: Finding): string {
    if f.elements == [] then f.check + "::(no-elements)"
    else
      var elem := f.elements[0];
      var contract := NearestOf("contract", Chain(elem));
      var enclosing := NearestOf("function", Chain(elem));
      if Truthy(contract) && Truthy(enclosing) && elem.ty != Str("contract") then
        f.check + "::" + contract.value + "." + enclosing.value
      else if Truthy(contract) then f.check + "::" + contract.value
      else f.check + "::" + ShownName(elem.name)
  }

  function Keys(findings: seq<Finding>): (ks: seq<string>)
    ensures |ks| == |findings|
  {
    seq(|findings|, i requires 0 <= i < |findings| => DeriveKey(findings[i]))
  }

  /** `Counter(derive_key(f) for f in detectors)`. */
  function CountKeys(findings: seq<Finding>): multiset<string> { multiset(Keys(findings)) }

  // ---------------------------------------------------------------- files

  datatype Report = Report(success: bool, detectors: seq<Finding>)

  datatype Entry = Entry(count: Option<int>, reason: Option<string>)

  datatype BaselineFile = Missing | Malformed | Entries(entries: map<string, Entry>)

  /** How a run ends: the script refuses to judge, an exception escapes, or a status is returned. */
  datatype Exit = Refused | Crashed | Returned(status: int)

  predicate Accepted(r: Report) { r.success && r.detectors != [] }

  function Allowed(b: map<string, Entry>, key: string): int {
    if key in b && b[key].count.Some? then b[key].count.value else 0
  }

  /** The informational list of shrunk keys reads every entry's count, so one without a count raises. */
  predicate EveryEntryCounted(b: map<string, Entry>) {
    forall k :: k in b ==> b[k].count.Some?
  }

  predicate KeyCovered(current: multiset<string>, b: map<string, Entry>, key: string) {
    if key in FUZZY_COUNT_KEYS then Allowed(b, key) > 0 else current[key] <= Allowed(b, key)
  }

  predicate Covered(current: multiset<string>, b: map<string, Entry>) {
    forall key :: key in current ==> KeyCovered(current, b, key)
  }

  /** The verdict as a value. */
  function Verdict(r: Report, file: BaselineFile): Exit {
    if !Accepted(r) || !file.Entries? then Refused
    else if !EveryEntryCounted(file.entries) then Crashed
    else Returned(if Covered(CountKeys(r.detectors), file.entries) then 0 else 1)
  }

  /** Keys are visited in an arbitrary order, which includes the sorted one. */
  method Check(r: Report, file: BaselineFile) returns (exit: Exit)
    ensures exit == Verdict(r, file)
  {
    if !r.success || r.detectors == [] || !file.Entries? { return Refused; }
    var current := CountKeys(r.detectors);
    var baseline := file.entries;
    var newOrGrown: seq<string> := [];
    var todo := set k | k in current;
    while todo != {}
      invariant forall k :: k in todo ==> k in current
      invariant newOrGrown == [] <==> forall k :: k in current && k !in todo ==> KeyCovered(current, baseline, k)
      decreases todo
    {
      var key :| key in todo;
      var n := current[key];
      var allowed := if key in baseline && baseline[key].count.Some? then baseline[key].count.value else 0;
      if key in FUZZY_COUNT_KEYS {
        if allowed <= 0 { newOrGrown := newOrGrown + [key]; }
      } else if n > allowed {
        newOrGrown := newOrGrown + [key];
      }
      todo := todo - {key};
    }
    var shrunk := baseline.Keys;
    while shrunk != {}
      invariant shrunk <= baseline.Keys
      invariant forall k :: k in baseline && k !in shrunk ==> baseline[k].count.Some?
      decreases shrunk
    {
      var key :| key in shrunk;
      if baseline[key].count.None? { return Crashed; }
      shrunk := shrunk - {key};
    }
    if newOrGrown != [] { return Returned(1); }
    return Returned(0);
  }

  const TODO_REASON := "TODO: disposition this finding in docs/reviews/SLITHER-TRIAGE.md, then replace this TODO"

  function ReasonFor(existing: map<string, Entry>, key: string): string {
    if key in existing && existing[key].reason.Some? then existing[key].reason.value else TODO_REASON
  }

  /** One entry per key of the report: its count, and the reason it had before. */
  function Generated(current: multiset<string>, existing: map<string, Entry>): map<string, Entry> {
    map k | k in (set x | x in current) :: Entry(Some(current[k]), Some(ReasonFor(existing, k)))
  }

  method Generate(r: Report, file: BaselineFile) returns (exit: Exit, written: BaselineFile)
    ensures exit == (if Accepted(r) && !file.Malformed? then Returned(0) else Refused)
    ensures written == if exit == Returned(0)
                       then Entries(Generated(CountKeys(r.detectors), if file.Entries? then file.entries else map[]))
                       else file
  {
    written := file;
    if !r.success || r.detectors == [] || file.Malformed? { return Refused, file; }
    var current := CountKeys(r.detectors);
    var existing := if file.Entries? then file.entries else map[];
    var entries: map<string, Entry> := map[];
    var todo := set k | k in current;
    ghost var all := todo;
    while todo != {}
      invariant todo <= all
      invariant entries.Keys == all - todo
      invariant forall k :: k in entries ==> entries[k] == Entry(Some(current[k]), Some(ReasonFor(existing, k)))
      decreases todo
    {
      var key :| key in todo;
      var reason := if key in existing && existing[key].reason.Some? then existing[key].reason.value else TODO_REASON;
      entries := entries[key := Entry(Some(current[key]), Some(reason))];
      todo := todo - {key};
    }
    assert entries == Generated(current, existing);
    return Returned(0), Entries(entries);
  }

  // ---------------------------------------------------------------- the verdict is multiset inclusion

  /** The baseline read as a multiset: each key as often as it is allowed. */
  ghost function AsMultiset(b: map<string, Entry>): (m: multiset<string>)
    ensures forall k :: m[k] == if Allowed(b, k) > 0 then Allowed(b, k) else 0
    decreases |b|
  {
    if b == map[] then multiset{}
    else
      assert b.Keys != {};
      var k :| k in b;
      var rest := b - {k};
      assert forall x :: Allowed(b, x) == if x == k then Allowed(b, k) else Allowed(rest, x);
      AsMultiset(rest)[k := if Allowed(b, k) > 0 then Allowed(b, k) else 0]
  }

  /** The gate refines multiset inclusion: a run returns 0 exactly when the report is accepted, the baseline can be
      read and counts every entry, every key but the fuzzy one occurs at most as often as the baseline allows, and the
      fuzzy key, if it occurs, is allowed at all. An accepted report and a counted baseline always get a verdict. */
  lemma {:induction false} VerdictIsInclusion(r: Report, file: BaselineFile)
    ensures Verdict(r, file) == Returned(0) <==>
            && Accepted(r) && file.Entries? && EveryEntryCounted(file.entries)
            && (var current := CountKeys(r.detectors);
                && current[FUZZY_KEY := 0] <= AsMultiset(file.entries)
                && (FUZZY_KEY in current ==> FUZZY_KEY in AsMultiset(file.entries)))
    ensures Verdict(r, file) in {Returned(0), Returned(1)}
            <==> Accepted(r) && file.Entries? && EveryEntryCounted(file.entries)
  {
    if file.Entries? { CoveredIsInclusion(CountKeys(r.detectors), file.entries); }
  }

  lemma {:induction false} CoveredIsInclusion(current: multiset<string>, b: map<string, Entry>)
    ensures Covered(current, b) <==>
            current[FUZZY_KEY := 0] <= AsMultiset(b) && (FUZZY_KEY in current ==> FUZZY_KEY in AsMultiset(b))
  {
    var allowed := AsMultiset(b);
    if Covered(current, b) {
      forall k ensures current[FUZZY_KEY := 0][k] <= allowed[k] {
        if k in current { assert KeyCovered(current, b, k); }
      }
      if FUZZY_KEY in current { assert KeyCovered(current, b, FUZZY_KEY); }
    } else {
      var k :| k in current && !KeyCovered(current, b, k);
      if k != FUZZY_KEY { assert current[FUZZY_KEY := 0][k] > allowed[k]; }
    }
  }

  /** Exactly when the script refuses to judge: an unsuccessful report, one without findings, or no usable baseline. */
  lemma {:induction false} RefusesIff(r: Report, file: BaselineFile)
    ensures Verdict(r, file) == Refused <==> !r.success || r.detectors == [] || file == Missing || file == Malformed
  {
  }

  /** Exactly when a run ends in an exception: some entry of the baseline has no count, whatever the report holds. */
  lemma {:induction false} CrashesIff(r: Report, file: BaselineFile)
    ensures Verdict(r, file) == Crashed
            <==> Accepted(r) && file.Entries? && exists k :: k in file.entries && file.entries[k].count.None?
  {
  }

  /** For instance, a baseline with one entry that has a reason but no count: no accepted report gets a verdict. */
  lemma {:induction false} UncountedEntryCrashes(r: Report) returns (file: BaselineFile)
    requires Accepted(r)
    ensures file == Entries(map["timestamp::VaultCore.deposit" := Entry(None, Some("accepted"))])
    ensures Verdict(r, file) == Crashed
  {
    file := Entries(map["timestamp::VaultCore.deposit" := Entry(None, Some("accepted"))]);
    assert "timestamp::VaultCore.deposit" in file.entries;
    CrashesIff(r, file);
  }

  // ---------------------------------------------------------------- which reports pass together

  lemma {:induction false} KeysFirst(a: seq<Finding>)
    requires a != []
    ensures Keys(a) == [DeriveKey(a[0])] + Keys(a[1..])
    ensures CountKeys(a) == multiset{DeriveKey(a[0])} + CountKeys(a[1..])
  {
    assert Keys(a) == [DeriveKey(a[0])] + Keys(a[1..]);
  }

  lemma {:induction false} CountWithout(b: seq<Finding>, i: nat)
    requires i < |b|
    ensures CountKeys(b) == multiset{DeriveKey(b[i])} + CountKeys(b[..i] + b[i + 1..])
  {
    assert Keys(b) == Keys(b[..i]) + [DeriveKey(b[i])] + Keys(b[i + 1..]);
    assert Keys(b[..i] + b[i + 1..]) == Keys(b[..i]) + Keys(b[i + 1..]);
  }

  /** The first finding of `a`, taken out of `b`. */
  lemma {:induction false} TakeOut(a: seq<Finding>, b: seq<Finding>) returns (rest: seq<Finding>)
    requires a != [] && multiset(a) <= multiset(b)
    ensures multiset(a[1..]) <= multiset(rest)
    ensures CountKeys(b) == multiset{DeriveKey(a[0])} + CountKeys(rest)
  {
    assert a == [a[0]] + a[1..];
    assert a[0] in multiset(a) && a[0] in multiset(b);
    var i :| 0 <= i < |b| && b[i] == a[0];
    rest := b[..i] + b[i + 1..];
    CountWithout(b, i);
    assert multiset(rest) == multiset(b) - multiset{a[0]} by {
      assert b == b[..i] + [b[i]] + b[i + 1..];
    }
  }

  /** Fewer findings, or the same ones in another order, give no more of any key. */
  lemma {:induction false} FewerFindingsFewerKeys(a: seq<Finding>, b: seq<Finding>)
    requires multiset(a) <= multiset(b)
    ensures CountKeys(a) <= CountKeys(b)
    decreases |a|
  {
    if a == [] {
      assert Keys(a) == [];
    } else {
      var rest := TakeOut(a, b);
      FewerFindingsFewerKeys(a[1..], rest);
      KeysFirst(a);
    }
  }

  /** The verdict does not depend on the order of the findings. */
  lemma {:induction false} VerdictIgnoresOrder(r1: Report, r2: Report, file: BaselineFile)
    requires r1.success == r2.success && multiset(r1.detectors) == multiset(r2.detectors)
    ensures Verdict(r1, file) == Verdict(r2, file)
  {
    FewerFindingsFewerKeys(r1.detectors, r2.detectors);
    FewerFindingsFewerKeys(r2.detectors, r1.detectors);
    assert CountKeys(r1.detectors) == CountKeys(r2.detectors);
    assert |r1.detectors| == |multiset(r1.detectors)| == |r2.detectors|;
  }

  /** A pass is kept by every accepted sub-report. */
  lemma {:induction false} SubReportPasses(r: Report, sub: Report, file: BaselineFile)
    requires Verdict(r, file) == Returned(0) && Accepted(sub) && multiset(sub.detectors) <= multiset(r.detectors)
    ensures Verdict(sub, file) == Returned(0)
  {
    FewerFindingsFewerKeys(sub.detectors, r.detectors);
    var less, more := CountKeys(sub.detectors), CountKeys(r.detectors);
    forall k | k in less ensures KeyCovered(less, file.entries, k) {
      assert less[k] <= more[k];
      assert KeyCovered(more, file.entries, k);
    }
  }

  /** A pass is kept by raising counts in the baseline. */
  lemma {:induction false} RaisedBaselinePasses(r: Report, b: map<string, Entry>, raised: map<string, Entry>)
    requires Verdict(r, Entries(b)) == Returned(0) && EveryEntryCounted(raised)
    requires forall k :: Allowed(b, k) <= Allowed(raised, k)
    ensures Verdict(r, Entries(raised)) == Returned(0)
  {
    var current := CountKeys(r.detectors);
    forall k | k in current ensures KeyCovered(current, raised, k) {
      assert KeyCovered(current, b, k) && Allowed(b, k) <= Allowed(raised, k);
    }
  }

  /** The verdict is constant over all positive counts of the fuzzy key. */
  lemma {:induction false} FuzzyCountDoesNotMatter(r1: Report, r2: Report, file: BaselineFile)
    requires Accepted(r1) && Accepted(r2)
    requires CountKeys(r1.detectors)[FUZZY_KEY := 1] == CountKeys(r2.detectors)[FUZZY_KEY := 1]
    requires FUZZY_KEY in CountKeys(r1.detectors) && FUZZY_KEY in CountKeys(r2.detectors)
    ensures Verdict(r1, file) == Verdict(r2, file)
  {
    if file.Entries? {
      var c1, c2 := CountKeys(r1.detectors), CountKeys(r2.detectors);
      forall k ensures k != FUZZY_KEY ==> c1[k] == c2[k] {
        assert c1[FUZZY_KEY := 1][k] == c2[FUZZY_KEY := 1][k];
      }
      CoveredAlike(c1, c2, file.entries);
      CoveredAlike(c2, c1, file.entries);
    }
  }

  lemma {:induction false} CoveredAlike(c1: multiset<string>, c2: multiset<string>, b: map<string, Entry>)
    requires forall k :: k != FUZZY_KEY ==> c1[k] == c2[k]
    requires FUZZY_KEY in c1 && FUZZY_KEY in c2
    ensures Covered(c1, b) ==> Covered(c2, b)
  {
    if Covered(c1, b) {
      forall k | k in c2 ensures KeyCovered(c2, b, k) {
        assert k in c1 && KeyCovered(c1, b, k);
      }
    }
  }

  // ---------------------------------------------------------------- generate and check

  /** No key but the fuzzy one grew, and the fuzzy one is not new. */
  ghost predicate NoGrowth(later: multiset<string>, earlier: multiset<string>) {
    && (forall k :: k != FUZZY_KEY ==> later[k] <= earlier[k])
    && (FUZZY_KEY in later ==> FUZZY_KEY in earlier)
  }

  /** Checking one report against the baseline generated from another passes exactly when nothing grew, whatever the
      reasons were. */
  lemma {:induction false} GeneratedBaselineJudgesGrowth(r: Report, earlier: Report, existing: map<string, Entry>)
    requires Accepted(r)
    ensures Verdict(r, Entries(Generated(CountKeys(earlier.detectors), existing))) == Returned(0)
            <==> NoGrowth(CountKeys(r.detectors), CountKeys(earlier.detectors))
  {
    var now, before := CountKeys(r.detectors), CountKeys(earlier.detectors);
    var b := Generated(before, existing);
    assert forall k :: Allowed(b, k) == before[k];
    if Covered(now, b) {
      forall k | k != FUZZY_KEY ensures now[k] <= before[k] {
        if k in now { assert KeyCovered(now, b, k); }
      }
      if FUZZY_KEY in now { assert KeyCovered(now, b, FUZZY_KEY); }
    }
    if NoGrowth(now, before) {
      forall k | k in now ensures KeyCovered(now, b, k) {}
    }
  }

  /** The gate orders reports: a report passes its own baseline, and passing twice in a row is passing. */
  lemma {:induction false} GateIsPreorder(a: Report, b: Report, c: Report, existing: map<string, Entry>)
    requires Accepted(a) && Accepted(b) && Accepted(c)
    ensures Verdict(a, Entries(Generated(CountKeys(a.detectors), existing))) == Returned(0)
    ensures Verdict(c, Entries(Generated(CountKeys(b.detectors), existing))) == Returned(0)
            && Verdict(b, Entries(Generated(CountKeys(a.detectors), existing))) == Returned(0)
            ==> Verdict(c, Entries(Generated(CountKeys(a.detectors), existing))) == Returned(0)
  {
    GeneratedBaselineJudgesGrowth(a, a, existing);
    GeneratedBaselineJudgesGrowth(c, b, existing);
    GeneratedBaselineJudgesGrowth(b, a, existing);
    GeneratedBaselineJudgesGrowth(c, a, existing);
    var ka, kb, kc := CountKeys(a.detectors), CountKeys(b.detectors), CountKeys(c.detectors);
    if NoGrowth(kc, kb) && NoGrowth(kb, ka) {
      forall k | k != FUZZY_KEY ensures kc[k] <= ka[k] {
        assert kc[k] <= kb[k] && kb[k] <= ka[k];
      }
    }
  }

  /** Generating keeps exactly the report's keys, keeps each surviving key's reason, marks new keys, and generating
      again changes nothing. */
  lemma {:induction false} GenerateKeepsReasons(current: multiset<string>, existing: map<string, Entry>)
    ensures var b := Generated(current, existing);
            && (forall k :: k in b <==> k in current)
            && (forall k :: k in b ==> b[k].count == Some(current[k]) && b[k].reason.Some?)
            && (forall k :: k in b && k in existing && existing[k].reason.Some? ==> b[k].reason == existing[k].reason)
            && (forall k :: k in b && !(k in existing && existing[k].reason.Some?) ==> b[k].reason == Some(TODO_REASON))
            && Generated(current, b) == b
  {
    var b := Generated(current, existing);
    assert Generated(current, b).Keys == b.Keys;
  }

  /** Round trip through the two commands: what `Generate` writes for an accepted report, `Check` passes. */
  method GenerateThenCheck(r: Report, file: BaselineFile) returns (exit: Exit)
    requires Accepted(r) && !file.Malformed?
    ensures exit == Returned(0)
  {
    var generated, written := Generate(r, file);
    exit := Check(r, written);
    GateIsPreorder(r, r, r, if file.Entries? then file.entries else map[]);
  }
}
