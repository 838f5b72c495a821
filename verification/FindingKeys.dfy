/**
 * What the keys of the static-analysis gate say (slither_baseline_check.py): a key names the place of a finding, places
 * do not share keys, and so the gate sees a finding in a new place.
 */
module FindingKeys {
  import opened Text
  import opened SlitherBaseline

  // ---------------------------------------------------------------- places

  /** `path` goes up from `e` through every parent. */
  predicate Path(path: seq<Element>, e: Element) {
    && path != [] && path[0] == e && path[|path| - 1].parent.None?
    && forall i :: 0 <= i < |path| - 1 ==> path[i].parent == Some(path[i + 1])
  }

  /** Going up, the first node of this kind has this name. */
  predicate Under(path: seq<Element>, kind: string, name: string) {
    exists i :: 0 <= i < |path| && FirstAt(path, kind, i) && path[i].name == Str(name)
  }

  predicate FirstAt(path: seq<Element>, kind: string, i: nat)
    requires i < |path|
  {
    path[i].ty == Str(kind) && forall j :: 0 <= j < i ==> path[j].ty != Str(kind)
  }

  lemma {:induction false} PathIsChain(path: seq<Element>, e: Element)
    requires Path(path, e)
    ensures path == Chain(e)
    decreases |path|
  {
    ChainFirst(e);
    if |path| > 1 {
      assert path[0].parent == Some(path[0 + 1]);
      var up := path[1..];
      forall i | 0 <= i < |up| - 1 ensures up[i].parent == Some(up[i + 1]) {
        assert path[i + 1].parent == Some(path[i + 1 + 1]);
      }
      PathIsChain(up, path[1]);
    }
    assert Chain(e) == [e] + Chain(e)[1..];
  }

  lemma {:induction false} NearestUnder(kind: string, path: seq<Element>, name: string)
    ensures NearestOf(kind, path) == Some(name) <==> Under(path, kind, name)
  {
    if path != [] {
      var up := path[1..];
      if path[0].ty == Str(kind) {
        assert FirstAt(path, kind, 0);
      } else {
        NearestUnder(kind, up, name);
        if Under(up, kind, name) {
          var i :| 0 <= i < |up| && FirstAt(up, kind, i) && up[i].name == Str(name);
          assert FirstAt(path, kind, i + 1) by {
            forall j | 0 <= j < i + 1 ensures path[j].ty != Str(kind) { if j > 0 { assert path[j] == up[j - 1]; } }
          }
        }
        if Under(path, kind, name) {
          var i :| 0 <= i < |path| && FirstAt(path, kind, i) && path[i].name == Str(name);
          assert FirstAt(up, kind, i - 1) by {
            forall j | 0 <= j < i - 1 ensures up[j].ty != Str(kind) { assert up[j] == path[j + 1]; }
          }
        }
      }
    }
  }

  /** No contract, or no function, with a name is found going up. */
  ghost predicate Unnamed(path: seq<Element>, kind: string) { forall name :: Under(path, kind, name) ==> name == "" }

  /** Where a finding is: in a function of a contract, in a contract, or elsewhere under some label. */
  datatype Place = InFunction(contract: string, name: string) | InContract(contract: string) | Elsewhere(shown: string)

  ghost predicate IsAt(f: Finding, place: Place) {
    if f.elements == [] then place == Elsewhere("(no-elements)")
    else exists path :: Path(path, f.elements[0]) && ElementAt(f.elements[0], path, place)
  }

  ghost predicate ElementAt(e: Element, path: seq<Element>, place: Place) {
    match place
    case InFunction(contract, name) =>
      && contract != "" && Under(path, "contract", contract)
      && name != "" && Under(path, "function", name) && e.ty != Str("contract")
    case InContract(contract) =>
      && contract != "" && Under(path, "contract", contract)
      && (Unnamed(path, "function") || e.ty == Str("contract"))
    case Elsewhere(shown) =>
      && Unnamed(path, "contract")
      && shown == (if e.name.Str? then e.name.s else if e.name.Null? then "None" else "(unnamed)")
  }

  function Label(place: Place): string {
    match place
    case InFunction(contract, name) => contract + "." + name
    case InContract(contract) => contract
    case Elsewhere(shown) => shown
  }

  /** The place that the walks up the parents find. */
  function Found(e: Element, path: seq<Element>): Place {
    var contract, enclosing := NearestOf("contract", path), NearestOf("function", path);
    if Truthy(contract) && Truthy(enclosing) && e.ty != Str("contract")
    then InFunction(contract.value, enclosing.value)
    else if Truthy(contract) then InContract(contract.value)
    else Elsewhere(ShownName(e.name))
  }

  lemma {:induction false} NamedUnder(kind: string, path: seq<Element>)
    ensures Unnamed(path, kind) <==> !Truthy(NearestOf(kind, path))
    ensures forall name :: Under(path, kind, name) <==> NearestOf(kind, path) == Some(name)
  {
    forall name ensures Under(path, kind, name) <==> NearestOf(kind, path) == Some(name) {
      NearestUnder(kind, path, name);
    }
    if Unnamed(path, kind) && NearestOf(kind, path).Some? {
      assert Under(path, kind, NearestOf(kind, path).value);
    }
  }

  /** It is the only place the element is at. */
  lemma {:induction false} FoundIsAt(e: Element, path: seq<Element>, place: Place)
    ensures ElementAt(e, path, place) <==> place == Found(e, path)
  {
    NamedUnder("contract", path);
    NamedUnder("function", path);
  }

  lemma {:induction false} KeyOfFound(f: Finding)
    requires f.elements != []
    ensures DeriveKey(f) == f.check + "::" + Label(Found(f.elements[0], Chain(f.elements[0])))
  {
    var place := Found(f.elements[0], Chain(f.elements[0]));
    if place.InFunction? {
      assert f.check + "::" + place.contract + "." + place.name == f.check + "::" + (place.contract + "." + place.name);
    }
  }

  /** What the key is: the detector, two colons and the place, with contract and function the first nodes of their kind
      going up. */
  lemma {:induction false} KeySaysPlace(f: Finding, place: Place)
    requires IsAt(f, place)
    ensures DeriveKey(f) == f.check + "::" + Label(place)
  {
    if f.elements == [] {
      assert f.check + "::" + "(no-elements)" == f.check + "::(no-elements)";
    } else {
      var e := f.elements[0];
      var path :| Path(path, e) && ElementAt(e, path, place);
      PathIsChain(path, e);
      FoundIsAt(e, path, place);
      KeyOfFound(f);
    }
  }

  /** Every finding is somewhere. */
  lemma {:induction false} HasPlace(f: Finding) returns (place: Place)
    ensures IsAt(f, place)
  {
    if f.elements == [] {
      place := Elsewhere("(no-elements)");
    } else {
      var e := f.elements[0];
      ChainIsPath(e);
      place := Found(e, Chain(e));
      FoundIsAt(e, Chain(e), place);
      assert Path(Chain(e), e) && ElementAt(e, Chain(e), place);
    }
  }

  lemma {:induction false} ChainIsPath(e: Element)
    ensures Path(Chain(e), e)
    decreases e
  {
    ChainFirst(e);
    assert Chain(e) == [e] + Chain(e)[1..];
    if e.parent.Some? {
      var up := Chain(e.parent.value);
      ChainIsPath(e.parent.value);
      forall i | 0 <= i < |Chain(e)| - 1 ensures Chain(e)[i].parent == Some(Chain(e)[i + 1]) {
        if i > 0 { assert up[i - 1].parent == Some(up[i - 1 + 1]); }
      }
    }
  }

  /** Names as detectors, contracts and functions have them. */
  predicate PlainName(s: string) { '.' !in s && ':' !in s }

  predicate Plain(check: string, place: Place) {
    && PlainName(check)
    && match place
       case InFunction(contract, name) => PlainName(contract) && PlainName(name)
       case InContract(contract) => PlainName(contract)
       case Elsewhere(shown) => PlainName(shown)
  }

  lemma {:induction false} SplitOnce(a: string, b: string, a': string, b': string, c: char)
    requires c !in a && c !in a' && a + [c] + b == a' + [c] + b'
    ensures a == a' && b == b'
    decreases |a|
  {
    var s, s' := a + [c] + b, a' + [c] + b';
    assert a == [] <==> s[0] == c by { if a != [] { assert s[0] == a[0] && a[0] in a; } }
    assert a' == [] <==> s'[0] == c by { if a' != [] { assert s'[0] == a'[0] && a'[0] in a'; } }
    if a == [] {
      assert s[1..] == b && s'[1..] == b';
    } else {
      assert s[1..] == a[1..] + [c] + b && s'[1..] == a'[1..] + [c] + b';
      SplitOnce(a[1..], b, a'[1..], b', c);
      assert a == [a[0]] + a[1..] && a' == [a'[0]] + a'[1..];
    }
  }

  lemma {:induction false} DotInFunctionsOnly(check: string, place: Place)
    requires Plain(check, place)
    ensures '.' in Label(place) <==> place.InFunction?
  {
    if place.InFunction? { assert Label(place)[|place.contract|] == '.'; }
  }

  lemma {:induction false} DetectorAndLabel(check: string, shown: string, check': string, shown': string)
    requires PlainName(check) && PlainName(check') && check + "::" + shown == check' + "::" + shown'
    ensures check == check' && shown == shown'
  {
    assert check + "::" + shown == check + [':'] + (":" + shown);
    assert check' + "::" + shown' == check' + [':'] + (":" + shown');
    SplitOnce(check, ":" + shown, check', ":" + shown', ':');
    assert shown == (":" + shown)[1..] == (":" + shown')[1..] == shown';
  }

  lemma {:induction false} LabelTellsPlace(check: string, at: Place, check': string, other: Place)
    requires at.InFunction? && Plain(check, at) && Plain(check', other) && Label(at) == Label(other)
    ensures at == other
  {
    DotInFunctionsOnly(check, at);
    DotInFunctionsOnly(check', other);
    SplitOnce(at.contract, at.name, other.contract, other.name, '.');
  }

  /** Two findings in functions share a key exactly when detector, contract and function agree; and no finding anywhere
      else shares it. */
  lemma {:induction false} KeysAgreeIff(f: Finding, g: Finding, at: Place, other: Place)
    requires IsAt(f, at) && IsAt(g, other) && at.InFunction? && Plain(f.check, at) && Plain(g.check, other)
    ensures DeriveKey(f) == DeriveKey(g) <==> f.check == g.check && at == other
  {
    KeySaysPlace(f, at);
    KeySaysPlace(g, other);
    if DeriveKey(f) == DeriveKey(g) {
      DetectorAndLabel(f.check, Label(at), g.check, Label(other));
      LabelTellsPlace(f.check, at, g.check, other);
    }
  }

  lemma {:induction false} FuzzyText()
    ensures "incorrect-equality" + "::" + ("VaultCore" + "." + "_mintShares") == FUZZY_KEY
  {
  }

  /** The fuzzy key is the key of a real finding: one in `_mintShares` of `VaultCore`. */
  lemma {:induction false} FuzzyFinding() returns (f: Finding)
    ensures IsAt(f, InFunction("VaultCore", "_mintShares")) && DeriveKey(f) in FUZZY_COUNT_KEYS
  {
    var contract := Element(Str("contract"), Str("VaultCore"), None);
    var e := Element(Str("function"), Str("_mintShares"), Some(contract));
    f := Finding("incorrect-equality", [e]);
    var path := [e, contract];
    assert "contract"[0] != "function"[0];
    assert FirstAt(path, "function", 0) && FirstAt(path, "contract", 1);
    assert Path(path, e) && ElementAt(e, path, InFunction("VaultCore", "_mintShares"));
    KeySaysPlace(f, InFunction("VaultCore", "_mintShares"));
    FuzzyText();
  }

  /** On findings themselves: a report with a finding in a function where the earlier report has none, of that detector,
      never passes the baseline generated from the earlier report. */
  lemma {:induction false} NewPlaceFails(r: Report, earlier: Report, existing: map<string, Entry>, f: Finding,
      at: Place)
    requires Accepted(r) && f in r.detectors && IsAt(f, at) && at.InFunction? && Plain(f.check, at)
    requires forall g, place :: g in earlier.detectors && IsAt(g, place) ==>
               Plain(g.check, place) && !(g.check == f.check && place == at)
    ensures Verdict(r, Entries(Generated(CountKeys(earlier.detectors), existing))) == Returned(1)
  {
    var key := DeriveKey(f);
    var i :| 0 <= i < |r.detectors| && r.detectors[i] == f;
    assert Keys(r.detectors)[i] == key;
    forall j | 0 <= j < |earlier.detectors| ensures Keys(earlier.detectors)[j] != key {
      var g := earlier.detectors[j];
      var place := HasPlace(g);
      KeysAgreeIff(f, g, at, place);
    }
    assert key in CountKeys(r.detectors) && key !in CountKeys(earlier.detectors);
    GeneratedBaselineJudgesGrowth(r, earlier, existing);
  }
}
