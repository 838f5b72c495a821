/**
 * What the interface generator's small functions mean (vm.py): the order of the printed entries, which of them are
 * selected, and what the interface id says about the selectors.
 */
module CheatcodeMeaning {
  import opened Text
  import opened Cheatcodes
  import opened Digits

  // ---------------------------------------------------------------- order and selection

  /** What entries are ordered by, the most significant first. */
  function SortKey(c: Cheatcode): seq<string> { [c.group, c.status, c.safety, c.func.id] }

  /** The keys agree up to position `n` and differ there at character `k`, where `a` ends or is smaller. */
  predicate SmallerFrom(a: seq<string>, b: seq<string>, n: nat, k: nat)
    requires |a| == |b|
  {
    n < |a| && a[..n] == b[..n] && SmallerAt(a[n], b[n], k)
  }

  /** `cmp_cheatcode` is negative exactly when the first difference of the four texts goes that way. */
  lemma {:induction false} OrderedExactly(a: Cheatcode, b: Cheatcode)
    ensures Compare(a, b) < 0 <==> exists n, k :: SmallerFrom(SortKey(a), SortKey(b), n, k)
  {
    var x, y := SortKey(a), SortKey(b);
    if n: nat, k: nat :| SmallerFrom(x, y, n, k) {
      StrLessIff(x[n], y[n]);
      assert StrLess(x[n], y[n]);
      StrLessTrichotomy(x[n], y[n]);
      EarlierEqual(x, y, n);
      DecidedAt(a, b, n);
    }
    if Compare(a, b) < 0 {
      var n := FirstDifference(a, b);
      StrLessIff(x[n], y[n]);
      var k: nat :| SmallerAt(x[n], y[n], k);
      assert SmallerFrom(x, y, n, k);
    }
  }

  lemma {:induction false} DecidedAt(a: Cheatcode, b: Cheatcode, n: nat)
    requires n < 4 && (forall i :: 0 <= i < n ==> SortKey(a)[i] == SortKey(b)[i])
    requires StrLess(SortKey(a)[n], SortKey(b)[n]) && SortKey(a)[n] != SortKey(b)[n]
    ensures Compare(a, b) < 0
  {
    var x, y := SortKey(a), SortKey(b);
    assert x[0] == a.group && x[1] == a.status && x[2] == a.safety && x[3] == a.func.id;
    assert y[0] == b.group && y[1] == b.status && y[2] == b.safety && y[3] == b.func.id;
  }

  lemma EarlierEqual(x: seq<string>, y: seq<string>, n: nat)
    requires n < |x| && |x| == |y| && x[..n] == y[..n]
    ensures forall i :: 0 <= i < n ==> x[i] == y[i]
  {
    forall i | 0 <= i < n ensures x[i] == y[i] { assert x[..n][i] == y[..n][i]; }
  }

  lemma {:induction false} FirstDifference(a: Cheatcode, b: Cheatcode) returns (n: nat)
    requires Compare(a, b) < 0
    ensures n < 4 && SortKey(a)[..n] == SortKey(b)[..n] && StrLess(SortKey(a)[n], SortKey(b)[n])
  {
    n := if a.group != b.group then 0 else if a.status != b.status then 1 else if a.safety != b.safety then 2 else 3;
  }

  /** Selection keeps every occurrence of the released entries of one kind of safety, and nothing else. */
  lemma {:induction false} SelectedExactly(ccs: seq<Cheatcode>, safety: string, c: Cheatcode)
    ensures multiset(Select(ccs, safety))[c]
            == if c.status in {"experimental", "internal"} || c.safety != safety then 0 else multiset(ccs)[c]
  {
    if ccs != [] {
      SelectedExactly(ccs[1..], safety, c);
      assert ccs == [ccs[0]] + ccs[1..];
    }
  }

  // ---------------------------------------------------------------- selectors and the id

  /** A selector is read with its first byte the most significant. */
  lemma {:induction false} BytesAreDigits(bs: seq<Byte>, i: nat)
    requires i < |bs|
    ensures DigitAt(FromBytes(bs), 256, |bs| - 1 - i) == bs[i]
  {
    var front, last := bs[..|bs| - 1], bs[|bs| - 1];
    LastDigit(FromBytes(front), 256, last);
    if i < |front| {
      BytesAreDigits(front, i);
      HigherDigit(FromBytes(bs), 256, |front| - 1 - i);
    }
  }

  /** Bit `k` is set. */
  predicate HasBit(value: nat, k: nat) { DigitAt(value, 2, k) == 1 }

  /** A bit of an exclusive or is set exactly when one of the two is. */
  lemma {:induction false} XorBit(a: nat, b: nat, k: nat)
    ensures HasBit(Xor(a, b), k) <==> HasBit(a, k) != HasBit(b, k)
    decreases k
  {
    XorBits(a, b);
    if k == 0 {
      FirstDigit(a, 2);
      FirstDigit(b, 2);
      FirstDigit(Xor(a, b), 2);
    } else {
      XorBit(a / 2, b / 2, k - 1);
      HigherDigit(a, 2, k - 1);
      HigherDigit(b, 2, k - 1);
      HigherDigit(Xor(a, b), 2, k - 1);
    }
  }

  /** How many of the entries have this bit in their selector. */
  function WithBit(cs: seq<Cheatcode>, k: nat): nat {
    if cs == [] then 0 else (if HasBit(FromBytes(cs[0].func.selectorBytes), k) then 1 else 0) + WithBit(cs[1..], k)
  }

  lemma NoBits(k: nat)
    ensures !HasBit(0, k)
  {
    DigitOfZero(2, k);
  }

  lemma OneMoreBit(value: nat, rest: nat, count: nat, k: nat)
    requires HasBit(rest, k) <==> count % 2 == 1
    ensures HasBit(Xor(value, rest), k) <==> ((if HasBit(value, k) then 1 else 0) + count) % 2 == 1
  {
    XorBit(value, rest, k);
  }

  /** Each bit of the id says whether an odd number of selectors have it. */
  lemma {:induction false} IdBitIsParity(cs: seq<Cheatcode>, k: nat)
    ensures HasBit(XorAll(cs), k) <==> WithBit(cs, k) % 2 == 1
  {
    if cs == [] {
      NoBits(k);
    } else {
      IdBitIsParity(cs[1..], k);
      OneMoreBit(Selector(cs[0]), XorAll(cs[1..]), WithBit(cs[1..], k), k);
    }
  }
}
