/**
 * The interface generator's list work (vm.py): the order cheatcodes are printed in, the group headers inserted into
 * the list while it is being enumerated, and the interface id folded from the selectors.
 */
module Cheatcodes {
  import opened Text

  type Byte = x: int | 0 <= x < 256

  datatype Function = Function(id: string, description: string, declaration: string, selectorBytes: seq<Byte>)

  datatype Cheatcode = Cheatcode(func: Function, group: string, status: string, safety: string)

  // ---------------------------------------------------------------- the order

  function CompareText(a: string, b: string): int {
    if a == b then 0 else if StrLess(a, b) then -1 else 1
  }

  function Compare(a: Cheatcode, b: Cheatcode): int {
    if a.group != b.group then (if StrLess(a.group, b.group) then -1 else 1)
    else if a.status != b.status then (if StrLess(a.status, b.status) then -1 else 1)
    else if a.safety != b.safety then (if StrLess(a.safety, b.safety) then -1 else 1)
    else if a.func.id != b.func.id then (if StrLess(a.func.id, b.func.id) then -1 else 1)
    else 0
  }

  predicate SameKey(a: Cheatcode, b: Cheatcode) {
    a.group == b.group && a.status == b.status && a.safety == b.safety && a.func.id == b.func.id
  }

  lemma CompareTextOrder(a: string, b: string, c: string)
    ensures CompareText(a, b) == -CompareText(b, a)
    ensures CompareText(a, b) <= 0 && CompareText(b, c) <= 0 ==> CompareText(a, c) <= 0
    ensures CompareText(a, b) <= 0 && CompareText(b, c) <= 0 && CompareText(a, c) == 0 ==> a == b == c
  {
    StrLessTrichotomy(a, b);
    StrLessTrichotomy(b, c);
    StrLessTrichotomy(a, c);
    if StrLess(a, b) && StrLess(b, c) { StrLessTransitive(a, b, c); }
  }

  /** `cmp_cheatcode` is a total order on (group, status, safety, id): antisymmetric, zero exactly on equal keys, and
      transitive. */
  lemma CompareIsTotalOrder(a: Cheatcode, b: Cheatcode, c: Cheatcode)
    ensures Compare(a, b) == -Compare(b, a)
    ensures Compare(a, b) == 0 <==> SameKey(a, b)
    ensures Compare(a, b) <= 0 && Compare(b, c) <= 0 ==> Compare(a, c) <= 0
  {
    CompareTextOrder(a.group, b.group, c.group);
    CompareTextOrder(a.status, b.status, c.status);
    CompareTextOrder(a.safety, b.safety, c.safety);
    CompareTextOrder(a.func.id, b.func.id, c.func.id);
  }

  /** What `list.sort(key=CmpCheatcode)` guarantees about its result. */
  ghost predicate Sorted(cs: seq<Cheatcode>) {
    forall i, j :: 0 <= i < j < |cs| ==> Compare(cs[i], cs[j]) <= 0
  }

  /** Entries with equal keys are equal. */
  ghost predicate KeysIdentify(cs: seq<Cheatcode>) {
    forall c, d :: c in cs && d in cs && SameKey(c, d) ==> c == d
  }

  lemma FirstIsLeast(a: seq<Cheatcode>, b: seq<Cheatcode>)
    requires Sorted(a) && Sorted(b) && multiset(a) == multiset(b) && a != [] && b != [] && KeysIdentify(a)
    ensures a[0] == b[0]
  {
    assert a[0] in multiset(b) && b[0] in multiset(a);
    var j :| 0 <= j < |b| && b[j] == a[0];
    var i :| 0 <= i < |a| && a[i] == b[0];
    CompareIsTotalOrder(a[0], b[0], a[0]);
    CompareIsTotalOrder(b[0], b[j], b[0]);
  }

  lemma RestOfMultiset(a: seq<Cheatcode>)
    requires a != []
    ensures multiset(a[1..]) == multiset(a) - multiset{a[0]} && a == [a[0]] + a[1..]
  {
    assert a == [a[0]] + a[1..];
  }

  /** When keys identify entries, there is only one sorted arrangement of them: the output is deterministic. */
  lemma {:induction false} SortedIsUnique(a: seq<Cheatcode>, b: seq<Cheatcode>)
    requires Sorted(a) && Sorted(b) && multiset(a) == multiset(b) && KeysIdentify(a)
    ensures a == b
    decreases |a|
  {
    assert |a| == |multiset(a)| == |multiset(b)| == |b|;
    if a != [] {
      FirstIsLeast(a, b);
      RestOfMultiset(a);
      RestOfMultiset(b);
      SortedIsUnique(a[1..], b[1..]);
    }
  }

  // ---------------------------------------------------------------- group headers

  /** `str.upper` on one ASCII letter. */
  function Upper(c: char): char {
    if 'a' <= c <= 'z' then c - 'a' + 'A' else c
  }

  /** The display name of a group; the source indexes the first character, so an empty name is an error. */
  function GroupName(s: string): string
    requires s != ""
  {
    if s == "evm" then "EVM" else if s == "json" then "JSON" else [Upper(s[0])] + s[1..]
  }

  function Header(c: Cheatcode): (h: Cheatcode)
    requires c.group != ""
    ensures h.group == c.group && h.func.selectorBytes == c.func.selectorBytes
  {
    c.(func := c.func.(description := "", declaration := "// ======== " + GroupName(c.group) + " ========"))
  }

  predicate Named(cs: seq<Cheatcode>) { forall c :: c in cs ==> c.group != "" }

  function Groups(cs: seq<Cheatcode>): set<string> { set c | c in cs :: c.group }

  /** The list with a header before the first entry of each group not seen before. */
  function WithHeaders(cs: seq<Cheatcode>, seen: set<string>): seq<Cheatcode>
    requires Named(cs)
  {
    if cs == [] then []
    else if cs[0].group in seen then [cs[0]] + WithHeaders(cs[1..], seen)
    else [Header(cs[0]), cs[0]] + WithHeaders(cs[1..], seen + {cs[0].group})
  }

  lemma GroupsFirst(cs: seq<Cheatcode>)
    requires cs != []
    ensures Groups(cs) == {cs[0].group} + Groups(cs[1..])
  {
    assert cs == [cs[0]] + cs[1..];
  }

  lemma {:induction false} HeadersOneMore(cs: seq<Cheatcode>, c: Cheatcode, seen: set<string>)
    requires Named(cs) && c.group != ""
    ensures Named(cs + [c])
    ensures WithHeaders(cs + [c], seen)
            == WithHeaders(cs, seen) + if c.group in seen || c.group in Groups(cs) then [c] else [Header(c), c]
    decreases |cs|
  {
    if cs == [] {
      assert cs + [c] == [c];
      assert WithHeaders([], seen + {c.group}) == [];
    } else {
      var rest := cs[1..] + [c];
      assert cs + [c] == [cs[0]] + rest && (cs + [c])[1..] == rest;
      GroupsFirst(cs);
      if cs[0].group in seen {
        HeadersOneMore(cs[1..], c, seen);
      } else {
        HeadersOneMore(cs[1..], c, seen + {cs[0].group});
      }
    }
  }

  /** Passing one more entry of the list. */
  lemma HeadersPrefix(cs: seq<Cheatcode>, n: nat)
    requires n < |cs| && Named(cs[..n]) && cs[n].group != ""
    ensures Named(cs[..n + 1]) && Groups(cs[..n + 1]) == Groups(cs[..n]) + {cs[n].group}
    ensures WithHeaders(cs[..n + 1], {})
            == WithHeaders(cs[..n], {}) + if cs[n].group in Groups(cs[..n]) then [cs[n]] else [Header(cs[n]), cs[n]]
  {
    assert cs[..n] + [cs[n]] == cs[..n + 1];
    HeadersOneMore(cs[..n], cs[n], {});
  }

  class CheatList {
    var items: seq<Cheatcode>

    constructor (items: seq<Cheatcode>)
      ensures this.items == items
    {
      this.items := items;
    }

    /** Inserts a header at the position being enumerated, so the entry it precedes is enumerated again, one further
        on, with its group already seen. Fails on the first entry whose group has no name, with the list rewritten up
        to there. */
    method PrefixWithGroupHeaders() returns (ok: bool)
      modifies this
      ensures ok <==> Named(old(items))
      ensures ok ==> items == WithHeaders(old(items), {})
      ensures !ok ==> exists k :: StoppedAt(old(items), items, k)
    {
      ghost var orig := items;
      var s: set<string> := {};
      var i := 0;
      ghost var n := 0;            // entries of the original list already passed
      ghost var inserted := false; // the entry at i was given its header in the last round
      while i < |items|
        invariant 0 <= n <= |orig| && i <= |items|
        invariant Passing(orig, n, inserted, items[..i], items[i..], s)
        decreases |orig| - n, if inserted then 0 else 1
      {
        ghost var before, after, seen := items[..i], items[i..], s;
        var cheat := items[i];
        Around(items, i);
        assert cheat == orig[n];
        if cheat.group in s {
          KeepEntry(orig, n, inserted, before, after, s);
          i, n, inserted := i + 1, n + 1, false;
        } else {
          s := s + {cheat.group};
          if cheat.group == "" {
            Stops(orig, n, inserted, before, after, seen);
            return false;
          }
          AddHeader(orig, n, inserted, before, after, seen);
          AroundInserted(before, Header(cheat), after);
          items := items[..i] + [Header(cheat)] + items[i..];
          i, inserted := i + 1, true;
        }
      }
      assert items[..i] == items && orig[..n] == orig;
      return true;
    }
  }

  /** The first entry without a name is at `k`, and the list is headed up to there. */
  ghost predicate StoppedAt(orig: seq<Cheatcode>, items: seq<Cheatcode>, k: nat) {
    k < |orig| && orig[k].group == "" && Named(orig[..k]) && items == WithHeaders(orig[..k], {}) + orig[k..]
  }

  lemma Around(items: seq<Cheatcode>, i: nat)
    requires i < |items|
    ensures items == items[..i] + items[i..] && items[i..][0] == items[i]
    ensures items[..i + 1] == items[..i] + [items[i]] && items[i + 1..] == items[i..][1..]
  {
  }

  lemma AroundInserted(before: seq<Cheatcode>, c: Cheatcode, after: seq<Cheatcode>)
    ensures (before + [c] + after)[..|before| + 1] == before + [c]
    ensures (before + [c] + after)[|before| + 1..] == after
  {
  }

  lemma Stops(orig: seq<Cheatcode>, n: nat, inserted: bool, front: seq<Cheatcode>, back: seq<Cheatcode>, s: set<string>)
    requires n < |orig| && Passing(orig, n, inserted, front, back, s) && orig[n].group == ""
    ensures StoppedAt(orig, front + back, n) && !Named(orig)
  {
  }

  /** The loop's state: `front` heads the first `n` entries, and ends in a header when one was just inserted; `back`
      is the rest of the original list; `s` holds the groups seen. */
  ghost predicate Passing(orig: seq<Cheatcode>, n: nat, inserted: bool, front: seq<Cheatcode>, back: seq<Cheatcode>,
      s: set<string>)
    requires n <= |orig|
  {
    && Named(orig[..n]) && back == orig[n..]
    && (!inserted ==> front == WithHeaders(orig[..n], {}) && s == Groups(orig[..n]))
    && (inserted ==> n < |orig| && orig[n].group != "" && orig[n].group !in Groups(orig[..n])
                     && front == WithHeaders(orig[..n], {}) + [Header(orig[n])]
                     && s == Groups(orig[..n]) + {orig[n].group})
  }

  lemma KeepEntry(orig: seq<Cheatcode>, n: nat, inserted: bool, front: seq<Cheatcode>, back: seq<Cheatcode>,
      s: set<string>)
    requires n < |orig| && Passing(orig, n, inserted, front, back, s) && orig[n].group in s
    ensures Passing(orig, n + 1, false, front + [orig[n]], back[1..], s)
  {
    if !inserted {
      var c :| c in orig[..n] && c.group == orig[n].group;
    }
    HeadersPrefix(orig, n);
    if inserted {
      assert front + [orig[n]] == WithHeaders(orig[..n], {}) + [Header(orig[n]), orig[n]];
    } else {
      assert s + {orig[n].group} == s;
    }
  }

  lemma AddHeader(orig: seq<Cheatcode>, n: nat, inserted: bool, front: seq<Cheatcode>, back: seq<Cheatcode>,
      s: set<string>)
    requires n < |orig| && Passing(orig, n, inserted, front, back, s) && orig[n].group !in s && orig[n].group != ""
    ensures !inserted && Passing(orig, n, true, front + [Header(orig[n])], back, s + {orig[n].group})
  {
  }

  // ---------------------------------------------------------------- erasing the headers

  /** The list without the first entry of each group not seen before. */
  function DropFirsts(cs: seq<Cheatcode>, seen: set<string>): seq<Cheatcode> {
    if cs == [] then []
    else if cs[0].group in seen then [cs[0]] + DropFirsts(cs[1..], seen)
    else DropFirsts(cs[1..], seen + {cs[0].group})
  }

  /** The first entry of each group not seen before. */
  function Firsts(cs: seq<Cheatcode>, seen: set<string>): seq<Cheatcode> {
    if cs == [] then []
    else if cs[0].group in seen then Firsts(cs[1..], seen)
    else [cs[0]] + Firsts(cs[1..], seen + {cs[0].group})
  }

  /** Erasing the first entry of each group from the result gives back the input, in order: those entries are the
      headers and nothing else was added, lost or moved. */
  lemma {:induction false} EraseHeaders(cs: seq<Cheatcode>, seen: set<string>)
    requires Named(cs)
    ensures DropFirsts(WithHeaders(cs, seen), seen) == cs
    decreases |cs|
  {
    if cs != [] {
      var out := WithHeaders(cs, seen);
      if cs[0].group in seen {
        EraseHeaders(cs[1..], seen);
        assert out[1..] == WithHeaders(cs[1..], seen);
      } else {
        var seen' := seen + {cs[0].group};
        EraseHeaders(cs[1..], seen');
        assert out[1..][1..] == WithHeaders(cs[1..], seen');
        assert out[1..][0] == cs[0];
      }
    }
  }

  /** The erased entries are the headers of the first entries, in order. */
  lemma {:induction false} FirstsAreHeaders(cs: seq<Cheatcode>, seen: set<string>)
    requires Named(cs)
    ensures var hs, fs := Firsts(WithHeaders(cs, seen), seen), Firsts(cs, seen);
            |hs| == |fs| && forall k :: 0 <= k < |fs| ==> fs[k].group != "" && hs[k] == Header(fs[k])
    decreases |cs|
  {
    if cs != [] {
      var out := WithHeaders(cs, seen);
      if cs[0].group in seen {
        FirstsAreHeaders(cs[1..], seen);
        assert out[1..] == WithHeaders(cs[1..], seen);
      } else {
        var seen' := seen + {cs[0].group};
        FirstsAreHeaders(cs[1..], seen');
        assert out[1..][1..] == WithHeaders(cs[1..], seen');
        assert out[1..][0] == cs[0];
        assert Firsts(out, seen) == [Header(cs[0])] + Firsts(WithHeaders(cs[1..], seen'), seen');
      }
    }
  }

  /** There is one of them per distinct group. */
  lemma {:induction false} OneHeaderPerGroup(cs: seq<Cheatcode>, seen: set<string>)
    requires Named(cs)
    ensures |Firsts(cs, seen)| == |Groups(cs) - seen|
    ensures |WithHeaders(cs, seen)| == |cs| + |Groups(cs) - seen|
    decreases |cs|
  {
    if cs == [] {
      assert Groups(cs) - seen == {};
    } else {
      GroupsFirst(cs);
      if cs[0].group in seen {
        OneHeaderPerGroup(cs[1..], seen);
        assert Groups(cs) - seen == Groups(cs[1..]) - seen;
      } else {
        var seen' := seen + {cs[0].group};
        OneHeaderPerGroup(cs[1..], seen');
        assert Groups(cs) - seen == (Groups(cs[1..]) - seen') + {cs[0].group};
      }
    }
  }

  /** No earlier entry has this entry's group. */
  predicate IsFirst(cs: seq<Cheatcode>, k: nat)
    requires k < |cs|
  {
    forall j :: 0 <= j < k ==> cs[j].group != cs[k].group
  }

  /** `out[k]` is the header of `cs[m]`, the first entry of its group, and stands immediately before it. */
  predicate HeaderOf(out: seq<Cheatcode>, k: nat, cs: seq<Cheatcode>, m: nat) {
    && m < |cs| && IsFirst(cs, m) && cs[m].group != ""
    && k + 1 < |out| && out[k] == Header(cs[m]) && out[k + 1] == cs[m]
  }

  /** Each header stands immediately before the first entry of its group. */
  lemma {:induction false} HeaderPrecedesItsGroup(cs: seq<Cheatcode>, seen: set<string>, k: nat) returns (m: nat)
    requires Named(cs) && k < |WithHeaders(cs, seen)|
    requires WithHeaders(cs, seen)[k].group !in seen && IsFirst(WithHeaders(cs, seen), k)
    ensures HeaderOf(WithHeaders(cs, seen), k, cs, m)
    decreases |cs|
  {
    var out := WithHeaders(cs, seen);
    var known := cs[0].group in seen;
    if !known && k == 0 {
      m := 0;
    } else {
      var d := if known then 1 else 2;
      var seen' := if known then seen else seen + {cs[0].group};
      var tail := WithHeaders(cs[1..], seen');
      assert out[d..] == tail;
      assert out[d - 1] == cs[0] && out[0].group == cs[0].group;
      assert k >= d && out[k] == tail[k - d];
      assert IsFirst(tail, k - d) by {
        forall j | 0 <= j < k - d ensures tail[j].group != tail[k - d].group { assert tail[j] == out[j + d]; }
      }
      m := HeaderPrecedesItsGroup(cs[1..], seen', k - d);
      assert tail[k - d + 1] == out[k + 1];
      FirstInRest(cs, m);
      m := m + 1;
    }
  }

  lemma FirstInRest(cs: seq<Cheatcode>, m: nat)
    requires m + 1 < |cs| && IsFirst(cs[1..], m) && cs[0].group != cs[m + 1].group
    ensures IsFirst(cs, m + 1)
  {
    forall j | 0 <= j < m + 1 ensures cs[j].group != cs[m + 1].group {
      if j > 0 { assert cs[1..][j - 1].group != cs[1..][m].group; }
    }
  }

  // ---------------------------------------------------------------- sections

  predicate GroupAtMost(a: Cheatcode, b: Cheatcode) { a.group == b.group || StrLess(a.group, b.group) }

  ghost predicate GroupsAscend(cs: seq<Cheatcode>) {
    forall i, j :: 0 <= i <= j < |cs| ==> GroupAtMost(cs[i], cs[j])
  }

  /** Each entry of the output comes from an entry of the input with the same group, and in the same order. */
  lemma {:induction false} OutputFollowsInput(cs: seq<Cheatcode>, seen: set<string>, i: nat, j: nat)
      returns (m: nat, n: nat)
    requires Named(cs) && i <= j < |WithHeaders(cs, seen)|
    ensures m <= n < |cs| && cs[m].group == WithHeaders(cs, seen)[i].group
            && cs[n].group == WithHeaders(cs, seen)[j].group
    decreases |cs|
  {
    var out := WithHeaders(cs, seen);
    var d := if cs[0].group in seen then 1 else 2;
    var seen' := if cs[0].group in seen then seen else seen + {cs[0].group};
    assert out[d..] == WithHeaders(cs[1..], seen');
    assert forall p :: 0 <= p < d ==> out[p].group == cs[0].group;
    if j < d {
      m, n := 0, 0;
    } else {
      assert out[j] == out[d..][j - d];
      if i < d {
        m, n := OutputFollowsInput(cs[1..], seen', j - d, j - d);
        m, n := 0, n + 1;
      } else {
        assert out[i] == out[d..][i - d];
        m, n := OutputFollowsInput(cs[1..], seen', i - d, j - d);
        m, n := m + 1, n + 1;
      }
    }
  }

  lemma SortedGroupsAscend(cs: seq<Cheatcode>, i: nat, j: nat)
    requires Sorted(cs) && i <= j < |cs|
    ensures GroupAtMost(cs[i], cs[j])
  {
    if i < j {
      assert Compare(cs[i], cs[j]) <= 0;
      StrLessTrichotomy(cs[i].group, cs[j].group);
    }
  }

  lemma HeadersKeepGroupsAscending(cs: seq<Cheatcode>)
    requires Named(cs) && Sorted(cs)
    ensures GroupsAscend(WithHeaders(cs, {}))
  {
    var out := WithHeaders(cs, {});
    forall i, j | 0 <= i <= j < |out| ensures GroupAtMost(out[i], out[j]) {
      var m, n := OutputFollowsInput(cs, {}, i, j);
      SortedGroupsAscend(cs, m, n);
    }
  }

  lemma FirstOfGroup(cs: seq<Cheatcode>, i: nat) returns (h: nat)
    requires i < |cs|
    ensures h <= i && cs[h].group == cs[i].group && IsFirst(cs, h)
    decreases i
  {
    h := i;
    if !IsFirst(cs, i) {
      var j :| 0 <= j < i && cs[j].group == cs[i].group;
      h := FirstOfGroup(cs, j);
    }
  }

  /** Sections: in the output of a sorted list, every entry lies under exactly one header, that of its own group, with
      nothing of another group in between, and headers appear in strictly increasing group order. */
  lemma SectionsAreContiguous(cs: seq<Cheatcode>, i: nat) returns (h: nat)
    requires Named(cs) && Sorted(cs) && i < |WithHeaders(cs, {})|
    ensures var out := WithHeaders(cs, {});
            && h <= i && IsFirst(out, h) && h + 1 < |out| && out[h + 1].group != "" && out[h] == Header(out[h + 1])
            && (forall p :: h <= p <= i ==> out[p].group == out[i].group)
            && (forall g :: 0 <= g < |out| && IsFirst(out, g) && out[g].group == out[i].group ==> g == h)
            && (forall g :: 0 <= g < h && IsFirst(out, g) ==> StrLess(out[g].group, out[h].group))
  {
    var out := WithHeaders(cs, {});
    HeadersKeepGroupsAscending(cs);
    h := FirstOfGroup(out, i);
    var m := HeaderPrecedesItsGroup(cs, {}, h);
    forall p | h <= p <= i ensures out[p].group == out[i].group {
      assert GroupAtMost(out[h], out[p]) && GroupAtMost(out[p], out[i]);
      StrLessTrichotomy(out[h].group, out[p].group);
    }
    forall g | 0 <= g < h && IsFirst(out, g) ensures StrLess(out[g].group, out[h].group) {
      assert GroupAtMost(out[g], out[h]);
    }
  }

  // ---------------------------------------------------------------- the interface id

  /** Python's `^` on non-negative integers, bit by bit. */
  function Xor(a: nat, b: nat): nat
    decreases a + b
  {
    if a == 0 then b else if b == 0 then a
    else 2 * Xor(a / 2, b / 2) + (if a % 2 == b % 2 then 0 else 1)
  }

  lemma {:induction false} XorBits(a: nat, b: nat)
    ensures Xor(a, b) / 2 == Xor(a / 2, b / 2)
    ensures Xor(a, b) % 2 == (if a % 2 == b % 2 then 0 else 1)
  {
  }

  lemma {:induction false} XorCommutes(a: nat, b: nat)
    ensures Xor(a, b) == Xor(b, a)
    decreases a + b
  {
    if a != 0 && b != 0 { XorCommutes(a / 2, b / 2); }
  }

  lemma {:induction false} XorAssociates(a: nat, b: nat, c: nat)
    ensures Xor(Xor(a, b), c) == Xor(a, Xor(b, c))
    decreases a + b + c
  {
    if a != 0 && b != 0 && c != 0 {
      XorAssociates(a / 2, b / 2, c / 2);
      XorBits(a, b);
      XorBits(b, c);
      XorBits(Xor(a, b), c);
      XorBits(a, Xor(b, c));
    }
  }

  lemma {:induction false} XorSelf(a: nat)
    ensures Xor(a, a) == 0
  {
    if a != 0 { XorSelf(a / 2); }
  }

  lemma {:induction false} XorTwice(x: nat, rest: nat)
    ensures Xor(x, Xor(x, rest)) == rest
  {
    XorAssociates(x, x, rest);
    XorSelf(x);
  }

  lemma {:induction false} XorMiddle(before: nat, x: nat, after: nat)
    ensures Xor(before, Xor(x, after)) == Xor(x, Xor(before, after))
  {
    XorAssociates(before, x, after);
    XorCommutes(before, x);
    XorAssociates(x, before, after);
  }

  /** `int.from_bytes(..., byteorder="big")`. */
  function FromBytes(bs: seq<Byte>): nat {
    if bs == [] then 0 else 256 * FromBytes(bs[..|bs| - 1]) + bs[|bs| - 1]
  }

  function Selector(c: Cheatcode): nat { FromBytes(c.func.selectorBytes) }

  /** The exclusive or of the selectors. */
  function XorAll(cs: seq<Cheatcode>): nat {
    if cs == [] then 0 else Xor(Selector(cs[0]), XorAll(cs[1..]))
  }

  /** The loop in `update_interface_ids`. */
  method InterfaceId(cs: seq<Cheatcode>) returns (id: nat)
    ensures id == XorAll(cs)
  {
    id := 0;
    for i := 0 to |cs|
      invariant id == XorAll(cs[..i])
    {
      XorAppend(cs[..i], [cs[i]]);
      assert cs[..i] + [cs[i]] == cs[..i + 1];
      XorOne(cs[i], []);
      assert [cs[i]] + [] == [cs[i]];
      id := Xor(id, Selector(cs[i]));
    }
    assert cs[..|cs|] == cs;
  }

  lemma XorOne(c: Cheatcode, rest: seq<Cheatcode>)
    ensures XorAll([c] + rest) == Xor(Selector(c), XorAll(rest))
  {
    assert ([c] + rest)[1..] == rest;
  }

  lemma {:induction false} XorAppend(a: seq<Cheatcode>, b: seq<Cheatcode>)
    ensures XorAll(a + b) == Xor(XorAll(a), XorAll(b))
    decreases |a|
  {
    if a == [] {
      assert a + b == b;
    } else {
      assert (a + b)[1..] == a[1..] + b;
      XorAppend(a[1..], b);
      XorAssociates(Selector(a[0]), XorAll(a[1..]), XorAll(b));
    }
  }

  /** Where an entry stands does not matter. */
  lemma XorMoves(a: seq<Cheatcode>, c: Cheatcode, b: seq<Cheatcode>)
    ensures XorAll(a + ([c] + b)) == XorAll([c] + (a + b))
  {
    XorAppend(a, [c] + b);
    XorOne(c, b);
    XorOne(c, a + b);
    XorAppend(a, b);
    XorMiddle(XorAll(a), Selector(c), XorAll(b));
  }

  /** Two lists of the same entries: the first entry of one, found in the other. */
  lemma SplitAtFirst(a: seq<Cheatcode>, b: seq<Cheatcode>) returns (front: seq<Cheatcode>, back: seq<Cheatcode>)
    requires multiset(a) == multiset(b) && a != []
    ensures b == front + ([a[0]] + back) && multiset(front + back) == multiset(a[1..]) && a == [a[0]] + a[1..]
  {
    assert a[0] in multiset(b);
    var i :| 0 <= i < |b| && b[i] == a[0];
    front, back := b[..i], b[i + 1..];
    assert b == front + ([a[0]] + back);
    assert multiset(front + back) == multiset(b) - multiset{a[0]};
    RestOfMultiset(a);
  }

  /** The id does not depend on the order of the list, so neither sort affects it. */
  lemma {:induction false} InterfaceIdIgnoresOrder(a: seq<Cheatcode>, b: seq<Cheatcode>)
    requires multiset(a) == multiset(b)
    ensures XorAll(a) == XorAll(b)
    decreases |a|
  {
    if a == [] {
      assert |b| == |multiset(b)| == 0;
    } else {
      var front, back := SplitAtFirst(a, b);
      InterfaceIdIgnoresOrder(a[1..], front + back);
      XorMoves(front, a[0], back);
      XorOne(a[0], front + back);
      XorOne(a[0], a[1..]);
    }
  }

  function Pow2(n: nat): nat { if n == 0 then 1 else 2 * Pow2(n - 1) }

  lemma EightMore(n: nat)
    ensures Pow2(n + 8) == 256 * Pow2(n)
  {
    assert Pow2(n + 4) == 2 * Pow2(n + 3) == 4 * Pow2(n + 2) == 8 * Pow2(n + 1) == 16 * Pow2(n);
    assert Pow2(n + 8) == 2 * Pow2(n + 7) == 4 * Pow2(n + 6) == 8 * Pow2(n + 5) == 16 * Pow2(n + 4);
  }

  /** Exclusive or needs no more bits than its arguments. */
  lemma {:induction false} XorFits(a: nat, b: nat, n: nat)
    requires a < Pow2(n) && b < Pow2(n)
    ensures Xor(a, b) < Pow2(n)
  {
    if a != 0 && b != 0 { XorFits(a / 2, b / 2, n - 1); }
  }

  lemma {:induction false} BytesFit(bs: seq<Byte>)
    ensures FromBytes(bs) < Pow2(8 * |bs|)
  {
    if bs != [] {
      var n := |bs| - 1;
      BytesFit(bs[..n]);
      EightMore(8 * n);
    }
  }

  lemma FourBytes()
    ensures Pow2(32) == 0x1_0000_0000
  {
    EightMore(0);
    EightMore(8);
    EightMore(16);
    EightMore(24);
  }

  /** With four-byte selectors the id fits the eight hex digits it is printed with, which are all that the next run's
      pattern matches. */
  lemma {:induction false} InterfaceIdFits(cs: seq<Cheatcode>)
    requires forall c :: c in cs ==> |c.func.selectorBytes| == 4
    ensures XorAll(cs) < 0x1_0000_0000
  {
    FourBytes();
    if cs != [] {
      InterfaceIdFits(cs[1..]);
      BytesFit(cs[0].func.selectorBytes);
      XorFits(Selector(cs[0]), XorAll(cs[1..]), 32);
    }
  }

  lemma HeaderCancels(c: Cheatcode, rest: seq<Cheatcode>)
    requires c.group != ""
    ensures XorAll([Header(c)] + ([c] + rest)) == XorAll(rest)
  {
    XorOne(Header(c), [c] + rest);
    XorOne(c, rest);
    XorTwice(Selector(c), XorAll(rest));
  }

  /** Folding after the headers are inserted cancels the selector of the first entry of each group against its
      header's copy: only the remaining entries are folded. */
  lemma {:induction false} FoldAfterHeaders(cs: seq<Cheatcode>, seen: set<string>)
    requires Named(cs)
    ensures XorAll(WithHeaders(cs, seen)) == XorAll(DropFirsts(cs, seen))
    decreases |cs|
  {
    if cs != [] {
      if cs[0].group in seen {
        FoldAfterHeaders(cs[1..], seen);
        XorOne(cs[0], WithHeaders(cs[1..], seen));
        XorOne(cs[0], DropFirsts(cs[1..], seen));
      } else {
        var rest := WithHeaders(cs[1..], seen + {cs[0].group});
        FoldAfterHeaders(cs[1..], seen + {cs[0].group});
        assert WithHeaders(cs, seen) == [Header(cs[0])] + ([cs[0]] + rest);
        HeaderCancels(cs[0], rest);
      }
    }
  }

  lemma {:induction false} FirstsAndRest(cs: seq<Cheatcode>, seen: set<string>)
    ensures XorAll(cs) == Xor(XorAll(Firsts(cs, seen)), XorAll(DropFirsts(cs, seen)))
    decreases |cs|
  {
    if cs != [] {
      var seen' := if cs[0].group in seen then seen else seen + {cs[0].group};
      FirstsAndRest(cs[1..], seen');
      var firsts, rest := Firsts(cs[1..], seen'), DropFirsts(cs[1..], seen');
      if cs[0].group in seen {
        XorOne(cs[0], rest);
        XorMiddle(XorAll(firsts), Selector(cs[0]), XorAll(rest));
      } else {
        XorOne(cs[0], firsts);
        XorAssociates(Selector(cs[0]), XorAll(firsts), XorAll(rest));
      }
    }
  }

  /** So the order of the calls in `main` matters: folding after header insertion gives the right id only if the
      selectors of the first entries happen to fold to zero. */
  lemma FoldAfterHeadersRightIff(cs: seq<Cheatcode>)
    requires Named(cs)
    ensures XorAll(WithHeaders(cs, {})) == XorAll(cs) <==> XorAll(Firsts(cs, {})) == 0
  {
    var f, r := XorAll(Firsts(cs, {})), XorAll(DropFirsts(cs, {}));
    FoldAfterHeaders(cs, {});
    FirstsAndRest(cs, {});
    if r == Xor(f, r) {
      XorCommutes(f, r);
      XorTwice(r, f);
      XorSelf(r);
    }
  }

  // ---------------------------------------------------------------- main

  predicate Released(c: Cheatcode) { c.status != "experimental" && c.status != "internal" }

  function Select(ccs: seq<Cheatcode>, safety: string): seq<Cheatcode> {
    if ccs == [] then []
    else (if Released(ccs[0]) && ccs[0].safety == safety then [ccs[0]] else []) + Select(ccs[1..], safety)
  }

  /** `main`'s assertion: the safe and unsafe lists account for every released cheatcode exactly when no released
      cheatcode has a third kind of safety. */
  lemma {:induction false} SafetySplitIsComplete(ccs: seq<Cheatcode>)
    ensures |Select(ccs, "safe")| + |Select(ccs, "unsafe")| <= |ReleasedOnly(ccs)|
    ensures |Select(ccs, "safe")| + |Select(ccs, "unsafe")| == |ReleasedOnly(ccs)|
            <==> forall c :: c in ccs && Released(c) ==> c.safety == "safe" || c.safety == "unsafe"
  {
    assert "safe"[0] != "unsafe"[0];
    if ccs != [] {
      SafetySplitIsComplete(ccs[1..]);
      assert ccs == [ccs[0]] + ccs[1..];
    }
  }

  function ReleasedOnly(ccs: seq<Cheatcode>): seq<Cheatcode> {
    if ccs == [] then []
    else (if Released(ccs[0]) then [ccs[0]] else []) + ReleasedOnly(ccs[1..])
  }

  /** One interface, end to end: whatever the sort returned, the printed list holds every selected cheatcode once, in
      contiguous sections, and the id is the fold of the selected cheatcodes in any order. */
  lemma InterfaceIsComplete(ccs: seq<Cheatcode>, safety: string, sorted: seq<Cheatcode>)
    requires Sorted(sorted) && multiset(sorted) == multiset(Select(ccs, safety)) && Named(sorted)
    ensures multiset(DropFirsts(WithHeaders(sorted, {}), {})) == multiset(Select(ccs, safety))
    ensures GroupsAscend(WithHeaders(sorted, {}))
    ensures XorAll(sorted) == XorAll(Select(ccs, safety))
  {
    EraseHeaders(sorted, {});
    HeadersKeepGroupsAscending(sorted);
    InterfaceIdIgnoresOrder(sorted, Select(ccs, safety));
  }
}
