/**
 * Ordered-list and define utilities of the build generator (pkg/utils/utils.go).
 *
 * Lists of include paths, languages and library names are kept in first-discovery
 * order and without duplicates; defines are either a plain name or a one-entry
 * key/value map whose value is text, a boolean or an integer.
 */
module Utils {
  import opened Wrappers

  // ---------------------------------------------------------------------------
  // Strings and sequences
  // ---------------------------------------------------------------------------

  /** Go's strings.Contains: `sub` occurs as a contiguous block of `s` (the empty string occurs in every string). */
  predicate Contains(s: string, sub: string)
    decreases |s|
  {
    sub <= s || (|s| > 0 && Contains(s[1..], sub))
  }

  /** `sub` occurs in `s` starting at position `i`. */
  ghost predicate OccursAt(s: string, sub: string, i: nat)
  {
    i + |sub| <= |s| && s[i..i + |sub|] == sub
  }

  /** Contains agrees with the positional definition of a substring occurrence. */
  lemma ContainsIffOccurs(s: string, sub: string)
    ensures Contains(s, sub) <==> exists i :: OccursAt(s, sub, i)
  {
    if Contains(s, sub) {
      var i := ContainsOccurs(s, sub);
    }
    if exists i :: OccursAt(s, sub, i) {
      var i :| OccursAt(s, sub, i);
      OccursContains(s, sub, i);
    }
  }

  /** Where Contains finds `sub`. */
  lemma {:induction false} ContainsOccurs(s: string, sub: string) returns (i: nat)
    requires Contains(s, sub)
    ensures OccursAt(s, sub, i)
    decreases |s|
  {
    if sub <= s {
      i := 0;
      assert s[..|sub|] == sub;
    } else {
      var j := ContainsOccurs(s[1..], sub);
      SliceOfTail(s, j + 1, |sub|);
      i := j + 1;
    }
  }

  /** An occurrence anywhere makes Contains hold. */
  lemma {:induction false} OccursContains(s: string, sub: string, i: nat)
    requires OccursAt(s, sub, i)
    ensures Contains(s, sub)
    decreases i
  {
    if i == 0 {
      assert sub <= s;
    } else {
      SliceOfTail(s, i, |sub|);
      OccursContains(s[1..], sub, i - 1);
    }
  }

  lemma SliceOfTail(s: string, i: nat, n: nat)
    requires 0 < i && i + n <= |s|
    ensures s[i..i + n] == s[1..][i - 1..i - 1 + n]
  {
    var tail := s[1..];
    assert forall j :: i <= j < i + n ==> tail[j - 1] == s[j];
  }

  /** No element occurs twice. */
  ghost predicate NoDup<T>(s: seq<T>)
  {
    forall i, j :: 0 <= i < j < |s| ==> s[i] != s[j]
  }

  /** Index of the first occurrence of `x` in `s`. */
  function FirstIndex<T(==)>(s: seq<T>, x: T): (i: nat)
    requires x in s
    ensures i < |s| && s[i] == x
    ensures forall j :: 0 <= j < i ==> s[j] != x
  {
    if s[0] == x then 0 else 1 + FirstIndex(s[1..], x)
  }

  // ---------------------------------------------------------------------------
  // AppendUniquely (utils.go:17-24)
  // ---------------------------------------------------------------------------

  /**
   * The list AppendUniquely builds: `list` followed, in order, by each element of
   * `elements` that is not already present, counting the ones appended before it.
   */
  function Appended<T(==)>(list: seq<T>, elements: seq<T>): seq<T>
    decreases |elements|
  {
    if elements == [] then list
    else
      var r := Appended(list, elements[..|elements| - 1]);
      var e := elements[|elements| - 1];
      if e in r then r else r + [e]
  }

  /** Appends each element of `elements` to `list` unless it is already there. */
  method AppendUniquely<T(==)>(list: seq<T>, elements: seq<T>) returns (r: seq<T>)
    ensures r == Appended(list, elements)
  {
    r := list;
    for i := 0 to |elements|
      invariant r == Appended(list, elements[..i])
    {
      assert elements[..i + 1][..i] == elements[..i];
      if elements[i] !in r {
        r := r + [elements[i]];
      }
    }
    assert elements[..|elements|] == elements;
  }

  /** The input list is an unchanged prefix of the result, and at most |elements| entries are added. */
  lemma {:induction false} AppendedPrefix<T>(list: seq<T>, elements: seq<T>)
    ensures list <= Appended(list, elements)
    ensures |Appended(list, elements)| <= |list| + |elements|
    decreases |elements|
  {
    if elements != [] {
      AppendedPrefix(list, elements[..|elements| - 1]);
    }
  }

  /** An element is in the result exactly when it is in `list` or in `elements`. */
  lemma {:induction false} AppendedMembers<T>(list: seq<T>, elements: seq<T>)
    ensures forall x :: x in Appended(list, elements) <==> x in list || x in elements
    decreases |elements|
  {
    if elements != [] {
      var init := elements[..|elements| - 1];
      AppendedMembers(list, init);
      assert elements == init + [elements[|elements| - 1]];
    }
  }

  /**
   * What is appended is duplicate-free and disjoint from `list`: an element is
   * added only when it is absent, counting the elements added earlier in the call.
   */
  lemma {:induction false} AppendedAddsOnlyAbsent<T>(list: seq<T>, elements: seq<T>)
    ensures var r := Appended(list, elements);
      |list| <= |r| && NoDup(r[|list|..]) && forall k :: |list| <= k < |r| ==> r[k] !in list
    decreases |elements|
  {
    AppendedPrefix(list, elements);
    if elements != [] {
      var init := elements[..|elements| - 1];
      AppendedAddsOnlyAbsent(list, init);
      AppendedPrefix(list, init);
      var r0 := Appended(list, init);
      var e := elements[|elements| - 1];
      if e !in r0 {
        var r := r0 + [e];
        forall i, j | |list| <= i < j < |r|
          ensures r[i] != r[j]
        {
          if j == |r| - 1 {
            assert r[i] in r0;
          } else {
            assert r[i..][0] == r0[|list|..][i - |list|];
          }
        }
        forall k | |list| <= k < |r|
          ensures r[k] !in list
        {
          if k == |r| - 1 {
            forall m | 0 <= m < |list|
              ensures list[m] != e
            {
              assert r0[m] == list[m];
            }
          }
        }
        assert NoDup(r[|list|..]);
      }
    }
  }

  /** Every entry past the original list is one of `elements` that `list` lacked. */
  lemma AppendedTailFromElements<T>(list: seq<T>, elements: seq<T>, k: int)
    requires |list| <= k < |Appended(list, elements)|
    ensures Appended(list, elements)[k] !in list
    ensures Appended(list, elements)[k] in elements
  {
    AppendedAddsOnlyAbsent(list, elements);
    AppendedMembers(list, elements);
  }

  /** A duplicate-free list stays duplicate-free. */
  lemma AppendedKeepsNoDup<T>(list: seq<T>, elements: seq<T>)
    requires NoDup(list)
    ensures NoDup(Appended(list, elements))
  {
    AppendedAddsOnlyAbsent(list, elements);
    AppendedPrefix(list, elements);
    var r := Appended(list, elements);
    forall i, j | 0 <= i < j < |r|
      ensures r[i] != r[j]
    {
      if j < |list| {
        assert r[i] == list[i] && r[j] == list[j];
      } else if i < |list| {
        assert r[i] == list[i];
        assert r[j] !in list;
      } else {
        assert r[|list|..][i - |list|] == r[i] && r[|list|..][j - |list|] == r[j];
      }
    }
  }

  /** Appending elements that are all present already changes nothing. */
  lemma {:induction false} AppendedPresentIsNoOp<T>(list: seq<T>, elements: seq<T>)
    requires forall x :: x in elements ==> x in list
    ensures Appended(list, elements) == list
    decreases |elements|
  {
    if elements != [] {
      AppendedPresentIsNoOp(list, elements[..|elements| - 1]);
    }
  }

  /** Calling AppendUniquely again with the same elements is a no-op. */
  lemma AppendedIdempotent<T>(list: seq<T>, elements: seq<T>)
    ensures Appended(Appended(list, elements), elements) == Appended(list, elements)
  {
    AppendedMembers(list, elements);
    AppendedPresentIsNoOp(Appended(list, elements), elements);
  }

  /**
   * What is appended keeps the order of first occurrence in `elements`,
   * whether or not some of the elements were already in `list`.
   */
  lemma {:induction false} AppendedFirstOccurrenceOrder<T>(list: seq<T>, elements: seq<T>)
    ensures var r := Appended(list, elements);
      |list| <= |r| &&
      (forall k :: |list| <= k < |r| ==> r[k] in elements) &&
      forall i, j :: |list| <= i < j < |r| ==> FirstIndex(elements, r[i]) < FirstIndex(elements, r[j])
    decreases |elements|
  {
    AppendedTail(list, elements);
    if elements != [] {
      var init := elements[..|elements| - 1];
      AppendedFirstOccurrenceOrder(list, init);
      AppendedOrderStep(list, elements);
    }
  }

  /** The part of Appended after `list` comes from `elements`. */
  lemma AppendedTail<T>(list: seq<T>, elements: seq<T>)
    ensures var r := Appended(list, elements);
      |list| <= |r| && forall k :: |list| <= k < |r| ==> r[k] in elements
  {
    AppendedPrefix(list, elements);
    var r := Appended(list, elements);
    forall k | |list| <= k < |r|
      ensures r[k] in elements
    {
      AppendedTailFromElements(list, elements, k);
    }
  }

  /** The inductive step of AppendedFirstOccurrenceOrder: the order holds after one more element. */
  lemma AppendedOrderStep<T>(list: seq<T>, elements: seq<T>)
    requires elements != []
    requires var init := elements[..|elements| - 1]; var r0 := Appended(list, init);
      (forall k :: |list| <= k < |r0| ==> r0[k] in init) &&
      forall i, j :: |list| <= i < j < |r0| ==> FirstIndex(init, r0[i]) < FirstIndex(init, r0[j])
    ensures var r := Appended(list, elements);
      (forall k :: |list| <= k < |r| ==> r[k] in elements) &&
      forall i, j :: |list| <= i < j < |r| ==> FirstIndex(elements, r[i]) < FirstIndex(elements, r[j])
  {
    var n := |elements| - 1;
    var init := elements[..n];
    var e := elements[n];
    AppendedTail(list, init);
    AppendedTail(list, elements);
    var r0 := Appended(list, init);
    var r := Appended(list, elements);
    forall x | x in init
      ensures FirstIndex(elements, x) == FirstIndex(init, x)
    {
      FirstIndexOfPrefix(elements, n, x);
    }
    if e !in r0 {
      assert e !in init by {
        AppendedMembers(list, init);
      }
      assert FirstIndex(elements, e) == n by {
        forall j | 0 <= j < n
          ensures elements[j] != e
        {
          assert init[j] == elements[j];
        }
      }
      forall i, j | |list| <= i < j < |r|
        ensures FirstIndex(elements, r[i]) < FirstIndex(elements, r[j])
      {
        assert r[i] == r0[i] && r0[i] in init;
        if j < |r0| {
          assert r[j] == r0[j] && r0[j] in init;
        } else {
          assert r[j] == e;
        }
      }
    }
  }

  /** First occurrences inside a prefix are first occurrences in the whole sequence. */
  lemma FirstIndexOfPrefix<T>(s: seq<T>, n: nat, x: T)
    requires n <= |s| && x in s[..n]
    ensures FirstIndex(s, x) == FirstIndex(s[..n], x)
  {
    var a, b := FirstIndex(s, x), FirstIndex(s[..n], x);
    assert s[b] == x;
    assert a <= b;
    assert s[..n][a] == x;
  }

  // ---------------------------------------------------------------------------
  // FindLast (utils.go:26-33)
  // ---------------------------------------------------------------------------

  /** The last element of `list` that contains `substr`, or "" when none does. */
  function FindLast(list: seq<string>, substr: string): (r: string)
    ensures r == "" || (r in list && Contains(r, substr))
  {
    if list == [] then ""
    else if Contains(list[|list| - 1], substr) then list[|list| - 1]
    else FindLast(list[..|list| - 1], substr)
  }

  /** With no matching element, FindLast returns "". */
  lemma {:induction false} FindLastNoMatch(list: seq<string>, substr: string)
    requires forall i :: 0 <= i < |list| ==> !Contains(list[i], substr)
    ensures FindLast(list, substr) == ""
  {
    if list != [] {
      var rest := list[..|list| - 1];
      assert forall i :: 0 <= i < |rest| ==> rest[i] == list[i];
      FindLastNoMatch(rest, substr);
    }
  }

  /** FindLast returns the matching element nearest the end of the list. */
  lemma {:induction false} FindLastMatch(list: seq<string>, substr: string, i: nat)
    requires i < |list| && Contains(list[i], substr)
    requires forall j :: i < j < |list| ==> !Contains(list[j], substr)
    ensures FindLast(list, substr) == list[i]
  {
    if i < |list| - 1 {
      var rest := list[..|list| - 1];
      assert forall j :: 0 <= j < |rest| ==> rest[j] == list[j];
      FindLastMatch(rest, substr, i);
    }
  }

  // ---------------------------------------------------------------------------
  // Intersection (utils.go:35-47)
  // ---------------------------------------------------------------------------

  /** The elements of `s` that belong to `keep`, in order, repetitions included. */
  function Kept(s: seq<string>, keep: set<string>): (r: seq<string>)
    ensures forall x :: x in r <==> x in s && x in keep
  {
    if s == [] then []
    else
      var init := s[..|s| - 1];
      assert s == init + [s[|s| - 1]];
      var r := Kept(init, keep);
      if s[|s| - 1] in keep then r + [s[|s| - 1]] else r
  }

  /** First occurrences in a filtered sequence follow the first occurrences in the sequence. */
  lemma {:induction false} KeptFirstIndexMonotone(s: seq<string>, keep: set<string>, x: string, y: string)
    requires x in Kept(s, keep) && y in Kept(s, keep)
    requires FirstIndex(Kept(s, keep), x) < FirstIndex(Kept(s, keep), y)
    ensures FirstIndex(s, x) < FirstIndex(s, y)
    decreases |s|
  {
    var n := |s| - 1;
    var init := s[..n];
    var k0 := Kept(init, keep);
    var k := Kept(s, keep);
    assert s == init + [s[n]];
    assert x != y;
    assert k[..|k0|] == k0;
    if y in k0 {
      FirstIndexOfPrefix(k, |k0|, y);
      var fx := FirstIndex(k, x);
      assert fx < |k0|;
      assert k0[fx] == x;
      FirstIndexOfPrefix(k, |k0|, x);
      KeptFirstIndexMonotone(init, keep, x, y);
      FirstIndexOfPrefix(s, n, x);
      FirstIndexOfPrefix(s, n, y);
    } else {
      assert y == s[n] && y !in init;
      assert FirstIndex(s, y) == n by {
        forall j | 0 <= j < n
          ensures s[j] != y
        {
          assert init[j] == s[j];
        }
      }
      assert x in init;
      FirstIndexOfPrefix(s, n, x);
    }
  }

  /**
   * The elements of `slice2` that occur in `slice1`, in `slice2` order (by first
   * occurrence) and without duplicates; empty when the lists are disjoint.
   */
  method Intersection(slice1: seq<string>, slice2: seq<string>) returns (r: seq<string>)
    ensures forall x :: x in r <==> x in slice1 && x in slice2
    ensures NoDup(r)
    ensures forall i, j :: 0 <= i < j < |r| ==> FirstIndex(slice2, r[i]) < FirstIndex(slice2, r[j])
    ensures (forall x :: x in slice2 ==> x !in slice1) ==> r == []
  {
    var hash: set<string> := {};
    for i := 0 to |slice1|
      invariant hash == set k | 0 <= k < i :: slice1[k]
    {
      hash := hash + {slice1[i]};
    }
    assert forall x :: x in hash <==> x in slice1;
    r := [];
    for i := 0 to |slice2|
      invariant r == Appended([], Kept(slice2[..i], hash))
    {
      assert slice2[..i + 1] == slice2[..i] + [slice2[i]];
      assert slice2[..i + 1][..i] == slice2[..i];
      if slice2[i] in hash {
        r := AppendUniquely(r, [slice2[i]]);
        assert [slice2[i]][..0] == [];
      }
    }
    assert slice2[..|slice2|] == slice2;
    var kept := Kept(slice2, hash);
    AppendedMembers([], kept);
    AppendedKeepsNoDup([], kept);
    AppendedFirstOccurrenceOrder([], kept);
    forall i, j | 0 <= i < j < |r|
      ensures FirstIndex(slice2, r[i]) < FirstIndex(slice2, r[j])
    {
      KeptFirstIndexMonotone(slice2, hash, r[i], r[j]);
    }
  }

  // ---------------------------------------------------------------------------
  // Removing the first match (utils.go:49-57, 63-74)
  // ---------------------------------------------------------------------------

  /** Go's slices.Index generalised to a predicate: the first index whose element satisfies `p`, or -1. */
  function FirstMatch<T>(s: seq<T>, p: T -> bool): (r: int)
    ensures -1 <= r < |s|
    ensures r == -1 <==> forall j :: 0 <= j < |s| ==> !p(s[j])
    ensures r >= 0 ==> p(s[r]) && forall j :: 0 <= j < r ==> !p(s[j])
  {
    if s == [] then -1
    else if p(s[0]) then 0
    else
      var r := FirstMatch(s[1..], p);
      if r == -1 then -1 else r + 1
  }

  /** `s` without its first element satisfying `p` (unchanged when there is none). */
  function RemoveFirstMatch<T>(s: seq<T>, p: T -> bool): seq<T>
  {
    var i := FirstMatch(s, p);
    if i < 0 then s else s[..i] + s[i + 1..]
  }

  /** Matches the entry equal to `d`. */
  function PathIs(d: string): string -> bool
  {
    x => x == d
  }

  /** RemoveIncludes: each delpath in turn removes its first occurrence. */
  function RemovedIncludes(includes: seq<string>, delpaths: seq<string>): seq<string>
    decreases |delpaths|
  {
    if delpaths == [] then includes
    else
      var d := delpaths[|delpaths| - 1];
      RemoveFirstMatch(RemovedIncludes(includes, delpaths[..|delpaths| - 1]), PathIs(d))
  }

  /** Removing one path takes away exactly one copy of it when present, and nothing when absent. */
  lemma RemoveFirstPath(s: seq<string>, d: string)
    ensures d !in s ==> RemoveFirstMatch(s, PathIs(d)) == s
    ensures multiset(RemoveFirstMatch(s, PathIs(d))) == multiset(s) - multiset{d}
  {
    var i := FirstMatch(s, PathIs(d));
    if i >= 0 {
      assert s == s[..i] + [s[i]] + s[i + 1..];
      assert multiset(s) == multiset(s[..i]) + multiset{d} + multiset(s[i + 1..]);
    } else {
      assert d !in s;
      assert multiset(s)[d] == 0;
    }
  }

  lemma MinusTwice<T>(a: multiset<T>, b: multiset<T>, c: multiset<T>)
    ensures (a - b) - c == a - (b + c)
  {
    forall x ensures ((a - b) - c)[x] == (a - (b + c))[x] {
    }
  }

  /** RemoveIncludes removes exactly one occurrence per delpath, as far as occurrences remain. */
  lemma {:induction false} RemovedIncludesMultiset(includes: seq<string>, delpaths: seq<string>)
    ensures multiset(RemovedIncludes(includes, delpaths)) == multiset(includes) - multiset(delpaths)
    decreases |delpaths|
  {
    if delpaths != [] {
      var n := |delpaths| - 1;
      var d := delpaths[n];
      var m := multiset(includes);
      var rest := multiset(delpaths[..n]);
      var prev := RemovedIncludes(includes, delpaths[..n]);
      assert delpaths == delpaths[..n] + [d];
      calc {
        multiset(RemovedIncludes(includes, delpaths));
        multiset(RemoveFirstMatch(prev, PathIs(d)));
        { RemoveFirstPath(prev, d); }
        multiset(prev) - multiset{d};
        { RemovedIncludesMultiset(includes, delpaths[..n]); }
        (m - rest) - multiset{d};
        { MinusTwice(m, rest, multiset{d}); }
        m - (rest + multiset{d});
        m - multiset(delpaths);
      }
    }
  }

  /** Delpaths that occur nowhere in the list leave it unchanged. */
  lemma {:induction false} RemovedIncludesAbsent(includes: seq<string>, delpaths: seq<string>)
    requires forall d :: d in delpaths ==> d !in includes
    ensures RemovedIncludes(includes, delpaths) == includes
    decreases |delpaths|
  {
    if delpaths != [] {
      var n := |delpaths| - 1;
      RemovedIncludesAbsent(includes, delpaths[..n]);
      RemoveFirstPath(includes, delpaths[n]);
    }
  }

  /** `sub` is obtained from `s` by deleting elements, keeping the relative order of the rest. */
  ghost predicate Subsequence<T>(sub: seq<T>, s: seq<T>)
    decreases |s|
  {
    if sub == [] then true
    else if s == [] then false
    else (sub[0] == s[0] && Subsequence(sub[1..], s[1..])) || Subsequence(sub, s[1..])
  }

  lemma {:induction false} SubsequenceReflexive<T>(s: seq<T>)
    ensures Subsequence(s, s)
    decreases |s|
  {
    if s != [] {
      SubsequenceReflexive(s[1..]);
    }
  }

  lemma {:induction false} SubsequenceTransitive<T>(a: seq<T>, b: seq<T>, c: seq<T>)
    requires Subsequence(a, b) && Subsequence(b, c)
    ensures Subsequence(a, c)
    decreases |c|
  {
    if a != [] {
      assert b != [] && c != [];
      if b[0] == c[0] && Subsequence(b[1..], c[1..]) {
        if a[0] == b[0] && Subsequence(a[1..], b[1..]) {
          SubsequenceTransitive(a[1..], b[1..], c[1..]);
        } else {
          SubsequenceTransitive(a, b[1..], c[1..]);
        }
      } else {
        SubsequenceTransitive(a, b, c[1..]);
      }
    }
  }

  /** Cutting out one position keeps the others in order. */
  lemma {:induction false} DropOneIsSubsequence<T>(s: seq<T>, i: nat)
    requires i < |s|
    ensures Subsequence(s[..i] + s[i + 1..], s)
    decreases i
  {
    if i == 0 {
      assert s[..0] + s[1..] == s[1..];
      SubsequenceReflexive(s[1..]);
    } else {
      DropOneIsSubsequence(s[1..], i - 1);
      assert (s[..i] + s[i + 1..])[1..] == s[1..][..i - 1] + s[1..][i..];
    }
  }

  /** Removing the first match drops at most one element and keeps the rest in order. */
  lemma RemoveFirstMatchShape<T>(s: seq<T>, p: T -> bool)
    ensures |s| - 1 <= |RemoveFirstMatch(s, p)| <= |s|
    ensures Subsequence(RemoveFirstMatch(s, p), s)
  {
    var i := FirstMatch(s, p);
    if i >= 0 {
      DropOneIsSubsequence(s, i);
    } else {
      SubsequenceReflexive(s);
    }
  }

  /** What RemoveIncludes keeps stays in its original relative order. */
  lemma {:induction false} RemovedIncludesKeepsOrder(includes: seq<string>, delpaths: seq<string>)
    ensures Subsequence(RemovedIncludes(includes, delpaths), includes)
    decreases |delpaths|
  {
    if delpaths == [] {
      SubsequenceReflexive(includes);
    } else {
      var n := |delpaths| - 1;
      var d := delpaths[n];
      var s := RemovedIncludes(includes, delpaths[..n]);
      RemovedIncludesKeepsOrder(includes, delpaths[..n]);
      RemoveFirstMatchShape(s, PathIs(d));
      SubsequenceTransitive(RemoveFirstMatch(s, PathIs(d)), s, includes);
    }
  }

  /** slices.Index over the first `n` slots of `a`, generalised to a predicate: first matching index or -1. */
  method IndexWhere<T>(a: array<T>, n: nat, p: T -> bool) returns (index: int)
    requires n <= a.Length
    ensures index == FirstMatch(a[..n], p)
  {
    index := -1;
    var i := 0;
    while i < n
      invariant 0 <= i <= n
      invariant forall j :: 0 <= j < i ==> !p(a[j])
    {
      if p(a[i]) {
        index := i;
        assert a[..n][i] == a[i];
        return;
      }
      i := i + 1;
    }
  }

  /**
   * Go's `append(x[:index], x[index+1:]...)` on a slice of length n: the elements
   * after `index` shift one slot left in the same backing array; the last slot of
   * the old slice keeps its value.
   */
  method SpliceOut<T>(a: array<T>, n: nat, index: nat)
    requires index < n <= a.Length
    modifies a
    ensures a[..n - 1] == old(a[..n])[..index] + old(a[..n])[index + 1..]
    ensures forall k :: n - 1 <= k < a.Length ==> a[k] == old(a[k])
  {
    ghost var before := a[..];
    var i := index;
    while i < n - 1
      invariant index <= i <= n - 1
      invariant forall k :: 0 <= k < index ==> a[k] == before[k]
      invariant forall k :: index <= k < i ==> a[k] == before[k + 1]
      invariant forall k :: i <= k < a.Length ==> a[k] == before[k]
    {
      a[i] := a[i + 1];
      i := i + 1;
    }
    assert a[..n - 1] == before[..n][..index] + before[..n][index + 1..];
  }

  /** Deletes, in place, the first of the `n` live slots of `a` that satisfies `p`. */
  method RemoveFirst<T>(a: array<T>, n: nat, p: T -> bool) returns (len: nat)
    requires n <= a.Length
    modifies a
    ensures len <= n
    ensures a[..len] == RemoveFirstMatch(old(a[..n]), p)
    ensures forall k :: n <= k < a.Length ==> a[k] == old(a[k])
  {
    var index := IndexWhere(a, n, p);
    len := n;
    if index > -1 {
      SpliceOut(a, n, index);
      len := n - 1;
    }
  }

  /**
   * RemoveIncludes on the slice held in the first `n` slots of `includes`: the
   * returned length delimits the shortened slice.
   */
  method RemoveIncludes(includes: array<string>, n: nat, delpaths: seq<string>) returns (len: nat)
    requires n <= includes.Length
    modifies includes
    ensures len <= n
    ensures includes[..len] == RemovedIncludes(old(includes[..n]), delpaths)
    ensures forall k :: n <= k < includes.Length ==> includes[k] == old(includes[k])
  {
    ghost var original := includes[..n];
    len := n;
    for k := 0 to |delpaths|
      invariant len <= n
      invariant includes[..len] == RemovedIncludes(original, delpaths[..k])
      invariant forall j :: n <= j < includes.Length ==> includes[j] == old(includes[j])
    {
      assert delpaths[..k + 1][..k] == delpaths[..k];
      len := RemoveFirst(includes, len, PathIs(delpaths[k]));
    }
    assert delpaths[..|delpaths|] == delpaths;
  }

  // ---------------------------------------------------------------------------
  // Defines (utils.go:59-94)
  // ---------------------------------------------------------------------------

  /** The value of a key/value define, as the description parser produces it. */
  datatype DefineValue = Text(text: string) | Flag(flag: bool) | Number(number: int) | OtherValue

  /**
   * A define entry: a plain name, a single-entry map, or anything else (a
   * non-string, non-map entry or an empty map).
   */
  datatype Define = Plain(name: string) | Entry(key: string, value: DefineValue) | Unsupported

  /** Decimal digit character for 0..9. */
  function DigitChar(d: nat): char
    requires d < 10
  {
    "0123456789"[d]
  }

  /** Every character of `s` is a decimal digit. */
  predicate AllDigits(s: string)
  {
    forall k :: 0 <= k < |s| ==> '0' <= s[k] <= '9'
  }

  /** Decimal rendering of a natural number, most significant digit first. */
  function NatToDecimal(n: nat): (s: string)
    ensures |s| > 0 && AllDigits(s)
  {
    if n < 10 then [DigitChar(n)] else NatToDecimal(n / 10) + [DigitChar(n % 10)]
  }

  /** Go's strconv.Itoa. */
  function Itoa(n: int): string
  {
    if n < 0 then "-" + NatToDecimal(-n) else NatToDecimal(n)
  }

  /** The number a string of decimal digits denotes. */
  function DecimalValue(s: string): nat
    requires AllDigits(s)
  {
    if s == [] then 0
    else 10 * DecimalValue(s[..|s| - 1]) + ((s[|s| - 1] as int) - ('0' as int))
  }

  /** Reads an optionally negative decimal integer; None when the text is not one. */
  function ParseInt(s: string): Option<int>
  {
    if |s| > 0 && s[0] == '-' then
      var digits := s[1..];
      if |digits| > 0 && AllDigits(digits)
      then Some(0 - DecimalValue(digits)) else None
    else if |s| > 0 && AllDigits(s)
    then Some(DecimalValue(s)) else None
  }

  lemma {:induction false} DecimalRoundTrip(n: nat)
    ensures DecimalValue(NatToDecimal(n)) == n
  {
    if n >= 10 {
      DecimalRoundTrip(n / 10);
      var s := NatToDecimal(n);
      assert s[..|s| - 1] == NatToDecimal(n / 10);
    }
  }

  /** The text Itoa renders reads back as the same integer. */
  lemma ItoaRoundTrip(n: int)
    ensures ParseInt(Itoa(n)) == Some(n)
  {
    var digits := NatToDecimal(if n < 0 then -n else n);
    if n < 0 {
      calc {
        ParseInt(Itoa(n));
        ParseInt("-" + digits);
        { ParseNegative(digits); }
        Some(0 - DecimalValue(digits));
        { DecimalRoundTrip(-n); }
        Some(n);
      }
    } else {
      calc {
        ParseInt(Itoa(n));
        ParseInt(digits);
        { ParseDigits(digits); }
        Some(DecimalValue(digits));
        { DecimalRoundTrip(n); }
        Some(n);
      }
    }
  }

  lemma ParseNegative(digits: string)
    requires |digits| > 0 && AllDigits(digits)
    ensures ParseInt("-" + digits) == Some(0 - DecimalValue(digits))
  {
    assert ("-" + digits)[1..] == digits;
  }

  lemma ParseDigits(digits: string)
    requires |digits| > 0 && AllDigits(digits)
    ensures ParseInt(digits) == Some(DecimalValue(digits))
  {
    assert digits[0] != '-';
  }

  /**
   * GetDefine: the key of a define and its value as text ("" when it has none).
   * A boolean renders as "true"/"false", an integer in decimal.
   */
  function GetDefine(define: Define): (r: (string, string))
    ensures define.Plain? ==> r == (define.name, "")
    ensures define.Unsupported? ==> r == ("", "")
    ensures define.Entry? ==> r.0 == define.key
    ensures define.Entry? && define.value.Text? ==> r.1 == define.value.text
    ensures define.Entry? && define.value.Flag? ==> (r.1 == "true" <==> define.value.flag) && (r.1 == "false" <==> !define.value.flag)
    ensures define.Entry? && define.value.Number? ==> ParseInt(r.1) == Some(define.value.number)
    ensures define.Entry? && define.value.OtherValue? ==> r.1 == ""
  {
    match define
    case Plain(name) => (name, "")
    case Unsupported => ("", "")
    case Entry(key, value) =>
      match value
      case Text(t) => (key, t)
      case Flag(b) => (key, if b then "true" else "false")
      case Number(i) => ItoaRoundTrip(i); (key, Itoa(i))
      case OtherValue => (key, "")
  }

  /** The key of a define, as RemoveDefines reads it through GetDefine. */
  function DefineKey(define: Define): string
  {
    GetDefine(define).0
  }

  /** AppendDefines: the defines followed by the elements. */
  function AppendDefines(defines: seq<Define>, elements: seq<Define>): (r: seq<Define>)
    ensures |r| == |defines| + |elements|
    ensures r[..|defines|] == defines && r[|defines|..] == elements
  {
    defines + elements
  }

  /** Matches a define whose key is `u`. */
  function KeyIs(u: string): Define -> bool
  {
    d => DefineKey(d) == u
  }

  /** RemoveDefines: each undefine in turn removes the first define whose key equals it. */
  function RemovedDefines(defines: seq<Define>, undefines: seq<string>): seq<Define>
    decreases |undefines|
  {
    if undefines == [] then defines
    else
      var u := undefines[|undefines| - 1];
      RemoveFirstMatch(RemovedDefines(defines, undefines[..|undefines| - 1]), KeyIs(u))
  }

  /**
   * One undefine removes the first define with that key, keeping the order of
   * the others, and nothing when no define has that key.
   */
  lemma RemoveFirstDefine(defines: seq<Define>, u: string)
    ensures (forall k :: 0 <= k < |defines| ==> DefineKey(defines[k]) != u) ==>
      RemoveFirstMatch(defines, KeyIs(u)) == defines
    ensures forall i ::
      (0 <= i < |defines| && DefineKey(defines[i]) == u && forall j :: 0 <= j < i ==> DefineKey(defines[j]) != u) ==>
      RemoveFirstMatch(defines, KeyIs(u)) == defines[..i] + defines[i + 1..]
  {
    var p := KeyIs(u);
    assert forall x :: p(x) == (DefineKey(x) == u);
    forall i | 0 <= i < |defines| && DefineKey(defines[i]) == u &&
      (forall j :: 0 <= j < i ==> DefineKey(defines[j]) != u)
      ensures RemoveFirstMatch(defines, p) == defines[..i] + defines[i + 1..]
    {
      FirstMatchAt(defines, p, i);
    }
  }

  /** The first index satisfying `p` is the one FirstMatch reports. */
  lemma FirstMatchAt<T>(s: seq<T>, p: T -> bool, i: nat)
    requires i < |s| && p(s[i]) && forall j :: 0 <= j < i ==> !p(s[j])
    ensures FirstMatch(s, p) == i
  {
    var r := FirstMatch(s, p);
    assert r != -1;
  }

  /** Undefines whose keys no define carries leave the defines unchanged. */
  lemma {:induction false} RemovedDefinesAbsent(defines: seq<Define>, undefines: seq<string>)
    requires forall k, u :: 0 <= k < |defines| && u in undefines ==> DefineKey(defines[k]) != u
    ensures RemovedDefines(defines, undefines) == defines
    decreases |undefines|
  {
    if undefines != [] {
      var n := |undefines| - 1;
      assert forall u :: u in undefines[..n] ==> u in undefines;
      RemovedDefinesAbsent(defines, undefines[..n]);
      var u := undefines[n];
      assert u in undefines;
      assert forall k :: 0 <= k < |defines| ==> DefineKey(defines[k]) != u;
      RemoveFirstDefine(defines, u);
    }
  }

  /** Each undefine removes at most one define, and whatever is left keeps its order. */
  lemma {:induction false} RemovedDefinesShape(defines: seq<Define>, undefines: seq<string>)
    ensures |defines| - |undefines| <= |RemovedDefines(defines, undefines)| <= |defines|
    ensures Subsequence(RemovedDefines(defines, undefines), defines)
    decreases |undefines|
  {
    if undefines == [] {
      SubsequenceReflexive(defines);
    } else {
      var n := |undefines| - 1;
      var u := undefines[n];
      var s := RemovedDefines(defines, undefines[..n]);
      RemovedDefinesShape(defines, undefines[..n]);
      RemoveFirstMatchShape(s, KeyIs(u));
      SubsequenceTransitive(RemoveFirstMatch(s, KeyIs(u)), s, defines);
    }
  }

  /** RemoveDefines on the slice held in the first `n` slots of `defines`. */
  method RemoveDefines(defines: array<Define>, n: nat, undefines: seq<string>) returns (len: nat)
    requires n <= defines.Length
    modifies defines
    ensures len <= n
    ensures defines[..len] == RemovedDefines(old(defines[..n]), undefines)
    ensures forall k :: n <= k < defines.Length ==> defines[k] == old(defines[k])
  {
    ghost var original := defines[..n];
    len := n;
    for k := 0 to |undefines|
      invariant len <= n
      invariant defines[..len] == RemovedDefines(original, undefines[..k])
      invariant forall j :: n <= j < defines.Length ==> defines[j] == old(defines[j])
    {
      assert undefines[..k + 1][..k] == undefines[..k];
      len := RemoveFirst(defines, len, KeyIs(undefines[k]));
    }
    assert undefines[..|undefines|] == undefines;
  }
}
