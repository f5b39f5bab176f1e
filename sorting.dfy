/** `sortBy(arr, 'name')`: both renderers sort each kind bucket in place by
    name, with a comparator returning 1, -1 or 0 from JavaScript's string `>`. */
module Sorting {
  import opened Text
  import opened Introspection

  /** `(a, b) => a.name > b.name ? 1 : b.name > a.name ? -1 : 0`. */
  function Compare(a: TypeDef, b: TypeDef): (r: int)
    ensures r == 1 <==> Lt(b.name, a.name)
    ensures r == -1 <==> Lt(a.name, b.name)
    ensures r == 0 <==> a.name == b.name
  {
    if Lt(b.name, a.name) then
      LtAsymmetric(b.name, a.name);
      1
    else if Lt(a.name, b.name) then -1
    else
      assert a.name == b.name by {
        if a.name != b.name { LtTotal(a.name, b.name); }
      }
      0
  }

  /** Ascending by name: the comparator never places a later entry before an
      earlier one. */
  predicate SortedByName(s: seq<TypeDef>) {
    forall i, j :: 0 <= i < j < |s| ==> Le(s[i].name, s[j].name)
  }

  /** Each entry is not greater than the next. */
  predicate AdjacentSorted(s: seq<TypeDef>) {
    forall k :: 0 < k < |s| ==> Le(s[k - 1].name, s[k].name)
  }

  /** Neighbourly order is order: `Le` is transitive. */
  lemma {:induction false} AdjacentSortedIsSorted(s: seq<TypeDef>)
    requires AdjacentSorted(s)
    ensures SortedByName(s)
  {
    if |s| > 1 {
      var t := s[..|s| - 1];
      assert AdjacentSorted(t);
      AdjacentSortedIsSorted(t);
      forall i | 0 <= i < |s| - 1
        ensures Le(s[i].name, s[|s| - 1].name)
      {
        assert t[i] == s[i];
        if i < |s| - 2 {
          assert Le(s[i].name, s[|s| - 2].name) by { assert t[|s| - 2] == s[|s| - 2]; }
          LeTransitive(s[i].name, s[|s| - 2].name, s[|s| - 1].name);
        }
      }
    }
  }

  // ---------------------------------------------------------------------------
  // Stability: entries with equal names keep their order
  // ---------------------------------------------------------------------------

  /** The entries of `s` named `n`, in their order in `s`. */
  function WithName(s: seq<TypeDef>, n: string): seq<TypeDef> {
    if s == [] then []
    else WithName(s[..|s| - 1], n) + (if s[|s| - 1].name == n then [s[|s| - 1]] else [])
  }

  /** `r` orders the entries of each name as `s` does: what a stable sort
      promises, and (with sortedness) all it promises. */
  ghost predicate KeepsTies(r: seq<TypeDef>, s: seq<TypeDef>) {
    forall n :: WithName(r, n) == WithName(s, n)
  }

  /** Filtering by name distributes over concatenation. */
  lemma {:induction false} WithNameAppend(a: seq<TypeDef>, b: seq<TypeDef>, n: string)
    ensures WithName(a + b, n) == WithName(a, n) + WithName(b, n)
  {
    if b == [] {
      assert a + b == a;
    } else {
      var b' := b[..|b| - 1];
      assert (a + b)[..|a + b| - 1] == a + b';
      assert (a + b)[|a + b| - 1] == b[|b| - 1];
      WithNameAppend(a, b', n);
    }
  }

  /** The filter keeps entries of `s` named `n` and nothing else. */
  lemma {:induction false} WithNameMembers(s: seq<TypeDef>, n: string, y: TypeDef)
    requires y in WithName(s, n)
    ensures y in s && y.name == n
  {
    if s != [] {
      var s' := s[..|s| - 1];
      if y in WithName(s', n) {
        WithNameMembers(s', n, y);
        assert s' <= s;
      }
    }
  }

  // ---------------------------------------------------------------------------
  // The stable insertion sort, on values
  // ---------------------------------------------------------------------------

  /** `t` with `x` placed after the last entry the comparator does not rank
      above it: `x` moves left only past strictly greater names. */
  function InsertAfterTies(t: seq<TypeDef>, x: TypeDef): (r: seq<TypeDef>)
    ensures |r| == |t| + 1
  {
    if t == [] || Le(t[|t| - 1].name, x.name) then t + [x]
    else InsertAfterTies(t[..|t| - 1], x) + [t[|t| - 1]]
  }

  /** Each entry inserted, in turn, into the sorted entries before it. */
  function StableSort(s: seq<TypeDef>): (r: seq<TypeDef>)
    ensures |r| == |s|
  {
    if s == [] then [] else InsertAfterTies(StableSort(s[..|s| - 1]), s[|s| - 1])
  }

  lemma {:induction false} InsertMultiset(t: seq<TypeDef>, x: TypeDef)
    ensures multiset(InsertAfterTies(t, x)) == multiset(t) + multiset{x}
  {
    if !(t == [] || Le(t[|t| - 1].name, x.name)) {
      InsertMultiset(t[..|t| - 1], x);
      assert t == t[..|t| - 1] + [t[|t| - 1]];
    }
  }

  lemma {:induction false} InsertSorted(t: seq<TypeDef>, x: TypeDef)
    requires SortedByName(t)
    ensures SortedByName(InsertAfterTies(t, x))
  {
    if t == [] {
    } else if Le(t[|t| - 1].name, x.name) {
      forall i | 0 <= i < |t| ensures Le(t[i].name, x.name) {
        if i < |t| - 1 { LeTransitive(t[i].name, t[|t| - 1].name, x.name); }
      }
      assert AdjacentSorted(t + [x]);
      AdjacentSortedIsSorted(t + [x]);
    } else {
      var last := t[|t| - 1];
      var t' := t[..|t| - 1];
      InsertSorted(t', x);
      InsertMultiset(t', x);
      var u := InsertAfterTies(t', x);
      forall i | 0 <= i < |u| ensures Le(u[i].name, last.name) {
        assert u[i] in multiset(u);
        if u[i] in multiset(t') {
          var k :| 0 <= k < |t'| && t'[k] == u[i];
        } else {
          assert u[i] == x;
          LtAsymmetric(x.name, last.name);
        }
      }
      assert AdjacentSorted(u + [last]) by {
        assert |u| > 0 ==> Le(u[|u| - 1].name, last.name);
      }
      AdjacentSortedIsSorted(u + [last]);
    }
  }

  /** Inserting `x` appends it to the entries of its own name and leaves the
      others alone: it never passes an entry of equal name. */
  lemma {:induction false} InsertKeepsTies(t: seq<TypeDef>, x: TypeDef, n: string)
    ensures WithName(InsertAfterTies(t, x), n) == WithName(t, n) + (if x.name == n then [x] else [])
  {
    if t == [] || Le(t[|t| - 1].name, x.name) {
      assert (t + [x])[..|t + [x]| - 1] == t;
    } else {
      var last := t[|t| - 1];
      var t' := t[..|t| - 1];
      InsertKeepsTies(t', x, n);
      LtIrreflexive(x.name);
      var u := InsertAfterTies(t', x);
      assert (u + [last])[..|u + [last]| - 1] == u;
    }
  }

  /** The reference sort is ascending by name, a permutation, and stable. */
  lemma {:induction false} StableSortSpec(s: seq<TypeDef>)
    ensures SortedByName(StableSort(s))
    ensures multiset(StableSort(s)) == multiset(s)
    ensures KeepsTies(StableSort(s), s)
  {
    if s != [] {
      var s' := s[..|s| - 1];
      StableSortSpec(s');
      InsertSorted(StableSort(s'), s[|s| - 1]);
      InsertMultiset(StableSort(s'), s[|s| - 1]);
      assert s == s' + [s[|s| - 1]];
      forall n ensures WithName(StableSort(s), n) == WithName(s, n) {
        InsertKeepsTies(StableSort(s'), s[|s| - 1], n);
      }
    }
  }

  /** An entry of a sorted sequence is not greater than its last entry. */
  lemma AtMostLast(r: seq<TypeDef>, y: TypeDef)
    requires SortedByName(r) && y in r
    ensures Le(y.name, r[|r| - 1].name)
  {
    var k :| 0 <= k < |r| && r[k] == y;
    if k == |r| - 1 { LtIrreflexive(y.name); }
  }

  /** A prefix of a sorted sequence is sorted. */
  lemma SortedPrefix(r: seq<TypeDef>)
    requires SortedByName(r) && |r| > 0
    ensures SortedByName(r[..|r| - 1])
  {
    var p := r[..|r| - 1];
    forall i, j | 0 <= i < j < |p| ensures Le(p[i].name, p[j].name) {
      assert p[i] == r[i] && p[j] == r[j];
    }
  }

  /** Two sorted sequences that order the entries of each name alike end in
      the same entry. */
  lemma LastsAgree(r1: seq<TypeDef>, r2: seq<TypeDef>)
    requires SortedByName(r1) && SortedByName(r2) && KeepsTies(r1, r2)
    requires |r1| > 0 && |r2| > 0
    ensures r1[|r1| - 1] == r2[|r2| - 1]
  {
    var a, b := r1[|r1| - 1], r2[|r2| - 1];
    assert WithName(r1, a.name) == WithName(r1[..|r1| - 1], a.name) + [a];
    WithNameMembers(r2, a.name, a);
    AtMostLast(r2, a);
    assert WithName(r2, b.name) == WithName(r2[..|r2| - 1], b.name) + [b];
    assert b in WithName(r1, b.name);
    WithNameMembers(r1, b.name, b);
    AtMostLast(r1, b);
    assert a.name == b.name by {
      if a.name != b.name { LtTotal(a.name, b.name); }
    }
    var w := WithName(r1, a.name);
    assert w == WithName(r2, a.name) == WithName(r2[..|r2| - 1], a.name) + [b];
    assert w[|w| - 1] == a && w[|w| - 1] == b;
  }

  /** Dropping the same last entry from both keeps the ties alike. */
  lemma PrefixesKeepTies(r1: seq<TypeDef>, r2: seq<TypeDef>)
    requires KeepsTies(r1, r2) && |r1| > 0 && |r2| > 0 && r1[|r1| - 1] == r2[|r2| - 1]
    ensures KeepsTies(r1[..|r1| - 1], r2[..|r2| - 1])
  {
    var a := r1[|r1| - 1];
    var r1', r2' := r1[..|r1| - 1], r2[..|r2| - 1];
    forall n ensures WithName(r1', n) == WithName(r2', n) {
      var w1 := WithName(r1, n);
      var w2 := WithName(r2, n);
      assert w1 == w2;
      assert w1 == WithName(r1', n) + (if a.name == n then [a] else []);
      assert w2 == WithName(r2', n) + (if a.name == n then [a] else []);
      if a.name == n {
        assert w1[..|w1| - 1] == WithName(r1', n);
        assert w2[..|w2| - 1] == WithName(r2', n);
      } else {
        assert w1 == WithName(r1', n);
        assert w2 == WithName(r2', n);
      }
    }
  }

  /** A non-empty sequence has an entry under the name of its last entry. */
  lemma LastNamed(r: seq<TypeDef>)
    ensures r != [] ==> WithName(r, r[|r| - 1].name) != []
  {
    if r != [] {
      assert WithName(r, r[|r| - 1].name) == WithName(r[..|r| - 1], r[|r| - 1].name) + [r[|r| - 1]];
    }
  }

  /** Sortedness and stability fix the order: two sorted sequences that order
      the entries of each name alike are equal. */
  lemma {:induction false} SortedTiesAgree(r1: seq<TypeDef>, r2: seq<TypeDef>)
    requires SortedByName(r1) && SortedByName(r2) && KeepsTies(r1, r2)
    ensures r1 == r2
    decreases |r1|
  {
    if r1 == [] || r2 == [] {
      LastNamed(r1);
      LastNamed(r2);
    } else {
      LastsAgree(r1, r2);
      PrefixesKeepTies(r1, r2);
      SortedPrefix(r1);
      SortedPrefix(r2);
      SortedTiesAgree(r1[..|r1| - 1], r2[..|r2| - 1]);
      assert r1 == r1[..|r1| - 1] + [r1[|r1| - 1]];
      assert r2 == r2[..|r2| - 1] + [r2[|r2| - 1]];
    }
  }

  /** Any sorted, stable rearrangement of `s` is the reference sort. */
  lemma StableSortIsUnique(s: seq<TypeDef>, r: seq<TypeDef>)
    requires SortedByName(r) && KeepsTies(r, s)
    ensures r == StableSort(s)
  {
    StableSortSpec(s);
    SortedTiesAgree(r, StableSort(s));
  }

  // ---------------------------------------------------------------------------
  // The in-place sort
  // ---------------------------------------------------------------------------

  /** `sortBy(arr, 'name')`: an insertion sort that moves each entry left
      past every entry the comparator ranks above it. JavaScript's sort is
      stable; so is this one, and the result is the reference sort. */
  method SortByName(a: array<TypeDef>)
    modifies a
    ensures a[..] == StableSort(old(a[..]))
    ensures SortedByName(a[..]) && multiset(a[..]) == multiset(old(a[..]))
    ensures KeepsTies(a[..], old(a[..]))
  {
    ghost var s := a[..];
    var i := 0;
    while i < a.Length
      invariant 0 <= i <= a.Length
      invariant a[..] == StableSort(s[..i]) + s[i..]
    {
      SortStep(s, i, a[..]);
      Insert(a, i);
      i := i + 1;
    }
    assert s[..a.Length] == s;
    StableSortSpec(s);
  }

  /** One round of the outer loop: inserting the next entry into the sorted
      prefix sorts one more entry. */
  lemma SortStep(s: seq<TypeDef>, i: nat, cur: seq<TypeDef>)
    requires i < |s| && cur == StableSort(s[..i]) + s[i..]
    ensures InsertAfterTies(cur[..i], cur[i]) + cur[i + 1..] == StableSort(s[..i + 1]) + s[i + 1..]
  {
    assert cur[..i] == StableSort(s[..i]) && cur[i] == s[i] && cur[i + 1..] == s[i + 1..];
    assert s[..i + 1][..i] == s[..i];
  }

  /** Moves `a[i]` left into `a[..i]` past the entries the comparator ranks
      above it; nothing past `i` moves. */
  method Insert(a: array<TypeDef>, i: nat)
    requires i < a.Length
    modifies a
    ensures a[..] == InsertAfterTies(old(a[..i]), old(a[i])) + old(a[i + 1..])
  {
    ghost var t, x, rest := a[..i], a[i], a[i + 1..];
    assert a[..] == t + [x] + rest;
    assert t[..i] == t && t[i..] == [];
    var j := i;
    while j > 0 && Compare(a[j - 1], a[j]) == 1
      invariant 0 <= j <= i
      invariant a[..] == t[..j] + [x] + t[j..] + rest
      invariant InsertAfterTies(t, x) == InsertAfterTies(t[..j], x) + t[j..]
    {
      assert a[j - 1] == t[j - 1] && a[j] == x;
      ghost var before := a[..];
      a[j - 1], a[j] := a[j], a[j - 1];
      assert a[..] == before[j - 1 := x][j := t[j - 1]];
      SwapLeft(t, x, rest, j);
      InsertPasses(t, x, j);
      j := j - 1;
    }
    if j > 0 {
      assert a[j - 1] == t[j - 1] && a[j] == x;
      InsertStops(t, x, j);
    }
  }

  /** Swapping `x` with its left neighbour moves it one place left. */
  lemma SwapLeft(t: seq<TypeDef>, x: TypeDef, rest: seq<TypeDef>, j: nat)
    requires 0 < j <= |t|
    ensures (t[..j] + [x] + t[j..] + rest)[j - 1 := x][j := t[j - 1]] == t[..j - 1] + [x] + t[j - 1..] + rest
  {
    var l := (t[..j] + [x] + t[j..] + rest)[j - 1 := x][j := t[j - 1]];
    var r := t[..j - 1] + [x] + t[j - 1..] + rest;
    assert |l| == |r|;
    forall k | 0 <= k < |l| ensures l[k] == r[k] {}
  }

  /** Passing a strictly greater entry: the insertion into `t[..j]` is the
      insertion into `t[..j - 1]` followed by that entry. */
  lemma InsertPasses(t: seq<TypeDef>, x: TypeDef, j: nat)
    requires 0 < j <= |t| && Lt(x.name, t[j - 1].name)
    ensures InsertAfterTies(t[..j], x) + t[j..] == InsertAfterTies(t[..j - 1], x) + t[j - 1..]
  {
    assert t[..j][..j - 1] == t[..j - 1];
    assert t[j - 1..] == [t[j - 1]] + t[j..];
  }

  /** Meeting an entry not greater than `x`: `x` goes right after it. */
  lemma InsertStops(t: seq<TypeDef>, x: TypeDef, j: nat)
    requires 0 < j <= |t| && Le(t[j - 1].name, x.name)
    ensures InsertAfterTies(t[..j], x) == t[..j] + [x]
  {
  }

  /** A bucket copied into an array, sorted in place, and read back. */
  method SortedCopy(s: seq<TypeDef>) returns (r: seq<TypeDef>)
    ensures r == StableSort(s)
    ensures SortedByName(r) && multiset(r) == multiset(s) && KeepsTies(r, s)
  {
    var a := new TypeDef[|s|](i requires 0 <= i < |s| => s[i]);
    assert a[..] == s;
    SortByName(a);
    r := a[..];
  }

  /** A sorted bucket holds the types of its filter result, so what holds of
      every visible type of a kind holds of every entry. */
  lemma BucketMembers(v: seq<TypeDef>, kind: Kind, skip: set<nat>, r: seq<TypeDef>)
    requires multiset(r) == multiset(Bucket(v, kind, skip))
    ensures forall i :: 0 <= i < |r| ==> r[i] in v && r[i].kind == kind
  {
    forall i | 0 <= i < |r| ensures r[i] in v && r[i].kind == kind {
      assert r[i] in multiset(r);
      assert r[i] in Bucket(v, kind, skip);
    }
  }
}
