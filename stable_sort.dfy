/**
 * Stable sorting by an integer key.
 *
 * graph.js sorts twice with `Array.prototype.sort` and a subtracting
 * comparator: the events by timestamp (line 44) and the user series by
 * descending current score (line 136). Since ES2019 that sort is stable.
 * Both become `InsertionSortBy`, an in-place insertion sort, proved equal to
 * the functional `SortBy`; `SortBy` is then shown to be sorted, a permutation,
 * to keep equal keys in input order, and to be the only arrangement with
 * those three properties.
 */
module StableSort {

  /** Inserts x into s after every element whose key is at most key(x),
      scanning from the right end, as insertion sort shifts elements. */
  function Insert<T>(s: seq<T>, x: T, key: T -> int): seq<T>
  {
    if s == [] || key(s[|s| - 1]) <= key(x) then s + [x]
    else Insert(s[..|s| - 1], x, key) + [s[|s| - 1]]
  }

  /** Insertion sort of s by key, inserting the elements from left to right. */
  function SortBy<T>(s: seq<T>, key: T -> int): seq<T>
  {
    if s == [] then [] else Insert(SortBy(s[..|s| - 1], key), s[|s| - 1], key)
  }

  ghost predicate SortedBy<T>(s: seq<T>, key: T -> int)
  {
    forall i, j :: 0 <= i < j < |s| ==> key(s[i]) <= key(s[j])
  }

  /** The elements of s whose key is k, in their order in s. */
  function WithKey<T>(s: seq<T>, key: T -> int, k: int): seq<T>
  {
    if s == [] then []
    else WithKey(s[..|s| - 1], key, k) + (if key(s[|s| - 1]) == k then [s[|s| - 1]] else [])
  }

  lemma {:induction false} WithKeyAppend<T>(a: seq<T>, b: seq<T>, key: T -> int, k: int)
    ensures WithKey(a + b, key, k) == WithKey(a, key, k) + WithKey(b, key, k)
  {
    if b != [] {
      var b' := b[..|b| - 1];
      assert (a + b)[..|a + b| - 1] == a + b';
      WithKeyAppend(a, b', key, k);
    } else {
      assert a + b == a;
    }
  }

  /** The elements of r are those of init and x. */
  lemma {:induction false} InsertMultiset<T>(s: seq<T>, x: T, key: T -> int)
    ensures |Insert(s, x, key)| == |s| + 1
    ensures multiset(Insert(s, x, key)) == multiset(s) + multiset{x}
  {
    if !(s == [] || key(s[|s| - 1]) <= key(x)) {
      var init, last := s[..|s| - 1], s[|s| - 1];
      assert s == init + [last];
      InsertMultiset(init, x, key);
    }
  }

  lemma {:induction false} InsertSorted<T>(s: seq<T>, x: T, key: T -> int)
    requires SortedBy(s, key)
    ensures SortedBy(Insert(s, x, key), key)
  {
    if !(s == [] || key(s[|s| - 1]) <= key(x)) {
      var init, last := s[..|s| - 1], s[|s| - 1];
      InsertSorted(init, x, key);
      InsertMultiset(init, x, key);
      var r := Insert(init, x, key);
      forall i | 0 <= i < |r| ensures key(r[i]) <= key(last) {
        assert r[i] in multiset(r);
        if r[i] != x {
          assert r[i] in multiset(init);
          var j :| 0 <= j < |init| && init[j] == r[i];
          assert s[j] == init[j];
        }
      }
      assert Insert(s, x, key) == r + [last];
    }
  }

  lemma {:induction false} InsertWithKey<T>(s: seq<T>, x: T, key: T -> int, k: int)
    requires SortedBy(s, key)
    ensures WithKey(Insert(s, x, key), key, k) == WithKey(s + [x], key, k)
  {
    if !(s == [] || key(s[|s| - 1]) <= key(x)) {
      var init, last := s[..|s| - 1], s[|s| - 1];
      SortedInit(s, key);
      InsertWithKey(init, x, key, k);
      var r := Insert(init, x, key);
      assert Insert(s, x, key) == r + [last];
      assert (r + [last])[..|r|] == r;
      assert (init + [x])[..|init|] == init;
      assert (s + [x])[..|s|] == s;
      var w := WithKey(init, key, k);
      var wx := if key(x) == k then [x] else [];
      var wl := if key(last) == k then [last] else [];
      assert WithKey(Insert(s, x, key), key, k) == w + wx + wl;
      assert WithKey(s + [x], key, k) == w + wl + wx;
      if key(x) == k {
        assert wl == [];
      }
    }
  }

  /** SortBy is a stable sort: its result is ordered by key, is a permutation
      of the input, and lists the elements of each key in their input order. */
  lemma {:induction false} SortByIsStableSort<T>(s: seq<T>, key: T -> int)
    ensures |SortBy(s, key)| == |s|
    ensures SortedBy(SortBy(s, key), key)
    ensures multiset(SortBy(s, key)) == multiset(s)
    ensures forall k :: WithKey(SortBy(s, key), key, k) == WithKey(s, key, k)
  {
    if s != [] {
      var init, last := s[..|s| - 1], s[|s| - 1];
      assert s == init + [last];
      SortByIsStableSort(init, key);
      InsertMultiset(SortBy(init, key), last, key);
      InsertSorted(SortBy(init, key), last, key);
      forall k ensures WithKey(SortBy(s, key), key, k) == WithKey(s, key, k) {
        InsertWithKey(SortBy(init, key), last, key, k);
        WithKeyAppend(SortBy(init, key), [last], key, k);
        WithKeyAppend(init, [last], key, k);
      }
    }
  }

  lemma {:induction false} WithKeyEmptyAbove<T>(s: seq<T>, key: T -> int, k: int)
    requires SortedBy(s, key) && s != [] && key(s[|s| - 1]) < k
    ensures WithKey(s, key, k) == []
  {
    if |s| > 1 {
      WithKeyEmptyAbove(s[..|s| - 1], key, k);
    }
  }

  lemma {:induction false} WithKeyNonEmpty<T>(s: seq<T>, key: T -> int, i: int)
    requires 0 <= i < |s|
    ensures WithKey(s, key, key(s[i])) != []
  {
    if i < |s| - 1 {
      WithKeyNonEmpty(s[..|s| - 1], key, i);
    }
  }

  lemma SortedInit<T>(s: seq<T>, key: T -> int)
    requires s != [] && SortedBy(s, key)
    ensures SortedBy(s[..|s| - 1], key)
  {
  }

  /** Dropping the last element, when both end in the same key, keeps the
      per-key subsequences equal. */
  lemma DropLastWithKey<T>(r: seq<T>, t: seq<T>, key: T -> int, k: int)
    requires r != [] && t != [] && key(r[|r| - 1]) == key(t[|t| - 1])
    requires WithKey(r, key, k) == WithKey(t, key, k)
    ensures WithKey(r[..|r| - 1], key, k) == WithKey(t[..|t| - 1], key, k)
  {
    var wr, wt := WithKey(r, key, k), WithKey(t, key, k);
    var ar, at := WithKey(r[..|r| - 1], key, k), WithKey(t[..|t| - 1], key, k);
    if key(r[|r| - 1]) == k {
      assert wr == ar + [r[|r| - 1]] && wt == at + [t[|t| - 1]];
      assert ar == wr[..|wr| - 1] && at == wt[..|wt| - 1];
    } else {
      assert wr == ar + [] && wt == at + [];
      assert wr == ar && wt == at;
    }
  }

  /** Two arrangements that are both sorted by key and agree on the order of
      the elements of every key are equal: a stable sort has one result. */
  lemma {:induction false} StableArrangementUnique<T>(r: seq<T>, t: seq<T>, key: T -> int)
    requires SortedBy(r, key) && SortedBy(t, key)
    requires forall k :: WithKey(r, key, k) == WithKey(t, key, k)
    ensures r == t
    decreases |r| + |t|
  {
    if r == [] && t == [] {
    } else if r == [] {
      WithKeyNonEmpty(t, key, 0);
      assert false;
    } else if t == [] {
      WithKeyNonEmpty(r, key, 0);
      assert false;
    } else {
      var kr, kt := key(r[|r| - 1]), key(t[|t| - 1]);
      WithKeyNonEmpty(r, key, |r| - 1);
      WithKeyNonEmpty(t, key, |t| - 1);
      if kr < kt {
        WithKeyEmptyAbove(r, key, kt);
        assert false;
      }
      if kt < kr {
        WithKeyEmptyAbove(t, key, kr);
        assert false;
      }
      var r', t' := r[..|r| - 1], t[..|t| - 1];
      forall k ensures WithKey(r', key, k) == WithKey(t', key, k) {
        DropLastWithKey(r, t, key, k);
      }
      SortedInit(r, key);
      SortedInit(t, key);
      StableArrangementUnique(r', t', key);
      var wr, wt := WithKey(r, key, kr), WithKey(t, key, kr);
      assert wr == WithKey(r', key, kr) + [r[|r| - 1]];
      assert wt == WithKey(t', key, kr) + [t[|t| - 1]];
      assert wr == wt;
      assert r[|r| - 1] == wr[|wr| - 1] == wt[|wt| - 1] == t[|t| - 1];
      assert r == r' + [r[|r| - 1]] && t == t' + [t[|t| - 1]];
    }
  }

  /** Any stable sort of s by key is SortBy(s, key). */
  lemma SortByIsTheStableSort<T>(s: seq<T>, r: seq<T>, key: T -> int)
    requires SortedBy(r, key)
    requires forall k :: WithKey(r, key, k) == WithKey(s, key, k)
    ensures r == SortBy(s, key)
  {
    SortByIsStableSort(s, key);
    StableArrangementUnique(r, SortBy(s, key), key);
  }

  /** Where Insert puts x: after t[..p], before the elements of larger key. */
  function InsertPos<T>(t: seq<T>, x: T, key: T -> int): nat
  {
    if t == [] || key(t[|t| - 1]) <= key(x) then |t| else InsertPos(t[..|t| - 1], x, key)
  }

  lemma {:induction false} InsertAt<T>(t: seq<T>, x: T, key: T -> int)
    ensures InsertPos(t, x, key) <= |t|
    ensures Insert(t, x, key) == t[..InsertPos(t, x, key)] + [x] + t[InsertPos(t, x, key)..]
    ensures forall q :: InsertPos(t, x, key) <= q < |t| ==> key(t[q]) > key(x)
  {
    if !(t == [] || key(t[|t| - 1]) <= key(x)) {
      var init := t[..|t| - 1];
      InsertAt(init, x, key);
      var p := InsertPos(init, x, key);
      assert init[..p] == t[..p];
      assert init[p..] + [t[|t| - 1]] == t[p..];
    } else {
      assert t[..|t|] == t;
    }
  }

  /** Where each position of Insert(t, x) comes from. */
  lemma InsertIndex<T>(t: seq<T>, x: T, key: T -> int, k: int)
    requires 0 <= k <= |t|
    ensures |Insert(t, x, key)| == |t| + 1 && InsertPos(t, x, key) <= |t|
    ensures k < InsertPos(t, x, key) ==> Insert(t, x, key)[k] == t[k]
    ensures k == InsertPos(t, x, key) ==> Insert(t, x, key)[k] == x
    ensures k > InsertPos(t, x, key) ==> Insert(t, x, key)[k] == t[k - 1] && key(t[k - 1]) > key(x)
  {
    InsertAt(t, x, key);
  }

  lemma {:induction false} SortByLength<T>(s: seq<T>, key: T -> int)
    ensures |SortBy(s, key)| == |s|
  {
    if s != [] {
      SortByLength(s[..|s| - 1], key);
      InsertMultiset(SortBy(s[..|s| - 1], key), s[|s| - 1], key);
    }
  }

  /** Every element of the sorted sequence comes from the input. */
  lemma SortByMembers<T>(s: seq<T>, key: T -> int, i: int)
    requires 0 <= i < |SortBy(s, key)|
    ensures exists a :: 0 <= a < |s| && s[a] == SortBy(s, key)[i]
  {
    SortByIsStableSort(s, key);
    var x := SortBy(s, key)[i];
    assert x in multiset(SortBy(s, key));
    assert x in multiset(s);
    assert x in s;
  }

  /** Two elements of equal key appear in the sorted sequence in the order
      in which they appear in the input. */
  lemma {:induction false} SortByKeepsTieOrder<T>(s: seq<T>, key: T -> int, i: int, j: int)
    requires 0 <= i < j < |SortBy(s, key)|
    requires key(SortBy(s, key)[i]) == key(SortBy(s, key)[j])
    ensures exists a, b :: 0 <= a < b < |s| && s[a] == SortBy(s, key)[i] && s[b] == SortBy(s, key)[j]
  {
    var s0, x := s[..|s| - 1], s[|s| - 1];
    var r0, r := SortBy(s0, key), SortBy(s, key);
    SortByLength(s0, key);
    SortByLength(s, key);
    var p := InsertPos(r0, x, key);
    InsertIndex(r0, x, key, i);
    InsertIndex(r0, x, key, j);
    if i != p && j == p {
      SortByMembers(s0, key, i);
      var a :| 0 <= a < |s0| && s0[a] == r0[i];
      assert s[a] == s0[a];
    } else if i != p {
      var i0 := if i < p then i else i - 1;
      var j0 := if j < p then j else j - 1;
      SortByKeepsTieOrder(s0, key, i0, j0);
      var a, b :| 0 <= a < b < |s0| && s0[a] == r0[i0] && s0[b] == r0[j0];
      assert s[a] == s0[a] && s[b] == s0[b];
    }
  }

  /** Every element of the input has a place in the sorted sequence. */
  lemma SortByContains<T>(s: seq<T>, key: T -> int, a: int)
    requires 0 <= a < |s|
    ensures exists k :: 0 <= k < |SortBy(s, key)| && SortBy(s, key)[k] == s[a]
  {
    SortByIsStableSort(s, key);
    assert s[a] in multiset(s);
    assert s[a] in SortBy(s, key);
  }

  /** No two elements agree on f. */
  ghost predicate DistinctBy<T, K>(s: seq<T>, f: T -> K)
  {
    forall j, k :: 0 <= j < k < |s| ==> f(s[j]) != f(s[k])
  }

  /** Sorting keeps elements that differ on f apart. */
  lemma {:induction false} SortByKeepsDistinctBy<T, K>(s: seq<T>, key: T -> int, f: T -> K)
    requires DistinctBy(s, f)
    ensures DistinctBy(SortBy(s, key), f)
  {
    if s != [] {
      var s0, x := s[..|s| - 1], s[|s| - 1];
      var r0, r := SortBy(s0, key), SortBy(s, key);
      SortByKeepsDistinctBy(s0, key, f);
      SortByLength(s0, key);
      SortByLength(s, key);
      var p := InsertPos(r0, x, key);
      forall k | 0 <= k < |r0| ensures f(r0[k]) != f(x) {
        SortByMembers(s0, key, k);
      }
      forall i, j | 0 <= i < j < |r| ensures f(r[i]) != f(r[j]) {
        InsertIndex(r0, x, key, i);
        InsertIndex(r0, x, key, j);
      }
    }
  }

  /** The sum of f over the elements. */
  function SumBy<T>(s: seq<T>, f: T -> int): int
  {
    if s == [] then 0 else SumBy(s[..|s| - 1], f) + f(s[|s| - 1])
  }

  lemma {:induction false} SumByAppend<T>(a: seq<T>, b: seq<T>, f: T -> int)
    ensures SumBy(a + b, f) == SumBy(a, f) + SumBy(b, f)
  {
    if b == [] {
      assert a + b == a;
    } else {
      assert (a + b)[..|a + b| - 1] == a + b[..|b| - 1];
      SumByAppend(a, b[..|b| - 1], f);
    }
  }

  lemma SumByInsert<T>(t: seq<T>, x: T, key: T -> int, f: T -> int)
    ensures SumBy(Insert(t, x, key), f) == SumBy(t, f) + f(x)
  {
    InsertAt(t, x, key);
    var p := InsertPos(t, x, key);
    SumByAppend(t[..p] + [x], t[p..], f);
    SumByAppend(t[..p], [x], f);
    SumByAppend(t[..p], t[p..], f);
    assert t[..p] + t[p..] == t;
    assert SumBy([x], f) == SumBy([], f) + f(x) by { assert [x][..0] == []; }
  }

  /** Sorting does not change a sum over the elements. */
  lemma {:induction false} SortByKeepsSum<T>(s: seq<T>, key: T -> int, f: T -> int)
    ensures SumBy(SortBy(s, key), f) == SumBy(s, f)
  {
    if s != [] {
      SortByKeepsSum(s[..|s| - 1], key, f);
      SumByInsert(SortBy(s[..|s| - 1], key), s[|s| - 1], key, f);
    }
  }

  /** Insert places x right after the last element whose key is at most
      key(x): everything after that position has a larger key. */
  lemma {:induction false} InsertSplit<T>(p: seq<T>, x: T, key: T -> int, j: int)
    requires 0 <= j <= |p|
    requires j == 0 || key(p[j - 1]) <= key(x)
    requires forall k :: j <= k < |p| ==> key(p[k]) > key(x)
    ensures Insert(p, x, key) == p[..j] + [x] + p[j..]
  {
    if j == |p| {
      assert p[..j] == p && p[j..] == [];
    } else {
      var init := p[..|p| - 1];
      InsertSplit(init, x, key, j);
      assert init[..j] == p[..j];
      assert p[j..] == init[j..] + [p[|p| - 1]];
    }
  }

  /** Swapping x with its left neighbour moves it one place left. */
  lemma SwapLeft<T>(p: seq<T>, x: T, j: int)
    requires 0 < j <= |p|
    ensures (p[..j] + [x] + p[j..])[j - 1 := x][j := p[j - 1]] == p[..j - 1] + [x] + p[j - 1..]
  {
    assert p[..j] == p[..j - 1] + [p[j - 1]];
    assert p[j - 1..] == [p[j - 1]] + p[j..];
  }

  /** Moves a[i] left past the larger elements of the sorted a[..i]. */
  method InsertInto<T>(a: array<T>, i: int, key: T -> int)
    requires 0 <= i < a.Length
    modifies a
    ensures a[..i + 1] == Insert(old(a[..i]), old(a[i]), key)
    ensures a[i + 1..] == old(a[i + 1..])
  {
    ghost var p := a[..i];
    var x := a[i];
    var j := i;
    assert a[..i + 1] == p[..j] + [x] + p[j..];
    while j > 0 && key(a[j - 1]) > key(x)
      invariant 0 <= j <= i
      invariant a[..i + 1] == p[..j] + [x] + p[j..]
      invariant a[i + 1..] == old(a[i + 1..])
      invariant forall k :: j <= k < i ==> key(p[k]) > key(x)
    {
      ghost var before := a[..i + 1];
      assert a[j - 1] == p[j - 1] && a[j] == x;
      a[j - 1], a[j] := a[j], a[j - 1];
      assert a[..i + 1] == before[j - 1 := x][j := p[j - 1]];
      SwapLeft(p, x, j);
      j := j - 1;
    }
    assert j == 0 || a[j - 1] == p[j - 1];
    InsertSplit(p, x, key, j);
  }

  /** Sorts a in place, stably, by key (graph.js lines 44 and 136). */
  method InsertionSortBy<T>(a: array<T>, key: T -> int)
    modifies a
    ensures a[..] == SortBy(old(a[..]), key)
  {
    ghost var s := a[..];
    var i := 0;
    while i < a.Length
      invariant 0 <= i <= a.Length
      invariant a[..i] == SortBy(s[..i], key)
      invariant a[i..] == s[i..]
    {
      assert a[i] == s[i] && a[i + 1..] == s[i + 1..];
      InsertInto(a, i, key);
      assert s[..i + 1] == s[..i] + [s[i]];
      i := i + 1;
    }
    assert a[..] == a[..a.Length] && s == s[..a.Length];
  }
}
