/** Sorting and partial sorting by a strict total order. */
module Ranking {

  ghost predicate StrictTotal<T(!new)>(less: (T, T) -> bool)
  {
    && (forall a, b :: less(a, b) ==> !less(b, a))
    && (forall a, b, c :: less(a, b) && less(b, c) ==> less(a, c))
    && (forall a, b :: a != b ==> less(a, b) || less(b, a))
  }

  /** No later element precedes an earlier one. */
  ghost predicate Ranked<T>(less: (T, T) -> bool, v: seq<T>)
  {
    forall i, j | 0 <= i < j < |v| :: !less(v[j], v[i])
  }

  /** No element of `b` precedes one of `a`. */
  ghost predicate AllBefore<T(!new)>(less: (T, T) -> bool, a: seq<T>, b: seq<T>)
  {
    forall x, y | x in a && y in b :: !less(y, x)
  }

  function Insert<T>(less: (T, T) -> bool, x: T, v: seq<T>): seq<T>
  {
    if v == [] then [x] else if less(v[0], x) then [v[0]] + Insert(less, x, v[1..]) else [x] + v
  }

  /** The elements of `v` in order. */
  function Sort<T>(less: (T, T) -> bool, v: seq<T>): seq<T>
  {
    if v == [] then [] else Insert(less, v[0], Sort(less, v[1..]))
  }

  function Take<T>(v: seq<T>, k: nat): seq<T>
  {
    if k < |v| then v[..k] else v
  }

  lemma ConsRanks<T(!new)>(less: (T, T) -> bool, x: T, v: seq<T>)
    requires Ranked(less, v) && forall i | 0 <= i < |v| :: !less(v[i], x)
    ensures Ranked(less, [x] + v)
  {
  }

  lemma NotBefore<T(!new)>(less: (T, T) -> bool, a: T, b: T, c: T)
    requires StrictTotal(less) && !less(b, a) && !less(c, b)
    ensures !less(c, a)
  {
  }

  lemma {:induction false} InsertMultiset<T>(less: (T, T) -> bool, x: T, v: seq<T>)
    ensures multiset(Insert(less, x, v)) == multiset(v) + multiset{x}
  {
    if v != [] && less(v[0], x) {
      InsertMultiset(less, x, v[1..]);
      assert v == [v[0]] + v[1..];
    }
  }

  lemma {:induction false} InsertRanks<T(!new)>(less: (T, T) -> bool, x: T, v: seq<T>)
    requires StrictTotal(less) && Ranked(less, v)
    ensures Ranked(less, Insert(less, x, v))
  {
    if v != [] && less(v[0], x) {
      InsertRanks(less, x, v[1..]);
      var r := Insert(less, x, v[1..]);
      InsertMultiset(less, x, v[1..]);
      forall i | 0 <= i < |r| ensures !less(r[i], v[0]) {
        assert r[i] in multiset(r);
        assert r[i] == x || r[i] in v[1..];
      }
      ConsRanks(less, v[0], r);
    } else if v != [] {
      forall i | 0 <= i < |v| ensures !less(v[i], x) {
        if i > 0 {
          NotBefore(less, x, v[0], v[i]);
        }
      }
      ConsRanks(less, x, v);
    }
  }

  lemma {:induction false} SortRanks<T(!new)>(less: (T, T) -> bool, v: seq<T>)
    requires StrictTotal(less)
    ensures Ranked(less, Sort(less, v)) && multiset(Sort(less, v)) == multiset(v)
  {
    if v != [] {
      assert v == [v[0]] + v[1..];
      SortRanks(less, v[1..]);
      InsertRanks(less, v[0], Sort(less, v[1..]));
      InsertMultiset(less, v[0], Sort(less, v[1..]));
    }
  }

  lemma NothingBeforeFirst<T(!new)>(less: (T, T) -> bool, v: seq<T>, x: T)
    requires StrictTotal(less) && Ranked(less, v) && x in v
    ensures !less(x, v[0])
  {
    var i :| 0 <= i < |v| && v[i] == x;
  }

  lemma SameFirst<T(!new)>(less: (T, T) -> bool, a: seq<T>, b: seq<T>)
    requires StrictTotal(less) && Ranked(less, a) && Ranked(less, b) && multiset(a) == multiset(b) && a != []
    ensures b != [] && a[0] == b[0]
    ensures multiset(a[1..]) == multiset(b[1..])
  {
    assert a[0] in multiset(b);
    assert b[0] in multiset(a);
    NothingBeforeFirst(less, a, b[0]);
    NothingBeforeFirst(less, b, a[0]);
    assert a == [a[0]] + a[1..] && b == [b[0]] + b[1..];
    assert multiset(a[1..]) == multiset(a) - multiset{a[0]};
    assert multiset(b[1..]) == multiset(b) - multiset{b[0]};
  }

  /** The order leaves no choice: two ranked lists of the same elements are equal. */
  lemma {:induction false} RankedUnique<T(!new)>(less: (T, T) -> bool, a: seq<T>, b: seq<T>)
    requires StrictTotal(less) && Ranked(less, a) && Ranked(less, b) && multiset(a) == multiset(b)
    ensures a == b
  {
    if a != [] {
      SameFirst(less, a, b);
      RankedUnique(less, a[1..], b[1..]);
      assert a == [a[0]] + a[1..] && b == [b[0]] + b[1..];
    } else {
      assert |b| == |multiset(b)|;
    }
  }

  lemma ConcatRanks<T(!new)>(less: (T, T) -> bool, a: seq<T>, b: seq<T>)
    requires Ranked(less, a) && Ranked(less, b) && AllBefore(less, a, b)
    ensures Ranked(less, a + b)
  {
    forall i, j | 0 <= i < j < |a + b| ensures !less((a + b)[j], (a + b)[i]) {
      if i < |a| <= j {
        assert a[i] in a && b[j - |a|] in b;
      }
    }
  }

  /** When all of `a` comes before all of `b`, sorting them apart sorts them together. */
  lemma SortConcat<T(!new)>(less: (T, T) -> bool, a: seq<T>, b: seq<T>, both: seq<T>)
    requires StrictTotal(less) && AllBefore(less, a, b) && multiset(both) == multiset(a) + multiset(b)
    ensures Sort(less, both) == Sort(less, a) + Sort(less, b)
  {
    SortRanks(less, a);
    SortRanks(less, b);
    SortRanks(less, both);
    var sa, sb := Sort(less, a), Sort(less, b);
    forall x, y | x in sa && y in sb ensures !less(y, x) {
      assert x in multiset(sa) && y in multiset(sb);
      assert x in a && y in b;
    }
    ConcatRanks(less, sa, sb);
    RankedUnique(less, Sort(less, both), sa + sb);
  }

  /** std::partial_sort: the first `k` are in order and nothing after them precedes them; the
      order of the rest is open. */
  ghost predicate PartiallySorted<T(!new)>(less: (T, T) -> bool, v: seq<T>, w: seq<T>, k: nat)
  {
    && k <= |w| && multiset(w) == multiset(v)
    && Ranked(less, w[..k]) && AllBefore(less, w[..k], w[k..])
  }

  /** Whatever a partial sort does with the rest, its first part is that of the full sort. */
  lemma PartialSortPrefix<T(!new)>(less: (T, T) -> bool, v: seq<T>, w: seq<T>, k: nat)
    requires StrictTotal(less) && PartiallySorted(less, v, w, k)
    ensures w[..k] == Take(Sort(less, v), k)
  {
    var a, b := w[..k], w[k..];
    assert w == a + b;
    SortConcat(less, a, b, v);
    SortRanks(less, a);
    RankedUnique(less, a, Sort(less, a));
    SortRanks(less, v);
    assert |Sort(less, v)| == |multiset(Sort(less, v))| == |w|;
  }

  /** The first `k` of the sorted elements, and the others: nothing left out precedes anything
      taken. */
  lemma SortSplits<T(!new)>(less: (T, T) -> bool, v: seq<T>, k: nat) returns (best: seq<T>, rest: seq<T>)
    requires StrictTotal(less)
    ensures best == Take(Sort(less, v), k) && multiset(best) + multiset(rest) == multiset(v)
    ensures rest != [] ==> |best| == k
    ensures Ranked(less, best) && AllBefore(less, best, rest)
  {
    SortRanks(less, v);
    var sorted := Sort(less, v);
    var n := if k < |sorted| then k else |sorted|;
    best, rest := sorted[..n], sorted[n..];
    assert sorted == best + rest;
    SplitRanked(less, best, rest);
  }

  lemma SplitRanked<T(!new)>(less: (T, T) -> bool, a: seq<T>, b: seq<T>)
    requires Ranked(less, a + b)
    ensures Ranked(less, a) && AllBefore(less, a, b)
  {
    forall i, j | 0 <= i < j < |a| ensures !less(a[j], a[i]) {
      assert (a + b)[i] == a[i] && (a + b)[j] == a[j];
    }
    forall x, y | x in a && y in b ensures !less(y, x) {
      var i :| 0 <= i < |a| && a[i] == x;
      var j :| 0 <= j < |b| && b[j] == y;
      assert (a + b)[i] == x && (a + b)[|a| + j] == y;
    }
  }

  /** The index of an element of `v[i..]` that nothing there precedes. */
  method IndexOfFirst<T(!new)>(less: (T, T) -> bool, v: seq<T>, i: nat) returns (m: nat)
    requires StrictTotal(less) && i < |v|
    ensures i <= m < |v| && forall j | i <= j < |v| :: !less(v[j], v[m])
  {
    m := i;
    for j := i to |v|
      invariant i <= m < |v|
      invariant forall k | i <= k < j :: !less(v[k], v[m])
    {
      if less(v[j], v[m]) {
        m := j;
      }
    }
  }

  lemma SwapKeeps<T>(v: seq<T>, i: nat, m: nat)
    requires i <= m < |v|
    ensures multiset(v[i := v[m]][m := v[i]]) == multiset(v)
  {
  }

  /** Selection of the first `k` elements, one after the other. */
  method PartialSort<T(!new)>(less: (T, T) -> bool, v: seq<T>, k: nat) returns (w: seq<T>)
    requires StrictTotal(less) && k <= |v|
    ensures PartiallySorted(less, v, w, k)
  {
    w := v;
    for i := 0 to k
      invariant |w| == |v| && multiset(w) == multiset(v)
      invariant forall a, b | 0 <= a < i && a < b < |w| :: !less(w[b], w[a])
    {
      var m := IndexOfFirst(less, w, i);
      SwapKeeps(w, i, m);
      w := w[i := w[m]][m := w[i]];
    }
  }
}
