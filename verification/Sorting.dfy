/** A stable sort by descending key: Python's `sort(reverse=True)`, JavaScript's
    `sort((a, b) => key(b) - key(a))`. */
module Sorting {

  function SortDesc<T>(s: seq<T>, key: T -> real): seq<T> {
    if s == [] then [] else Insert(SortDesc(s[..|s| - 1], key), s[|s| - 1], key)
  }

  /** Behind everything that ranks at least as high. */
  function Insert<T>(sorted: seq<T>, x: T, key: T -> real): seq<T> {
    if sorted == [] || key(sorted[|sorted| - 1]) >= key(x) then sorted + [x]
    else Insert(sorted[..|sorted| - 1], x, key) + [sorted[|sorted| - 1]]
  }

  predicate Descending<T>(s: seq<T>, key: T -> real) {
    forall i, j :: 0 <= i < j < |s| ==> key(s[i]) >= key(s[j])
  }

  /** The elements of one rank, in order. */
  function OfRank<T>(s: seq<T>, key: T -> real, rank: real): seq<T> {
    if s == [] then []
    else
      var before, x := OfRank(s[..|s| - 1], key, rank), s[|s| - 1];
      if key(x) == rank then before + [x] else before
  }

  predicate AllAtLeast<T>(s: seq<T>, key: T -> real, rank: real) {
    forall i :: 0 <= i < |s| ==> key(s[i]) >= rank
  }

  lemma {:induction false} InsertAtLeast<T>(sorted: seq<T>, x: T, key: T -> real, rank: real)
    requires AllAtLeast(sorted, key, rank) && key(x) >= rank
    ensures AllAtLeast(Insert(sorted, x, key), key, rank)
  {
    if sorted != [] && key(sorted[|sorted| - 1]) < key(x) {
      InsertAtLeast(sorted[..|sorted| - 1], x, key, rank);
    }
  }

  lemma {:induction false} InsertAdds<T>(sorted: seq<T>, x: T, key: T -> real)
    ensures multiset(Insert(sorted, x, key)) == multiset(sorted) + multiset{x}
    ensures |Insert(sorted, x, key)| == |sorted| + 1
  {
    if sorted != [] && key(sorted[|sorted| - 1]) < key(x) {
      var init, last := sorted[..|sorted| - 1], sorted[|sorted| - 1];
      InsertAdds(init, x, key);
      assert sorted == init + [last];
    }
  }

  lemma {:induction false} InsertSorts<T>(sorted: seq<T>, x: T, key: T -> real)
    requires Descending(sorted, key)
    ensures Descending(Insert(sorted, x, key), key)
  {
    if sorted != [] && key(sorted[|sorted| - 1]) < key(x) {
      var init, last := sorted[..|sorted| - 1], sorted[|sorted| - 1];
      InsertSorts(init, x, key);
      InsertAtLeast(init, x, key, key(last));
    }
  }

  lemma {:induction false} InsertIsStable<T>(sorted: seq<T>, x: T, key: T -> real, rank: real)
    requires Descending(sorted, key)
    ensures OfRank(Insert(sorted, x, key), key, rank) == OfRank(sorted + [x], key, rank)
  {
    assert (sorted + [x])[..|sorted|] == sorted;
    if sorted != [] && key(sorted[|sorted| - 1]) < key(x) {
      var init, last := sorted[..|sorted| - 1], sorted[|sorted| - 1];
      var r := Insert(init, x, key);
      InsertIsStable(init, x, key, rank);
      assert (r + [last])[..|r|] == r && (init + [x])[..|init|] == init;
    }
  }

  /** Sorted, and the same elements; */
  lemma {:induction false} SortDescSorts<T>(s: seq<T>, key: T -> real)
    ensures var r := SortDesc(s, key); multiset(r) == multiset(s) && |r| == |s| && Descending(r, key)
  {
    if s != [] {
      var init, last := s[..|s| - 1], s[|s| - 1];
      SortDescSorts(init, key);
      InsertSorts(SortDesc(init, key), last, key);
      InsertAdds(SortDesc(init, key), last, key);
      assert s == init + [last];
    }
  }

  /** elements of equal rank keep their order. */
  lemma {:induction false} SortDescIsStable<T>(s: seq<T>, key: T -> real, rank: real)
    ensures OfRank(SortDesc(s, key), key, rank) == OfRank(s, key, rank)
  {
    if s != [] {
      var init, last := s[..|s| - 1], s[|s| - 1];
      var t := SortDesc(init, key);
      SortDescIsStable(init, key, rank);
      SortDescSorts(init, key);
      InsertIsStable(t, last, key, rank);
      assert (t + [last])[..|t|] == t;
    }
  }

  // -- Permutations ------------------------------------------------------------------

  predicate DistinctBy<T>(s: seq<T>, id: T -> string) {
    forall i, j :: 0 <= i < j < |s| ==> id(s[i]) != id(s[j])
  }

  lemma {:induction false} TwoPlaces<T>(s: seq<T>, x: T) returns (i: nat, j: nat)
    requires multiset(s)[x] >= 2
    ensures i < j < |s| && s[i] == s[j] == x
  {
    var n := |s| - 1;
    assert s == s[..n] + [s[n]];
    if s[n] == x {
      assert x in multiset(s[..n]);
      j := n;
      i :| 0 <= i < n && s[i] == x;
    } else {
      i, j := TwoPlaces(s[..n], x);
    }
  }

  lemma CountsTwo<T>(s: seq<T>, i: nat, j: nat)
    requires i < j < |s| && s[i] == s[j]
    ensures multiset(s)[s[i]] >= 2
  {
    assert s == s[..i] + [s[i]] + s[i + 1..j] + [s[j]] + s[j + 1..];
  }

  /** Reordering keeps identities distinct. */
  lemma PermutationStaysDistinct<T>(a: seq<T>, b: seq<T>, id: T -> string)
    requires multiset(a) == multiset(b) && DistinctBy(a, id)
    ensures DistinctBy(b, id)
  {
    forall i, j | 0 <= i < j < |b| ensures id(b[i]) != id(b[j]) {
      assert b[i] in multiset(a) && b[j] in multiset(a);
      if b[i] == b[j] {
        CountsTwo(b, i, j);
        var m, n := TwoPlaces(a, b[i]);
        assert false;
      }
      var m :| 0 <= m < |a| && a[m] == b[i];
      var n :| 0 <= n < |a| && a[n] == b[j];
      assert m != n;
    }
  }
}
