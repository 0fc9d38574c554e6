/** Reciprocal rank fusion of ranked result lists, and the boosted ranking built on it. */
module RankFusion {
  import opened Sorting

  /** What the item of rank `i + 1` contributes. */
  function Gain(k: int, i: nat): real
    requires k + i + 1 != 0
  {
    1.0 / (k + i + 1) as real
  }

  lemma GainIsReciprocal(k: int, i: nat)
    requires k + i + 1 != 0
    ensures Gain(k, i) * (k + i + 1) as real == 1.0
  {
  }

  /** No rank of the list makes the denominator zero. */
  predicate NoZeroRank<T>(list: seq<T>, k: int) {
    k >= 0 || k + |list| < 0
  }

  /** The sum of `1 / (k + rank)` over the places of `key` in one list. */
  function ListScore<T>(list: seq<T>, keyOf: T -> string, k: int, key: string): real
    requires NoZeroRank(list, k)
  {
    if list == [] then 0.0
    else
      var n := |list| - 1;
      ListScore(list[..n], keyOf, k, key) + (if keyOf(list[n]) == key then Gain(k, n) else 0.0)
  }

  predicate NoZeroRanks<T>(lists: seq<seq<T>>, k: int) {
    forall l :: 0 <= l < |lists| ==> NoZeroRank(lists[l], k)
  }

  /** and over all lists. */
  function Score<T>(lists: seq<seq<T>>, keyOf: T -> string, k: int, key: string): real
    requires NoZeroRanks(lists, k)
  {
    if lists == [] then 0.0
    else Score(lists[..|lists| - 1], keyOf, k, key) + ListScore(lists[|lists| - 1], keyOf, k, key)
  }

  function Flatten<T>(lists: seq<seq<T>>): seq<T> {
    if lists == [] then [] else Flatten(lists[..|lists| - 1]) + lists[|lists| - 1]
  }

  /** The first item with each key, in order of appearance. */
  function FirstSeen<T>(items: seq<T>, keyOf: T -> string): seq<T> {
    if items == [] then []
    else
      var before, x := FirstSeen(items[..|items| - 1], keyOf), items[|items| - 1];
      if HasKey(before, keyOf, keyOf(x)) then before else before + [x]
  }

  /** Keys, in order of insertion, with the item first seen and the score. */
  datatype Fused<T> = Fused(order: seq<string>, item: map<string, T>, score: map<string, real>)

  ghost predicate Mirrors<T>(f: Fused<T>, firsts: seq<T>, keyOf: T -> string) {
    && |f.order| == |firsts|
    && (forall i :: 0 <= i < |firsts| ==>
          f.order[i] == keyOf(firsts[i]) && f.order[i] in f.item && f.item[f.order[i]] == firsts[i])
    && (forall key :: key in f.score <==> key in f.order)
    && (forall i, j :: 0 <= i < j < |f.order| ==> f.order[i] != f.order[j])
  }

  /** The score held for a key so far. */
  function Held<T>(f: Fused<T>, key: string): real {
    if key in f.score then f.score[key] else 0.0
  }

  /** `acc[key] = …`: a key seen before gains `inc`, a new one is entered with its item. */
  function Add<T>(f: Fused<T>, item: T, key: string, inc: real): Fused<T> {
    if key in f.score then f.(score := f.score[key := f.score[key] + inc])
    else Fused(f.order + [key], f.item[key := item], f.score[key := inc])
  }

  lemma KnownKey<T>(f: Fused<T>, firsts: seq<T>, keyOf: T -> string, key: string)
    requires Mirrors(f, firsts, keyOf)
    ensures key in f.score <==> HasKey(firsts, keyOf, key)
  {
    if key in f.score {
      var i :| 0 <= i < |f.order| && f.order[i] == key;
      assert keyOf(firsts[i]) == key;
    }
    if HasKey(firsts, keyOf, key) {
      var i :| 0 <= i < |firsts| && keyOf(firsts[i]) == key;
      assert f.order[i] == key;
    }
  }

  lemma AddNew<T>(f: Fused<T>, firsts: seq<T>, item: T, keyOf: T -> string, inc: real)
    requires Mirrors(f, firsts, keyOf) && keyOf(item) !in f.score
    ensures Mirrors(Add(f, item, keyOf(item), inc), firsts + [item], keyOf)
  {}

  lemma AddMirrors<T>(f: Fused<T>, items: seq<T>, item: T, keyOf: T -> string, inc: real)
    requires Mirrors(f, FirstSeen(items, keyOf), keyOf)
    ensures Mirrors(Add(f, item, keyOf(item), inc), FirstSeen(items + [item], keyOf), keyOf)
  {
    assert (items + [item])[..|items|] == items;
    var firsts := FirstSeen(items, keyOf);
    assert FirstSeen(items + [item], keyOf) == if HasKey(firsts, keyOf, keyOf(item)) then firsts else firsts + [item];
    hide FirstSeen, HasKey;
    KnownKey(f, firsts, keyOf, keyOf(item));
    if keyOf(item) !in f.score {
      hide Mirrors;
      AddNew(f, firsts, item, keyOf, inc);
    }
  }

  lemma AddHolds<T>(f: Fused<T>, item: T, key: string, inc: real)
    ensures forall other :: Held(Add(f, item, key, inc), other)
                         == Held(f, other) + (if other == key then inc else 0.0)
  {}

  /** One list, best first, added to what the lists before it gave. */
  method FuseList<T>(f0: Fused<T>, ghost done: seq<seq<T>>, list: seq<T>, keyOf: T -> string, k: int)
    returns (f: Fused<T>)
    requires NoZeroRanks(done, k) && NoZeroRank(list, k)
    requires Mirrors(f0, FirstSeen(Flatten(done), keyOf), keyOf)
    requires forall key :: Held(f0, key) == Score(done, keyOf, k, key)
    ensures Mirrors(f, FirstSeen(Flatten(done) + list, keyOf), keyOf)
    ensures forall key :: Held(f, key) == Score(done, keyOf, k, key) + ListScore(list, keyOf, k, key)
  {
    hide Mirrors, FirstSeen, Flatten, Score, Add, Held, Gain;
    f := f0;
    assert Flatten(done) + list[..0] == Flatten(done);
    for idx := 0 to |list|
      invariant Mirrors(f, FirstSeen(Flatten(done) + list[..idx], keyOf), keyOf)
      invariant forall key :: Held(f, key) == Score(done, keyOf, k, key) + ListScore(list[..idx], keyOf, k, key)
    {
      var item := list[idx];
      var inc := Gain(k, idx);
      AddMirrors(f, Flatten(done) + list[..idx], item, keyOf, inc);
      AddHolds(f, item, keyOf(item), inc);
      assert Flatten(done) + list[..idx + 1] == (Flatten(done) + list[..idx]) + [item];
      assert list[..idx + 1][..idx] == list[..idx];
      f := Add(f, item, keyOf(item), inc);
    }
    assert list[..|list|] == list;
  }

  method ReciprocalRankFusion<T>(lists: seq<seq<T>>, keyOf: T -> string, k: int) returns (f: Fused<T>)
    requires NoZeroRanks(lists, k)
    ensures Mirrors(f, FirstSeen(Flatten(lists), keyOf), keyOf)
    ensures forall key :: Held(f, key) == Score(lists, keyOf, k, key)
  {
    f := Fused([], map[], map[]);
    for l := 0 to |lists|
      invariant Mirrors(f, FirstSeen(Flatten(lists[..l]), keyOf), keyOf)
      invariant forall key :: Held(f, key) == Score(lists[..l], keyOf, k, key)
    {
      f := FuseList(f, lists[..l], lists[l], keyOf, k);
      assert lists[..l + 1][..l] == lists[..l];
      hide Mirrors, FirstSeen, ListScore, Held;
    }
    assert lists[..|lists|] == lists;
  }

  // -- The order of the lists does not matter ------------------------------------------------------

  lemma {:induction false} ScoreWithout<T>(lists: seq<seq<T>>, keyOf: T -> string, k: int, key: string, i: nat)
    requires NoZeroRanks(lists, k) && i < |lists|
    ensures NoZeroRanks(lists[..i] + lists[i + 1..], k)
    ensures Score(lists, keyOf, k, key)
         == Score(lists[..i] + lists[i + 1..], keyOf, k, key) + ListScore(lists[i], keyOf, k, key)
  {
    var n := |lists| - 1;
    var without := lists[..i] + lists[i + 1..];
    if i == n {
      assert without == lists[..n];
    } else {
      ScoreWithout(lists[..n], keyOf, k, key, i);
      assert without[..n - 1] == lists[..n][..i] + lists[..n][i + 1..];
      assert without[n - 1] == lists[n];
    }
  }

  lemma TakeOut<T>(s: seq<T>, i: nat)
    requires i < |s|
    ensures multiset(s) == multiset(s[..i] + s[i + 1..]) + multiset{s[i]}
  {
    assert s == s[..i] + ([s[i]] + s[i + 1..]);
  }

  /** The last of `a` stands somewhere in its permutation `b`. */
  lemma FindLast<T>(a: seq<T>, b: seq<T>) returns (i: nat)
    requires multiset(a) == multiset(b) && a != []
    ensures i < |b| && b[i] == a[|a| - 1] && multiset(a[..|a| - 1]) == multiset(b[..i] + b[i + 1..])
  {
    var n := |a| - 1;
    assert a[n] in multiset(b);
    i :| 0 <= i < |b| && b[i] == a[n];
    TakeOut(a, n);
    TakeOut(b, i);
    assert a[..n] + a[n + 1..] == a[..n];
    SameRest(multiset(a[..n]), multiset(b[..i] + b[i + 1..]), a[n]);
  }

  lemma SameRest<T>(a: multiset<T>, b: multiset<T>, x: T)
    requires a + multiset{x} == b + multiset{x}
    ensures a == b
  {
    assert a + multiset{x} - multiset{x} == a;
    assert b + multiset{x} - multiset{x} == b;
  }

  /** A score depends on which lists there are, not on their order. */
  lemma {:induction false} ScoreOrderIndependent<T>(a: seq<seq<T>>, b: seq<seq<T>>, keyOf: T -> string, k: int, key: string)
    requires NoZeroRanks(a, k) && NoZeroRanks(b, k)
    requires multiset(a) == multiset(b)
    ensures Score(a, keyOf, k, key) == Score(b, keyOf, k, key)
  {
    if a == [] {
      assert |multiset(b)| == 0;
    } else {
      hide ListScore;
      var i := FindLast(a, b);
      ScoreWithout(b, keyOf, k, key, i);
      ScoreOrderIndependent(a[..|a| - 1], b[..i] + b[i + 1..], keyOf, k, key);
    }
  }

  // -- The boosted ranking ---------------------------------------------------------------------------

  /** A search hit; `score` is what the fusion writes into it. */
  class SearchHit {
    const kind: string
    const id: string
    var score: real

    constructor (kind: string, id: string)
      ensures this.kind == kind && this.id == id
    {
      this.kind, this.id, score := kind, id, 0.0;
    }
  }

  function KeyOf(hit: SearchHit): string {
    hit.kind + ":" + hit.id
  }

  /** Hits of different types or ids have different keys, since no type holds a colon. */
  lemma KeysDiffer(a: SearchHit, b: SearchHit)
    requires ':' !in a.kind && ':' !in b.kind
    ensures KeyOf(a) == KeyOf(b) <==> a.kind == b.kind && a.id == b.id
  {
    if KeyOf(a) == KeyOf(b) {
      assert KeyOf(a)[|a.kind|] == ':' == KeyOf(b)[|b.kind|];
      assert KeyOf(a)[..|a.kind|] == a.kind && KeyOf(a)[|a.kind| + 1..] == a.id;
      assert KeyOf(b)[..|b.kind|] == b.kind && KeyOf(b)[|b.kind| + 1..] == b.id;
      assert forall i :: 0 <= i < |a.kind| ==> KeyOf(a)[i] == a.kind[i];
      assert forall i :: 0 <= i < |b.kind| ==> KeyOf(b)[i] == b.kind[i];
    }
  }

  type Ranked = (SearchHit, real)

  function Hits(list: seq<Ranked>): seq<SearchHit> {
    seq(|list|, i requires 0 <= i < |list| => list[i].0)
  }

  function AllHits(lists: seq<seq<Ranked>>): (r: seq<seq<SearchHit>>)
    ensures |r| == |lists| && forall l :: 0 <= l < |lists| ==> r[l] == Hits(lists[l])
  {
    seq(|lists|, l requires 0 <= l < |lists| => Hits(lists[l]))
  }

  /** The boost that comes last in the lists for a key, 0 for none. */
  function BoostOf(entries: seq<Ranked>, key: string): real {
    if entries == [] then 0.0
    else
      var (hit, boost) := entries[|entries| - 1];
      if KeyOf(hit) == key then boost else BoostOf(entries[..|entries| - 1], key)
  }

  predicate IsLastOf(entries: seq<Ranked>, key: string, i: int) {
    && 0 <= i < |entries| && KeyOf(entries[i].0) == key
    && forall j :: i < j < |entries| ==> KeyOf(entries[j].0) != key
  }

  /** It is that of the last entry with the key. */
  lemma {:induction false} BoostIsLast(entries: seq<Ranked>, key: string)
    ensures forall i :: IsLastOf(entries, key, i) ==> BoostOf(entries, key) == entries[i].1
    ensures (forall i :: !IsLastOf(entries, key, i)) ==> BoostOf(entries, key) == 0.0
  {
    hide KeyOf;
    if entries != [] {
      var n := |entries| - 1;
      BoostIsLast(entries[..n], key);
      if KeyOf(entries[n].0) == key {
        assert IsLastOf(entries, key, n);
      } else {
        assert forall i :: IsLastOf(entries, key, i) <==> IsLastOf(entries[..n], key, i);
      }
    }
  }

  const RRF_K_DEFAULT := 60

  /** The score of the final ranking. */
  function FinalScore(lists: seq<seq<Ranked>>, key: string): real {
    Score(AllHits(lists), KeyOf, RRF_K_DEFAULT, key) * (1.0 + BoostOf(Flatten(lists), key))
  }

  /** The boosts as the dictionary comprehension collects them: a later entry replaces an earlier. */
  method CollectBoosts(entries: seq<Ranked>) returns (boosts: map<string, real>)
    ensures forall key :: (if key in boosts then boosts[key] else 0.0) == BoostOf(entries, key)
  {
    boosts := map[];
    for i := 0 to |entries|
      invariant forall key :: (if key in boosts then boosts[key] else 0.0) == BoostOf(entries[..i], key)
    {
      assert entries[..i + 1][..i] == entries[..i];
      boosts := boosts[KeyOf(entries[i].0) := entries[i].1];
    }
    assert entries[..|entries|] == entries;
  }

  /** The scores written into the fused hits, in order of insertion. */
  method WriteScores(ghost lists: seq<seq<Ranked>>, fused: Fused<SearchHit>, boosts: map<string, real>,
                     ghost firsts: seq<SearchHit>)
    returns (pairs: seq<Ranked>)
    requires Mirrors(fused, firsts, KeyOf)
    requires forall key :: Held(fused, key) == Score(AllHits(lists), KeyOf, RRF_K_DEFAULT, key)
    requires forall key :: (if key in boosts then boosts[key] else 0.0) == BoostOf(Flatten(lists), key)
    modifies set hit | hit in firsts
    ensures |pairs| == |firsts|
    ensures forall j :: 0 <= j < |firsts| ==>
      pairs[j].0 == firsts[j] && firsts[j].score == pairs[j].1 == FinalScore(lists, KeyOf(firsts[j]))
  {
    hide Score, BoostOf, AllHits, Flatten;
    pairs := [];
    for i := 0 to |fused.order|
      invariant |pairs| == i
      invariant forall j :: 0 <= j < i ==>
        pairs[j].0 == firsts[j] && firsts[j].score == pairs[j].1 == FinalScore(lists, KeyOf(firsts[j]))
    {
      var key := fused.order[i];
      var hit := fused.item[key];
      assert hit == firsts[i] && key == KeyOf(hit);
      hit.score := fused.score[key] * (1.0 + if key in boosts then boosts[key] else 0.0);
      pairs := pairs + [(hit, hit.score)];
    }
  }

  function ByScore(): Ranked -> real { (p: Ranked) => p.1 }

  function ByFinalScore(lists: seq<seq<Ranked>>): SearchHit -> real {
    (hit: SearchHit) => FinalScore(lists, KeyOf(hit))
  }

  /** The final ranking: the first hit of every key, by descending final score. */
  function Ranking(lists: seq<seq<Ranked>>): seq<SearchHit> {
    SortDesc(FirstSeen(Flatten(AllHits(lists)), KeyOf), ByFinalScore(lists))
  }

  method RrfFuse(lists: seq<seq<Ranked>>) returns (out: seq<SearchHit>)
    modifies set hit | hit in FirstSeen(Flatten(AllHits(lists)), KeyOf)
    ensures out == Ranking(lists)
    ensures forall i :: 0 <= i < |out| ==> out[i].score == FinalScore(lists, KeyOf(out[i]))
  {
    var hitLists := AllHits(lists);
    var boosts := CollectBoosts(Flatten(lists));
    var fused := ReciprocalRankFusion(hitLists, KeyOf, RRF_K_DEFAULT);
    ghost var firsts := FirstSeen(Flatten(hitLists), KeyOf);
    hide FirstSeen, Flatten, Score, BoostOf, FinalScore, SortDesc, AllHits, Mirrors, Held, Ranking;
    var pairs := WriteScores(lists, fused, boosts, firsts);
    SortedPairs(lists, pairs, firsts);
    out := Hits(SortDesc(pairs, ByScore()));
  }

  /** Sorting the scored hits gives the ranking. */
  lemma SortedPairs(lists: seq<seq<Ranked>>, pairs: seq<Ranked>, firsts: seq<SearchHit>)
    requires firsts == FirstSeen(Flatten(AllHits(lists)), KeyOf) && |pairs| == |firsts|
    requires forall j :: 0 <= j < |firsts| ==>
      pairs[j].0 == firsts[j] && pairs[j].1 == FinalScore(lists, KeyOf(firsts[j]))
    ensures Hits(SortDesc(pairs, ByScore())) == Ranking(lists)
    ensures forall i :: 0 <= i < |Ranking(lists)| ==> Ranking(lists)[i] in firsts
  {
    hide FirstSeen, Flatten, FinalScore, SortDesc, AllHits;
    assert Hits(pairs) == firsts;
    SortHits(pairs, ByFinalScore(lists));
    SortDescSorts(firsts, ByFinalScore(lists));
    SameMembers(Ranking(lists), firsts);
  }

  /** Every pair carries the key of its hit. */
  predicate Scored(pairs: seq<Ranked>, key: SearchHit -> real) {
    forall i :: 0 <= i < |pairs| ==> pairs[i].1 == key(pairs[i].0)
  }

  lemma {:induction false} SortHits(pairs: seq<Ranked>, key: SearchHit -> real)
    requires Scored(pairs, key)
    ensures Scored(SortDesc(pairs, ByScore()), key)
    ensures Hits(SortDesc(pairs, ByScore())) == SortDesc(Hits(pairs), key)
  {
    if pairs != [] {
      var n := |pairs| - 1;
      SortHits(pairs[..n], key);
      assert Hits(pairs[..n]) == Hits(pairs)[..n];
      InsertHit(SortDesc(pairs[..n], ByScore()), pairs[n], key);
    }
  }

  lemma {:induction false} InsertHit(sorted: seq<Ranked>, p: Ranked, key: SearchHit -> real)
    requires Scored(sorted, key) && p.1 == key(p.0)
    ensures Scored(Insert(sorted, p, ByScore()), key)
    ensures Hits(Insert(sorted, p, ByScore())) == Insert(Hits(sorted), p.0, key)
  {
    var n := |sorted| - 1;
    assert sorted != [] ==> ByScore()(sorted[n]) == sorted[n].1 == key(Hits(sorted)[n]);
    if sorted == [] || sorted[n].1 >= p.1 {
      assert Hits(sorted + [p]) == Hits(sorted) + [p.0];
      assert Insert(sorted, p, ByScore()) == sorted + [p];
    } else {
      InsertHit(sorted[..n], p, key);
      assert Hits(sorted[..n]) == Hits(sorted)[..n];
      var r := Insert(sorted[..n], p, ByScore());
      assert Insert(sorted, p, ByScore()) == r + [sorted[n]];
      assert Hits(r + [sorted[n]]) == Hits(r) + [sorted[n].0];
    }
  }

  lemma SameMembers<T>(a: seq<T>, b: seq<T>)
    requires multiset(a) == multiset(b)
    ensures forall i :: 0 <= i < |a| ==> a[i] in b
  {
    forall i | 0 <= i < |a| ensures a[i] in b {
      assert a[i] in multiset(b);
    }
  }

  /** Every key found stands in the ranking once, with one of its hits, and the scores descend. */
  lemma RankingIsFair(lists: seq<seq<Ranked>>)
    ensures OneForEachKey(Flatten(AllHits(lists)), Ranking(lists), KeyOf)
    ensures Descending(Ranking(lists), ByFinalScore(lists))
  {
    var items := Flatten(AllHits(lists));
    var firsts := FirstSeen(items, KeyOf);
    FirstSeenAmong(items, KeyOf);
    hide FirstSeen, Flatten, AllHits, ByFinalScore, SortDesc;
    SortDescSorts(firsts, ByFinalScore(lists));
    var ranking := Ranking(lists);
    SameMembers(firsts, ranking);
    SameMembers(ranking, firsts);
    PermutationStaysDistinct(firsts, ranking, KeyOf);
    forall j | 0 <= j < |ranking| ensures ranking[j] in items {
      assert ranking[j] in firsts;
    }
    forall i | 0 <= i < |items| ensures HasKey(ranking, KeyOf, KeyOf(items[i])) {
      assert HasKey(firsts, KeyOf, KeyOf(items[i]));
      var j :| 0 <= j < |firsts| && KeyOf(firsts[j]) == KeyOf(items[i]);
      assert firsts[j] in ranking;
    }
  }

  // -- Dominance -------------------------------------------------------------------------------------

  /** Wherever `y` stands in the list, it stands once and some `x` stands before it. */
  predicate Outranks<T>(list: seq<T>, keyOf: T -> string, x: string, y: string) {
    forall j :: 0 <= j < |list| && keyOf(list[j]) == y ==>
      && HasKey(list[..j], keyOf, x)
      && forall i :: 0 <= i < |list| && keyOf(list[i]) == y ==> i == j
  }

  lemma {:induction false} AbsentScore<T>(list: seq<T>, keyOf: T -> string, k: nat, key: string)
    requires !HasKey(list, keyOf, key)
    ensures ListScore(list, keyOf, k, key) == 0.0
  {
    if list != [] {
      assert keyOf(list[|list| - 1]) != key;
      AbsentScore(list[..|list| - 1], keyOf, k, key);
    }
  }

  /** One place of a key already scores what that place gains. */
  lemma {:induction false} PlaceScores<T>(list: seq<T>, keyOf: T -> string, k: nat, key: string, i: nat)
    ensures ListScore(list, keyOf, k, key) >= 0.0
    ensures i < |list| && keyOf(list[i]) == key ==> ListScore(list, keyOf, k, key) >= Gain(k, i)
  {
    if list != [] {
      PlaceScores(list[..|list| - 1], keyOf, k, key, i);
      assert Gain(k, |list| - 1) >= 0.0;
    }
  }

  lemma {:induction false} OnePlaceScores<T>(list: seq<T>, keyOf: T -> string, k: nat, key: string, j: nat)
    requires j < |list| && keyOf(list[j]) == key
    requires forall i :: 0 <= i < |list| && keyOf(list[i]) == key ==> i == j
    ensures ListScore(list, keyOf, k, key) == Gain(k, j)
  {
    var n := |list| - 1;
    if j == n {
      AbsentScore(list[..n], keyOf, k, key);
    } else {
      OnePlaceScores(list[..n], keyOf, k, key, j);
    }
  }

  lemma GainFalls(k: nat, i: nat, j: nat)
    requires i < j
    ensures Gain(k, i) > Gain(k, j) > 0.0
  {
    Reciprocals((k + i + 1) as real, (k + j + 1) as real);
  }

  lemma Reciprocals(a: real, b: real)
    requires 0.0 < a < b
    ensures 1.0 / a > 1.0 / b > 0.0
  {
    var u, v := 1.0 / a, 1.0 / b;
    assert a * u == 1.0 && b * v == 1.0;
    assert u * b > u * a;
    assert (u - v) * b > 0.0;
  }

  lemma OutrankedInOneList<T>(list: seq<T>, keyOf: T -> string, k: nat, x: string, y: string)
    requires Outranks(list, keyOf, x, y)
    ensures ListScore(list, keyOf, k, x) >= ListScore(list, keyOf, k, y)
    ensures HasKey(list, keyOf, y) ==> ListScore(list, keyOf, k, x) > ListScore(list, keyOf, k, y)
  {
    if HasKey(list, keyOf, y) {
      var j :| 0 <= j < |list| && keyOf(list[j]) == y;
      var i :| 0 <= i < |list[..j]| && keyOf(list[..j][i]) == x;
      OnePlaceScores(list, keyOf, k, y, j);
      PlaceScores(list, keyOf, k, x, i);
      GainFalls(k, i, j);
    } else {
      AbsentScore(list, keyOf, k, y);
      PlaceScores(list, keyOf, k, x, 0);
    }
  }

  /** A key that outranks another in every list that holds the other scores at least as much, and
      more when some list does hold the other. */
  lemma {:induction false} OutrankedScoresLess<T>(lists: seq<seq<T>>, keyOf: T -> string, k: nat, x: string, y: string)
    requires forall l :: 0 <= l < |lists| ==> Outranks(lists[l], keyOf, x, y)
    ensures Score(lists, keyOf, k, x) >= Score(lists, keyOf, k, y) >= 0.0
    ensures (exists l :: 0 <= l < |lists| && HasKey(lists[l], keyOf, y)) ==>
      Score(lists, keyOf, k, x) > Score(lists, keyOf, k, y)
  {
    if lists != [] {
      var n := |lists| - 1;
      hide ListScore, Outranks, HasKey;
      OutrankedScoresLess(lists[..n], keyOf, k, x, y);
      OutrankedInOneList(lists[n], keyOf, k, x, y);
      PlaceScores(lists[n], keyOf, k, y, 0);
      if l :| 0 <= l < |lists| && HasKey(lists[l], keyOf, y) {
        assert l < n ==> HasKey(lists[..n][l], keyOf, y);
      }
    }
  }

  lemma PositiveProduct(a: real, b: real)
    requires a > 0.0 && b > 0.0
    ensures a * b > 0.0
  {}

  lemma BoostKeepsOrder(sx: real, sy: real, bx: real, b: real)
    requires sx > sy >= 0.0 && bx >= b > -1.0
    ensures sx * (1.0 + bx) > sy * (1.0 + b)
  {
    PositiveProduct(sx - sy, 1.0 + b);
    assert sx * (bx - b) >= 0.0;
  }

  /** The fused ranking respects agreement: if `x` outranks `y` in every list that holds `y`, one
      does, and the boost of `x` is no smaller, then `x` comes first. */
  lemma Dominance(lists: seq<seq<Ranked>>, x: string, y: string, l: nat)
    requires forall l :: 0 <= l < |lists| ==> Outranks(Hits(lists[l]), KeyOf, x, y)
    requires l < |lists| && HasKey(Hits(lists[l]), KeyOf, y)
    requires BoostOf(Flatten(lists), x) >= BoostOf(Flatten(lists), y) > -1.0
    ensures FinalScore(lists, x) > FinalScore(lists, y)
    ensures HasKey(Ranking(lists), KeyOf, x) && HasKey(Ranking(lists), KeyOf, y)
    ensures var r := Ranking(lists);
      forall i, j :: 0 <= i < |r| && 0 <= j < |r| && KeyOf(r[i]) == x && KeyOf(r[j]) == y ==> i < j
  {
    hide BoostOf, Flatten, Score, ListScore, Ranking, Outranks, Gain;
    FinalScoreFalls(lists, x, y, l);
    hide FinalScore;
    RankingIsFair(lists);
    BothHeld(lists, x, y, l);
  }

  lemma FinalScoreFalls(lists: seq<seq<Ranked>>, x: string, y: string, l: nat)
    requires forall l :: 0 <= l < |lists| ==> Outranks(Hits(lists[l]), KeyOf, x, y)
    requires l < |lists| && HasKey(Hits(lists[l]), KeyOf, y)
    requires BoostOf(Flatten(lists), x) >= BoostOf(Flatten(lists), y) > -1.0
    ensures FinalScore(lists, x) > FinalScore(lists, y)
  {
    hide BoostOf, Flatten, Score, Outranks, HasKey;
    var hits := AllHits(lists);
    OutrankedScoresLess(hits, KeyOf, RRF_K_DEFAULT, x, y);
    assert HasKey(hits[l], KeyOf, y);
    var sx, sy := Score(hits, KeyOf, RRF_K_DEFAULT, x), Score(hits, KeyOf, RRF_K_DEFAULT, y);
    var bx, b := BoostOf(Flatten(lists), x), BoostOf(Flatten(lists), y);
    assert FinalScore(lists, x) == sx * (1.0 + bx);
    assert FinalScore(lists, y) == sy * (1.0 + b);
    BoostKeepsOrder(sx, sy, bx, b);
  }

  lemma BothHeld(lists: seq<seq<Ranked>>, x: string, y: string, l: nat)
    requires l < |lists| && HasKey(Hits(lists[l]), KeyOf, y) && Outranks(Hits(lists[l]), KeyOf, x, y)
    requires OneForEachKey(Flatten(AllHits(lists)), Ranking(lists), KeyOf)
    ensures HasKey(Ranking(lists), KeyOf, x) && HasKey(Ranking(lists), KeyOf, y)
  {
    hide Flatten, Ranking;
    var hits := AllHits(lists);
    var j :| 0 <= j < |hits[l]| && KeyOf(hits[l][j]) == y;
    var i :| 0 <= i < |hits[l][..j]| && KeyOf(hits[l][..j][i]) == x;
    InFlatten(hits, l, j);
    InFlatten(hits, l, i);
  }

  /** What a list holds is in the flattened lists. */
  lemma {:induction false} InFlatten<T>(lists: seq<seq<T>>, l: nat, i: nat)
    requires l < |lists| && i < |lists[l]|
    ensures lists[l][i] in Flatten(lists)
  {
    var n := |lists| - 1;
    if l < n { InFlatten(lists[..n], l, i); }
  }

  /** `r` keeps one item for every key of `items`, and only items of `items`. */
  ghost predicate OneForEachKey<T>(items: seq<T>, r: seq<T>, keyOf: T -> string) {
    && (forall j :: 0 <= j < |r| ==> r[j] in items)
    && DistinctBy(r, keyOf)
    && forall i :: 0 <= i < |items| ==> HasKey(r, keyOf, keyOf(items[i]))
  }

  predicate HasKey<T>(items: seq<T>, keyOf: T -> string, key: string) {
    exists j :: 0 <= j < |items| && keyOf(items[j]) == key
  }

  lemma {:induction false} FirstSeenAmong<T>(items: seq<T>, keyOf: T -> string)
    ensures OneForEachKey(items, FirstSeen(items, keyOf), keyOf)
  {
    if items != [] {
      var n := |items| - 1;
      FirstSeenAmong(items[..n], keyOf);
      var before, r := FirstSeen(items[..n], keyOf), FirstSeen(items, keyOf);
      assert before <= r;
      assert forall i :: 0 <= i < n ==> items[..n][i] == items[i];
      forall i | 0 <= i < |items| ensures HasKey(r, keyOf, keyOf(items[i])) {
        if i < n {
          var j :| 0 <= j < |before| && keyOf(before[j]) == keyOf(items[i]);
          assert keyOf(r[j]) == keyOf(items[i]);
        } else if |r| > |before| {
          assert r[|before|] == items[n];
        }
      }
    }
  }

  /** No item before place `i` has its key. */
  predicate IsFirst<T>(items: seq<T>, keyOf: T -> string, i: nat)
    requires i < |items|
  {
    forall j :: 0 <= j < i ==> keyOf(items[j]) != keyOf(items[i])
  }

  /** The places of the items that are the first with their key. */
  function FirstPlaces<T>(items: seq<T>, keyOf: T -> string): (places: seq<nat>)
    ensures forall j :: 0 <= j < |places| ==> places[j] < |items|
  {
    if items == [] then []
    else
      var n := |items| - 1;
      FirstPlaces(items[..n], keyOf) + if IsFirst(items, keyOf, n) then [n] else []
  }

  /** What is kept of the items are those that are the first with their key, in their order. */
  lemma {:induction false} FirstSeenAreFirst<T>(items: seq<T>, keyOf: T -> string)
    ensures var places := FirstPlaces(items, keyOf);
      && |places| == |FirstSeen(items, keyOf)|
      && forall j :: 0 <= j < |places| ==> FirstSeen(items, keyOf)[j] == items[places[j]]
  {
    if items != [] {
      var n := |items| - 1;
      FirstSeenAreFirst(items[..n], keyOf);
      NewKey(items, keyOf);
      hide FirstSeen, IsFirst, OneForEachKey;
    }
  }

  lemma KeyKept<T>(items: seq<T>, kept: seq<T>, keyOf: T -> string, n: nat)
    requires n < |items| && OneForEachKey(items[..n], kept, keyOf)
    ensures HasKey(kept, keyOf, keyOf(items[n])) <==> !IsFirst(items, keyOf, n)
  {
    hide DistinctBy;
    assert forall i :: 0 <= i < n ==> items[..n][i] == items[i];
    if HasKey(kept, keyOf, keyOf(items[n])) {
      var j :| 0 <= j < |kept| && keyOf(kept[j]) == keyOf(items[n]);
      assert kept[j] in items[..n];
    }
  }

  lemma NewKey<T>(items: seq<T>, keyOf: T -> string)
    requires items != []
    ensures var n, before := |items| - 1, FirstSeen(items[..|items| - 1], keyOf);
      FirstSeen(items, keyOf) == if IsFirst(items, keyOf, n) then before + [items[n]] else before
  {
    hide IsFirst, OneForEachKey, HasKey;
    FirstSeenAmong(items[..|items| - 1], keyOf);
    KeyKept(items, FirstSeen(items[..|items| - 1], keyOf), keyOf, |items| - 1);
  }
}
