/**
  The main results about rank fusion: it is a correct top-k merge for every iteration order of the
  id set, and documents found by both searches come first exactly as long as top_k is at most 30.
*/
module FusionTheorems {
  import opened Fusion
  import opened Sorting
  import opened Wrappers

  // ---------- Scores ----------

  lemma PositiveFactor(p: real, q: real)
    requires q > 0.0
    ensures p * q >= 0.0 ==> p >= 0.0
    ensures p * q > 0.0 ==> p > 0.0
  {
  }

  lemma InverseOrder(a: real, b: real)
    requires 0.0 < a <= b
    ensures 1.0 / a >= 1.0 / b > 0.0
    ensures a < b ==> 1.0 / a > 1.0 / b
  {
    var x, y := 1.0 / a, 1.0 / b;
    assert x * a == 1.0 && y * b == 1.0;
    PositiveFactor(y, b);
    assert (x - y) * a == y * (b - a);
    PositiveFactor(x - y, a);
  }

  lemma ShareOrder(r: nat, s: nat)
    requires 1 <= r <= s
    ensures Share(r) >= Share(s) > 0.0
    ensures r < s ==> Share(r) > Share(s)
  {
    InverseOrder((K + r) as real, (K + s) as real);
  }

  lemma FusedSorts(vector: seq<Id>, keyword: seq<Id>, order: seq<Id>)
    ensures Descending(Fused(vector, keyword, order), ScoreOf(vector, keyword))
    ensures multiset(Fused(vector, keyword, order)) == multiset(order)
    ensures |Fused(vector, keyword, order)| == |order|
    ensures forall id :: id in Fused(vector, keyword, order) <==> id in order
    ensures Distinct(order) ==> Distinct(Fused(vector, keyword, order))
  {
    SortSorts(order, ScoreOf(vector, keyword));
    Permuted(Fused(vector, keyword, order), order);
  }

  // ---------- Top-k merge ----------

  // In the fused order the better score comes first.
  lemma BetterFirst(vector: seq<Id>, keyword: seq<Id>, order: seq<Id>, a: Id, b: Id) returns (i: nat, j: nat)
    requires a in order && b in order && Score(vector, keyword, a) > Score(vector, keyword, b)
    ensures var fused := Fused(vector, keyword, order);
            i < j < |fused| && fused[i] == a && fused[j] == b
  {
    FusedSorts(vector, keyword, order);
    var fused := Fused(vector, keyword, order);
    i :| 0 <= i < |fused| && fused[i] == a;
    j :| 0 <= j < |fused| && fused[j] == b;
    var key := ScoreOf(vector, keyword);
    assert key(fused[i]) > key(fused[j]);
  }

  ghost predicate OnlyIn(list: seq<Id>, other: seq<Id>, id: Id) {
    id in list && id !in other
  }

  lemma OneListOrder(list: seq<Id>, other: seq<Id>, a: Id, b: Id)
    requires OnlyIn(list, other, a) && OnlyIn(list, other, b) && Rank(list, a) < Rank(list, b)
    ensures Score(list, other, a) > Score(list, other, b) && Score(other, list, a) > Score(other, list, b)
  {
    ShareOrder(Rank(list, a), Rank(list, b));
  }

  /**
    Fusion is a correct top-k merge, for any two ranked lists and any iteration order of their union:
    the results are distinct hits in nonincreasing score, as many as there are up to topK, and no
    omitted hit scores higher than a returned one.
  */
  lemma TopKMerge(vector: seq<Id>, keyword: seq<Id>, order: seq<Id>, topK: nat)
    requires Enumerates(order, vector, keyword)
    ensures var results := Fuse(vector, keyword, order, topK);
            && |results| == (if topK <= |order| then topK else |order|)
            && Distinct(results)
            && (forall i | 0 <= i < |results| :: results[i] in vector || results[i] in keyword)
            && (forall i, j | 0 <= i < j < |results| ::
                  Score(vector, keyword, results[i]) >= Score(vector, keyword, results[j]))
            && (forall id, i | (id in vector || id in keyword) && id !in results && 0 <= i < |results| ::
                  Score(vector, keyword, results[i]) >= Score(vector, keyword, id))
  {
    FusedSorts(vector, keyword, order);
    var fused, results := Fused(vector, keyword, order), Fuse(vector, keyword, order, topK);
    var key := ScoreOf(vector, keyword);
    assert forall i | 0 <= i < |results| :: results[i] == fused[i];
    forall i | 0 <= i < |results| ensures results[i] in vector || results[i] in keyword {
      assert fused[i] in fused;
    }
    forall i, j | 0 <= i < j < |results|
      ensures Score(vector, keyword, results[i]) >= Score(vector, keyword, results[j])
    {
      assert key(fused[i]) >= key(fused[j]);
    }
    forall id, i | (id in vector || id in keyword) && id !in results && 0 <= i < |results|
      ensures Score(vector, keyword, results[i]) >= Score(vector, keyword, id)
    {
      OmittedIsNotBetter(fused, topK, key, id, i);
    }
  }

  // When b is returned, a is returned before it.
  ghost predicate Ahead(results: seq<Id>, a: Id, b: Id) {
    b in results ==> exists i, j :: 0 <= i < j < |results| && results[i] == a && results[j] == b
  }

  lemma AheadOfPlace(results: seq<Id>, a: Id, j: nat)
    requires Distinct(results) && j < |results| && Ahead(results, a, results[j])
    ensures exists i :: 0 <= i < j && results[i] == a
  {
    var i, j' :| 0 <= i < j' < |results| && results[i] == a && results[j'] == results[j];
    assert j' == j;
  }

  /** Documents found by one search only are returned in that search's order, without gaps. */
  lemma OneListKeepsOrder(vector: seq<Id>, keyword: seq<Id>, order: seq<Id>, topK: nat, a: Id, b: Id)
    requires Enumerates(order, vector, keyword)
    requires (OnlyIn(vector, keyword, a) && OnlyIn(vector, keyword, b) && Rank(vector, a) < Rank(vector, b))
             || (OnlyIn(keyword, vector, a) && OnlyIn(keyword, vector, b) && Rank(keyword, a) < Rank(keyword, b))
    ensures Ahead(Fuse(vector, keyword, order, topK), a, b)
  {
    if OnlyIn(vector, keyword, a) {
      OneListOrder(vector, keyword, a, b);
    } else {
      OneListOrder(keyword, vector, a, b);
    }
    BetterReturned(vector, keyword, order, topK, a, b);
  }

  // A better document is returned ahead of any worse one that is returned.
  lemma BetterReturned(vector: seq<Id>, keyword: seq<Id>, order: seq<Id>, topK: nat, a: Id, b: Id)
    requires Enumerates(order, vector, keyword)
    requires a in order && Score(vector, keyword, a) > Score(vector, keyword, b)
    ensures Ahead(Fuse(vector, keyword, order, topK), a, b)
  {
    FusedSorts(vector, keyword, order);
    var fused, results := Fused(vector, keyword, order), Fuse(vector, keyword, order, topK);
    if b in results {
      var n :| 0 <= n < |results| && results[n] == b;
      assert fused[n] == b && b in fused;
      var i, j := BetterFirst(vector, keyword, order, a, b);
      assert j == n;
      assert results[i] == a && results[n] == b;
    }
  }

  // ---------- Keyword search without hits ----------

  lemma {:induction false} RankInDistinct(list: seq<Id>, i: nat)
    requires Distinct(list) && i < |list|
    ensures Rank(list, list[i]) == i + 1
  {
    if i < |list| - 1 {
      RankInDistinct(list[..|list| - 1], i);
    }
  }

  // ---------- Scores by places ----------

  /** What a place counted from 0 in a ranked list is worth; a document that is not there gets nothing. */
  function Worth(place: Option<nat>): real {
    if place.None? then 0.0 else 1.0 / (61 + place.value) as real
  }

  ghost predicate StandsAt(list: seq<Id>, id: Id, place: Option<nat>) {
    if place.None? then id !in list else place.value < |list| && list[place.value] == id
  }

  lemma ShareOfPlace(list: seq<Id>, id: Id, place: Option<nat>)
    requires Distinct(list) && StandsAt(list, id, place)
    ensures Share(Rank(list, id)) == Worth(place)
  {
    if place.Some? { RankInDistinct(list, place.value); }
  }

  /** The fused order is that of 1 / (60 + rank), summed over the two lists. */
  lemma OrderByPlaces(vector: seq<Id>, keyword: seq<Id>, order: seq<Id>, topK: nat,
                      a: Id, i: Option<nat>, j: Option<nat>, b: Id, i': Option<nat>, j': Option<nat>)
    requires Enumerates(order, vector, keyword) && Distinct(vector) && Distinct(keyword) && a in order
    requires StandsAt(vector, a, i) && StandsAt(keyword, a, j)
    requires StandsAt(vector, b, i') && StandsAt(keyword, b, j')
    requires Worth(i) + Worth(j) > Worth(i') + Worth(j')
    ensures Ahead(Fuse(vector, keyword, order, topK), a, b)
  {
    ShareOfPlace(vector, a, i);
    ShareOfPlace(keyword, a, j);
    ShareOfPlace(vector, b, i');
    ShareOfPlace(keyword, b, j');
    BetterReturned(vector, keyword, order, topK, a, b);
  }

  /** So it is for two documents that both searches found. */
  lemma BothFoundOrder(vector: seq<Id>, keyword: seq<Id>, order: seq<Id>, topK: nat, i: nat, j: nat, i': nat, j': nat)
    requires Enumerates(order, vector, keyword) && Distinct(vector) && Distinct(keyword)
    requires i < |vector| && i' < |vector| && j < |keyword| && j' < |keyword|
    requires vector[i] == keyword[j] && vector[i'] == keyword[j']
    requires 1.0 / (61 + i) as real + 1.0 / (61 + j) as real > 1.0 / (61 + i') as real + 1.0 / (61 + j') as real
    ensures Ahead(Fuse(vector, keyword, order, topK), vector[i], vector[i'])
  {
    assert vector[i] in order;
    OrderByPlaces(vector, keyword, order, topK, vector[i], Some(i), Some(j), vector[i'], Some(i'), Some(j'));
  }

  ghost predicate SameMembers(xs: seq<Id>, ys: seq<Id>) {
    forall id :: id in xs <==> id in ys
  }

  lemma MemberBack(xs: seq<Id>, ys: seq<Id>, id: Id)
    requires SameMembers(xs, ys) && id in ys
    ensures id in xs
  {
  }

  // Two strictly descending lists of the same ids are the same list.
  lemma {:induction false} StrictlySortedUnique(xs: seq<Id>, ys: seq<Id>, key: Id -> real)
    requires |xs| == |ys| && SameMembers(xs, ys)
    requires Descending(xs, key) && Distinct(xs)
    requires forall i, j | 0 <= i < j < |ys| :: key(ys[i]) > key(ys[j])
    ensures xs == ys
  {
    if xs != [] {
      var n := |xs|;
      SameLast(xs, ys, key);
      WithoutLast(xs, ys, key);
      StrictlySortedUnique(xs[..n - 1], ys[..n - 1], key);
    }
  }

  lemma SameLast(xs: seq<Id>, ys: seq<Id>, key: Id -> real)
    requires |xs| == |ys| > 0 && SameMembers(xs, ys) && Descending(xs, key)
    requires forall i, j | 0 <= i < j < |ys| :: key(ys[i]) > key(ys[j])
    ensures xs[|xs| - 1] == ys[|ys| - 1]
  {
    var x, y := xs[|xs| - 1], ys[|ys| - 1];
    assert x in ys && y in xs;
    assert key(y) >= key(x);
  }

  lemma WithoutLast(xs: seq<Id>, ys: seq<Id>, key: Id -> real)
    requires |xs| == |ys| > 0 && xs[|xs| - 1] == ys[|ys| - 1] && SameMembers(xs, ys)
    requires Distinct(xs) && forall i, j | 0 <= i < j < |ys| :: key(ys[i]) > key(ys[j])
    ensures SameMembers(xs[..|xs| - 1], ys[..|ys| - 1])
  {
    var n := |xs|;
    var front, front' := xs[..n - 1], ys[..n - 1];
    forall i | 0 <= i < n - 1 ensures ys[i] in xs && ys[i] != xs[n - 1] {
      assert key(ys[i]) > key(ys[n - 1]);
      MemberBack(xs, ys, ys[i]);
    }
    forall i | 0 <= i < n - 1 ensures xs[i] in ys && xs[i] != ys[n - 1] {
      assert xs[i] in xs;
    }
    assert xs == front + [xs[n - 1]] && ys == front' + [ys[n - 1]];
    forall i | 0 <= i < n - 1 ensures front[i] in front' && front'[i] in front {
      assert front[i] == xs[i] && front'[i] == ys[i];
    }
  }

  lemma VectorDescends(vector: seq<Id>, i: nat, j: nat)
    requires Distinct(vector) && i < j < |vector|
    ensures Score(vector, [], vector[i]) > Score(vector, [], vector[j])
  {
    RankInDistinct(vector, i);
    RankInDistinct(vector, j);
    ShareOrder(i + 1, j + 1);
  }

  /** When the keyword search fails or finds nothing, the results are exactly the best vector hits. */
  lemma VectorOrderAlone(vector: seq<Id>, order: seq<Id>, topK: nat)
    requires Distinct(vector) && Enumerates(order, vector, [])
    ensures Fuse(vector, [], order, topK) == Take(vector, topK)
  {
    var fused, key := Fused(vector, [], order), ScoreOf(vector, []);
    FusedSorts(vector, [], order);
    SameSize(fused, vector);
    forall i, j | 0 <= i < j < |vector| ensures key(vector[i]) > key(vector[j]) {
      VectorDescends(vector, i, j);
    }
    StrictlySortedUnique(fused, vector, key);
  }

  lemma SameSize(xs: seq<Id>, ys: seq<Id>)
    requires Distinct(xs) && Distinct(ys) && forall id :: id in xs <==> id in ys
    ensures |xs| == |ys|
  {
    SetSize(xs);
    SetSize(ys);
    assert (set x | x in xs) == (set x | x in ys);
  }

  // ---------- The threshold ----------

  // Every document found by both searches is returned ahead of every one found by only one.
  ghost predicate BothFirst(results: seq<Id>, vector: seq<Id>, keyword: seq<Id>) {
    forall j, b | 0 <= j < |results| && !(results[j] in vector && results[j] in keyword)
                  && b in vector && b in keyword ::
      exists i :: 0 <= i < j && results[i] == b
  }

  ghost predicate Candidates(list: seq<Id>, topK: nat) {
    Distinct(list) && |list| <= 2 * topK
  }

  lemma {:induction false} SimilarExact(rows: seq<Id>, similarity: Id -> Option<real>, minSimilarity: real)
    requires Distinct(rows)
    ensures var similar := Similar(rows, similarity, minSimilarity);
            && Distinct(similar)
            && forall id :: id in similar <==>
                 id in rows && similarity(id).Some? && similarity(id).value >= minSimilarity
  {
    if rows != [] {
      var front, last := rows[..|rows| - 1], rows[|rows| - 1];
      SimilarExact(front, similarity, minSimilarity);
      assert rows == front + [last];
    }
  }

  /**
    The vector candidates: distinct rows above the threshold, at most 2 * topK, most similar first,
    and no similar row that is left out is more similar than one that is kept.
  */
  lemma VectorTopExact(rows: seq<Id>, similarity: Id -> Option<real>, minSimilarity: real, topK: nat)
    requires Distinct(rows)
    ensures var top := VectorTop(rows, similarity, minSimilarity, topK);
            && Candidates(top, topK)
            && (forall i | 0 <= i < |top| ::
                  top[i] in rows && similarity(top[i]).Some? && similarity(top[i]).value >= minSimilarity)
            && (forall i, j | 0 <= i < j < |top| :: similarity(top[i]).value >= similarity(top[j]).value)
            && (forall id | id in rows && similarity(id).Some? && similarity(id).value >= minSimilarity && id !in top ::
                  |top| == 2 * topK && forall i | 0 <= i < |top| :: similarity(top[i]).value >= similarity(id).value)
  {
    var similar, sim := Similar(rows, similarity, minSimilarity), Similarity(similarity);
    var top := VectorTop(rows, similarity, minSimilarity, topK);
    SimilarExact(rows, similarity, minSimilarity);
    BestAreSorted(similar, sim, 2 * topK);
    assert forall id | id in similar :: sim(id) == similarity(id).value;
    assert forall i | 0 <= i < |top| :: top[i] in similar;
    forall id | id in similar && id !in top
      ensures |top| == 2 * topK && forall i | 0 <= i < |top| :: similarity(top[i]).value >= similarity(id).value
    {
      LeftOutIsNoBetter(similar, sim, 2 * topK, id);
    }
  }

  ghost predicate AlwaysBothFirst(topK: nat) {
    forall vector: seq<Id>, keyword: seq<Id>, order: seq<Id> ::
      Candidates(vector, topK) && Candidates(keyword, topK) && Enumerates(order, vector, keyword)
      ==> BothFirst(Fuse(vector, keyword, order, topK), vector, keyword)
  }

  lemma ConcreteShares()
    ensures Share(60) + Share(60) > Share(1) && Share(62) + Share(62) == Share(1)
  {
    assert Share(60) == 1.0 / 120.0 && Share(1) == 1.0 / 61.0 && Share(62) == 1.0 / 122.0;
  }

  // Two shares of rank at most 60 beat any single one.
  lemma BothBeatOne(vector: seq<Id>, keyword: seq<Id>, b: Id, s: Id)
    requires |vector| <= 60 && |keyword| <= 60
    requires b in vector && b in keyword && !(s in vector && s in keyword)
    ensures Score(vector, keyword, b) > Score(vector, keyword, s)
  {
    ConcreteShares();
    ShareOrder(Rank(vector, b), 60);
    ShareOrder(Rank(keyword, b), 60);
    if s in vector {
      ShareOrder(1, Rank(vector, s));
    } else if s in keyword {
      ShareOrder(1, Rank(keyword, s));
    }
  }

  lemma BothFirstUpTo30(vector: seq<Id>, keyword: seq<Id>, order: seq<Id>, topK: nat)
    requires topK <= 30 && Candidates(vector, topK) && Candidates(keyword, topK) && Enumerates(order, vector, keyword)
    ensures BothFirst(Fuse(vector, keyword, order, topK), vector, keyword)
  {
    var results := Fuse(vector, keyword, order, topK);
    TopKMerge(vector, keyword, order, topK);
    forall j, b | 0 <= j < |results| && !(results[j] in vector && results[j] in keyword) && b in vector && b in keyword
      ensures exists i :: 0 <= i < j && results[i] == b
    {
      BothBeatOne(vector, keyword, b, results[j]);
      BetterReturned(vector, keyword, order, topK, b, results[j]);
      AheadOfPlace(results, b, j);
    }
  }

  // Document 0 is last in both lists, 1 is first in one of them.
  function LastInBoth(n: nat, offset: nat): seq<Id>
    requires n >= 1
  {
    seq(n, i => if i == n - 1 then 0 else 2 * i + offset)
  }

  function OneFirst(n: nat): seq<Id>
    requires n >= 1
  {
    [1, 0] + seq(2 * n - 3 + (if n == 1 then 1 else 0), i => i + 2)
  }

  lemma OneFirstEnumerates(n: nat)
    requires n >= 2
    ensures Enumerates(OneFirst(n), LastInBoth(n, 1), LastInBoth(n, 2))
  {
    var order, vector, keyword := OneFirst(n), LastInBoth(n, 1), LastInBoth(n, 2);
    forall id ensures id in order <==> id in vector || id in keyword {
      if 0 <= id <= 2 * n - 2 {
        InOrder(n, id);
        InLists(n, id);
      }
    }
  }

  lemma InOrder(n: nat, id: Id)
    requires n >= 2 && 0 <= id <= 2 * n - 2
    ensures id in OneFirst(n)
  {
    var order := OneFirst(n);
    assert order[0] == 1 && order[1] == 0;
    if id >= 2 { assert order[id] == id; }
  }

  lemma InLists(n: nat, id: Id)
    requires n >= 2 && 0 <= id <= 2 * n - 2
    ensures id in LastInBoth(n, 1) || id in LastInBoth(n, 2)
  {
    if id == 0 {
      assert LastInBoth(n, 1)[n - 1] == 0;
    } else if id % 2 == 1 {
      assert LastInBoth(n, 1)[(id - 1) / 2] == id;
    } else {
      assert LastInBoth(n, 2)[(id - 2) / 2] == id;
    }
  }

  // A best document that the iteration visits first is returned first, because the sort is stable.
  lemma BestComesFirst(vector: seq<Id>, keyword: seq<Id>, order: seq<Id>, topK: nat)
    requires order != [] && topK > 0
    requires forall i | 0 <= i < |order| :: Score(vector, keyword, order[0]) >= Score(vector, keyword, order[i])
    ensures var results := Fuse(vector, keyword, order, topK); results != [] && results[0] == order[0]
  {
    SortKeepsFirst(order, ScoreOf(vector, keyword));
  }

  lemma OneComesFirst(topK: nat)
    requires topK >= 31
    ensures var n := 2 * topK;
            var results := Fuse(LastInBoth(n, 1), LastInBoth(n, 2), OneFirst(n), topK);
            results != [] && results[0] == 1
  {
    var n := 2 * topK;
    var vector, keyword, order := LastInBoth(n, 1), LastInBoth(n, 2), OneFirst(n);
    assert order[0] == 1;
    forall i | 0 <= i < |order| ensures Score(vector, keyword, order[0]) >= Score(vector, keyword, order[i]) {
      OneScoresBest(n, order[i]);
    }
    BestComesFirst(vector, keyword, order, topK);
  }

  lemma Refutes(topK: nat, vector: seq<Id>, keyword: seq<Id>, order: seq<Id>, b: Id)
    requires Candidates(vector, topK) && Candidates(keyword, topK) && Enumerates(order, vector, keyword)
    requires var results := Fuse(vector, keyword, order, topK); results != [] && results[0] !in keyword
    requires b in vector && b in keyword
    ensures !AlwaysBothFirst(topK)
  {
  }

  // From 31 on, the document that is last in both lists does not beat one that is first in one.
  lemma TieFrom31(topK: nat)
    requires topK >= 31
    ensures !AlwaysBothFirst(topK)
  {
    var n := 2 * topK;
    OneFirstEnumerates(n);
    OneComesFirst(topK);
    assert LastInBoth(n, 1)[n - 1] == 0 && LastInBoth(n, 2)[n - 1] == 0;
    Refutes(topK, LastInBoth(n, 1), LastInBoth(n, 2), OneFirst(n), 0);
  }

  lemma LastInBothRanks(n: nat, offset: nat)
    requires n >= 1 && offset >= 1
    ensures var list := LastInBoth(n, offset);
            && Distinct(list)
            && Rank(list, 0) == n
            && (n > 1 ==> Rank(list, offset) == 1)
  {
    var list := LastInBoth(n, offset);
    assert list[n - 1] == 0;
    RankInDistinct(list, n - 1);
    if n > 1 {
      assert list[0] == offset;
      RankInDistinct(list, 0);
    }
  }

  // Apart from document 0, which is last in both lists, none is in both.
  lemma OnlyZeroInBoth(n: nat, id: Id)
    requires n >= 2 && id in LastInBoth(n, 1) && id in LastInBoth(n, 2)
    ensures id == 0
  {
    var i :| 0 <= i < n && LastInBoth(n, 1)[i] == id;
    var j :| 0 <= j < n && LastInBoth(n, 2)[j] == id;
    assert (id == 0 || id == 2 * i + 1) && (id == 0 || id == 2 * j + 2);
  }

  lemma OneScoresBest(n: nat, id: Id)
    requires n >= 62
    ensures Score(LastInBoth(n, 1), LastInBoth(n, 2), 1) >= Score(LastInBoth(n, 1), LastInBoth(n, 2), id)
  {
    var vector, keyword := LastInBoth(n, 1), LastInBoth(n, 2);
    ConcreteShares();
    LastInBothRanks(n, 1);
    LastInBothRanks(n, 2);
    if id == 0 {
      ShareOrder(62, n);
    } else if id in vector && id in keyword {
      OnlyZeroInBoth(n, id);
    } else if id in vector {
      ShareOrder(1, Rank(vector, id));
    } else if id in keyword {
      ShareOrder(1, Rank(keyword, id));
    }
  }

  /**
    The fusion threshold is sharp: documents found by both searches are returned ahead of all others,
    for all candidate lists and iteration orders, if and only if top_k is at most 30.
  */
  lemma ThresholdIs30(topK: nat)
    ensures AlwaysBothFirst(topK) <==> topK <= 30
  {
    if topK <= 30 {
      forall vector: seq<Id>, keyword: seq<Id>, order: seq<Id>
        | Candidates(vector, topK) && Candidates(keyword, topK) && Enumerates(order, vector, keyword)
        ensures BothFirst(Fuse(vector, keyword, order, topK), vector, keyword)
      {
        BothFirstUpTo30(vector, keyword, order, topK);
      }
    } else {
      TieFrom31(topK);
    }
  }
}
