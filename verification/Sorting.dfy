/**
  Python's stable list.sort(key=..., reverse=True) on ids, and taking the best ones. Keys are real
  numbers.
*/
module Sorting {
  type Id = int

  function Insert(sorted: seq<Id>, x: Id, key: Id -> real): seq<Id> {
    if sorted == [] || key(sorted[|sorted| - 1]) >= key(x) then sorted + [x]
    else Insert(sorted[..|sorted| - 1], x, key) + [sorted[|sorted| - 1]]
  }

  /** xs.sort(key=key, reverse=True) */
  function SortDesc(xs: seq<Id>, key: Id -> real): seq<Id> {
    if xs == [] then [] else Insert(SortDesc(xs[..|xs| - 1], key), xs[|xs| - 1], key)
  }

  ghost predicate Descending(xs: seq<Id>, key: Id -> real) {
    forall i, j | 0 <= i < j < |xs| :: key(xs[i]) >= key(xs[j])
  }

  lemma {:induction false} InsertPermutes(sorted: seq<Id>, x: Id, key: Id -> real)
    ensures multiset(Insert(sorted, x, key)) == multiset(sorted) + multiset{x}
  {
    if !(sorted == [] || key(sorted[|sorted| - 1]) >= key(x)) {
      var front, last := sorted[..|sorted| - 1], sorted[|sorted| - 1];
      InsertPermutes(front, x, key);
      assert sorted == front + [last];
    }
  }

  lemma {:induction false} InsertSorts(sorted: seq<Id>, x: Id, key: Id -> real)
    requires Descending(sorted, key)
    ensures Descending(Insert(sorted, x, key), key)
    decreases |sorted|
  {
    if sorted == [] || key(sorted[|sorted| - 1]) >= key(x) {
      AppendSorts(sorted, x, key);
    } else {
      var front, last := sorted[..|sorted| - 1], sorted[|sorted| - 1];
      InsertSorts(front, x, key);
      InsertPermutes(front, x, key);
      var inserted := Insert(front, x, key);
      forall y | y in inserted ensures key(y) >= key(last) {
        assert y in multiset(inserted);
        if y != x { assert y in front; }
      }
      AppendSorts(inserted, last, key);
    }
  }

  lemma AppendSorts(xs: seq<Id>, x: Id, key: Id -> real)
    requires Descending(xs, key) && (xs == [] || key(xs[|xs| - 1]) >= key(x))
    ensures Descending(xs + [x], key)
  {
  }

  lemma {:induction false} SortSorts(xs: seq<Id>, key: Id -> real)
    ensures Descending(SortDesc(xs, key), key)
    ensures multiset(SortDesc(xs, key)) == multiset(xs)
  {
    if xs != [] {
      SortSorts(xs[..|xs| - 1], key);
      InsertSorts(SortDesc(xs[..|xs| - 1], key), xs[|xs| - 1], key);
      InsertPermutes(SortDesc(xs[..|xs| - 1], key), xs[|xs| - 1], key);
      assert xs == xs[..|xs| - 1] + [xs[|xs| - 1]];
    }
  }

  // The sort is stable: a first element that nothing beats stays first.
  lemma {:induction false} SortKeepsFirst(xs: seq<Id>, key: Id -> real)
    requires xs != [] && forall i | 0 <= i < |xs| :: key(xs[0]) >= key(xs[i])
    ensures SortDesc(xs, key) != [] && SortDesc(xs, key)[0] == xs[0]
  {
    if |xs| == 1 {
      assert xs[..0] == [];
    } else {
      var front := xs[..|xs| - 1];
      SortKeepsFirst(front, key);
      SortSorts(front, key);
      InsertKeepsFirst(SortDesc(front, key), xs[|xs| - 1], key);
    }
  }

  lemma {:induction false} InsertKeepsFirst(sorted: seq<Id>, x: Id, key: Id -> real)
    requires sorted != [] && key(sorted[0]) >= key(x)
    ensures Insert(sorted, x, key)[0] == sorted[0]
  {
    if !(key(sorted[|sorted| - 1]) >= key(x)) {
      InsertKeepsFirst(sorted[..|sorted| - 1], x, key);
    }
  }

  // ---------- Permutations ----------

  ghost predicate Distinct(xs: seq<Id>) {
    forall i, j | 0 <= i < j < |xs| :: xs[i] != xs[j]
  }

  lemma Permuted(xs: seq<Id>, ys: seq<Id>)
    requires multiset(xs) == multiset(ys)
    ensures |xs| == |ys|
    ensures forall id :: id in xs <==> id in ys
    ensures Distinct(ys) ==> Distinct(xs)
  {
    assert |xs| == |multiset(xs)| == |multiset(ys)| == |ys|;
    forall id ensures id in xs <==> id in ys {
      assert id in multiset(xs) <==> id in multiset(ys);
    }
    if Distinct(ys) {
      forall i, j | 0 <= i < j < |xs| ensures xs[i] != xs[j] {
        if xs[i] == xs[j] {
          Twice(xs, i, j);
          Once(ys, xs[i]);
        }
      }
    }
  }

  lemma Twice(xs: seq<Id>, i: nat, j: nat)
    requires i < j < |xs| && xs[i] == xs[j]
    ensures multiset(xs)[xs[i]] >= 2
  {
    var a, b, c := xs[..i], xs[i + 1..j], xs[j + 1..];
    assert xs == a + [xs[i]] + b + [xs[j]] + c;
  }

  lemma {:induction false} Once(ys: seq<Id>, id: Id)
    requires Distinct(ys)
    ensures multiset(ys)[id] <= 1
  {
    if ys != [] {
      var front, last := ys[..|ys| - 1], ys[|ys| - 1];
      assert ys == front + [last];
      Once(front, id);
      if id == last {
        assert last !in front;
        assert multiset(front)[id] == 0;
      }
    }
  }

  lemma {:induction false} SetSize(xs: seq<Id>)
    requires Distinct(xs)
    ensures |set x | x in xs| == |xs|
  {
    if xs == [] {
      assert (set x | x in xs) == {};
    } else {
      var front, last := xs[..|xs| - 1], xs[|xs| - 1];
      assert xs == front + [last];
      SetSize(front);
      assert (set x | x in xs) == (set x | x in front) + {last};
      assert last !in front;
    }
  }

  // ---------- The best ones ----------

  // xs[:n]
  function Take(xs: seq<Id>, n: nat): seq<Id> {
    if n <= |xs| then xs[..n] else xs
  }

  lemma BestAreSorted(xs: seq<Id>, key: Id -> real, n: nat)
    requires Distinct(xs)
    ensures var best := Take(SortDesc(xs, key), n);
            && |best| == (if n <= |xs| then n else |xs|)
            && Distinct(best) && Descending(best, key)
            && forall i | 0 <= i < |best| :: best[i] in xs
  {
    var sorted, best := SortDesc(xs, key), Take(SortDesc(xs, key), n);
    SortSorts(xs, key);
    Permuted(sorted, xs);
    assert forall i | 0 <= i < |best| :: best[i] == sorted[i];
    forall i | 0 <= i < |best| ensures best[i] in xs {
      assert sorted[i] in sorted;
    }
  }

  // What is cut off is no better than what is taken.
  lemma OmittedIsNotBetter(sorted: seq<Id>, n: nat, key: Id -> real, id: Id, i: nat)
    requires Descending(sorted, key) && id in sorted && id !in Take(sorted, n) && i < |Take(sorted, n)|
    ensures key(Take(sorted, n)[i]) >= key(id)
  {
    var taken := Take(sorted, n);
    assert forall k | 0 <= k < |taken| :: sorted[k] == taken[k] != id;
    var j :| 0 <= j < |sorted| && sorted[j] == id;
    assert i < |taken| <= j;
  }

  lemma LeftOutIsNoBetter(xs: seq<Id>, key: Id -> real, n: nat, id: Id)
    requires id in xs && id !in Take(SortDesc(xs, key), n)
    ensures var best := Take(SortDesc(xs, key), n);
            |best| == n && forall i | 0 <= i < |best| :: key(best[i]) >= key(id)
  {
    var sorted, best := SortDesc(xs, key), Take(SortDesc(xs, key), n);
    SortSorts(xs, key);
    Permuted(sorted, xs);
    assert id in sorted;
    forall i | 0 <= i < |best| ensures key(best[i]) >= key(id) {
      OmittedIsNotBetter(sorted, n, key, id, i);
    }
  }

  // ---------- Ranks ----------

  // Where a stable sort of ascending ids puts a ahead of b.
  predicate Beats(a: Id, b: Id, key: Id -> real) {
    key(a) > key(b) || (key(a) == key(b) && a < b)
  }

  ghost predicate Ranked(xs: seq<Id>, key: Id -> real) {
    forall i, j | 0 <= i < j < |xs| :: Beats(xs[i], xs[j], key)
  }

  ghost predicate Ascending(xs: seq<Id>) {
    forall i, j | 0 <= i < j < |xs| :: xs[i] < xs[j]
  }

  ghost function Better(xs: seq<Id>, key: Id -> real, id: Id): set<Id> {
    set x | x in xs && Beats(x, id, key)
  }

  lemma {:induction false} InsertRanks(sorted: seq<Id>, x: Id, key: Id -> real)
    requires Ranked(sorted, key) && forall i | 0 <= i < |sorted| :: sorted[i] < x
    ensures Ranked(Insert(sorted, x, key), key)
    decreases |sorted|
  {
    if !(sorted == [] || key(sorted[|sorted| - 1]) >= key(x)) {
      var front, last := sorted[..|sorted| - 1], sorted[|sorted| - 1];
      InsertRanks(front, x, key);
      InsertPermutes(front, x, key);
      var inserted := Insert(front, x, key);
      forall i | 0 <= i < |inserted| ensures Beats(inserted[i], last, key) {
        assert inserted[i] in multiset(inserted);
        if inserted[i] != x { assert inserted[i] in front; }
      }
    } else if sorted != [] {
      assert forall i | 0 <= i < |sorted| - 1 :: Beats(sorted[i], sorted[|sorted| - 1], key);
    }
  }

  lemma {:induction false} SortRanks(xs: seq<Id>, key: Id -> real)
    requires Ascending(xs)
    ensures Ranked(SortDesc(xs, key), key)
  {
    if xs != [] {
      var front, last := xs[..|xs| - 1], xs[|xs| - 1];
      SortRanks(front, key);
      SortSorts(front, key);
      Permuted(SortDesc(front, key), front);
      var sorted := SortDesc(front, key);
      forall i | 0 <= i < |sorted| ensures sorted[i] < last {
        assert sorted[i] in sorted;
        var j :| 0 <= j < |front| && front[j] == sorted[i];
        assert xs[j] < xs[|xs| - 1];
      }
      InsertRanks(sorted, last, key);
    }
  }

  /** An id is among the first n exactly when fewer than n of the others are better. */
  lemma TakenExactly(xs: seq<Id>, key: Id -> real, n: nat, id: Id)
    requires Ascending(xs)
    ensures id in Take(SortDesc(xs, key), n) <==> id in xs && |Better(xs, key, id)| < n
  {
    var sorted := SortDesc(xs, key);
    SortSorts(xs, key);
    SortRanks(xs, key);
    Permuted(sorted, xs);
    if id in xs {
      assert id in sorted;
      var p :| 0 <= p < |sorted| && sorted[p] == id;
      RankCounts(sorted, key, p);
      assert Better(xs, key, id) == Better(sorted, key, id);
      TakeHolds(sorted, n, p);
    } else {
      assert forall i | 0 <= i < |Take(sorted, n)| :: Take(sorted, n)[i] == sorted[i] && sorted[i] in sorted;
    }
  }

  lemma TakeHolds(xs: seq<Id>, n: nat, p: nat)
    requires Distinct(xs) && p < |xs|
    ensures xs[p] in Take(xs, n) <==> p < n
  {
    if p < n {
      assert Take(xs, n)[p] == xs[p];
    }
  }

  // In a ranked list the better ids are those in front.
  lemma RankCounts(sorted: seq<Id>, key: Id -> real, p: nat)
    requires Ranked(sorted, key) && Distinct(sorted) && p < |sorted|
    ensures |Better(sorted, key, sorted[p])| == p
  {
    var front := sorted[..p];
    assert forall i | 0 <= i < p :: front[i] == sorted[i] && Beats(sorted[i], sorted[p], key);
    assert forall i | p < i < |sorted| :: Beats(sorted[p], sorted[i], key);
    forall x | x in Better(sorted, key, sorted[p]) ensures x in front {
      var i :| 0 <= i < |sorted| && sorted[i] == x;
      assert front[i] == x;
    }
    SetSize(front);
    assert Better(sorted, key, sorted[p]) == set x | x in front;
  }

  // ---------- Equal keys ----------

  // Sorting looks at the keys of the listed ids only.
  lemma {:induction false} SameKeys(xs: seq<Id>, key: Id -> real, key': Id -> real)
    requires forall i | 0 <= i < |xs| :: key(xs[i]) == key'(xs[i])
    ensures SortDesc(xs, key) == SortDesc(xs, key')
  {
    if xs != [] {
      SameKeys(xs[..|xs| - 1], key, key');
      SortSorts(xs[..|xs| - 1], key);
      var sorted := SortDesc(xs[..|xs| - 1], key);
      forall i | 0 <= i < |sorted| ensures key(sorted[i]) == key'(sorted[i]) {
        assert sorted[i] in multiset(sorted);
        assert sorted[i] in xs[..|xs| - 1];
      }
      SameInsert(sorted, xs[|xs| - 1], key, key');
    }
  }

  lemma {:induction false} SameInsert(sorted: seq<Id>, x: Id, key: Id -> real, key': Id -> real)
    requires key(x) == key'(x) && forall i | 0 <= i < |sorted| :: key(sorted[i]) == key'(sorted[i])
    ensures Insert(sorted, x, key) == Insert(sorted, x, key')
  {
    if sorted != [] {
      var front := sorted[..|sorted| - 1];
      assert forall i | 0 <= i < |front| :: front[i] == sorted[i];
      SameInsert(sorted[..|sorted| - 1], x, key, key');
    }
  }
}
