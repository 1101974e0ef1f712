/**
  Serial executions of memory statements: rows are never lost or rewritten, row ids never reused,
  marks never removed. Each lemma traces something in the resulting tables back to the statement of
  the serial execution that put it there.
*/
module MemoryReplay {
  import opened Wrappers
  import opened DatabaseProtocol
  import opened MemoryStore
  import opened Sorting

  type Requests = seq<Request<Sql>>

  ghost function TablesAt(requests: Requests, ids: seq<nat>, k: nat): Tables
    requires InRange(requests, ids) && k <= |ids|
  {
    Replay(Apply, EMPTY, requests, ids[..k])
  }

  // The k-th statement of the serial execution ran and did not raise.
  ghost predicate Ran(requests: Requests, ids: seq<nat>, k: nat, stmt: Statement) {
    k < |ids| && ids[k] < |requests| && requests[ids[k]].sql == Sql(stmt, false)
  }

  ghost predicate RowIdsBelowNext(t: Tables) {
    t.next >= 1 && forall r | r in t.memories :: 1 <= r < t.next
  }

  // What later tables keep of earlier ones.
  ghost predicate Extends(t: Tables, t': Tables) {
    && t.next <= t'.next
    && t.index <= t'.index
    && (forall r | r in t.memories ::
          && r in t'.memories
          && t'.memories[r].content == t.memories[r].content
          && t'.memories[r].kind == t.memories[r].kind
          && t'.memories[r].created == t.memories[r].created
          && (t.memories[r].consolidated ==> t'.memories[r].consolidated))
  }

  lemma {:induction false} RowsBelowNext(requests: Requests, ids: seq<nat>, k: nat)
    requires InRange(requests, ids) && k <= |ids|
    ensures RowIdsBelowNext(TablesAt(requests, ids, k))
  {
    if k > 0 {
      RowsBelowNext(requests, ids, k - 1);
      ReplayStep(Apply, EMPTY, requests, ids, k - 1);
    }
  }

  lemma {:induction false} LaterExtends(requests: Requests, ids: seq<nat>, j: nat, k: nat)
    requires InRange(requests, ids) && j <= k <= |ids|
    ensures Extends(TablesAt(requests, ids, j), TablesAt(requests, ids, k))
  {
    if j < k {
      LaterExtends(requests, ids, j, k - 1);
      ReplayStep(Apply, EMPTY, requests, ids, k - 1);
      RowsBelowNext(requests, ids, k - 1);
      StepExtends(TablesAt(requests, ids, k - 1), requests[ids[k - 1]].sql);
    }
  }

  lemma StepExtends(t: Tables, q: Sql)
    requires RowIdsBelowNext(t)
    ensures Extends(t, DbAfter(Apply, t, q))
  {
  }

  /** Every memory row was put there by an insert that received its row id. */
  lemma {:induction false} RowOrigin(requests: Requests, ids: seq<nat>, n: nat, r: int) returns (k: nat)
    requires InRange(requests, ids) && n <= |ids| && r in TablesAt(requests, ids, n).memories
    ensures k < n && Inserted(requests, ids, k, r)
    ensures InsertedContent(requests, ids, k) == TablesAt(requests, ids, n).memories[r].content
  {
    assert n > 0;
    ReplayStep(Apply, EMPTY, requests, ids, n - 1);
    RowsBelowNext(requests, ids, n - 1);
    if r in TablesAt(requests, ids, n - 1).memories {
      k := RowOrigin(requests, ids, n - 1, r);
      StepExtends(TablesAt(requests, ids, n - 1), requests[ids[n - 1]].sql);
    } else {
      k := n - 1;
    }
  }

  // The k-th statement inserted the memory row r.
  ghost predicate Inserted(requests: Requests, ids: seq<nat>, k: nat, r: int)
    requires InRange(requests, ids)
  {
    && k < |ids|
    && requests[ids[k]].sql.stmt.InsertMemory? && !requests[ids[k]].sql.raises
    && TablesAt(requests, ids, k).next == r
  }

  ghost function InsertedContent(requests: Requests, ids: seq<nat>, k: nat): string
    requires k < |ids| && ids[k] < |requests| && requests[ids[k]].sql.stmt.InsertMemory?
  {
    requests[ids[k]].sql.stmt.content
  }

  /** An inserted row stays, with its content, kind and creation time. */
  lemma InsertedStays(requests: Requests, ids: seq<nat>, k: nat, n: nat, r: int)
    requires InRange(requests, ids) && k < n <= |ids| && Inserted(requests, ids, k, r)
    ensures var t := TablesAt(requests, ids, n);
            && r in t.memories
            && t.memories[r].content == InsertedContent(requests, ids, k)
            && t.memories[r].kind == requests[ids[k]].sql.stmt.kind
            && t.memories[r].created == requests[ids[k]].sql.stmt.created
  {
    ReplayStep(Apply, EMPTY, requests, ids, k);
    LaterExtends(requests, ids, k + 1, n);
  }

  /** No two inserts receive the same row id. */
  lemma InsertedOnce(requests: Requests, ids: seq<nat>, j: nat, k: nat, r: int)
    requires InRange(requests, ids) && Inserted(requests, ids, j, r) && Inserted(requests, ids, k, r)
    ensures j == k
  {
    var lo, hi := if j < k then j else k, if j < k then k else j;
    if lo < hi {
      ReplayStep(Apply, EMPTY, requests, ids, lo);
      LaterExtends(requests, ids, lo + 1, hi);
    }
  }

  /** Every index entry was put there by its own insert. */
  lemma {:induction false} EntryOrigin(requests: Requests, ids: seq<nat>, n: nat, e: nat) returns (k: nat)
    requires InRange(requests, ids) && n <= |ids| && e < |TablesAt(requests, ids, n).index|
    ensures k < n && |TablesAt(requests, ids, k).index| == e
    ensures var entry := TablesAt(requests, ids, n).index[e];
            Ran(requests, ids, k, InsertIndex(entry.rowid, entry.content))
  {
    assert n > 0;
    ReplayStep(Apply, EMPTY, requests, ids, n - 1);
    if e < |TablesAt(requests, ids, n - 1).index| {
      k := EntryOrigin(requests, ids, n - 1, e);
    } else {
      k := n - 1;
    }
  }

  /** An executed index insert leaves its entry. */
  lemma EntryStays(requests: Requests, ids: seq<nat>, k: nat, n: nat, rowid: int, content: string)
    requires InRange(requests, ids) && k < n <= |ids| && Ran(requests, ids, k, InsertIndex(rowid, content))
    ensures var t := TablesAt(requests, ids, n);
            exists e :: 0 <= e < |t.index| && t.index[e] == Entry(rowid, content)
  {
    ReplayStep(Apply, EMPTY, requests, ids, k);
    LaterExtends(requests, ids, k + 1, n);
    var e := |TablesAt(requests, ids, k).index|;
    assert TablesAt(requests, ids, n).index[e] == Entry(rowid, content);
  }

  /** Every mark was put there by a marking write that names the row. */
  lemma {:induction false} MarkOrigin(requests: Requests, ids: seq<nat>, n: nat, r: int) returns (k: nat)
    requires InRange(requests, ids) && n <= |ids|
    requires r in TablesAt(requests, ids, n).memories && TablesAt(requests, ids, n).memories[r].consolidated
    ensures k < n && requests[ids[k]].sql.stmt.MarkConsolidated? && !requests[ids[k]].sql.raises
    ensures r in requests[ids[k]].sql.stmt.ids
  {
    assert n > 0;
    ReplayStep(Apply, EMPTY, requests, ids, n - 1);
    var t := TablesAt(requests, ids, n - 1);
    if r in t.memories && t.memories[r].consolidated {
      k := MarkOrigin(requests, ids, n - 1, r);
    } else {
      k := n - 1;
    }
  }

  /** A marking write marks every row it names that exists, for good. */
  lemma MarkStays(requests: Requests, ids: seq<nat>, k: nat, n: nat, batch: seq<int>, r: int)
    requires InRange(requests, ids) && k < n <= |ids| && Ran(requests, ids, k, MarkConsolidated(batch))
    requires r in batch && r in TablesAt(requests, ids, k).memories
    ensures var t := TablesAt(requests, ids, n); r in t.memories && t.memories[r].consolidated
  {
    ReplayStep(Apply, EMPTY, requests, ids, k);
    LaterExtends(requests, ids, k + 1, n);
  }

  lemma {:induction false} EligibleIdsExact(t: Tables, cutoff: real, n: int)
    ensures var ids := EligibleIds(t, cutoff, n);
            && Ascending(ids)
            && forall r :: r in ids <==> 1 <= r <= n && r in t.memories && Eligible(t.memories[r], cutoff)
    decreases if n < 0 then 0 else n
  {
    if n >= 1 {
      EligibleIdsExact(t, cutoff, n - 1);
      var before, ids := EligibleIds(t, cutoff, n - 1), EligibleIds(t, cutoff, n);
      forall i | 0 <= i < |before| ensures before[i] < n && ids[i] == before[i] {
        assert before[i] in before;
      }
    }
  }

  /**
    A fetched batch: at most 50 distinct, unmarked episodes newer than the cutoff, newest first; an
    eligible row is left out only when the batch is full of rows at least as new.
  */
  lemma NewestExact(t: Tables, cutoff: real)
    ensures var batch := Newest(t, cutoff);
            && |batch| <= 50
            && Distinct(batch)
            && (forall i | 0 <= i < |batch| ::
                  1 <= batch[i] < t.next && batch[i] in t.memories && Eligible(t.memories[batch[i]], cutoff))
            && (forall i, j | 0 <= i < j < |batch| :: CreatedAt(t)(batch[i]) >= CreatedAt(t)(batch[j]))
            && (forall r | r in t.memories && 1 <= r < t.next && Eligible(t.memories[r], cutoff) && r !in batch ::
                  |batch| == 50 && forall i | 0 <= i < |batch| :: CreatedAt(t)(batch[i]) >= CreatedAt(t)(r))
  {
    var ids, batch := EligibleIds(t, cutoff, t.next - 1), Newest(t, cutoff);
    EligibleIdsExact(t, cutoff, t.next - 1);
    BatchIsSorted(t, cutoff);
    forall r | r in ids && r !in batch
      ensures |batch| == 50 && forall i | 0 <= i < |batch| :: CreatedAt(t)(batch[i]) >= CreatedAt(t)(r)
    {
      LeftOutIsNoBetter(ids, CreatedAt(t), BATCH_LIMIT, r);
    }
  }

  lemma BatchIsSorted(t: Tables, cutoff: real)
    ensures var ids, batch := EligibleIds(t, cutoff, t.next - 1), Newest(t, cutoff);
            && Distinct(batch) && Descending(batch, CreatedAt(t))
            && forall i | 0 <= i < |batch| :: batch[i] in ids
  {
    EligibleIdsExact(t, cutoff, t.next - 1);
    BestAreSorted(EligibleIds(t, cutoff, t.next - 1), CreatedAt(t), BATCH_LIMIT);
  }

  // An episode that no dream has marked and that is newer than the cutoff.
  ghost predicate Fresh(t: Tables, cutoff: real, r: int) {
    r in t.memories && t.memories[r].kind.Episodic? && !t.memories[r].consolidated && t.memories[r].created > cutoff
  }

  // The fresh rows that come before r in the order of the fetch: newer, or as new and inserted earlier.
  ghost function Newer(t: Tables, cutoff: real, r: int): set<int>
    requires r in t.memories
  {
    var created := t.memories[r].created;
    set x | x in t.memories && Fresh(t, cutoff, x)
            && (t.memories[x].created > created || (t.memories[x].created == created && x < r))
  }

  /** A row is fetched if and only if it is fresh and fewer than 50 fresh rows come before it. */
  lemma FetchedExactly(t: Tables, cutoff: real, r: int)
    requires RowIdsBelowNext(t)
    ensures r in Newest(t, cutoff) <==> Fresh(t, cutoff, r) && |Newer(t, cutoff, r)| < 50
  {
    FreshIsEligible(t, cutoff);
    FetchedAmong(t, cutoff, r, EligibleIds(t, cutoff, t.next - 1));
  }

  lemma FreshIsEligible(t: Tables, cutoff: real)
    requires RowIdsBelowNext(t)
    ensures Ascending(EligibleIds(t, cutoff, t.next - 1))
    ensures forall r :: r in EligibleIds(t, cutoff, t.next - 1) <==> Fresh(t, cutoff, r)
  {
    EligibleIdsExact(t, cutoff, t.next - 1);
  }

  lemma FetchedAmong(t: Tables, cutoff: real, r: int, ids: seq<int>)
    requires Ascending(ids) && forall x :: x in ids <==> Fresh(t, cutoff, x)
    ensures r in Take(SortDesc(ids, CreatedAt(t)), BATCH_LIMIT)
            <==> Fresh(t, cutoff, r) && |Newer(t, cutoff, r)| < 50
  {
    TakenExactly(ids, CreatedAt(t), BATCH_LIMIT, r);
    if r in ids {
      BetterIsNewer(t, cutoff, r, ids);
    }
  }

  lemma BetterIsNewer(t: Tables, cutoff: real, r: int, ids: seq<int>)
    requires r in t.memories && forall x :: x in ids <==> Fresh(t, cutoff, x)
    ensures Better(ids, CreatedAt(t), r) == Newer(t, cutoff, r)
  {
  }
}
