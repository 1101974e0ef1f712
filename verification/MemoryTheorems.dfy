/**
  The main results about long-term memory, over every interleaving of saves, dreams, other callers,
  cancellations, crashes and restarts: the keyword index agrees with the rows, and consolidation
  marks only what it read and summarized.
*/
module MemoryTheorems {
  import opened Wrappers
  import opened DatabaseProtocol
  import opened DatabaseSafety
  import opened MemoryStore
  import opened MemoryReplay
  import opened MemoryClients

  // The database is the serial execution of what was executed, and every result agrees with it.
  ghost predicate Explained(s: Store) {
    && Clients(s)
    && Increasing(s.db.executed)
    && InRange(s.db.requests, s.db.executed)
    && Agrees(Apply, EMPTY, s.db.requests, s.db.futures, s.db.executed)
    && s.db.db == TablesAt(s.db.requests, s.db.executed, |s.db.executed|)
    && forall id: nat | id < |s.db.requests| && Delivered(s.db.futures[id]) :: id in s.db.executed
  }

  lemma FetchesReadOnly(requests: seq<Request<Sql>>)
    requires ReadsAreFetches(requests)
    ensures ReadOnlyFetches(Apply, requests)
  {
  }

  lemma StartInv()
    ensures Clients(START) && Inv(Apply, EMPTY, START.db)
  {
  }

  lemma HistoryExplained(events: seq<Event>)
    ensures Explained(History(START, events))
  {
    StartInv();
    HistoryInv(START, events);
    var s := History(START, events);
    FetchesReadOnly(s.db.requests);
    InvExplains(s);
  }

  lemma InvExplains(s: Store)
    requires Clients(s) && Inv(Apply, EMPTY, s.db) && ReadOnlyFetches(Apply, s.db.requests)
    ensures Explained(s)
  {
    assert s.db.executed[..|s.db.executed|] == s.db.executed;
  }

  // ---------- The keyword index ----------

  ghost predicate Indexed(t: Tables, r: int) {
    exists e :: 0 <= e < |t.index| && t.index[e].rowid == r
  }

  // The first write of the k-th save was executed and created the row r.
  ghost predicate WroteRow(s: Store, k: nat, r: int)
    requires InRange(s.db.requests, s.db.executed)
  {
    && k < |s.saves|
    && exists j: nat :: j < |s.db.executed| && s.db.executed[j] == s.saves[k].insert
                        && Inserted(s.db.requests, s.db.executed, j, r)
  }

  // The second write of the k-th save was sent, executed, and did not raise.
  ghost predicate SecondWriteDone(s: Store, k: nat)
    requires k < |s.saves|
  {
    && s.saves[k].link.Some?
    && var index := s.saves[k].link.value.index;
       index < |s.db.requests| && index in s.db.executed && !s.db.requests[index].sql.raises
  }

  // The row id a save puts into its index write is the id of the row its first write created.
  lemma LinkOrigin(s: Store, k: nat) returns (j: nat)
    requires Explained(s) && k < |s.saves| && s.saves[k].link.Some?
    ensures j < |s.db.executed| && s.db.executed[j] == s.saves[k].insert
    ensures Inserted(s.db.requests, s.db.executed, j, s.saves[k].link.value.rowid)
  {
    assert SaveOk(s, k);
    var id := s.saves[k].insert;
    assert Delivered(s.db.futures[id]);
    j :| 0 <= j < |s.db.executed| && s.db.executed[j] == id;
    assert s.db.futures[id] == Answer(Apply, EMPTY, s.db.requests, s.db.executed, j);
  }

  lemma SameRowSameSave(s: Store, k: nat, k': nat, r: int)
    requires Explained(s) && WroteRow(s, k, r) && WroteRow(s, k', r)
    ensures k == k'
  {
    var j: nat :| j < |s.db.executed| && s.db.executed[j] == s.saves[k].insert
                  && Inserted(s.db.requests, s.db.executed, j, r);
    var j': nat :| j' < |s.db.executed| && s.db.executed[j'] == s.saves[k'].insert
                   && Inserted(s.db.requests, s.db.executed, j', r);
    InsertedOnce(s.db.requests, s.db.executed, j, j', r);
    assert SaveOk(s, k) && SaveOk(s, k');
  }

  // An index entry comes from the second write of the save whose first write created its row.
  lemma EntrySave(s: Store, e: nat) returns (k: nat, i: nat)
    requires Explained(s) && e < |s.db.db.index|
    ensures k < |s.saves| && i < |s.db.executed| && s.saves[k].link.Some?
    ensures s.db.executed[i] == s.saves[k].link.value.index
    ensures WroteRow(s, k, s.db.db.index[e].rowid) && SecondWriteDone(s, k)
    ensures |TablesAt(s.db.requests, s.db.executed, i).index| == e
    ensures s.db.db.index[e] == Entry(s.saves[k].link.value.rowid, s.saves[k].content)
  {
    i := EntryOrigin(s.db.requests, s.db.executed, |s.db.executed|, e);
    var id := s.db.executed[i];
    assert Owned(s, id);
    k := s.owner[id];
    assert SaveOk(s, k);
    var j := LinkOrigin(s, k);
  }

  lemma RowSave(s: Store, r: int) returns (k: nat)
    requires Explained(s) && r in s.db.db.memories
    ensures WroteRow(s, k, r)
  {
    var j := RowOrigin(s.db.requests, s.db.executed, |s.db.executed|, r);
    var id := s.db.executed[j];
    assert Owned(s, id);
    k := s.owner[id];
    assert SaveOk(s, k);
  }

  lemma RowContent(s: Store, k: nat, r: int)
    requires Explained(s) && WroteRow(s, k, r)
    ensures r in s.db.db.memories
    ensures s.db.db.memories[r].content == s.saves[k].content && s.db.db.memories[r].kind == s.saves[k].kind
    ensures s.saves[k].insert < |s.db.requests| && s.db.requests[s.saves[k].insert].sql.stmt.InsertMemory?
    ensures s.db.db.memories[r].created == s.db.requests[s.saves[k].insert].sql.stmt.created
  {
    assert SaveOk(s, k);
    var j: nat :| j < |s.db.executed| && s.db.executed[j] == s.saves[k].insert
                  && Inserted(s.db.requests, s.db.executed, j, r);
    InsertedStays(s.db.requests, s.db.executed, j, |s.db.executed|, r);
  }

  lemma IndexedExactly(s: Store, k: nat, r: int)
    requires Explained(s) && WroteRow(s, k, r)
    ensures Indexed(s.db.db, r) <==> SecondWriteDone(s, k)
  {
    if Indexed(s.db.db, r) {
      var e :| 0 <= e < |s.db.db.index| && s.db.db.index[e].rowid == r;
      var k', i := EntrySave(s, e);
      SameRowSameSave(s, k, k', r);
    }
    if SecondWriteDone(s, k) {
      var j := LinkOrigin(s, k);
      var rowid := s.saves[k].link.value.rowid;
      RowOfSave(s, k, r, rowid);
      assert SaveOk(s, k);
      var index := s.saves[k].link.value.index;
      var i: nat :| i < |s.db.executed| && s.db.executed[i] == index;
      EntryStays(s.db.requests, s.db.executed, i, |s.db.executed|, rowid, s.saves[k].content);
    }
  }

  lemma RowOfSave(s: Store, k: nat, r: int, r': int)
    requires Explained(s) && WroteRow(s, k, r) && WroteRow(s, k, r')
    ensures r == r'
  {
  }

  /**
    Keyword index agreement: every index entry names an existing row with the same content; no row
    is indexed twice; every row was created by exactly one save, and it is indexed if and only if
    that save's second write was sent, executed and did not raise. So the unindexed rows are exactly
    those whose second write is outstanding or failed.
  */
  lemma KeywordIndexAgrees(events: seq<Event>)
    ensures var s := History(START, events);
            && InRange(s.db.requests, s.db.executed)
            && var t := s.db.db;
            && (forall e | 0 <= e < |t.index| ::
                  t.index[e].rowid in t.memories && t.memories[t.index[e].rowid].content == t.index[e].content)
            && (forall e, e' | 0 <= e < e' < |t.index| :: t.index[e].rowid != t.index[e'].rowid)
            && (forall r | r in t.memories :: exists k :: WroteRow(s, k, r))
            && (forall k, k', r | WroteRow(s, k, r) && WroteRow(s, k', r) :: k == k')
            && (forall k, r | WroteRow(s, k, r) :: Indexed(t, r) <==> SecondWriteDone(s, k))
  {
    HistoryExplained(events);
    var s := History(START, events);
    var t := s.db.db;
    forall e | 0 <= e < |t.index|
      ensures t.index[e].rowid in t.memories && t.memories[t.index[e].rowid].content == t.index[e].content
    {
      var k, i := EntrySave(s, e);
      RowContent(s, k, t.index[e].rowid);
    }
    forall e, e' | 0 <= e < e' < |t.index| ensures t.index[e].rowid != t.index[e'].rowid {
      EntriesDiffer(s, e, e');
    }
    forall r | r in t.memories ensures exists k :: WroteRow(s, k, r) {
      var k := RowSave(s, r);
    }
    forall k, k', r | WroteRow(s, k, r) && WroteRow(s, k', r) ensures k == k' { SameRowSameSave(s, k, k', r); }
    forall k, r | WroteRow(s, k, r) ensures Indexed(t, r) <==> SecondWriteDone(s, k) { IndexedExactly(s, k, r); }
  }

  lemma EntriesDiffer(s: Store, e: nat, e': nat)
    requires Explained(s) && e < e' < |s.db.db.index|
    ensures s.db.db.index[e].rowid != s.db.db.index[e'].rowid
  {
    var k, i := EntrySave(s, e);
    var k', i' := EntrySave(s, e');
    if s.db.db.index[e].rowid == s.db.db.index[e'].rowid {
      SameRowSameSave(s, k, k', s.db.db.index[e].rowid);
    }
  }

  /** A save that returned has left its row and the row's index entry. */
  lemma ReturnedSaveIsIndexed(events: seq<Event>, k: nat)
    requires var s := History(START, events); k < |s.saves| && s.saves[k].status.Returned?
    ensures var s := History(START, events);
            && s.saves[k].link.Some?
            && var rowid := s.saves[k].link.value.rowid;
            && rowid in s.db.db.memories
            && s.db.db.memories[rowid].content == s.saves[k].content
            && s.db.db.memories[rowid].kind == s.saves[k].kind
            && Indexed(s.db.db, rowid)
  {
    HistoryExplained(events);
    ReturnedIndexed(History(START, events), k);
  }

  lemma ReturnedIndexed(s: Store, k: nat)
    requires Explained(s) && k < |s.saves| && s.saves[k].status.Returned?
    ensures s.saves[k].link.Some? && SecondWriteDone(s, k) && WroteRow(s, k, s.saves[k].link.value.rowid)
    ensures var rowid := s.saves[k].link.value.rowid;
            && rowid in s.db.db.memories
            && s.db.db.memories[rowid].content == s.saves[k].content
            && s.db.db.memories[rowid].kind == s.saves[k].kind
            && Indexed(s.db.db, rowid)
  {
    assert SaveOk(s, k);
    var j := LinkOrigin(s, k);
    var index := s.saves[k].link.value.index;
    assert Delivered(s.db.futures[index]);
    var i: nat :| i < |s.db.executed| && s.db.executed[i] == index;
    assert s.db.futures[index] == Answer(Apply, EMPTY, s.db.requests, s.db.executed, i);
    RowContent(s, k, s.saves[k].link.value.rowid);
    IndexedExactly(s, k, s.saves[k].link.value.rowid);
  }

  // ---------- Consolidation ----------

  // The marking write of the d-th dream was executed and did not raise.
  ghost predicate MarkDone(s: Store, d: nat)
    requires d < |s.dreams|
  {
    && s.dreams[d].mark.Some?
    && s.dreams[d].mark.value < |s.db.requests|
    && s.dreams[d].mark.value in s.db.executed
    && !s.db.requests[s.dreams[d].mark.value].sql.raises
  }

  // The batch a dream received is what its fetch read, at its place in the serial execution.
  lemma BatchOrigin(s: Store, d: nat) returns (f: nat)
    requires Explained(s) && d < |s.dreams| && s.dreams[d].batch.Some?
    ensures f < |s.db.executed| && s.db.executed[f] == s.dreams[d].fetch
    ensures var t := TablesAt(s.db.requests, s.db.executed, f);
            s.dreams[d].batch.value == Newest(t, s.dreams[d].cutoff)
  {
    assert DreamOk(s, d);
    var id := s.dreams[d].fetch;
    assert Delivered(s.db.futures[id]);
    f :| 0 <= f < |s.db.executed| && s.db.executed[f] == id;
    assert s.db.futures[id] == Answer(Apply, EMPTY, s.db.requests, s.db.executed, f);
  }

  lemma BatchRows(s: Store, d: nat, r: int) returns (f: nat)
    requires Explained(s) && d < |s.dreams| && s.dreams[d].batch.Some? && r in s.dreams[d].batch.value
    ensures f < |s.db.executed| && s.db.executed[f] == s.dreams[d].fetch
    ensures var t := TablesAt(s.db.requests, s.db.executed, f);
            r in t.memories && Eligible(t.memories[r], s.dreams[d].cutoff)
  {
    f := BatchOrigin(s, d);
    var t := TablesAt(s.db.requests, s.db.executed, f);
    NewestExact(t, s.dreams[d].cutoff);
  }

  // The fetch and the marking write of a dream run before the fetch of any later dream.
  lemma DreamOrder(s: Store, d: nat, d': nat, f: nat, m: nat, f': nat)
    requires Explained(s) && d < d' < |s.dreams| && s.dreams[d].mark.Some?
    requires f < |s.db.executed| && s.db.executed[f] == s.dreams[d].fetch
    requires m < |s.db.executed| && s.db.executed[m] == s.dreams[d].mark.value
    requires f' < |s.db.executed| && s.db.executed[f'] == s.dreams[d'].fetch
    ensures f < m < f'
  {
    assert DreamOk(s, d) && Apart(s);
    assert SaveOk(s, s.dreams[d].save.value);
    PositionOrder(s.db.executed, f, m);
    PositionOrder(s.db.executed, m, f');
  }

  // A batch that was marked is never read again.
  lemma MarkedNotReadAgain(s: Store, d: nat, d': nat, r: int)
    requires Explained(s) && d < d' < |s.dreams| && MarkDone(s, d)
    requires s.dreams[d].batch.Some? && s.dreams[d'].batch.Some?
    requires r in s.dreams[d].batch.value
    ensures r !in s.dreams[d'].batch.value
  {
    if r in s.dreams[d'].batch.value {
      var f := BatchRows(s, d, r);
      var f' := BatchRows(s, d', r);
      var m: nat :| m < |s.db.executed| && s.db.executed[m] == s.dreams[d].mark.value;
      DreamOrder(s, d, d', f, m, f');
      assert DreamOk(s, d);
      MarkedAtLast(s.db.requests, s.db.executed, f, m, f', s.dreams[d].batch.value, r);
    }
  }

  lemma MarkedAtLast(requests: seq<Request<Sql>>, ids: seq<nat>, f: nat, m: nat, f': nat, batch: seq<int>, r: int)
    requires InRange(requests, ids) && f < m < f' < |ids|
    requires Ran(requests, ids, m, MarkConsolidated(batch)) && r in batch
    requires r in TablesAt(requests, ids, f).memories
    ensures var t := TablesAt(requests, ids, f'); r in t.memories && t.memories[r].consolidated
  {
    LaterExtends(requests, ids, f, m);
    MarkStays(requests, ids, m, f', batch, r);
  }

  /**
    Consolidation marks only what it read: every marked row was in the batch of a dream whose
    summary had been saved and indexed before the marking write was sent.
  */
  lemma MarksComeFromDreams(events: seq<Event>, r: int)
    requires var t := History(START, events).db.db; r in t.memories && t.memories[r].consolidated
    ensures var s := History(START, events);
            exists d ::
              && 0 <= d < |s.dreams| && MarkDone(s, d)
              && s.dreams[d].batch.Some? && r in s.dreams[d].batch.value
              && s.dreams[d].save.Some? && s.dreams[d].save.value < |s.saves|
              && SummarySaved(s, s.dreams[d].save.value, s.dreams[d].mark.value)
  {
    HistoryExplained(events);
    var s := History(START, events);
    var i := MarkOrigin(s.db.requests, s.db.executed, |s.db.executed|, r);
    var id := s.db.executed[i];
    assert Owned(s, id);
    var d := s.marker[id];
    assert DreamOk(s, d);
    assert SaveOk(s, s.dreams[d].save.value);
    ReturnedIndexed(s, s.dreams[d].save.value);
    assert SummarySaved(s, s.dreams[d].save.value, s.dreams[d].mark.value);
  }

  // The save k returned, was sent before the request `before`, and its row and index entry exist.
  ghost predicate SummarySaved(s: Store, k: nat, before: nat)
    requires k < |s.saves|
  {
    && s.saves[k].status.Returned? && s.saves[k].kind.Semantic? && s.saves[k].link.Some?
    && s.saves[k].insert < s.saves[k].link.value.index < before
    && s.saves[k].link.value.rowid in s.db.db.memories
    && s.db.db.memories[s.saves[k].link.value.rowid].content == s.saves[k].content
    && Indexed(s.db.db, s.saves[k].link.value.rowid)
  }

  /**
    Batches hold at most 50 distinct rows, all of them created by saves sent before the dream's
    fetch, so a row saved during the model call stays unmarked; and once a dream's marking write
    was executed, no later dream reads any of its rows.
  */
  lemma BatchesAreSoundAndDisjoint(events: seq<Event>, d: nat)
    requires var s := History(START, events); d < |s.dreams| && s.dreams[d].batch.Some?
    ensures var s := History(START, events);
            var batch := s.dreams[d].batch.value;
            && InRange(s.db.requests, s.db.executed)
            && |batch| <= 50
            && (forall i, j | 0 <= i < j < |batch| :: batch[i] != batch[j])
            && (forall r, k: nat | r in batch && WroteRow(s, k, r) :: s.saves[k].insert < s.dreams[d].fetch)
            && (forall r | r in batch :: r in s.db.db.memories && s.db.db.memories[r].kind.Episodic?)
            && (forall d', r | d < d' < |s.dreams| && MarkDone(s, d) && s.dreams[d'].batch.Some? && r in batch ::
                  r !in s.dreams[d'].batch.value)
  {
    HistoryExplained(events);
    var s := History(START, events);
    var batch := s.dreams[d].batch.value;
    var f := BatchOrigin(s, d);
    var t := TablesAt(s.db.requests, s.db.executed, f);
    NewestExact(t, s.dreams[d].cutoff);
    LaterExtends(s.db.requests, s.db.executed, f, |s.db.executed|);
    forall r, k: nat | r in batch && WroteRow(s, k, r) ensures s.saves[k].insert < s.dreams[d].fetch {
      ReadRowsAreOlder(s, d, r, k);
    }
    forall d', r | d < d' < |s.dreams| && MarkDone(s, d) && s.dreams[d'].batch.Some? && r in batch
      ensures r !in s.dreams[d'].batch.value
    {
      MarkedNotReadAgain(s, d, d', r);
    }
  }

  lemma ReadRowsAreOlder(s: Store, d: nat, r: int, k: nat)
    requires Explained(s) && d < |s.dreams| && s.dreams[d].batch.Some? && r in s.dreams[d].batch.value
    requires WroteRow(s, k, r)
    ensures s.saves[k].insert < s.dreams[d].fetch
  {
    var f := BatchRows(s, d, r);
    var j := RowOrigin(s.db.requests, s.db.executed, f, r);
    var j': nat :| j' < |s.db.executed| && s.db.executed[j'] == s.saves[k].insert
                   && Inserted(s.db.requests, s.db.executed, j', r);
    InsertedOnce(s.db.requests, s.db.executed, j, j', r);
  }
}
