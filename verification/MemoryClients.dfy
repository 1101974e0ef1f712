/**
  What the `save_memory` and `run_auto_dream` coroutines know about the requests they have sent, kept
  by every event.
*/
module MemoryClients {
  import opened Wrappers
  import opened DatabaseProtocol
  import opened DatabaseSafety
  import opened MemoryStore

  ghost predicate SaveOk(s: Store, k: nat)
    requires k < |s.saves| && |s.db.futures| == |s.db.requests|
  {
    var save, requests := s.saves[k], s.db.requests;
    && save.insert < |requests|
    && requests[save.insert].mode.NoFetch? && requests[save.insert].sql.stmt.InsertMemory?
    && requests[save.insert].sql.stmt.content == save.content && requests[save.insert].sql.stmt.kind == save.kind
    && save.insert in s.owner && s.owner[save.insert] == k
    && (save.link.Some? ==>
          var link := save.link.value;
          && save.insert < link.index < |requests|
          && requests[link.index].mode.NoFetch?
          && requests[link.index].sql.stmt == InsertIndex(link.rowid, save.content)
          && s.db.futures[save.insert] == Result(RowId(link.rowid))
          && link.index in s.owner && s.owner[link.index] == k)
    && (save.status.Returned? ==> save.link.Some? && s.db.futures[save.link.value.index].Result?)
  }

  ghost predicate DreamOk(s: Store, d: nat)
    requires d < |s.dreams| && |s.db.futures| == |s.db.requests|
  {
    var dream, requests := s.dreams[d], s.db.requests;
    && dream.fetch < |requests|
    && requests[dream.fetch].mode.FetchAll? && requests[dream.fetch].sql.stmt == FetchEpisodes(dream.cutoff)
    && (dream.batch.Some? ==> s.db.futures[dream.fetch] == Result(Rows(dream.batch.value)))
    && (dream.save.Some? ==>
          && dream.batch.Some? && dream.save.value < |s.saves|
          && s.saves[dream.save.value].kind.Semantic?
          && dream.fetch < s.saves[dream.save.value].insert)
    && (dream.mark.Some? ==>
          && dream.save.Some?
          && var save := s.saves[dream.save.value];
          && save.status.Returned? && save.link.Some?
          && save.link.value.index < dream.mark.value < |requests|
          && requests[dream.mark.value].mode.NoFetch?
          && requests[dream.mark.value].sql.stmt == MarkConsolidated(dream.batch.value)
          && dream.mark.value in s.marker && s.marker[dream.mark.value] == d)
  }

  // Every memory, index and marking request belongs to the save or dream that sent it.
  ghost predicate Owned(s: Store, id: nat)
    requires id < |s.db.requests|
  {
    match s.db.requests[id].sql.stmt
    case InsertMemory(_, _, _) => id in s.owner && s.owner[id] < |s.saves| && s.saves[s.owner[id]].insert == id
    case InsertIndex(_, _) =>
      && id in s.owner && s.owner[id] < |s.saves|
      && s.saves[s.owner[id]].link.Some? && s.saves[s.owner[id]].link.value.index == id
    case MarkConsolidated(_) =>
      id in s.marker && s.marker[id] < |s.dreams| && s.dreams[s.marker[id]].mark == Some(id)
    case _ => true
  }

  // A dream sends everything before the next one starts.
  ghost predicate Apart(s: Store) {
    && (forall d, d' | 0 <= d < d' < |s.dreams| ::
          && s.dreams[d].over
          && s.dreams[d].fetch < s.dreams[d'].fetch
          && (s.dreams[d].mark.Some? ==> s.dreams[d].mark.value < s.dreams[d'].fetch))
  }

  ghost predicate ReadsAreFetches(requests: seq<Request<Sql>>) {
    forall i | 0 <= i < |requests| && !requests[i].mode.NoFetch? ::
      requests[i].sql.stmt.FetchEpisodes? || requests[i].sql.stmt.Other?
  }

  ghost predicate Clients(s: Store) {
    && |s.db.futures| == |s.db.requests|
    && (forall k | 0 <= k < |s.saves| :: SaveOk(s, k))
    && (forall d | 0 <= d < |s.dreams| :: DreamOk(s, d))
    && (forall id | 0 <= id < |s.db.requests| :: Owned(s, id))
    && Apart(s)
    && ReadsAreFetches(s.db.requests)
  }

  lemma ProtocolClients(s: Store, step: Step<Sql>)
    requires Clients(s) && !step.Submit?
    ensures Clients(After(s, Protocol(step)))
  {
    NextStable(Apply, s.db, step);
    var t := After(s, Protocol(step));
    assert t.db.requests == s.db.requests;
    forall k | 0 <= k < |t.saves| ensures SaveOk(t, k) { assert SaveOk(s, k); }
    forall d | 0 <= d < |t.dreams| ensures DreamOk(t, d) { assert DreamOk(s, d); }
    forall id | 0 <= id < |t.db.requests| ensures Owned(t, id) { assert Owned(s, id); }
  }

  lemma OtherClients(s: Store, mode: Mode, raises: bool)
    requires Clients(s)
    ensures Clients(After(s, OtherCall(mode, raises)))
  {
    var t := After(s, OtherCall(mode, raises));
    forall k | 0 <= k < |t.saves| ensures SaveOk(t, k) { assert SaveOk(s, k); }
    forall d | 0 <= d < |t.dreams| ensures DreamOk(t, d) { assert DreamOk(s, d); }
    forall id | 0 <= id < |t.db.requests| ensures Owned(t, id) {
      if id < |s.db.requests| { assert Owned(s, id); }
    }
  }

  lemma StartSaveClients(s: Store, content: string, kind: Kind, created: real, raises: bool)
    requires Clients(s)
    ensures Clients(StartSaveIn(s, content, kind, created, raises))
  {
    var t := StartSaveIn(s, content, kind, created, raises);
    forall k | 0 <= k < |t.saves| ensures SaveOk(t, k) {
      if k < |s.saves| { assert SaveOk(s, k); }
    }
    forall d | 0 <= d < |t.dreams| ensures DreamOk(t, d) { assert DreamOk(s, d); }
    forall id | 0 <= id < |t.db.requests| ensures Owned(t, id) {
      if id < |s.db.requests| { assert Owned(s, id); }
    }
  }

  // A save may end at any time; it may return only when its index write has a result.
  lemma EndSaveClients(s: Store, k: nat, status: Status)
    requires Clients(s) && k < |s.saves| && s.saves[k].status.Running?
    requires status.Returned? ==> s.saves[k].link.Some? && s.saves[k].link.value.index < |s.db.futures|
                                  && s.db.futures[s.saves[k].link.value.index].Result?
    ensures Clients(s.(saves := s.saves[k := s.saves[k].(status := status)]))
  {
    var t := s.(saves := s.saves[k := s.saves[k].(status := status)]);
    assert t.dreams == s.dreams && t.db == s.db;
    forall j | 0 <= j < |t.saves| ensures SaveOk(t, j) { assert SaveOk(s, j); }
    forall d | 0 <= d < |t.dreams| ensures DreamOk(t, d) { assert DreamOk(s, d); }
    forall id | 0 <= id < |t.db.requests| ensures Owned(t, id) { assert Owned(s, id); }
    assert Apart(t) by { assert Apart(s); }
  }

  lemma LinkSaveClients(s: Store, k: nat, rowid: int, raises: bool)
    requires Clients(s) && k < |s.saves| && s.saves[k].status.Running? && s.saves[k].link.None?
    requires s.saves[k].insert < |s.db.futures| && s.db.futures[s.saves[k].insert] == Result(RowId(rowid))
    requires !s.db.futures[s.saves[k].insert].Pending?
    ensures Clients(ResumeSaveIn(s, k, raises))
  {
    var t := ResumeSaveIn(s, k, raises);
    assert SaveOk(s, k);
    assert t.db.requests == s.db.requests + [Request(Sql(InsertIndex(rowid, s.saves[k].content), raises), NoFetch)];
    forall j | 0 <= j < |t.saves| ensures SaveOk(t, j) { assert SaveOk(s, j); }
    forall d | 0 <= d < |t.dreams| ensures DreamOk(t, d) { assert DreamOk(s, d); }
    forall id | 0 <= id < |t.db.requests| ensures Owned(t, id) {
      if id < |s.db.requests| { assert Owned(s, id); }
    }
    assert Apart(t) by { assert Apart(s); }
  }

  lemma ResumeSaveClients(s: Store, k: nat, raises: bool)
    requires Clients(s) && k < |s.saves|
    ensures Clients(ResumeSaveIn(s, k, raises))
  {
    assert SaveOk(s, k);
    var save := s.saves[k];
    var awaited := if save.link.Some? then save.link.value.index else save.insert;
    if !save.status.Running? || s.db.futures[awaited].Pending? {
    } else if !s.db.futures[awaited].Result? {
      EndSaveClients(s, k, Aborted);
    } else if save.link.Some? {
      EndSaveClients(s, k, Returned);
    } else if s.db.futures[awaited].value.RowId? {
      LinkSaveClients(s, k, s.db.futures[awaited].value.id, raises);
    }
  }

  // A new request leaves what earlier ones are known to be.
  ghost predicate Grows(s: Store, t: Store) {
    && |t.db.futures| == |t.db.requests|
    && s.db.requests <= t.db.requests && s.db.futures <= t.db.futures
    && s.saves <= t.saves && t.owner == s.owner
    && (forall id: nat | id in s.marker && id < |s.db.requests| :: id in t.marker && t.marker[id] == s.marker[id])
  }

  lemma SaveGrows(s: Store, t: Store, k: nat)
    requires Grows(s, t) && |s.db.futures| == |s.db.requests| && k < |s.saves| && SaveOk(s, k)
    ensures SaveOk(t, k)
  {
  }

  lemma DreamGrows(s: Store, t: Store, d: nat)
    requires Grows(s, t) && |s.db.futures| == |s.db.requests| && d < |s.dreams| && DreamOk(s, d)
    requires d < |t.dreams| && t.dreams[d] == s.dreams[d]
    ensures DreamOk(t, d)
  {
  }

  lemma StartDreamClients(s: Store, cutoff: real, raises: bool)
    requires Clients(s)
    ensures Clients(After(s, StartDream(cutoff, raises)))
  {
    var t := After(s, StartDream(cutoff, raises));
    if s.dreams == [] || Last(s).over {
      assert Grows(s, t);
      forall k | 0 <= k < |t.saves| ensures SaveOk(t, k) { SaveGrows(s, t, k); }
      forall d | 0 <= d < |t.dreams| ensures DreamOk(t, d) {
        if d < |s.dreams| { DreamGrows(s, t, d); }
      }
      forall id | 0 <= id < |t.db.requests| ensures Owned(t, id) {
        if id < |s.db.requests| { assert Owned(s, id); }
      }
      StartDreamApart(s, cutoff, raises);
    }
  }

  lemma StartDreamApart(s: Store, cutoff: real, raises: bool)
    requires Clients(s)
    ensures Apart(After(s, StartDream(cutoff, raises)))
  {
    var t := After(s, StartDream(cutoff, raises));
    forall d, d' | 0 <= d < d' < |t.dreams|
      ensures t.dreams[d].over && t.dreams[d].fetch < t.dreams[d'].fetch
              && (t.dreams[d].mark.Some? ==> t.dreams[d].mark.value < t.dreams[d'].fetch)
    {
      assert DreamOk(s, d) && t.dreams[d] == s.dreams[d];
    }
  }

  lemma SetLastClients(s: Store, d: Dream)
    requires Clients(s) && s.dreams != []
    requires d == Last(s).(over := true)
    ensures Clients(SetLast(s, d))
  {
    var t := SetLast(s, d);
    forall k | 0 <= k < |t.saves| ensures SaveOk(t, k) { assert SaveOk(s, k); }
    forall j | 0 <= j < |t.dreams| ensures DreamOk(t, j) { assert DreamOk(s, j); }
    forall id | 0 <= id < |t.db.requests| ensures Owned(t, id) { assert Owned(s, id); }
  }

  lemma BatchClients(s: Store, rows: seq<int>)
    requires Clients(s) && s.dreams != [] && Last(s).batch.None?
    requires Last(s).fetch < |s.db.futures| && s.db.futures[Last(s).fetch] == Result(Rows(rows))
    ensures Clients(SetLast(s, Last(s).(batch := Some(rows))))
  {
    var t := SetLast(s, Last(s).(batch := Some(rows)));
    assert DreamOk(s, |s.dreams| - 1);
    forall k | 0 <= k < |t.saves| ensures SaveOk(t, k) { assert SaveOk(s, k); }
    forall j | 0 <= j < |t.dreams| ensures DreamOk(t, j) { assert DreamOk(s, j); }
    forall id | 0 <= id < |t.db.requests| ensures Owned(t, id) { assert Owned(s, id); }
  }

  lemma MarkClients(s: Store, raises: bool)
    requires Clients(s) && s.dreams != [] && !Last(s).over
    requires Last(s).batch.Some? && Last(s).save.Some? && Last(s).mark.None?
    requires Last(s).fetch < |s.db.futures| && Last(s).save.value < |s.saves|
    requires s.saves[Last(s).save.value].status.Returned?
    ensures Clients(ResumeDreamIn(s, raises))
  {
    var t, last := ResumeDreamIn(s, raises), |s.dreams| - 1;
    assert t.db.requests == s.db.requests + [Request(Sql(MarkConsolidated(Last(s).batch.value), raises), NoFetch)];
    assert Grows(s, t);
    forall k | 0 <= k < |t.saves| ensures SaveOk(t, k) { SaveGrows(s, t, k); }
    forall d | 0 <= d < |t.dreams| ensures DreamOk(t, d) {
      assert DreamOk(s, d);
      if d < last { DreamGrows(s, t, d); } else { assert SaveOk(s, Last(s).save.value); }
    }
    forall id | 0 <= id < |t.db.requests| ensures Owned(t, id) {
      if id < |s.db.requests| { assert Owned(s, id); }
    }
    assert Apart(t) by { assert Apart(s); }
  }

  lemma ResumeDreamClients(s: Store, raises: bool)
    requires Clients(s) && s.dreams != []
    ensures Clients(ResumeDreamIn(s, raises))
  {
    var d := Last(s);
    assert DreamOk(s, |s.dreams| - 1);
    if ResumeDreamIn(s, raises) == s {
    } else if d.batch.None? && s.db.futures[d.fetch].Result? && s.db.futures[d.fetch].value.Rows?
              && s.db.futures[d.fetch].value.rows != [] {
      BatchClients(s, s.db.futures[d.fetch].value.rows);
    } else if d.batch.Some? && d.mark.None? && s.saves[d.save.value].status.Returned? {
      MarkClients(s, raises);
    } else {
      SetLastClients(s, d.(over := true));
    }
  }

  lemma SummarizeClients(s: Store, summary: Option<string>, created: real, raises: bool)
    requires Clients(s) && s.dreams != []
    ensures Clients(SummarizeIn(s, summary, created, raises))
  {
    var d, t := Last(s), SummarizeIn(s, summary, created, raises);
    if d.over || d.batch.None? || d.save.Some? {
    } else if summary.None? || summary.value == "" {
      SetLastClients(s, d.(over := true));
    } else {
      var u := StartSaveIn(s, summary.value, Semantic, created, raises);
      StartSaveClients(s, summary.value, Semantic, created, raises);
      assert t == SetLast(u, d.(save := Some(|s.saves|)));
      forall k | 0 <= k < |t.saves| ensures SaveOk(t, k) { assert SaveOk(u, k); }
      forall j | 0 <= j < |t.dreams| ensures DreamOk(t, j) { assert DreamOk(u, j); assert DreamOk(s, j); }
      forall id | 0 <= id < |t.db.requests| ensures Owned(t, id) { assert Owned(u, id); }
    }
  }

  lemma AfterClients(s: Store, event: Event)
    requires Clients(s)
    ensures Clients(After(s, event))
  {
    match event
    case Protocol(step) => if !step.Submit? { ProtocolClients(s, step); }
    case OtherCall(mode, raises) => OtherClients(s, mode, raises);
    case StartSave(content, kind, created, raises) => StartSaveClients(s, content, kind, created, raises);
    case ResumeSave(k, raises) => if k < |s.saves| { ResumeSaveClients(s, k, raises); }
    case AbandonSave(k) =>
      if k < |s.saves| && s.saves[k].status.Running? { EndSaveClients(s, k, Aborted); }
    case StartDream(cutoff, raises) => StartDreamClients(s, cutoff, raises);
    case ResumeDream(raises) => if s.dreams != [] { ResumeDreamClients(s, raises); }
    case Summarize(summary, created, raises) => if s.dreams != [] { SummarizeClients(s, summary, created, raises); }
    case AbandonDream => if s.dreams != [] { SetLastClients(s, Last(s).(over := true)); }
  }

  // Every event takes at most one step of the database.
  lemma AfterStep(s: Store, event: Event) returns (step: Step<Sql>)
    ensures After(s, event).db == s.db || After(s, event).db == Next(Apply, s.db, step)
  {
    var t := After(s, event);
    step := if event.Protocol? then event.step
            else if |t.db.requests| > |s.db.requests| then Submit(t.db.requests[|s.db.requests|]) else Shutdown;
  }

  lemma AfterInv(s: Store, event: Event)
    requires Inv(Apply, EMPTY, s.db)
    ensures Inv(Apply, EMPTY, After(s, event).db)
  {
    var step := AfterStep(s, event);
    NextInv(Apply, EMPTY, s.db, step);
  }

  lemma {:induction false} HistoryInv(s: Store, events: seq<Event>)
    requires Clients(s) && Inv(Apply, EMPTY, s.db)
    ensures Clients(History(s, events)) && Inv(Apply, EMPTY, History(s, events).db)
    decreases |events|
  {
    if events != [] {
      AfterClients(s, events[0]);
      AfterInv(s, events[0]);
      HistoryInv(After(s, events[0]), events[1..]);
    }
  }
}
