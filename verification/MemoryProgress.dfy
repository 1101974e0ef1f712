/**
  What `save_memory` and `run_auto_dream` do next, over every history: which write they send when an
  answer arrives, when they return and when they give up, and that undisturbed they get to the end.
*/
module MemoryProgress {
  import opened Wrappers
  import opened DatabaseProtocol
  import opened DatabaseSafety
  import opened DatabaseEffects
  import opened MemoryStore
  import opened MemoryClients
  import opened MemoryTheorems

  // The k-th save of s is running and waits for the request `awaited`.
  ghost predicate Awaits(s: Store, k: nat, awaited: nat) {
    && k < |s.saves| && s.saves[k].status.Running? && awaited < |s.db.futures|
    && (s.saves[k].link.None? ==> awaited == s.saves[k].insert)
    && (s.saves[k].link.Some? ==> awaited == s.saves[k].link.value.index)
  }

  // The only new request is this one, at the end of the queue.
  ghost predicate Sends(db: Db, db': Db, stmt: Statement, mode: Mode, raises: bool) {
    && db'.requests == db.requests + [Request(Sql(stmt, raises), mode)]
    && db'.queue == db.queue + [Call(|db.requests|)]
    && db'.futures == db.futures + [Pending]
  }

  /** Other callers send their request as it is and leave saves and dreams alone. */
  lemma OtherCallSends(s: Store, mode: Mode, raises: bool)
    ensures var t := After(s, OtherCall(mode, raises));
            Sends(s.db, t.db, Other, mode, raises) && t.saves == s.saves && t.dreams == s.dreams
  {
  }

  // What a statement of mode NoFetch returns is a row id.
  lemma WriteReturnsRowId(s: Store, id: nat)
    requires Explained(s) && id < |s.db.requests| && s.db.requests[id].mode.NoFetch?
    requires id < |s.db.futures| && s.db.futures[id].Result?
    ensures s.db.futures[id].value.RowId?
  {
    assert Delivered(s.db.futures[id]);
    var j: nat :| j < |s.db.executed| && s.db.executed[j] == id;
    assert s.db.futures[id] == Answer(Apply, EMPTY, s.db.requests, s.db.executed, j);
  }

  /**
    A save whose insert was answered with a row id sends the index write for that row and its
    content, and waits for it; nothing else changes.
  */
  lemma SaveSendsIndexWrite(events: seq<Event>, k: nat, raises: bool)
    requires var s := History(START, events);
             && k < |s.saves| && s.saves[k].status.Running? && s.saves[k].link.None?
             && s.saves[k].insert < |s.db.futures| && s.db.futures[s.saves[k].insert].Result?
    ensures var s := History(START, events);
            var t, save, answer := After(s, ResumeSave(k, raises)), s.saves[k], s.db.futures[s.saves[k].insert].value;
            && answer.RowId?
            && Sends(s.db, t.db, InsertIndex(answer.id, save.content), NoFetch, raises)
            && t.saves == s.saves[k := save.(link := Some(Link(|s.db.requests|, answer.id)))]
            && t.dreams == s.dreams
  {
    HistoryExplained(events);
    var s := History(START, events);
    assert SaveOk(s, k);
    WriteReturnsRowId(s, s.saves[k].insert);
  }

  lemma ResumedSave(s: Store, k: nat, raises: bool, awaited: nat)
    requires Explained(s) && Awaits(s, k, awaited)
    ensures var t, future := ResumeSaveIn(s, k, raises), s.db.futures[awaited];
            && k < |t.saves|
            && (t.saves[k].status.Returned? <==> s.saves[k].link.Some? && future.Result?)
            && (t.saves[k].status.Aborted? <==> future.Failed? || future.Cancelled?)
            && (future.Pending? ==> t == s)
  {
    assert SaveOk(s, k);
    if s.saves[k].link.None? && s.db.futures[awaited].Result? { WriteReturnsRowId(s, awaited); }
  }

  // Nobody else ends a save.
  lemma OtherEventsKeepSave(s: Store, event: Event, k: nat)
    requires k < |s.saves| && !(event.ResumeSave? && event.k == k) && event != AbandonSave(k)
    ensures var t := After(s, event); k < |t.saves| && t.saves[k] == s.saves[k]
  {
  }

  /**
    How a save ends, exactly: it returns when it resumes with an answered index write, and it is
    aborted when it is given up or resumes with a write that failed or was cancelled.
  */
  lemma SaveEndsExactly(events: seq<Event>, event: Event, k: nat, awaited: nat)
    requires Awaits(History(START, events), k, awaited)
    ensures var s := History(START, events);
            var t, resumes, future := After(s, event), event.ResumeSave? && event.k == k, s.db.futures[awaited];
            && k < |t.saves|
            && (t.saves[k].status.Returned? <==> resumes && s.saves[k].link.Some? && future.Result?)
            && (t.saves[k].status.Aborted? <==>
                  event == AbandonSave(k) || (resumes && (future.Failed? || future.Cancelled?)))
  {
    HistoryExplained(events);
    var s := History(START, events);
    if event.ResumeSave? && event.k == k {
      ResumedSave(s, k, event.raises, awaited);
    } else if event != AbandonSave(k) {
      OtherEventsKeepSave(s, event, k);
    }
  }

  // ---------- Dreams ----------

  // The dream in progress.
  ghost predicate Dreams(s: Store, d: Dream) {
    s.dreams != [] && Last(s) == d && !d.over
  }

  /** A dream that received a batch keeps it. */
  lemma DreamKeepsBatch(s: Store, d: Dream, rows: seq<int>, raises: bool)
    requires Dreams(s, d) && d.batch.None? && rows != []
    requires d.fetch < |s.db.futures| && s.db.futures[d.fetch] == Result(Rows(rows))
    ensures After(s, ResumeDream(raises)) == s.(dreams := s.dreams[|s.dreams| - 1 := d.(batch := Some(rows))])
  {
  }

  /** The summary of a batch is saved as a semantic memory with the model's text. */
  lemma DreamSavesSummary(s: Store, d: Dream, summary: string, created: real, raises: bool)
    requires Dreams(s, d) && d.batch.Some? && d.save.None? && summary != ""
    ensures var t := After(s, Summarize(Some(summary), created, raises));
            && Sends(s.db, t.db, InsertMemory(summary, Semantic, created), NoFetch, raises)
            && t.saves == s.saves + [Save(summary, Semantic, |s.db.requests|, None, Running)]
            && t.dreams == s.dreams[|s.dreams| - 1 := d.(save := Some(|s.saves|))]
  {
  }

  /** Once the summary is saved the dream marks its whole batch. */
  lemma DreamSendsMark(s: Store, d: Dream, raises: bool)
    requires Clients(s) && Dreams(s, d) && d.batch.Some? && d.save.Some? && d.mark.None?
    requires d.save.value < |s.saves| && s.saves[d.save.value].status.Returned?
    ensures var t := After(s, ResumeDream(raises));
            && Sends(s.db, t.db, MarkConsolidated(d.batch.value), NoFetch, raises)
            && t.saves == s.saves
            && t.dreams == s.dreams[|s.dreams| - 1 := d.(mark := Some(|s.db.requests|))]
  {
    assert DreamOk(s, |s.dreams| - 1);
  }

  // Nothing is left to do: the fetch gave no rows, the save was given up, or the marking write is done.
  ghost predicate NothingToDo(s: Store, d: Dream)
    requires d.fetch < |s.db.futures| && (d.save.Some? ==> d.save.value < |s.saves|)
    requires d.mark.Some? ==> d.mark.value < |s.db.futures|
  {
    if d.batch.None? then
      var future := s.db.futures[d.fetch];
      future.Failed? || future.Cancelled? || future == Result(Rows([]))
    else if d.mark.Some? then !s.db.futures[d.mark.value].Pending?
    else d.save.Some? && s.saves[d.save.value].status.Aborted?
  }

  lemma FetchReturnsRows(s: Store, id: nat)
    requires Explained(s) && id < |s.db.requests| && s.db.requests[id].mode.FetchAll?
    requires id < |s.db.futures| && s.db.futures[id].Result?
    ensures s.db.futures[id].value.Rows?
  {
    assert Delivered(s.db.futures[id]);
    var j: nat :| j < |s.db.executed| && s.db.executed[j] == id;
    assert s.db.futures[id] == Answer(Apply, EMPTY, s.db.requests, s.db.executed, j);
  }

  lemma ResumedFetch(s: Store, d: Dream, raises: bool)
    requires Explained(s) && Dreams(s, d) && d.batch.None? && d.fetch < |s.db.futures|
    ensures var t, future := ResumeDreamIn(s, raises), s.db.futures[d.fetch];
            t.dreams != [] && (Last(t).over <==> future.Failed? || future.Cancelled? || future == Result(Rows([])))
  {
    assert DreamOk(s, |s.dreams| - 1);
    if s.db.futures[d.fetch].Result? { FetchReturnsRows(s, d.fetch); }
    FetchOutcome(s, d, raises);
  }

  lemma FetchOutcome(s: Store, d: Dream, raises: bool)
    requires Dreams(s, d) && d.batch.None? && d.fetch < |s.db.futures|
    requires s.db.futures[d.fetch].Result? ==> s.db.futures[d.fetch].value.Rows?
    ensures var t, future := ResumeDreamIn(s, raises), s.db.futures[d.fetch];
            t.dreams != [] && (Last(t).over <==> future.Failed? || future.Cancelled? || future == Result(Rows([])))
  {
  }

  lemma ResumedDream(s: Store, d: Dream, raises: bool)
    requires Explained(s) && Dreams(s, d)
    requires d.fetch < |s.db.futures| && (d.save.Some? ==> d.save.value < |s.saves|)
    requires d.mark.Some? ==> d.mark.value < |s.db.futures| && d.save.Some?
    requires d.save.Some? ==> d.batch.Some?
    ensures var t := ResumeDreamIn(s, raises); t.dreams != [] && (Last(t).over <==> NothingToDo(s, d))
  {
    if d.batch.None? { ResumedFetch(s, d, raises); }
  }

  lemma OtherEventsKeepDream(s: Store, event: Event, d: Dream)
    requires Dreams(s, d) && !event.ResumeDream? && !event.Summarize? && !event.AbandonDream?
    ensures After(s, event).dreams == s.dreams
  {
  }

  /**
    How a dream ends, exactly: it is given up, it resumes with nothing left to do, or the model gives
    no summary of its batch.
  */
  lemma DreamEndsExactly(events: seq<Event>, event: Event, d: Dream)
    requires Dreams(History(START, events), d)
    ensures var s := History(START, events);
            var t := After(s, event);
            && d.fetch < |s.db.futures| && (d.save.Some? ==> d.save.value < |s.saves|)
            && (d.mark.Some? ==> d.mark.value < |s.db.futures|)
            && t.dreams != []
            && (Last(t).over <==>
                  || event.AbandonDream?
                  || (event.ResumeDream? && NothingToDo(s, d))
                  || (event.Summarize? && d.batch.Some? && d.save.None?
                      && (event.summary.None? || event.summary.value == "")))
  {
    HistoryExplained(events);
    var s := History(START, events);
    assert DreamOk(s, |s.dreams| - 1);
    if event.ResumeDream? {
      ResumedDream(s, d, event.raises);
    } else if event.Summarize? {
      Summarized(s, d, event.summary, event.created, event.raises);
    } else if !event.AbandonDream? {
      OtherEventsKeepDream(s, event, d);
    }
  }

  lemma Summarized(s: Store, d: Dream, summary: Option<string>, created: real, raises: bool)
    requires Dreams(s, d)
    ensures var t := SummarizeIn(s, summary, created, raises);
            && t.dreams != []
            && (Last(t).over <==> d.batch.Some? && d.save.None? && (summary.None? || summary.value == ""))
  {
  }

  // ---------- Undisturbed ----------

  const SERVE: seq<Event> := [Protocol(Dequeue), Protocol(Execute), Protocol(Resolve)]

  // The writer waits for work, and nothing is queued but this pending request.
  ghost predicate Queued(s: Store, id: nat) {
    && Clients(s) && Inv(Apply, EMPTY, s.db) && s.db.phase.Idle? && s.db.queue == [Call(id)]
    && id < |s.db.requests| && s.db.futures[id].Pending?
  }

  ghost predicate Calm(s: Store) {
    Clients(s) && Inv(Apply, EMPTY, s.db) && s.db.phase.Idle? && s.db.queue == []
  }

  // The tables and the answer after one more statement that does not raise.
  ghost predicate Serves(s: Store, t: Store, id: nat)
    requires id < |s.db.requests|
  {
    && Calm(t) && t.db.requests == s.db.requests && t.saves == s.saves && t.dreams == s.dreams
    && |t.db.futures| == |s.db.futures| && id < |s.db.futures|
    && t.db.futures == s.db.futures[id := t.db.futures[id]]
    && Outcomes(Apply, s.db.db, s.db.requests[id], t.db.futures[id])
    && t.db.db == DbAfter(Apply, s.db.db, s.db.requests[id].sql)
  }

  lemma ServeQueued(s: Store, id: nat)
    requires Queued(s, id)
    ensures Serves(s, History(s, SERVE), id)
  {
    HistoryInv(s, SERVE);
    HistoryTriple(s, Protocol(Dequeue), Protocol(Execute), Protocol(Resolve));
    HeadTaken(Apply, s.db, id);
    var taken := After(s, Protocol(Dequeue));
    HeadExecuted(Apply, taken.db, id);
    NextSaved(Apply, taken.db, Execute);
    var executed := After(taken, Protocol(Execute));
    HeadResolved(Apply, executed.db, id);
  }

  // A request that is sent while nothing else is queued is the one served next.
  lemma SentIsQueued(s: Store, t: Store, stmt: Statement, mode: Mode)
    requires Calm(s) && Clients(t) && Inv(Apply, EMPTY, t.db) && t.db.phase == s.db.phase
    requires Sends(s.db, t.db, stmt, mode, false)
    ensures Queued(t, |s.db.requests|) && t.db.requests[|s.db.requests|] == Request(Sql(stmt, false), mode)
  {
  }

  // The first half of a save: the row is there and its index write is queued.
  lemma RowIsWritten(s: Store, k: nat)
    requires k < |s.saves| && s.saves[k].status.Running? && s.saves[k].link.None?
    requires Queued(s, s.saves[k].insert) && !s.db.requests[s.saves[k].insert].sql.raises
    ensures var save, t := s.saves[k], After(History(s, SERVE), ResumeSave(k, false));
            var insert, tables := s.db.requests[save.insert].sql.stmt, s.db.db;
            && insert.InsertMemory? && insert.content == save.content && insert.kind == save.kind
            && Queued(t, |s.db.requests|) && t.dreams == s.dreams
            && t.db.requests == s.db.requests + [Request(Sql(InsertIndex(tables.next, save.content), false), NoFetch)]
            && t.saves == s.saves[k := save.(link := Some(Link(|s.db.requests|, tables.next)))]
            && t.db.db == tables.(memories := tables.memories[tables.next :=
                            Memory(save.content, save.kind, insert.created, false)], next := tables.next + 1)
  {
    assert SaveOk(s, k);
    var id, served := s.saves[k].insert, History(s, SERVE);
    ServeQueued(s, id);
    AnswersResume(served, k, s.db.db.next);
    var t := After(served, ResumeSave(k, false));
    AfterClients(served, ResumeSave(k, false));
    AfterInv(served, ResumeSave(k, false));
    SentIsQueued(served, t, InsertIndex(s.db.db.next, s.saves[k].content), NoFetch);
  }

  lemma AnswersResume(s: Store, k: nat, rowid: int)
    requires k < |s.saves| && s.saves[k].status.Running? && s.saves[k].link.None?
    requires s.saves[k].insert < |s.db.futures| && s.db.futures[s.saves[k].insert] == Result(RowId(rowid))
    ensures var t, save := After(s, ResumeSave(k, false)), s.saves[k];
            && Sends(s.db, t.db, InsertIndex(rowid, save.content), NoFetch, false)
            && t.saves == s.saves[k := save.(link := Some(Link(|s.db.requests|, rowid)))]
            && t.dreams == s.dreams && t.db.phase == s.db.phase && t.db.db == s.db.db
  {
  }

  lemma IndexAnswerReturns(s: Store, k: nat)
    requires k < |s.saves| && s.saves[k].status.Running? && s.saves[k].link.Some?
    requires s.saves[k].link.value.index < |s.db.futures| && s.db.futures[s.saves[k].link.value.index].Result?
    ensures After(s, ResumeSave(k, false)) == s.(saves := s.saves[k := s.saves[k].(status := Returned)])
  {
  }

  lemma IndexServed(s: Store, id: nat, rowid: int, content: string)
    requires Queued(s, id) && s.db.requests[id] == Request(Sql(InsertIndex(rowid, content), false), NoFetch)
    ensures var t := History(s, SERVE);
            && Calm(t) && t.saves == s.saves && t.dreams == s.dreams && t.db.requests == s.db.requests
            && id < |t.db.futures| && t.db.futures[id].Result?
            && t.db.db == s.db.db.(index := s.db.db.index + [Entry(rowid, content)])
  {
    ServeQueued(s, id);
  }

  // The second half: the index entry is there and the save returns.
  lemma EntryIsWritten(s: Store, k: nat)
    requires k < |s.saves| && s.saves[k].status.Running? && s.saves[k].link.Some?
    requires Queued(s, s.saves[k].link.value.index) && !s.db.requests[s.saves[k].link.value.index].sql.raises
    ensures var save, t := s.saves[k], After(History(s, SERVE), ResumeSave(k, false));
            && Calm(t) && t.dreams == s.dreams && t.saves == s.saves[k := save.(status := Returned)]
            && t.db.requests == s.db.requests
            && t.db.db == s.db.db.(index := s.db.db.index + [Entry(save.link.value.rowid, save.content)])
  {
    assert SaveOk(s, k);
    var link, served := s.saves[k].link.value, History(s, SERVE);
    IndexServed(s, link.index, link.rowid, s.saves[k].content);
    IndexAnswerReturns(served, k);
    AfterClients(served, ResumeSave(k, false));
  }

  function FinishSave(k: nat): seq<Event> {
    (SERVE + [ResumeSave(k, false)]) + (SERVE + [ResumeSave(k, false)])
  }

  lemma HistoryLast(s: Store, events: seq<Event>, event: Event)
    ensures History(s, events + [event]) == After(History(s, events), event)
  {
    HistoryConcat(s, events, [event]);
    assert History(After(History(s, events), event), [event][1..]) == After(History(s, events), event);
  }

  // The tables with one more memory and its index entry.
  function Saved(t: Tables, content: string, kind: Kind, created: real): Tables {
    Tables(t.memories[t.next := Memory(content, kind, created, false)], t.next + 1,
           t.index + [Entry(t.next, content)])
  }

  lemma TwoHalves(s: Store, k: nat)
    ensures var middle := After(History(s, SERVE), ResumeSave(k, false));
            History(s, FinishSave(k)) == After(History(middle, SERVE), ResumeSave(k, false))
  {
    var half := SERVE + [ResumeSave(k, false)];
    HistoryConcat(s, half, half);
    HistoryLast(s, SERVE, ResumeSave(k, false));
    HistoryLast(History(s, half), SERVE, ResumeSave(k, false));
  }

  lemma RowAndEntry(s: Store, k: nat) returns (middle: Store)
    requires k < |s.saves| && s.saves[k].status.Running? && s.saves[k].link.None?
    requires Queued(s, s.saves[k].insert) && !s.db.requests[s.saves[k].insert].sql.raises
    ensures middle == After(History(s, SERVE), ResumeSave(k, false))
    ensures var save, t := s.saves[k], After(History(middle, SERVE), ResumeSave(k, false));
            var insert := s.db.requests[save.insert].sql.stmt;
            && insert.InsertMemory? && Calm(t) && t.dreams == s.dreams
            && t.saves == s.saves[k := save.(link := Some(Link(|s.db.requests|, s.db.db.next)), status := Returned)]
            && t.db.db == Saved(s.db.db, save.content, save.kind, insert.created)
  {
    middle := After(History(s, SERVE), ResumeSave(k, false));
    RowIsWritten(s, k);
    EntryIsWritten(middle, k);
  }

  lemma SaveFinishes(s: Store, k: nat)
    requires k < |s.saves| && s.saves[k].status.Running? && s.saves[k].link.None?
    requires Queued(s, s.saves[k].insert) && !s.db.requests[s.saves[k].insert].sql.raises
    ensures var save, t := s.saves[k], History(s, FinishSave(k));
            var insert := s.db.requests[save.insert].sql.stmt;
            && insert.InsertMemory? && Calm(t) && t.dreams == s.dreams
            && t.saves == s.saves[k := save.(link := Some(Link(|s.db.requests|, s.db.db.next)), status := Returned)]
            && t.db.db == Saved(s.db.db, save.content, save.kind, insert.created)
  {
    var middle := RowAndEntry(s, k);
    TwoHalves(s, k);
  }

  // A save that starts while the writer waits for work.
  lemma SaveStarts(s: Store, content: string, kind: Kind, created: real)
    requires Calm(s)
    ensures var t := After(s, StartSave(content, kind, created, false));
            && Queued(t, |s.db.requests|) && t.dreams == s.dreams && t.db.db == s.db.db
            && t.db.requests == s.db.requests + [Request(Sql(InsertMemory(content, kind, created), false), NoFetch)]
            && t.saves == s.saves + [Save(content, kind, |s.db.requests|, None, Running)]
  {
    var start := StartSave(content, kind, created, false);
    AfterClients(s, start);
    AfterInv(s, start);
    InsertSent(s, content, kind, created);
    SentIsQueued(s, After(s, start), InsertMemory(content, kind, created), NoFetch);
  }

  lemma InsertSent(s: Store, content: string, kind: Kind, created: real)
    ensures var t := After(s, StartSave(content, kind, created, false));
            && Sends(s.db, t.db, InsertMemory(content, kind, created), NoFetch, false)
            && t.dreams == s.dreams && t.db.db == s.db.db && t.db.phase == s.db.phase
            && t.saves == s.saves + [Save(content, kind, |s.db.requests|, None, Running)]
  {
  }

  // The k-th save has returned and left its row.
  ghost predicate ReturnedWith(s: Store, k: nat, rowid: int) {
    && k < |s.saves| && s.saves[k].status.Returned?
    && s.saves[k].link.Some? && s.saves[k].link.value.rowid == rowid
  }

  lemma CalmSaveSucceeds(s: Store, content: string, kind: Kind, created: real)
    requires Calm(s)
    ensures var t := History(After(s, StartSave(content, kind, created, false)), FinishSave(|s.saves|));
            && |t.saves| == |s.saves| + 1 && t.saves[..|s.saves|] == s.saves && t.dreams == s.dreams
            && ReturnedWith(t, |s.saves|, s.db.db.next)
            && Calm(t) && t.db.db == Saved(s.db.db, content, kind, created)
  {
    SaveStarts(s, content, kind, created);
    SaveFinishes(After(s, StartSave(content, kind, created, false)), |s.saves|);
  }

  /**
    An undisturbed save gets to the end: from every state in which the writer waits for work, its row
    is inserted with its content, kind and time, the row is indexed, and the save returns.
  */
  lemma SaveSucceeds(events: seq<Event>, content: string, kind: Kind, created: real)
    requires var s := History(START, events); s.db.phase.Idle? && s.db.queue == []
    ensures var s := History(START, events);
            var t := History(s, [StartSave(content, kind, created, false)] + FinishSave(|s.saves|));
            && ReturnedWith(t, |s.saves|, s.db.db.next)
            && t.db.phase.Idle? && t.db.queue == [] && t.db.db == Saved(s.db.db, content, kind, created)
  {
    StartInv();
    HistoryInv(START, events);
    var s, start := History(START, events), StartSave(content, kind, created, false);
    CalmSaveSucceeds(s, content, kind, created);
    HistoryFirst(s, start, FinishSave(|s.saves|));
  }

  lemma HistoryFirst(s: Store, event: Event, events: seq<Event>)
    ensures History(s, [event] + events) == History(After(s, event), events)
  {
    assert ([event] + events)[1..] == events;
  }

  // ---------- An undisturbed dream ----------

  // A coroutine's event that sends one request while nothing else is queued, and its service.
  lemma SentAndServed(s: Store, t: Store, event: Event, stmt: Statement, mode: Mode)
    requires Calm(s) && t == After(s, event) && Sends(s.db, t.db, stmt, mode, false)
    requires t.db.phase == s.db.phase && t.db.db == s.db.db
    ensures Queued(t, |s.db.requests|)
    ensures var u, id, request := History(t, SERVE), |s.db.requests|, Request(Sql(stmt, false), mode);
            && Calm(u) && u.saves == t.saves && u.dreams == t.dreams && u.db.requests == t.db.requests
            && id < |u.db.futures| && Outcomes(Apply, s.db.db, request, u.db.futures[id])
            && u.db.db == DbAfter(Apply, s.db.db, request.sql)
  {
    AfterClients(s, event);
    AfterInv(s, event);
    SentIsQueued(s, t, stmt, mode);
    ServeQueued(t, |s.db.requests|);
  }

  lemma FetchSent(s: Store, cutoff: real)
    requires s.dreams == [] || Last(s).over
    ensures var t := After(s, StartDream(cutoff, false));
            && Sends(s.db, t.db, FetchEpisodes(cutoff), FetchAll, false)
            && t.saves == s.saves && t.db.db == s.db.db && t.db.phase == s.db.phase
            && t.dreams == s.dreams + [Dream(cutoff, |s.db.requests|, None, None, None, false)]
  {
  }

  lemma FetchAnswers(tables: Tables, cutoff: real, future: Future<int>)
    requires Outcomes(Apply, tables, Request(Sql(FetchEpisodes(cutoff), false), FetchAll), future)
    ensures future == Result(Rows(Newest(tables, cutoff)))
    ensures DbAfter(Apply, tables, Sql(FetchEpisodes(cutoff), false)) == tables
  {
  }

  lemma BatchKept(s: Store, d: Dream, rows: seq<int>, t: Store)
    requires Calm(s) && Dreams(s, d) && d.batch.None? && rows != []
    requires d.fetch < |s.db.futures| && s.db.futures[d.fetch] == Result(Rows(rows))
    requires t == After(s, ResumeDream(false))
    ensures Calm(t) && t.saves == s.saves && t.db == s.db
    ensures t.dreams == s.dreams[|s.dreams| - 1 := d.(batch := Some(rows))]
  {
    DreamKeepsBatch(s, d, rows, false);
    AfterClients(s, ResumeDream(false));
  }

  lemma ReplaceLast<T>(xs: seq<T>, x: T, y: T)
    ensures (xs + [x])[|xs + [x]| - 1 := y] == xs + [y]
  {
  }

  lemma FetchIsServed(s: Store, cutoff: real, d: Dream, t: Store)
    requires Calm(s) && (s.dreams == [] || Last(s).over)
    requires d == Dream(cutoff, |s.db.requests|, None, None, None, false)
    requires t == History(After(s, StartDream(cutoff, false)), SERVE)
    ensures Calm(t) && t.saves == s.saves && t.db.db == s.db.db && t.dreams == s.dreams + [d]
    ensures d.fetch < |t.db.futures| && t.db.futures[d.fetch] == Result(Rows(Newest(s.db.db, cutoff)))
  {
    FetchSent(s, cutoff);
    SentAndServed(s, After(s, StartDream(cutoff, false)), StartDream(cutoff, false), FetchEpisodes(cutoff), FetchAll);
    FetchAnswers(s.db.db, cutoff, t.db.futures[|s.db.requests|]);
  }

  // The dream receives the batch that its fetch reads.
  lemma DreamFetches(s: Store, cutoff: real)
    requires Calm(s) && (s.dreams == [] || Last(s).over) && Newest(s.db.db, cutoff) != []
    ensures var t := After(History(After(s, StartDream(cutoff, false)), SERVE), ResumeDream(false));
            && Calm(t) && t.saves == s.saves && t.db.db == s.db.db
            && t.dreams == s.dreams + [Dream(cutoff, |s.db.requests|, Some(Newest(s.db.db, cutoff)), None, None, false)]
  {
    var d, batch := Dream(cutoff, |s.db.requests|, None, None, None, false), Newest(s.db.db, cutoff);
    var served := History(After(s, StartDream(cutoff, false)), SERVE);
    FetchIsServed(s, cutoff, d, served);
    BatchKept(served, d, batch, After(served, ResumeDream(false)));
    ReplaceLast(s.dreams, d, d.(batch := Some(batch)));
  }

  lemma SummaryQueued(s: Store, d: Dream, summary: string, created: real, t: Store)
    requires Calm(s) && Dreams(s, d) && d.batch.Some? && d.save.None? && summary != ""
    requires t == After(s, Summarize(Some(summary), created, false))
    ensures Queued(t, |s.db.requests|) && t.db.db == s.db.db
    ensures t.db.requests == s.db.requests + [Request(Sql(InsertMemory(summary, Semantic, created), false), NoFetch)]
    ensures t.saves == s.saves + [Save(summary, Semantic, |s.db.requests|, None, Running)]
    ensures t.dreams == s.dreams[|s.dreams| - 1 := d.(save := Some(|s.saves|))]
  {
    DreamSavesSummary(s, d, summary, created, false);
    SentAndServed(s, t, Summarize(Some(summary), created, false), InsertMemory(summary, Semantic, created), NoFetch);
  }

  // The summary of its batch is saved.
  lemma DreamSaves(s: Store, d: Dream, summary: string, created: real)
    requires Calm(s) && Dreams(s, d) && d.batch.Some? && d.save.None? && summary != ""
    ensures var t := History(After(s, Summarize(Some(summary), created, false)), FinishSave(|s.saves|));
            && Calm(t) && ReturnedWith(t, |s.saves|, s.db.db.next)
            && t.dreams == s.dreams[|s.dreams| - 1 := d.(save := Some(|s.saves|))]
            && t.db.db == Saved(s.db.db, summary, Semantic, created)
  {
    var s1 := After(s, Summarize(Some(summary), created, false));
    SummaryQueued(s, d, summary, created, s1);
    SaveFinishes(s1, |s.saves|);
  }

  lemma DreamOver(s: Store, d: Dream, t: Store)
    requires Dreams(s, d) && d.batch.Some? && d.save.Some? && d.mark.Some? && d.save.value < |s.saves|
    requires d.fetch < |s.db.futures| && d.mark.value < |s.db.futures| && !s.db.futures[d.mark.value].Pending?
    requires t == After(s, ResumeDream(false))
    ensures t.db == s.db && t.saves == s.saves && t.dreams != [] && Last(t).over
  {
  }

  lemma MarkAnswers(tables: Tables, batch: seq<int>, future: Future<int>)
    requires Outcomes(Apply, tables, Request(Sql(MarkConsolidated(batch), false), NoFetch), future)
    ensures !future.Pending?
    ensures DbAfter(Apply, tables, Sql(MarkConsolidated(batch), false))
            == tables.(memories := Marked(tables.memories, batch))
  {
  }

  // The batch is marked and the dream is over.
  lemma DreamMarks(s: Store, d: Dream)
    requires Calm(s) && Dreams(s, d) && d.batch.Some? && d.save.Some? && d.mark.None?
    requires d.save.value < |s.saves| && s.saves[d.save.value].status.Returned?
    ensures var t := After(History(After(s, ResumeDream(false)), SERVE), ResumeDream(false));
            && t.saves == s.saves && t.db.phase.Idle? && t.db.queue == [] && t.dreams != [] && Last(t).over
            && t.db.db == s.db.db.(memories := Marked(s.db.db.memories, d.batch.value))
  {
    var s1, batch := After(s, ResumeDream(false)), d.batch.value;
    assert DreamOk(s, |s.dreams| - 1);
    MarkSent(s, d, s1);
    SentAndServed(s, s1, ResumeDream(false), MarkConsolidated(batch), NoFetch);
    var s2 := History(s1, SERVE);
    MarkAnswers(s.db.db, batch, s2.db.futures[|s.db.requests|]);
    DreamOver(s2, d.(mark := Some(|s.db.requests|)), After(s2, ResumeDream(false)));
  }

  lemma MarkSent(s: Store, d: Dream, t: Store)
    requires Clients(s) && Dreams(s, d) && d.batch.Some? && d.save.Some? && d.mark.None?
    requires d.save.value < |s.saves| && s.saves[d.save.value].status.Returned?
    requires t == After(s, ResumeDream(false))
    ensures Sends(s.db, t.db, MarkConsolidated(d.batch.value), NoFetch, false)
    ensures t.saves == s.saves && t.db.phase == s.db.phase && t.db.db == s.db.db
    ensures Dreams(t, d.(mark := Some(|s.db.requests|)))
  {
    DreamSendsMark(s, d, false);
    assert DreamOk(s, |s.dreams| - 1);
  }

  function DreamRun(k: nat, cutoff: real, summary: string, created: real): seq<Event> {
    ([StartDream(cutoff, false)] + (SERVE + [ResumeDream(false)]))
    + ([Summarize(Some(summary), created, false)] + FinishSave(k))
    + ([ResumeDream(false)] + (SERVE + [ResumeDream(false)]))
  }

  lemma DreamStages(s: Store, k: nat, cutoff: real, summary: string, created: real) returns (a: Store, b: Store)
    ensures a == After(History(After(s, StartDream(cutoff, false)), SERVE), ResumeDream(false))
    ensures b == History(After(a, Summarize(Some(summary), created, false)), FinishSave(k))
    ensures History(s, DreamRun(k, cutoff, summary, created))
            == After(History(After(b, ResumeDream(false)), SERVE), ResumeDream(false))
  {
    var fetch, mark := [StartDream(cutoff, false)] + (SERVE + [ResumeDream(false)]),
                       [ResumeDream(false)] + (SERVE + [ResumeDream(false)]);
    var save := [Summarize(Some(summary), created, false)] + FinishSave(k);
    HistoryConcat(s, fetch + save, mark);
    HistoryConcat(s, fetch, save);
    HistoryFirst(s, StartDream(cutoff, false), SERVE + [ResumeDream(false)]);
    HistoryLast(After(s, StartDream(cutoff, false)), SERVE, ResumeDream(false));
    a := History(s, fetch);
    HistoryFirst(a, Summarize(Some(summary), created, false), FinishSave(k));
    b := History(a, save);
    HistoryFirst(b, ResumeDream(false), SERVE + [ResumeDream(false)]);
    HistoryLast(After(b, ResumeDream(false)), SERVE, ResumeDream(false));
  }

  lemma CalmDreamSucceeds(s: Store, cutoff: real, summary: string, created: real, a: Store, b: Store, t: Store)
    requires Calm(s) && (s.dreams == [] || Last(s).over) && Newest(s.db.db, cutoff) != [] && summary != ""
    requires a == After(History(After(s, StartDream(cutoff, false)), SERVE), ResumeDream(false))
    requires b == History(After(a, Summarize(Some(summary), created, false)), FinishSave(|s.saves|))
    requires t == After(History(After(b, ResumeDream(false)), SERVE), ResumeDream(false))
    ensures t.dreams != [] && Last(t).over && ReturnedWith(t, |s.saves|, s.db.db.next)
    ensures var saved := Saved(s.db.db, summary, Semantic, created);
            t.db.db == saved.(memories := Marked(saved.memories, Newest(s.db.db, cutoff)))
  {
    var d := Dream(cutoff, |s.db.requests|, Some(Newest(s.db.db, cutoff)), None, None, false);
    DreamFetches(s, cutoff);
    SavesAndMarks(a, d, |s.saves|, summary, created, b, t);
  }

  lemma SavesAndMarks(a: Store, d: Dream, k: nat, summary: string, created: real, b: Store, t: Store)
    requires Calm(a) && Dreams(a, d) && d.batch.Some? && d.save.None? && d.mark.None? && summary != "" && k == |a.saves|
    requires b == History(After(a, Summarize(Some(summary), created, false)), FinishSave(k))
    requires t == After(History(After(b, ResumeDream(false)), SERVE), ResumeDream(false))
    ensures t.dreams != [] && Last(t).over && ReturnedWith(t, k, a.db.db.next)
    ensures var saved := Saved(a.db.db, summary, Semantic, created);
            t.db.db == saved.(memories := Marked(saved.memories, d.batch.value))
  {
    DreamSaves(a, d, summary, created);
    DreamMarks(b, d.(save := Some(k)));
  }

  lemma MarkedRows(saved: Tables, batch: seq<int>, tables: Tables)
    requires tables == saved.(memories := Marked(saved.memories, batch))
    ensures tables.next == saved.next && tables.index == saved.index
    ensures forall r :: r in tables.memories <==> r in saved.memories
    ensures forall r | r in saved.memories ::
              tables.memories[r] == if r in batch then saved.memories[r].(consolidated := true) else saved.memories[r]
  {
  }

  /**
    An undisturbed dream gets to the end: from every state in which the writer waits for work and no
    dream is under way, it saves and indexes the summary of the episodes it fetched and marks exactly
    these episodes.
  */
  lemma DreamSucceeds(events: seq<Event>, cutoff: real, summary: string, created: real)
    requires var s := History(START, events);
             && s.db.phase.Idle? && s.db.queue == [] && (s.dreams == [] || Last(s).over)
             && Newest(s.db.db, cutoff) != []
    requires summary != ""
    ensures var s := History(START, events);
            var t := History(s, DreamRun(|s.saves|, cutoff, summary, created));
            var tables, saved := t.db.db, Saved(s.db.db, summary, Semantic, created);
            && t.dreams != [] && Last(t).over && ReturnedWith(t, |s.saves|, s.db.db.next)
            && tables.next == saved.next && tables.index == saved.index
            && (forall r :: r in tables.memories <==> r in saved.memories)
            && (forall r | r in saved.memories ::
                  tables.memories[r] == if r in Newest(s.db.db, cutoff) then saved.memories[r].(consolidated := true)
                                        else saved.memories[r])
  {
    StartInv();
    HistoryInv(START, events);
    var s := History(START, events);
    var a, b := DreamStages(s, |s.saves|, cutoff, summary, created);
    var t := After(History(After(b, ResumeDream(false)), SERVE), ResumeDream(false));
    CalmDreamSucceeds(s, cutoff, summary, created, a, b, t);
    MarkedRows(Saved(s.db.db, summary, Semantic, created), Newest(s.db.db, cutoff), t.db.db);
  }
}
