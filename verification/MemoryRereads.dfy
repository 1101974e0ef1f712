/**
  Exactly when a dream reads a row. Batches of dreams that do not overlap are disjoint only as far as
  marking writes were executed: when the model call of a dream fails, the next dream reads the same
  rows again.
*/
module MemoryRereads {
  import opened Wrappers
  import opened DatabaseProtocol
  import opened DatabaseSafety
  import opened MemoryStore
  import opened MemoryReplay
  import opened MemoryClients
  import opened MemoryTheorems
  import opened Sorting

  // ---------- Marked by the time of a fetch ----------

  // An earlier dream's marking write named the row and was executed.
  ghost predicate MarkedBefore(s: Store, d: nat, r: int)
    requires d < |s.dreams|
  {
    exists e :: 0 <= e < d && MarkDone(s, e) && s.dreams[e].batch.Some? && r in s.dreams[e].batch.value
  }

  // A dream whose marking write is sent before another one's fetch is the earlier of the two.
  lemma MarkedFirst(s: Store, e: nat, d: nat)
    requires Clients(s) && e < |s.dreams| && d < |s.dreams| && s.dreams[e].mark.Some?
    requires s.dreams[e].mark.value < s.dreams[d].fetch
    ensures e < d
  {
    assert DreamOk(s, e);
    assert SaveOk(s, s.dreams[e].save.value);
    assert s.dreams[e].fetch < s.dreams[e].mark.value;
    assert Apart(s);
  }

  // A mark that a fetch sees was put there by an earlier dream.
  lemma MarkIsEarlier(s: Store, d: nat, f: nat, r: int)
    requires Explained(s) && d < |s.dreams| && f < |s.db.executed| && s.db.executed[f] == s.dreams[d].fetch
    requires var t := TablesAt(s.db.requests, s.db.executed, f); r in t.memories && t.memories[r].consolidated
    ensures MarkedBefore(s, d, r)
  {
    var m := MarkOrigin(s.db.requests, s.db.executed, f, r);
    var id := s.db.executed[m];
    assert Owned(s, id);
    var e := s.marker[id];
    MarkedFirst(s, e, d);
    assert DreamOk(s, e);
    assert MarkDone(s, e);
  }

  lemma EarlierMarkIsSeen(s: Store, d: nat, f: nat, r: int)
    requires Explained(s) && d < |s.dreams| && f < |s.db.executed| && s.db.executed[f] == s.dreams[d].fetch
    requires MarkedBefore(s, d, r)
    ensures var t := TablesAt(s.db.requests, s.db.executed, f); r in t.memories && t.memories[r].consolidated
  {
    var e :| 0 <= e < d && MarkDone(s, e) && s.dreams[e].batch.Some? && r in s.dreams[e].batch.value;
    var g := BatchRows(s, e, r);
    var m: nat :| m < |s.db.executed| && s.db.executed[m] == s.dreams[e].mark.value;
    DreamOrder(s, e, d, g, m, f);
    assert DreamOk(s, e);
    MarkedAtLast(s.db.requests, s.db.executed, g, m, f, s.dreams[e].batch.value, r);
  }

  // ---------- What a dream reads ----------

  /**
    What a dream reads, exactly: an episode that existed at its fetch and is newer than the cutoff is
    in its batch if and only if no earlier dream's marking write named it and fewer than 50 eligible
    rows come before it.
  */
  lemma BatchHoldsExactly(events: seq<Event>, d: nat, r: int) returns (f: nat)
    requires var s := History(START, events); d < |s.dreams| && s.dreams[d].batch.Some?
    ensures var s := History(START, events);
            var dream, ids := s.dreams[d], s.db.executed;
            && InRange(s.db.requests, ids) && f < |ids| && ids[f] == dream.fetch
            && var t := TablesAt(s.db.requests, ids, f);
            && (r in dream.batch.value <==>
                  && r in t.memories && t.memories[r].kind.Episodic? && t.memories[r].created > dream.cutoff
                  && !MarkedBefore(s, d, r)
                  && |Newer(t, dream.cutoff, r)| < 50)
  {
    HistoryExplained(events);
    var s := History(START, events);
    f := BatchOrigin(s, d);
    var t := TablesAt(s.db.requests, s.db.executed, f);
    RowsBelowNext(s.db.requests, s.db.executed, f);
    FetchedExactly(t, s.dreams[d].cutoff, r);
    if MarkedBefore(s, d, r) {
      EarlierMarkIsSeen(s, d, f, r);
    } else if r in t.memories && t.memories[r].consolidated {
      MarkIsEarlier(s, d, f, r);
    }
  }

  /**
    When a row is read again, exactly: a row of one batch is in a later one if and only if no marking
    write before that one's fetch named it, it is newer than the later cutoff, and fewer than 50
    eligible rows come before it.
  */
  lemma ReadAgainExactly(events: seq<Event>, d: nat, d': nat, r: int) returns (f: nat)
    requires var s := History(START, events);
             && d < d' < |s.dreams| && s.dreams[d].batch.Some? && s.dreams[d'].batch.Some?
             && r in s.dreams[d].batch.value
    ensures var s := History(START, events);
            var dream, ids := s.dreams[d'], s.db.executed;
            && InRange(s.db.requests, ids) && f < |ids| && ids[f] == dream.fetch
            && var t := TablesAt(s.db.requests, ids, f);
            && r in t.memories
            && (r in dream.batch.value <==>
                  && !MarkedBefore(s, d', r)
                  && t.memories[r].created > dream.cutoff
                  && |Newer(t, dream.cutoff, r)| < 50)
  {
    HistoryExplained(events);
    var s := History(START, events);
    f := BatchHoldsExactly(events, d', r);
    var g := BatchRows(s, d, r);
    assert Apart(s);
    PositionOrder(s.db.executed, g, f);
    LaterExtends(s.db.requests, s.db.executed, g, f);
  }

  // ---------- A concrete run ----------

  const FETCH: Request<Sql> := Request(Sql(FetchEpisodes(0.0), false), FetchAll)

  const SERVE: seq<Event> := [Protocol(Dequeue), Protocol(Execute), Protocol(Resolve)]

  function Insertion(content: string): Request<Sql> {
    Request(Sql(InsertMemory(content, Episodic, 1.0), false), NoFetch)
  }

  function OneRow(content: string): Tables {
    Tables(map[1 := Memory(content, Episodic, 1.0, false)], 2, [])
  }

  lemma SortOne(x: int, key: int -> real)
    ensures SortDesc([x], key) == [x]
  {
    assert [x][..0] == [];
  }

  lemma OneRowIsRead(content: string)
    ensures Newest(OneRow(content), 0.0) == [1]
  {
    var t := OneRow(content);
    assert EligibleIds(t, 0.0, 1) == [1] by { assert EligibleIds(t, 0.0, 0) == []; }
    SortOne(1, CreatedAt(t));
  }

  function Saves(content: string): seq<Save> {
    [Save(content, Episodic, 0, None, Running)]
  }

  const STORED: Future<int> := Result(RowId(1))
  const READ: Future<int> := Result(Rows([1]))
  const FAILED: Dream := Dream(0.0, 1, Some([1]), None, None, true)

  // The states of the run, three events apart.
  function After3(content: string): Store {
    Store(State([Insertion(content)], [Future.Pending], [], Executing(0), EMPTY, EMPTY, [], [], 0, 1, 1),
          Saves(content), [], map[0 := 0], map[])
  }

  function After6(content: string): Store {
    Store(State([Insertion(content), FETCH], [STORED, Future.Pending], [Call(1)], Idle,
                OneRow(content), OneRow(content), [0], [0], 1, 1, 1),
          Saves(content), [Dream(0.0, 1, None, None, None, false)], map[0 := 0], map[])
  }

  function After9(content: string): Store {
    Store(State([Insertion(content), FETCH], [STORED, READ], [], Idle,
                OneRow(content), OneRow(content), [0, 1], [0, 1], 1, 2, 2),
          Saves(content), [Dream(0.0, 1, None, None, None, false)], map[0 := 0], map[])
  }

  function After12(content: string): Store {
    Store(State([Insertion(content), FETCH, FETCH], [STORED, READ, Future.Pending], [Call(2)], Idle,
                OneRow(content), OneRow(content), [0, 1], [0, 1], 1, 2, 2),
          Saves(content), [FAILED, Dream(0.0, 2, None, None, None, false)], map[0 := 0], map[])
  }

  function After15(content: string): Store {
    Store(State([Insertion(content), FETCH, FETCH], [STORED, READ, READ], [], Idle,
                OneRow(content), OneRow(content), [0, 1, 2], [0, 1, 2], 1, 3, 3),
          Saves(content), [FAILED, Dream(0.0, 2, None, None, None, false)], map[0 := 0], map[])
  }

  lemma Stage1(content: string)
    ensures History(START, [Protocol(Connect(true)), StartSave(content, Episodic, 1.0, false), Protocol(Dequeue)])
            == After3(content)
  {
    HistoryTriple(START, Protocol(Connect(true)), StartSave(content, Episodic, 1.0, false), Protocol(Dequeue));
  }

  lemma Stage2(content: string)
    ensures History(After3(content), [Protocol(Execute), Protocol(Resolve), StartDream(0.0, false)]) == After6(content)
  {
    HistoryTriple(After3(content), Protocol(Execute), Protocol(Resolve), StartDream(0.0, false));
    assert Apply(EMPTY, Insertion(content).sql) == Done(OneRow(content), [], 1);
  }

  lemma FetchExecuted(db: Db, content: string, id: nat)
    requires db.phase == Executing(id) && db.db == OneRow(content) && id < |db.requests| && db.requests[id] == FETCH
    ensures Next(Apply, db, Execute)
            == db.(phase := Executed(id, READ), executed := db.executed + [id], kept := db.kept + [id])
  {
    OneRowIsRead(content);
    assert Apply(OneRow(content), FETCH.sql) == Done(OneRow(content), [1], 0);
  }

  // The writer serves one fetch.
  lemma FetchServed(db: Db, content: string, id: nat)
    requires db.phase.Idle? && db.queue == [Call(id)] && db.db == OneRow(content) && db.saved <= |db.kept|
    requires id + 1 == |db.requests| == |db.futures| && db.requests[id] == FETCH && db.futures[id].Pending?
    ensures Next(Apply, Next(Apply, Next(Apply, db, Dequeue), Execute), Resolve)
            == db.(futures := db.futures[id := READ], queue := [], executed := db.executed + [id],
                   kept := db.kept + [id], taken := db.taken + 1, removed := db.removed + 1)
  {
    var dequeued := db.(queue := [], phase := Executing(id), taken := db.taken + 1, removed := db.removed + 1);
    CallDequeued(db, id);
    FetchExecuted(dequeued, content, id);
    FetchResolved(dequeued.(phase := Executed(id, READ), executed := db.executed + [id], kept := db.kept + [id]), id);
  }

  lemma CallDequeued(db: Db, id: nat)
    requires db.phase.Idle? && db.queue == [Call(id)] && db.saved <= |db.kept|
    ensures Next(Apply, db, Dequeue)
            == db.(queue := [], phase := Executing(id), taken := db.taken + 1, removed := db.removed + 1)
  {
    assert db.queue[1..] == [];
  }

  lemma FetchResolved(db: Db, id: nat)
    requires db.phase == Executed(id, READ) && id < |db.futures| && db.futures[id].Pending? && db.saved <= |db.kept|
    ensures Next(Apply, db, Resolve) == db.(futures := db.futures[id := READ], phase := Idle)
  {
  }

  lemma Stage3(content: string)
    ensures History(After6(content), SERVE) == After9(content)
  {
    HistoryTriple(After6(content), Protocol(Dequeue), Protocol(Execute), Protocol(Resolve));
    FetchServed(After6(content).db, content, 1);
  }

  lemma Stage4(content: string)
    ensures History(After9(content), [ResumeDream(false), Summarize(None, 2.0, false), StartDream(0.0, false)])
            == After12(content)
  {
    HistoryTriple(After9(content), ResumeDream(false), Summarize(None, 2.0, false), StartDream(0.0, false));
  }

  lemma Stage5(content: string)
    ensures History(After12(content), SERVE) == After15(content)
  {
    HistoryTriple(After12(content), Protocol(Dequeue), Protocol(Execute), Protocol(Resolve));
    FetchServed(After12(content).db, content, 2);
  }

  lemma TwoFetches(content: string) returns (events: seq<Event>)
    ensures History(START, events) == After15(content)
  {
    var e1 := [Protocol(Connect(true)), StartSave(content, Episodic, 1.0, false), Protocol(Dequeue)];
    var e2 := [Protocol(Execute), Protocol(Resolve), StartDream(0.0, false)];
    var e4 := [ResumeDream(false), Summarize(None, 2.0, false), StartDream(0.0, false)];
    Stage1(content);
    Stage2(content);
    HistoryConcat(START, e1, e2);
    Stage3(content);
    HistoryConcat(START, e1 + e2, SERVE);
    Stage4(content);
    HistoryConcat(START, e1 + e2 + SERVE, e4);
    Stage5(content);
    HistoryConcat(START, e1 + e2 + SERVE + e4, SERVE);
    events := e1 + e2 + SERVE + e4 + SERVE;
  }

  /** Two dreams that do not overlap read the same row, because the first one's model call failed. */
  lemma BatchReadTwice(content: string) returns (events: seq<Event>)
    ensures var s := History(START, events);
            && |s.dreams| == 2 && s.dreams[0].over
            && s.dreams[0].batch == s.dreams[1].batch == Some([1])
            && 1 in s.db.db.memories && !s.db.db.memories[1].consolidated
  {
    var first := TwoFetches(content);
    var last := [ResumeDream(false), Protocol(Drain), Protocol(Drain)];
    HistoryConcat(START, first, last);
    HistoryTriple(After15(content), ResumeDream(false), Protocol(Drain), Protocol(Drain));
    events := first + last;
  }
}
