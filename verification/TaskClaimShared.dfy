/**
  `_claim_task` is documented as atomic, but it hands one task to two workers when both SELECTs run
  before either UPDATE: the second UPDATE matches nothing and the task is returned all the same.
*/
module TaskClaimShared {
  import opened Wrappers
  import opened DatabaseProtocol
  import opened TaskClaim

  lemma HistoryTriple(s: Team, a: Event, b: Event, c: Event)
    ensures History(s, [a, b, c]) == After(After(After(s, a), b), c)
  {
    assert [a, b, c][1..] == [b, c] && [b, c][1..] == [c] && [c][1..] == [];
    assert History(After(After(s, a), b), [c]) == After(After(After(s, a), b), c);
  }

  lemma {:induction false} HistoryConcat(s: Team, events: seq<Event>, more: seq<Event>)
    ensures History(s, events + more) == History(History(s, events), more)
    decreases |events|
  {
    if events == [] {
      assert events + more == more;
    } else {
      assert (events + more)[1..] == events[1..] + more;
      HistoryConcat(After(s, events[0]), events[1..], more);
    }
  }

  const SELECT: Request<Sql> := Request(Sql(SelectPending, false), FetchOne)

  const DEQUEUE: Event := Protocol(Dequeue)
  const EXECUTE: Event := Protocol(Execute)
  const RESOLVE: Event := Protocol(Resolve)

  function Insertion(task: Task): Request<Sql> {
    Request(Sql(Insert(task), false), NoFetch)
  }

  function Update(task: Task, agent: string): Request<Sql> {
    Request(Sql(Claim(task.id, agent, 1.0), false), NoFetch)
  }

  function Owned(task: Task, agent: string): Task {
    task.(status := Running, agent := Some(agent), started := Some(1.0))
  }

  const DONE: Future<Task> := Result(RowId(0))

  function Found(task: Task): Future<Task> {
    Result(OneRow(Some(task)))
  }

  // The states of the run, three events apart.
  function After3(task: Task): Team {
    Team(State([Insertion(task)], [Future.Pending], [], Executing(0), [], [], [], [], 0, 1, 1), [])
  }

  function After6(task: Task, a: string): Team {
    Team(State([Insertion(task), SELECT], [DONE, Future.Pending], [Call(1)], Idle,
               [task], [task], [0], [0], 1, 1, 1),
         [Worker(a, 1, Selecting)])
  }

  function After9(task: Task, a: string, b: string): Team {
    Team(State([Insertion(task), SELECT, SELECT], [DONE, Future.Pending, Future.Pending], [Call(2)],
               Executed(1, Found(task)), [task], [task], [0, 1], [0, 1], 1, 2, 2),
         [Worker(a, 1, Selecting), Worker(b, 2, Selecting)])
  }

  function After12(task: Task, a: string, b: string): Team {
    Team(State([Insertion(task), SELECT, SELECT], [DONE, Found(task), Future.Pending], [],
               Executed(2, Found(task)), [task], [task], [0, 1, 2], [0, 1, 2], 1, 3, 3),
         [Worker(a, 1, Selecting), Worker(b, 2, Selecting)])
  }

  function After15(task: Task, a: string, b: string): Team {
    Team(State([Insertion(task), SELECT, SELECT, Update(task, a), Update(task, b)],
               [DONE, Found(task), Found(task), Future.Pending, Future.Pending], [Call(3), Call(4)],
               Idle, [task], [task], [0, 1, 2], [0, 1, 2], 1, 3, 3),
         [Worker(a, 1, Updating(task, 3)), Worker(b, 2, Updating(task, 4))])
  }

  function After18(task: Task, a: string, b: string): Team {
    Team(State([Insertion(task), SELECT, SELECT, Update(task, a), Update(task, b)],
               [DONE, Found(task), Found(task), DONE, Future.Pending], [Call(4)],
               Idle, [Owned(task, a)], [Owned(task, a)], [0, 1, 2, 3], [0, 1, 2, 3], 4, 4, 4),
         [Worker(a, 1, Updating(task, 3)), Worker(b, 2, Updating(task, 4))])
  }

  function After21(task: Task, a: string, b: string): Team {
    Team(State([Insertion(task), SELECT, SELECT, Update(task, a), Update(task, b)],
               [DONE, Found(task), Found(task), DONE, DONE], [],
               Idle, [Owned(task, a)], [Owned(task, a)], [0, 1, 2, 3, 4], [0, 1, 2, 3, 4], 5, 5, 5),
         [Worker(a, 1, Updating(task, 3)), Worker(b, 2, Updating(task, 4))])
  }

  lemma Stage1(task: Task)
    ensures History(START, [Protocol(Connect(true)), OtherWrite(Insert(task), false), DEQUEUE]) == After3(task)
  {
    HistoryTriple(START, Protocol(Connect(true)), OtherWrite(Insert(task), false), DEQUEUE);
  }

  lemma Stage2(task: Task, a: string)
    requires task.started.None?
    ensures History(After3(task), [EXECUTE, RESOLVE, StartClaim(a, false)]) == After6(task, a)
  {
    HistoryTriple(After3(task), EXECUTE, RESOLVE, StartClaim(a, false));
    assert [] + [task] == [task];
    assert Apply([], Sql(Insert(task), false)) == Done([task], [], 0);
  }

  lemma Stage3(task: Task, a: string, b: string)
    requires task.status.Pending?
    ensures History(After6(task, a), [StartClaim(b, false), DEQUEUE, EXECUTE]) == After9(task, a, b)
  {
    HistoryTriple(After6(task, a), StartClaim(b, false), DEQUEUE, EXECUTE);
    SelectsIt(task);
  }

  lemma SelectsIt(task: Task)
    requires task.status.Pending?
    ensures Apply([task], Sql(SelectPending, false)) == Done([task], [task], 0)
  {
    assert FirstPending([task]).Some? by { assert [task][0].status.Pending?; }
  }

  lemma Stage4(task: Task, a: string, b: string)
    requires task.status.Pending?
    ensures History(After9(task, a, b), [RESOLVE, DEQUEUE, EXECUTE]) == After12(task, a, b)
  {
    HistoryTriple(After9(task, a, b), RESOLVE, DEQUEUE, EXECUTE);
    SelectsIt(task);
  }

  lemma Stage5(task: Task, a: string, b: string)
    ensures History(After12(task, a, b), [RESOLVE, ResumeClaim(0, 1.0, false), ResumeClaim(1, 1.0, false)])
            == After15(task, a, b)
  {
    HistoryTriple(After12(task, a, b), RESOLVE, ResumeClaim(0, 1.0, false), ResumeClaim(1, 1.0, false));
  }

  lemma Stage6(task: Task, a: string, b: string)
    requires task.status.Pending?
    ensures History(After15(task, a, b), [DEQUEUE, EXECUTE, RESOLVE]) == After18(task, a, b)
  {
    HistoryTriple(After15(task, a, b), DEQUEUE, EXECUTE, RESOLVE);
    assert Apply([task], Update(task, a).sql).db == [Owned(task, a)];
  }

  lemma Stage7(task: Task, a: string, b: string)
    ensures History(After18(task, a, b), [DEQUEUE, EXECUTE, RESOLVE]) == After21(task, a, b)
  {
    HistoryTriple(After18(task, a, b), DEQUEUE, EXECUTE, RESOLVE);
    assert Apply([Owned(task, a)], Update(task, b).sql).db == [Owned(task, a)];
  }

  lemma Stage8(task: Task, a: string, b: string)
    ensures var s := History(After21(task, a, b),
                             [ResumeClaim(0, 2.0, false), ResumeClaim(1, 2.0, false), Protocol(Reconnect)]);
            && s.workers == [Worker(a, 1, Got(task, 3)), Worker(b, 2, Got(task, 4))]
            && s.db.db == [Owned(task, a)]
  {
    HistoryTriple(After21(task, a, b), ResumeClaim(0, 2.0, false), ResumeClaim(1, 2.0, false), Protocol(Reconnect));
  }

  lemma Selected(task: Task, a: string, b: string) returns (events: seq<Event>)
    requires task.status.Pending? && task.started.None?
    ensures History(START, events) == After12(task, a, b)
  {
    var e1 := [Protocol(Connect(true)), OtherWrite(Insert(task), false), DEQUEUE];
    var e2 := [EXECUTE, RESOLVE, StartClaim(a, false)];
    var e3, e4 := [StartClaim(b, false), DEQUEUE, EXECUTE], [RESOLVE, DEQUEUE, EXECUTE];
    Stage1(task);
    Stage2(task, a);
    HistoryConcat(START, e1, e2);
    Stage3(task, a, b);
    HistoryConcat(START, e1 + e2, e3);
    Stage4(task, a, b);
    HistoryConcat(START, e1 + e2 + e3, e4);
    events := e1 + e2 + e3 + e4;
  }

  lemma Updated(task: Task, a: string, b: string) returns (events: seq<Event>)
    requires task.status.Pending?
    ensures History(After12(task, a, b), events) == After21(task, a, b)
  {
    var s := After12(task, a, b);
    var e1 := [RESOLVE, ResumeClaim(0, 1.0, false), ResumeClaim(1, 1.0, false)];
    var e2 := [DEQUEUE, EXECUTE, RESOLVE];
    Stage5(task, a, b);
    Stage6(task, a, b);
    HistoryConcat(s, e1, e2);
    Stage7(task, a, b);
    HistoryConcat(s, e1 + e2, e2);
    events := e1 + e2 + e2;
  }

  /** Both workers return with the task; only the first owns its row. */
  lemma TaskHandedOutTwice(task: Task, a: string, b: string) returns (events: seq<Event>)
    requires task.status.Pending? && task.started.None? && a != b
    ensures var s := History(START, events);
            && s.workers == [Worker(a, 1, Got(task, 3)), Worker(b, 2, Got(task, 4))]
            && s.db.db == [Owned(task, a)]
  {
    var e1 := Selected(task, a, b);
    var e2 := Updated(task, a, b);
    var e3 := [ResumeClaim(0, 2.0, false), ResumeClaim(1, 2.0, false), Protocol(Reconnect)];
    HistoryConcat(START, e1, e2);
    HistoryConcat(START, e1 + e2, e3);
    Stage8(task, a, b);
    events := e1 + e2 + e3;
  }
}
