/**
  Claiming tasks over the database protocol (`agents/orchestrator.py`): any number of workers
  interleave the SELECT and the guarded UPDATE of `_claim_task` with each other, with other writers
  of the task table, and with crashes. The row gets one owner; the task may still be handed to
  several workers.
*/
module TaskClaim {
  import opened Wrappers
  import opened DatabaseProtocol
  import opened DatabaseSafety

  datatype Status = Pending | Running | Completed | Failed

  datatype Task = Task(id: string, priority: int, created: real, status: Status,
                       agent: Option<string>, started: Option<real>)

  datatype Statement =
    | Insert(task: Task)  // raises on a duplicate id
    | SelectPending
    | Claim(id: string, agent: string, now: real)
    | Finish(id: string, status: Status)  // by whoever ran the task; never back to pending
    | Other

  datatype Sql = Sql(stmt: Statement, raises: bool)

  type Tasks = seq<Task>

  predicate HasId(tasks: Tasks, id: string) {
    exists i :: 0 <= i < |tasks| && tasks[i].id == id
  }

  predicate Before(a: Task, b: Task) {
    a.priority < b.priority || (a.priority == b.priority && a.created <= b.created)
  }

  /** The row that SELECT ... ORDER BY priority, created_at LIMIT 1 returns. */
  function FirstPending(tasks: Tasks): (r: Option<Task>)
    ensures r.None? <==> forall i | 0 <= i < |tasks| :: !tasks[i].status.Pending?
    ensures r.Some? ==> r.value in tasks && r.value.status.Pending?
                        && forall i | 0 <= i < |tasks| && tasks[i].status.Pending? ::
                             || r.value.priority < tasks[i].priority
                             || (r.value.priority == tasks[i].priority && r.value.created <= tasks[i].created)
  {
    if tasks == [] then None
    else
      var rest := FirstPending(tasks[..|tasks| - 1]);
      var last := tasks[|tasks| - 1];
      if last.status.Pending? && (rest.None? || !Before(rest.value, last)) then Some(last) else rest
  }

  function Claimed(t: Task, id: string, agent: string, now: real): Task {
    if t.id == id && t.status.Pending? then t.(status := Running, agent := Some(agent), started := Some(now)) else t
  }

  function Finished(t: Task, id: string, status: Status): Task {
    if t.id == id then t.(status := status) else t
  }

  function Apply(tasks: Tasks, q: Sql): Outcome<Tasks, Task> {
    if q.raises then Raise else
    match q.stmt
    case Insert(task) =>
      // A fresh row has not been started; only run_task's own row names an agent.
      if HasId(tasks, task.id) || task.started.Some? then Raise else Done(tasks + [task], [], 0)
    case SelectPending =>
      (match FirstPending(tasks)
       case None => Done(tasks, [], 0)
       case Some(task) => Done(tasks, [task], 0))
    case Claim(id, agent, now) =>
      Done(seq(|tasks|, i requires 0 <= i < |tasks| => Claimed(tasks[i], id, agent, now)), [], 0)
    case Finish(id, status) =>
      if status.Pending? then Raise
      else Done(seq(|tasks|, i requires 0 <= i < |tasks| => Finished(tasks[i], id, status)), [], 0)
    case Other => Done(tasks, [], 0)
  }

  // ---------- Serial executions ----------

  type Requests = seq<Request<Sql>>

  ghost function TasksAt(requests: Requests, ids: seq<nat>, k: nat): Tasks
    requires InRange(requests, ids) && k <= |ids|
  {
    Replay(Apply, [], requests, ids[..k])
  }

  // The k-th statement is a claim that finds its row r pending.
  ghost predicate Wins(requests: Requests, ids: seq<nat>, k: nat, r: nat)
    requires InRange(requests, ids)
  {
    && k < |ids|
    && var q, tasks := requests[ids[k]].sql, TasksAt(requests, ids, k);
    && q.stmt.Claim? && !q.raises
    && r < |tasks| && tasks[r].id == q.stmt.id && tasks[r].status.Pending?
  }

  // What a row keeps: its id, and once it left the pending state also its owner and start time.
  ghost predicate Keeps(t: Task, t': Task) {
    && t'.id == t.id
    && (!t.status.Pending? ==> !t'.status.Pending? && t'.agent == t.agent && t'.started == t.started)
  }

  lemma {:induction false} RowKeeps(requests: Requests, ids: seq<nat>, j: nat, k: nat, r: nat)
    requires InRange(requests, ids) && j <= k <= |ids| && r < |TasksAt(requests, ids, j)|
    ensures r < |TasksAt(requests, ids, k)|
    ensures Keeps(TasksAt(requests, ids, j)[r], TasksAt(requests, ids, k)[r])
  {
    if j < k {
      RowKeeps(requests, ids, j, k - 1, r);
      ReplayStep(Apply, [], requests, ids, k - 1);
    }
  }

  ghost predicate UniqueIds(tasks: Tasks) {
    forall i, j | 0 <= i < j < |tasks| :: tasks[i].id != tasks[j].id
  }

  lemma ApplyUnique(tasks: Tasks, q: Sql)
    requires UniqueIds(tasks)
    ensures UniqueIds(DbAfter(Apply, tasks, q))
  {
    var after := DbAfter(Apply, tasks, q);
    forall i | 0 <= i < |tasks| ensures after[i].id == tasks[i].id {}
  }

  lemma {:induction false} IdsUnique(requests: Requests, ids: seq<nat>, k: nat)
    requires InRange(requests, ids) && k <= |ids|
    ensures UniqueIds(TasksAt(requests, ids, k))
  {
    if k > 0 {
      IdsUnique(requests, ids, k - 1);
      ReplayStep(Apply, [], requests, ids, k - 1);
      ApplyUnique(TasksAt(requests, ids, k - 1), requests[ids[k - 1]].sql);
    }
  }

  // Only a claim that finds the row pending starts it.
  lemma StartedByClaim(tasks: Tasks, q: Sql, r: nat)
    requires r < |DbAfter(Apply, tasks, q)| && DbAfter(Apply, tasks, q)[r].started.Some?
    requires !(r < |tasks| && tasks[r].started.Some?)
    ensures q.stmt.Claim? && !q.raises && r < |tasks| && tasks[r].id == q.stmt.id && tasks[r].status.Pending?
    ensures var t := DbAfter(Apply, tasks, q)[r]; t.agent == Some(q.stmt.agent) && t.started == Some(q.stmt.now)
  {
  }

  // A row that has been started keeps its data once it is no longer pending.
  lemma StartedKeeps(tasks: Tasks, q: Sql, r: nat)
    requires r < |tasks| && !tasks[r].status.Pending? && r < |DbAfter(Apply, tasks, q)|
    ensures Keeps(tasks[r], DbAfter(Apply, tasks, q)[r])
  {
  }

  /** A row that was started was started by a winning claim, whose agent and time it carries. */
  lemma {:induction false} StartedByWinner(requests: Requests, ids: seq<nat>, n: nat, r: nat) returns (k: nat)
    requires InRange(requests, ids) && n <= |ids|
    requires r < |TasksAt(requests, ids, n)| && TasksAt(requests, ids, n)[r].started.Some?
    ensures k < n && Wins(requests, ids, k, r)
    ensures var claim, t := requests[ids[k]].sql.stmt, TasksAt(requests, ids, n)[r];
            t.agent == Some(claim.agent) && t.started == Some(claim.now)
    decreases n
  {
    assert n > 0;
    ReplayStep(Apply, [], requests, ids, n - 1);
    var tasks, q := TasksAt(requests, ids, n - 1), requests[ids[n - 1]].sql;
    if r < |tasks| && tasks[r].started.Some? {
      StartedNotPending(requests, ids, n - 1, r);
      StartedKeeps(tasks, q, r);
      k := StartedByWinner(requests, ids, n - 1, r);
    } else {
      StartedByClaim(tasks, q, r);
      k := n - 1;
    }
  }

  lemma {:induction false} StartedNotPending(requests: Requests, ids: seq<nat>, n: nat, r: nat)
    requires InRange(requests, ids) && n <= |ids|
    requires r < |TasksAt(requests, ids, n)| && TasksAt(requests, ids, n)[r].started.Some?
    ensures !TasksAt(requests, ids, n)[r].status.Pending?
  {
    assert n > 0;
    ReplayStep(Apply, [], requests, ids, n - 1);
    var tasks := TasksAt(requests, ids, n - 1);
    if r < |tasks| && tasks[r].started.Some? {
      StartedNotPending(requests, ids, n - 1, r);
    }
  }

  /** A winning claim fixes the owner and start time of its row for the rest of the execution. */
  lemma WinnerStays(requests: Requests, ids: seq<nat>, k: nat, n: nat, r: nat)
    requires InRange(requests, ids) && k < n <= |ids| && Wins(requests, ids, k, r)
    ensures r < |TasksAt(requests, ids, n)|
    ensures var claim, t := requests[ids[k]].sql.stmt, TasksAt(requests, ids, n)[r];
            t.id == claim.id && !t.status.Pending? && t.agent == Some(claim.agent) && t.started == Some(claim.now)
  {
    ReplayStep(Apply, [], requests, ids, k);
    RowKeeps(requests, ids, k + 1, n, r);
  }

  /** At most one claim wins a row. */
  lemma OneWinner(requests: Requests, ids: seq<nat>, j: nat, k: nat, r: nat)
    requires InRange(requests, ids) && Wins(requests, ids, j, r) && Wins(requests, ids, k, r)
    ensures j == k
  {
    if j < k {
      WinnerStays(requests, ids, j, k, r);
    } else if k < j {
      WinnerStays(requests, ids, k, j, r);
    }
  }

  // ---------- The workers ----------

  type Db = State<Tasks, Sql, Task>

  datatype Progress =
    | Selecting
    | Updating(task: Task, update: nat)
    | Nothing
    | Got(task: Task, update: nat)  // _claim_task returned the task
    | ClaimFailed

  datatype Worker = Worker(agent: string, select: nat, progress: Progress)

  datatype Team = Team(db: Db, workers: seq<Worker>)

  datatype Event =
    | Protocol(step: Step<Sql>)
    | OtherWrite(stmt: Statement, raises: bool)
    | StartClaim(agent: string, raises: bool)
    | ResumeClaim(w: nat, now: real, raises: bool)

  const START: Team := Team(Init([]), [])

  function Submitted(db: Db, stmt: Statement, mode: Mode, raises: bool): Db {
    Next(Apply, db, Submit(Request(Sql(stmt, raises), mode)))
  }

  function Resumed(s: Team, w: nat, now: real, raises: bool): Team
    requires w < |s.workers|
  {
    var worker, futures := s.workers[w], s.db.futures;
    match worker.progress
    case Selecting =>
      if worker.select >= |futures| || futures[worker.select].Pending? then s
      else (match futures[worker.select]
            case Result(OneRow(None)) => s.(workers := s.workers[w := worker.(progress := Nothing)])
            case Result(OneRow(Some(task))) =>
              Team(Submitted(s.db, Claim(task.id, worker.agent, now), NoFetch, raises),
                   s.workers[w := worker.(progress := Updating(task, |s.db.requests|))])
            case _ => s.(workers := s.workers[w := worker.(progress := ClaimFailed)]))
    case Updating(task, update) =>
      if update >= |futures| || futures[update].Pending? then s
      else if futures[update].Result? then s.(workers := s.workers[w := worker.(progress := Got(task, update))])
      else s.(workers := s.workers[w := worker.(progress := ClaimFailed)])
    case _ => s
  }

  function After(s: Team, event: Event): Team {
    match event
    case Protocol(step) => if step.Submit? then s else s.(db := Next(Apply, s.db, step))
    case OtherWrite(stmt, raises) => s.(db := Submitted(s.db, stmt, NoFetch, raises))
    case StartClaim(agent, raises) =>
      Team(Submitted(s.db, SelectPending, FetchOne, raises),
           s.workers + [Worker(agent, |s.db.requests|, Selecting)])
    case ResumeClaim(w, now, raises) => if w < |s.workers| then Resumed(s, w, now, raises) else s
  }

  function History(s: Team, events: seq<Event>): Team
    decreases |events|
  {
    if events == [] then s else History(After(s, events[0]), events[1..])
  }

  ghost predicate WorkerOk(s: Team, worker: Worker)
    requires |s.db.futures| == |s.db.requests|
  {
    && worker.select < |s.db.requests|
    && s.db.requests[worker.select].sql.stmt.SelectPending? && s.db.requests[worker.select].mode.FetchOne?
    && (worker.progress.Updating? || worker.progress.Got? ==>
          var task, update := worker.progress.task, worker.progress.update;
          && s.db.futures[worker.select] == Result(OneRow(Some(task)))
          && worker.select < update < |s.db.requests|
          && s.db.requests[update].sql.stmt.Claim? && s.db.requests[update].mode.NoFetch?
          && s.db.requests[update].sql.stmt.id == task.id && s.db.requests[update].sql.stmt.agent == worker.agent
          && (worker.progress.Got? ==> s.db.futures[update].Result?))
  }

  ghost predicate TeamOk(s: Team) {
    && |s.db.futures| == |s.db.requests|
    && (forall w | 0 <= w < |s.workers| :: WorkerOk(s, s.workers[w]))
    && (forall i | 0 <= i < |s.db.requests| && !s.db.requests[i].mode.NoFetch? ::
          s.db.requests[i].sql.stmt.SelectPending?)
  }

  // Every event takes at most one step of the database.
  lemma AfterStep(s: Team, event: Event) returns (step: Step<Sql>)
    ensures After(s, event).db == s.db || After(s, event).db == Next(Apply, s.db, step)
  {
    var t := After(s, event);
    step := if event.Protocol? then event.step
            else if |t.db.requests| > |s.db.requests| then Submit(t.db.requests[|s.db.requests|]) else Shutdown;
  }

  lemma AfterInv(s: Team, event: Event)
    requires Inv(Apply, [], s.db)
    ensures Inv(Apply, [], After(s, event).db)
  {
    var step := AfterStep(s, event);
    NextInv(Apply, [], s.db, step);
  }

  // A new request leaves what is known about the workers.
  lemma WorkerGrows(s: Team, t: Team, worker: Worker)
    requires |s.db.futures| == |s.db.requests| && |t.db.futures| == |t.db.requests| && WorkerOk(s, worker)
    requires s.db.requests <= t.db.requests && s.db.futures <= t.db.futures
    ensures WorkerOk(t, worker)
  {
  }

  lemma ResumedOk(s: Team, w: nat, now: real, raises: bool)
    requires TeamOk(s) && w < |s.workers|
    ensures TeamOk(Resumed(s, w, now, raises))
  {
    var t := Resumed(s, w, now, raises);
    assert WorkerOk(s, s.workers[w]);
    assert s.db.requests <= t.db.requests && s.db.futures <= t.db.futures;
    forall v | 0 <= v < |t.workers| ensures WorkerOk(t, t.workers[v]) {
      WorkerGrows(s, t, s.workers[v]);
    }
  }

  lemma AfterOk(s: Team, event: Event)
    requires TeamOk(s)
    ensures TeamOk(After(s, event))
  {
    var t := After(s, event);
    match event {
      case Protocol(step) => NextStable(Apply, s.db, step);
      case ResumeClaim(w, now, raises) => if w < |s.workers| { ResumedOk(s, w, now, raises); }
      case _ =>
        forall w | 0 <= w < |t.workers| ensures WorkerOk(t, t.workers[w]) {
          if w < |s.workers| { assert WorkerOk(s, s.workers[w]); }
        }
    }
    if event.Protocol? {
      forall w | 0 <= w < |t.workers| ensures WorkerOk(t, t.workers[w]) { assert WorkerOk(s, s.workers[w]); }
    }
  }

  lemma {:induction false} HistoryOk(s: Team, events: seq<Event>)
    requires TeamOk(s) && Inv(Apply, [], s.db)
    ensures TeamOk(History(s, events)) && Inv(Apply, [], History(s, events).db)
    decreases |events|
  {
    if events != [] {
      AfterOk(s, events[0]);
      AfterInv(s, events[0]);
      HistoryOk(After(s, events[0]), events[1..]);
    }
  }

  ghost predicate Explained(s: Team) {
    && TeamOk(s)
    && Increasing(s.db.executed)
    && InRange(s.db.requests, s.db.executed)
    && Agrees(Apply, [], s.db.requests, s.db.futures, s.db.executed)
    && s.db.db == TasksAt(s.db.requests, s.db.executed, |s.db.executed|)
    && forall id: nat | id < |s.db.requests| && Delivered(s.db.futures[id]) :: id in s.db.executed
  }

  lemma StartOk()
    ensures TeamOk(START) && Inv(Apply, [], START.db)
  {
  }

  lemma HistoryExplained(events: seq<Event>)
    ensures Explained(History(START, events))
  {
    StartOk();
    HistoryOk(START, events);
    var s := History(START, events);
    SelectsReadOnly(s.db.requests);
    InvExplains(s);
  }

  lemma SelectsReadOnly(requests: Requests)
    requires forall i | 0 <= i < |requests| && !requests[i].mode.NoFetch? :: requests[i].sql.stmt.SelectPending?
    ensures ReadOnlyFetches(Apply, requests)
  {
  }

  lemma InvExplains(s: Team)
    requires TeamOk(s) && Inv(Apply, [], s.db) && ReadOnlyFetches(Apply, s.db.requests)
    ensures Explained(s)
  {
    assert s.db.executed[..|s.db.executed|] == s.db.executed;
  }

  // ---------- Main results ----------

  /**
    Single ownership: a row that was started was started by exactly one claim, the only executed one
    that found it pending, and still carries that claim's agent and time.
  */
  lemma SingleOwner(events: seq<Event>, r: nat)
    requires var s := History(START, events); r < |s.db.db| && s.db.db[r].started.Some?
    ensures var s := History(START, events);
            && InRange(s.db.requests, s.db.executed)
            && exists k: nat :: Wins(s.db.requests, s.db.executed, k, r)
                 && s.db.db[r].agent == Some(s.db.requests[s.db.executed[k]].sql.stmt.agent)
                 && s.db.db[r].started == Some(s.db.requests[s.db.executed[k]].sql.stmt.now)
                 && forall j: nat | Wins(s.db.requests, s.db.executed, j, r) :: j == k
  {
    HistoryExplained(events);
    var s := History(START, events);
    var k := StartedByWinner(s.db.requests, s.db.executed, |s.db.executed|, r);
    forall j: nat | Wins(s.db.requests, s.db.executed, j, r) ensures j == k {
      OneWinner(s.db.requests, s.db.executed, j, k, r);
    }
  }

  /**
    The owner never changes: whatever happens after, a row that left the pending state never comes
    back to it and keeps its agent and start time.
  */
  lemma OwnerIsFinal(before: seq<Event>, after: seq<Event>, r: nat)
    requires r < |History(START, before).db.db|
    ensures var t := History(History(START, before), after).db.db;
            r < |t| && Keeps(History(START, before).db.db[r], t[r])
  {
    StartOk();
    HistoryOk(START, before);
    HistoryKeeps(History(START, before), after, r);
  }

  lemma {:induction false} HistoryKeeps(s: Team, events: seq<Event>, r: nat)
    requires TeamOk(s) && Inv(Apply, [], s.db) && r < |s.db.db|
    ensures var t := History(s, events).db.db; r < |t| && Keeps(s.db.db[r], t[r])
    decreases |events|
  {
    if events != [] {
      AfterOk(s, events[0]);
      AfterInv(s, events[0]);
      AfterKeeps(s, events[0], r);
      HistoryKeeps(After(s, events[0]), events[1..], r);
    }
  }

  lemma AfterKeeps(s: Team, event: Event, r: nat)
    requires TeamOk(s) && Inv(Apply, [], s.db) && r < |s.db.db|
    ensures var t := After(s, event).db.db; r < |t| && Keeps(s.db.db[r], t[r])
  {
    SelectsReadOnly(s.db.requests);
    StepDb(s, event);
    if event == Protocol(Execute) && Enabled(s.db, Execute) {
      ApplyKeeps(s.db.db, s.db.requests[s.db.phase.id].sql, r);
    }
  }

  // Only an execution changes the database, because closing the connection loses nothing.
  lemma StepDb(s: Team, event: Event)
    requires s.db.db == s.db.durable
    ensures After(s, event).db.db ==
            if event == Protocol(Execute) && Enabled(s.db, Execute)
            then DbAfter(Apply, s.db.db, s.db.requests[s.db.phase.id].sql) else s.db.db
  {
  }

  lemma ApplyKeeps(tasks: Tasks, q: Sql, r: nat)
    requires r < |tasks|
    ensures r < |DbAfter(Apply, tasks, q)| && Keeps(tasks[r], DbAfter(Apply, tasks, q)[r])
  {
  }
}
