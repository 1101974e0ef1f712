/**
  What a worker does next, over every history, and what becomes of a row: which UPDATE a claim sends,
  when it returns, what a finished task's status is, and that an inserted task gets its row.
*/
module TaskClaimProgress {
  import opened Wrappers
  import opened DatabaseProtocol
  import opened DatabaseSafety
  import opened TaskClaim
  import opened TaskClaimOwners

  // ---------- Workers ----------

  // The worker w waits for the request `awaited`.
  ghost predicate Awaits(s: Team, w: nat, awaited: nat) {
    && w < |s.workers| && awaited < |s.db.futures|
    && match s.workers[w].progress
       case Selecting => awaited == s.workers[w].select
       case Updating(_, update) => awaited == update
       case _ => false
  }

  /** Other writers of the table send their statement as it is and leave the workers alone. */
  lemma OtherWriteSends(s: Team, stmt: Statement, raises: bool)
    ensures var t := After(s, OtherWrite(stmt, raises));
            && t.db.requests == s.db.requests + [Request(Sql(stmt, raises), NoFetch)]
            && t.db.queue == s.db.queue + [Call(|s.db.requests|)] && t.workers == s.workers
  {
  }

  // What a SELECT returns is one row or none.
  lemma SelectReturnsOneRow(s: Team, id: nat)
    requires Explained(s) && id < |s.db.requests| && s.db.requests[id].mode.FetchOne?
    requires id < |s.db.futures| && s.db.futures[id].Result?
    ensures s.db.futures[id].value.OneRow?
  {
    assert Delivered(s.db.futures[id]);
    var j: nat :| j < |s.db.executed| && s.db.executed[j] == id;
    assert s.db.futures[id] == Answer(Apply, [], s.db.requests, s.db.executed, j);
  }

  /**
    A worker whose SELECT found a task sends the guarded UPDATE of that task, with its own id and the
    time at which it resumes, at the end of the queue.
  */
  lemma WorkerSendsUpdate(s: Team, w: nat, task: Task, now: real, raises: bool)
    requires w < |s.workers| && s.workers[w].progress.Selecting? && s.workers[w].select < |s.db.futures|
    requires s.db.futures[s.workers[w].select] == Result(OneRow(Some(task)))
    ensures var t, worker := After(s, ResumeClaim(w, now, raises)), s.workers[w];
            && t.db.requests == s.db.requests + [Request(Sql(Claim(task.id, worker.agent, now), raises), NoFetch)]
            && t.db.queue == s.db.queue + [Call(|s.db.requests|)]
            && t.workers == s.workers[w := worker.(progress := Updating(task, |s.db.requests|))]
  {
  }

  /**
    How a claim ends, exactly: it returns the task it selected when it resumes with an answered UPDATE,
    whatever that UPDATE matched; it returns nothing when its SELECT found nothing; it raises when one
    of the two failed or was cancelled.
  */
  lemma ClaimEndsExactly(events: seq<Event>, event: Event, w: nat, awaited: nat)
    requires Awaits(History(START, events), w, awaited)
    ensures var s := History(START, events);
            var t, future, resumes := After(s, event), s.db.futures[awaited], event.ResumeClaim? && event.w == w;
            var before := s.workers[w].progress;
            && w < |t.workers|
            && (t.workers[w].progress.Got? <==> resumes && before.Updating? && future.Result?)
            && (t.workers[w].progress.Got? ==> t.workers[w].progress.task == before.task)
            && (t.workers[w].progress.Nothing? <==> resumes && before.Selecting? && future == Result(OneRow(None)))
            && (t.workers[w].progress.ClaimFailed? <==> resumes && (future.Failed? || future.Cancelled?))
  {
    HistoryExplained(events);
    var s := History(START, events);
    if event.ResumeClaim? && event.w == w {
      assert WorkerOk(s, s.workers[w]);
      if s.workers[w].progress.Selecting? && s.db.futures[awaited].Result? { SelectReturnsOneRow(s, awaited); }
      ResumedEnds(s, w, awaited, event.now, event.raises);
    } else {
      OtherEventsKeepWorker(s, event, w);
    }
  }

  lemma OtherEventsKeepWorker(s: Team, event: Event, w: nat)
    requires w < |s.workers| && !(event.ResumeClaim? && event.w == w)
    ensures var t := After(s, event); w < |t.workers| && t.workers[w] == s.workers[w]
  {
  }

  lemma ResumedEnds(s: Team, w: nat, awaited: nat, now: real, raises: bool)
    requires Awaits(s, w, awaited)
    requires s.workers[w].progress.Selecting? && s.db.futures[awaited].Result? ==> s.db.futures[awaited].value.OneRow?
    ensures var t, future, before := Resumed(s, w, now, raises), s.db.futures[awaited], s.workers[w].progress;
            && w < |t.workers|
            && (t.workers[w].progress.Got? <==> before.Updating? && future.Result?)
            && (t.workers[w].progress.Got? ==> t.workers[w].progress.task == before.task)
            && (t.workers[w].progress.Nothing? <==> before.Selecting? && future == Result(OneRow(None)))
            && (t.workers[w].progress.ClaimFailed? <==> future.Failed? || future.Cancelled?)
  {
  }

  // ---------- Rows ----------

  // The k-th statement finishes this task with this status.
  ghost predicate Finishes(requests: Requests, ids: seq<nat>, k: nat, id: string, status: Status)
    requires InRange(requests, ids)
  {
    && k < |ids| && !status.Pending?
    && requests[ids[k]].sql == Sql(TaskClaim.Finish(id, status), false)
  }

  /** A row has the status of the last finish of its task. */
  lemma {:induction false} LastFinishDecides(requests: Requests, ids: seq<nat>, k: nat, n: nat, r: nat, status: Status)
    requires InRange(requests, ids) && k < n <= |ids| && r < |TasksAt(requests, ids, k)|
    requires Finishes(requests, ids, k, TasksAt(requests, ids, k)[r].id, status)
    requires forall j, other | k < j < n :: !Finishes(requests, ids, j, TasksAt(requests, ids, k)[r].id, other)
    ensures r < |TasksAt(requests, ids, n)| && TasksAt(requests, ids, n)[r].status == status
    decreases n
  {
    ReplayStep(Apply, [], requests, ids, n - 1);
    if k < n - 1 {
      LastFinishDecides(requests, ids, k, n - 1, r, status);
      RowKeeps(requests, ids, k, n - 1, r);
      var q := requests[ids[n - 1]].sql;
      if q.stmt.Finish? { assert !Finishes(requests, ids, n - 1, TasksAt(requests, ids, k)[r].id, q.stmt.status); }
    }
  }

  /** A claimed task is running, with its owner and start time, until the first finish of it. */
  lemma {:induction false} RunningUntilFinished(requests: Requests, ids: seq<nat>, k: nat, n: nat, r: nat)
    requires InRange(requests, ids) && k < n <= |ids| && Wins(requests, ids, k, r)
    requires forall j, status | k < j < n :: !Finishes(requests, ids, j, TasksAt(requests, ids, k)[r].id, status)
    ensures r < |TasksAt(requests, ids, n)|
    ensures var claim := requests[ids[k]].sql.stmt;
            TasksAt(requests, ids, n)[r] == TasksAt(requests, ids, k)[r].(status := Running,
              agent := Some(claim.agent), started := Some(claim.now))
    decreases n
  {
    ReplayStep(Apply, [], requests, ids, n - 1);
    if k < n - 1 {
      RunningUntilFinished(requests, ids, k, n - 1, r);
      var q := requests[ids[n - 1]].sql;
      if q.stmt.Finish? { assert !Finishes(requests, ids, n - 1, TasksAt(requests, ids, k)[r].id, q.stmt.status); }
    }
  }

  /** An executed insert of a new id leaves its row, as it is until the task is claimed or finished. */
  lemma InsertedRow(requests: Requests, ids: seq<nat>, k: nat, n: nat, task: Task) returns (r: nat)
    requires InRange(requests, ids) && k < n <= |ids| && requests[ids[k]].sql == Sql(Insert(task), false)
    requires task.started.None? && !HasId(TasksAt(requests, ids, k), task.id)
    ensures r < |TasksAt(requests, ids, n)| && TasksAt(requests, ids, n)[r].id == task.id
    ensures Untouched(requests, ids, k + 1, n, task.id) ==> TasksAt(requests, ids, n)[r] == task
  {
    r := |TasksAt(requests, ids, k)|;
    ReplayStep(Apply, [], requests, ids, k);
    RowKeeps(requests, ids, k + 1, n, r);
    if Untouched(requests, ids, k + 1, n, task.id) { UntouchedStays(requests, ids, k + 1, n, r); }
  }
}
