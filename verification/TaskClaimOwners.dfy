/**
  Whose a returned task is. `_claim_task` returns the row it selected whatever its UPDATE did, so the
  caller may not own it; these are the exact conditions, in terms of the statements executed between
  a SELECT and an UPDATE or between two SELECTs.
*/
module TaskClaimOwners {
  import opened Wrappers
  import opened DatabaseProtocol
  import opened DatabaseSafety
  import opened TaskClaim

  // ---------- Touching a row ----------

  // The k-th statement is a claim or a finish of this task and does not raise.
  ghost predicate Touches(requests: Requests, ids: seq<nat>, k: nat, id: string)
    requires InRange(requests, ids)
  {
    && k < |ids|
    && var q := requests[ids[k]].sql;
    && !q.raises
    && (q.stmt.Claim? || (q.stmt.Finish? && !q.stmt.status.Pending?))
    && q.stmt.id == id
  }

  ghost predicate Untouched(requests: Requests, ids: seq<nat>, from: nat, to: nat, id: string)
    requires InRange(requests, ids)
  {
    forall k | from <= k < to :: !Touches(requests, ids, k, id)
  }

  lemma UntouchedStep(requests: Requests, ids: seq<nat>, k: nat, r: nat)
    requires InRange(requests, ids) && k < |ids| && r < |TasksAt(requests, ids, k)|
    requires !Touches(requests, ids, k, TasksAt(requests, ids, k)[r].id)
    ensures r < |TasksAt(requests, ids, k + 1)|
    ensures TasksAt(requests, ids, k + 1)[r] == TasksAt(requests, ids, k)[r]
  {
    ReplayStep(Apply, [], requests, ids, k);
  }

  lemma TouchedStep(requests: Requests, ids: seq<nat>, k: nat, r: nat)
    requires InRange(requests, ids) && k < |ids| && r < |TasksAt(requests, ids, k)|
    requires Touches(requests, ids, k, TasksAt(requests, ids, k)[r].id)
    ensures r < |TasksAt(requests, ids, k + 1)| && !TasksAt(requests, ids, k + 1)[r].status.Pending?
  {
    ReplayStep(Apply, [], requests, ids, k);
  }

  lemma {:induction false} UntouchedStays(requests: Requests, ids: seq<nat>, from: nat, to: nat, r: nat)
    requires InRange(requests, ids) && from <= to <= |ids| && r < |TasksAt(requests, ids, from)|
    requires Untouched(requests, ids, from, to, TasksAt(requests, ids, from)[r].id)
    ensures r < |TasksAt(requests, ids, to)| && TasksAt(requests, ids, to)[r] == TasksAt(requests, ids, from)[r]
  {
    if from < to {
      UntouchedStays(requests, ids, from, to - 1, r);
      UntouchedStep(requests, ids, to - 1, r);
    }
  }

  lemma TouchedLeaves(requests: Requests, ids: seq<nat>, from: nat, k: nat, to: nat, r: nat)
    requires InRange(requests, ids) && from <= k < to <= |ids| && r < |TasksAt(requests, ids, from)|
    requires Touches(requests, ids, k, TasksAt(requests, ids, from)[r].id)
    ensures r < |TasksAt(requests, ids, to)| && !TasksAt(requests, ids, to)[r].status.Pending?
  {
    RowKeeps(requests, ids, from, k, r);
    TouchedStep(requests, ids, k, r);
    RowKeeps(requests, ids, k + 1, to, r);
  }

  /** A pending row stays pending exactly until the first claim or finish of it, and unchanged so long. */
  lemma PendingUntilTouched(requests: Requests, ids: seq<nat>, from: nat, to: nat, r: nat)
    requires InRange(requests, ids) && from <= to <= |ids| && r < |TasksAt(requests, ids, from)|
    requires TasksAt(requests, ids, from)[r].status.Pending?
    ensures r < |TasksAt(requests, ids, to)|
    ensures TasksAt(requests, ids, to)[r].status.Pending?
            <==> Untouched(requests, ids, from, to, TasksAt(requests, ids, from)[r].id)
    ensures TasksAt(requests, ids, to)[r].status.Pending?
            ==> TasksAt(requests, ids, to)[r] == TasksAt(requests, ids, from)[r]
  {
    var id := TasksAt(requests, ids, from)[r].id;
    if Untouched(requests, ids, from, to, id) {
      UntouchedStays(requests, ids, from, to, r);
    } else {
      var k :| from <= k < to && Touches(requests, ids, k, id);
      TouchedLeaves(requests, ids, from, k, to, r);
    }
  }

  // ---------- The selected row ----------

  // Row r is the one that the SELECT returns: none beats it, and no earlier one is as good.
  ghost predicate IsFirst(tasks: Tasks, r: nat) {
    && r < |tasks| && tasks[r].status.Pending?
    && NothingBeats(tasks, tasks[r])
    && forall i | 0 <= i < r && tasks[i].status.Pending? :: !Before(tasks[i], tasks[r])
  }

  ghost predicate NothingBeats(tasks: Tasks, task: Task) {
    forall i | 0 <= i < |tasks| && tasks[i].status.Pending? :: Before(task, tasks[i])
  }

  lemma {:induction false} FirstIsRow(tasks: Tasks) returns (r: nat)
    requires FirstPending(tasks).Some?
    ensures IsFirst(tasks, r) && tasks[r] == FirstPending(tasks).value
  {
    var front, last := tasks[..|tasks| - 1], tasks[|tasks| - 1];
    var rest := FirstPending(front);
    if rest.Some? {
      r := FirstIsRow(front);
    }
    if last.status.Pending? && (rest.None? || !Before(rest.value, last)) {
      r := |tasks| - 1;
    }
  }

  lemma FirstUnique(tasks: Tasks, r: nat, r': nat)
    requires IsFirst(tasks, r) && IsFirst(tasks, r')
    ensures r == r'
  {
  }

  // ---------- A returned claim in the serial execution ----------

  // The claim that returned to worker w: its SELECT at f found row r, its UPDATE at k did not raise.
  ghost predicate ClaimRan(s: Team, w: nat, f: nat, r: nat, k: nat)
    requires w < |s.workers| && s.workers[w].progress.Got? && InRange(s.db.requests, s.db.executed)
  {
    var worker, ids := s.workers[w], s.db.executed;
    && f < k < |ids| && ids[f] == worker.select && ids[k] == worker.progress.update
    && IsFirst(TasksAt(s.db.requests, ids, f), r)
    && TasksAt(s.db.requests, ids, f)[r] == worker.progress.task
    && var q := s.db.requests[ids[k]].sql;
    && !q.raises && q.stmt.Claim? && q.stmt.id == worker.progress.task.id && q.stmt.agent == worker.agent
  }

  lemma SelectRan(s: Team, w: nat) returns (f: nat, r: nat)
    requires Explained(s) && w < |s.workers| && s.workers[w].progress.Got?
    ensures f < |s.db.executed| && s.db.executed[f] == s.workers[w].select
    ensures IsFirst(TasksAt(s.db.requests, s.db.executed, f), r)
    ensures TasksAt(s.db.requests, s.db.executed, f)[r] == s.workers[w].progress.task
  {
    assert WorkerOk(s, s.workers[w]);
    var select := s.workers[w].select;
    assert Delivered(s.db.futures[select]);
    f :| 0 <= f < |s.db.executed| && s.db.executed[f] == select;
    assert s.db.futures[select] == Answer(Apply, [], s.db.requests, s.db.executed, f);
    r := FirstIsRow(TasksAt(s.db.requests, s.db.executed, f));
  }

  lemma UpdateRan(s: Team, w: nat) returns (k: nat)
    requires Explained(s) && w < |s.workers| && s.workers[w].progress.Got?
    ensures k < |s.db.executed| && s.db.executed[k] == s.workers[w].progress.update
    ensures var q := s.db.requests[s.db.executed[k]].sql;
            && !q.raises && q.stmt.Claim? && q.stmt.id == s.workers[w].progress.task.id
            && q.stmt.agent == s.workers[w].agent
  {
    assert WorkerOk(s, s.workers[w]);
    var update := s.workers[w].progress.update;
    assert Delivered(s.db.futures[update]);
    k :| 0 <= k < |s.db.executed| && s.db.executed[k] == update;
    assert s.db.futures[update] == Answer(Apply, [], s.db.requests, s.db.executed, k);
  }

  lemma ReturnedRan(s: Team, w: nat) returns (f: nat, r: nat, k: nat)
    requires Explained(s) && w < |s.workers| && s.workers[w].progress.Got?
    ensures ClaimRan(s, w, f, r, k)
  {
    f, r := SelectRan(s, w);
    k := UpdateRan(s, w);
    assert WorkerOk(s, s.workers[w]);
    PositionOrder(s.db.executed, f, k);
  }

  // ---------- Main results ----------

  /**
    Whose a returned task is, exactly: it was pending when it was selected and is not any more, and
    the caller owns its row if and only if no claim or finish of that task was executed between the
    caller's SELECT and its UPDATE.
  */
  lemma ReturnedClaim(events: seq<Event>, w: nat) returns (f: nat, r: nat, k: nat)
    requires var s := History(START, events); w < |s.workers| && s.workers[w].progress.Got?
    ensures var s := History(START, events);
            var worker, ids := s.workers[w], s.db.executed;
            && InRange(s.db.requests, ids) && ClaimRan(s, w, f, r, k)
            && r < |s.db.db| && s.db.db[r].id == worker.progress.task.id && !s.db.db[r].status.Pending?
            && (Wins(s.db.requests, ids, k, r)
                <==> Untouched(s.db.requests, ids, f, k, worker.progress.task.id))
            && (Wins(s.db.requests, ids, k, r) ==> s.db.db[r].agent == Some(worker.agent))
  {
    HistoryExplained(events);
    var s := History(START, events);
    f, r, k := ReturnedRan(s, w);
    ClaimOutcome(s.db.requests, s.db.executed, f, k, r);
  }

  lemma ClaimOutcome(requests: Requests, ids: seq<nat>, f: nat, k: nat, r: nat)
    requires InRange(requests, ids) && f < k < |ids| && r < |TasksAt(requests, ids, f)|
    requires TasksAt(requests, ids, f)[r].status.Pending?
    requires var q := requests[ids[k]].sql; !q.raises && q.stmt.Claim? && q.stmt.id == TasksAt(requests, ids, f)[r].id
    ensures var now, claim := TasksAt(requests, ids, |ids|), requests[ids[k]].sql.stmt;
            && r < |now| && now[r].id == claim.id && !now[r].status.Pending?
            && (Wins(requests, ids, k, r) <==> Untouched(requests, ids, f, k, claim.id))
            && (Wins(requests, ids, k, r) ==> now[r].agent == Some(claim.agent))
  {
    RowKeeps(requests, ids, f, k, r);
    RowKeeps(requests, ids, f, |ids|, r);
    PendingUntilTouched(requests, ids, f, k, r);
    TouchedLeaves(requests, ids, f, k, |ids|, r);
    if Wins(requests, ids, k, r) {
      WinnerStays(requests, ids, k, |ids|, r);
    }
  }

  /**
    When two workers return the same task, exactly: the worker that selected later gets it if and only
    if no claim or finish of it was executed between the two SELECTs and no pending task beats it by
    then. In that case each SELECT was executed before either UPDATE.
  */
  lemma SameTaskReturned(events: seq<Event>, w: nat, w': nat) returns (f: nat, f': nat)
    requires var s := History(START, events);
             && w < |s.workers| && s.workers[w].progress.Got?
             && w' < |s.workers| && s.workers[w'].progress.Got?
             && s.workers[w].select < s.workers[w'].select
    ensures var s := History(START, events);
            var requests, ids, task, task' :=
              s.db.requests, s.db.executed, s.workers[w].progress.task, s.workers[w'].progress.task;
            && InRange(requests, ids)
            && f < f' < |ids| && ids[f] == s.workers[w].select && ids[f'] == s.workers[w'].select
            && (task.id == task'.id
                <==> Untouched(requests, ids, f, f', task.id) && NothingBeats(TasksAt(requests, ids, f'), task))
            && (task.id == task'.id ==> task == task' && s.workers[w'].select < s.workers[w].progress.update)
  {
    HistoryExplained(events);
    var s := History(START, events);
    var r, k, r', k';
    f, r, k := ReturnedRan(s, w);
    f', r', k' := ReturnedRan(s, w');
    PositionOrder(s.db.executed, f, f');
    SelectedTwice(s.db.requests, s.db.executed, f, f', r, r');
    if s.workers[w].progress.task.id == s.workers[w'].progress.task.id {
      UpdateIsLater(s, w, f, r, k, f');
    }
  }

  // The own UPDATE touches the row, so it comes after everything that finds the row untouched.
  lemma UpdateIsLater(s: Team, w: nat, f: nat, r: nat, k: nat, f': nat)
    requires Explained(s) && w < |s.workers| && s.workers[w].progress.Got?
    requires ClaimRan(s, w, f, r, k) && f' < |s.db.executed|
    requires s.db.requests[s.db.executed[f']].sql.stmt.SelectPending?
    requires Untouched(s.db.requests, s.db.executed, f, f', s.workers[w].progress.task.id)
    ensures s.db.executed[f'] < s.workers[w].progress.update
  {
    assert Touches(s.db.requests, s.db.executed, k, s.workers[w].progress.task.id);
    assert f' < k;
  }

  lemma SelectedTwice(requests: Requests, ids: seq<nat>, f: nat, f': nat, r: nat, r': nat)
    requires InRange(requests, ids) && f <= f' < |ids|
    requires IsFirst(TasksAt(requests, ids, f), r) && IsFirst(TasksAt(requests, ids, f'), r')
    ensures var task, tasks' := TasksAt(requests, ids, f)[r], TasksAt(requests, ids, f');
            && (tasks'[r'].id == task.id
                <==> Untouched(requests, ids, f, f', task.id) && NothingBeats(tasks', task))
            && (tasks'[r'].id == task.id ==> tasks'[r'] == task)
  {
    var tasks, tasks' := TasksAt(requests, ids, f), TasksAt(requests, ids, f');
    RowKeeps(requests, ids, f, f', r);
    IdsUnique(requests, ids, f');
    PendingUntilTouched(requests, ids, f, f', r);
    if tasks'[r'].id != tasks[r].id && Untouched(requests, ids, f, f', tasks[r].id) && NothingBeats(tasks', tasks[r]) {
      StillFirst(requests, ids, f, f', r);
      FirstUnique(tasks', r, r');
    }
  }

  lemma StillFirst(requests: Requests, ids: seq<nat>, f: nat, f': nat, r: nat)
    requires InRange(requests, ids) && f <= f' < |ids| && IsFirst(TasksAt(requests, ids, f), r)
    requires Untouched(requests, ids, f, f', TasksAt(requests, ids, f)[r].id)
    requires NothingBeats(TasksAt(requests, ids, f'), TasksAt(requests, ids, f)[r])
    ensures IsFirst(TasksAt(requests, ids, f'), r)
  {
    var tasks, tasks' := TasksAt(requests, ids, f), TasksAt(requests, ids, f');
    PendingUntilTouched(requests, ids, f, f', r);
    forall i | 0 <= i < r && tasks'[i].status.Pending? ensures !Before(tasks'[i], tasks'[r]) {
      RowKeeps(requests, ids, f, f', i);
      PendingUntilTouched(requests, ids, f, f', i);
    }
  }
}
