/**
  The single-writer database protocol of `memory/database.py` as a state machine.

  Callers put requests, each with its own future, on one FIFO queue. One writer takes them off,
  executes them on its connection and resolves the futures. A supervisor drains the queue and
  reconnects after a crash. A step is one section of the coroutines that runs without suspension;
  a step that the current state does not allow leaves the state unchanged, so a run is any list
  of steps.

  The database engine is a parameter: it maps a database and a statement to an outcome. A statement
  that raises leaves the database as it was.
*/
module DatabaseProtocol {
  import opened Wrappers

  datatype Mode = FetchAll | FetchOne | NoFetch

  datatype Request<Q> = Request(sql: Q, mode: Mode)

  datatype Outcome<D, R> = Done(db: D, rows: seq<R>, lastRowId: int) | Raise

  type Engine<!D, !Q, R> = (D, Q) -> Outcome<D, R>

  datatype Value<R> = Rows(rows: seq<R>) | OneRow(row: Option<R>) | RowId(id: int)

  // Raised is the statement's own exception, Restarted the supervisor's "DB writer restarted".
  datatype Error = Raised | Restarted

  datatype Future<R> = Pending | Result(value: Value<R>) | Failed(error: Error) | Cancelled

  // A poison pill remembers how many requests were submitted before it; the stamp is history only.
  datatype Item = Call(id: nat) | Pill(stamp: nat)

  datatype Phase<R> =
    | Connecting
    | Idle
    | Executing(id: nat)
    | Executed(id: nat, answer: Future<R>)
    | Crashed
    | Backoff
    | Stopped(stamp: nat)

  /** Requests are numbered by submission, so request ids are also the enqueue order. */
  datatype State<D, Q, R> = State(
    requests: seq<Request<Q>>,
    futures: seq<Future<R>>,
    queue: seq<Item>,
    phase: Phase<R>,
    db: D,                // what the open connection sees
    durable: D,           // what survives closing the connection
    // history
    executed: seq<nat>,   // every execution, in order
    kept: seq<nat>,       // the executions that no closed connection has rolled back
    saved: nat,           // how many of the kept executions are committed
    taken: nat,           // how many requests have left the queue
    removed: nat          // how many items, requests and pills, have left the queue
  )

  datatype Step<Q> =
    | Submit(request: Request<Q>)
    | Cancel(id: nat)
    | Shutdown
    | Connect(ok: bool)
    | Dequeue
    | Execute
    | Resolve
    | Drain
    | Reconnect

  function Init<D, Q, R>(d0: D): State<D, Q, R> {
    State([], [], [], Connecting, d0, d0, [], [], 0, 0, 0)
  }

  function Lo(item: Item): nat {
    match item
    case Call(id) => id
    case Pill(stamp) => stamp
  }

  function Hi(item: Item): nat {
    match item
    case Call(id) => id + 1
    case Pill(stamp) => stamp
  }

  // What the caller of a statement that did not raise receives.
  function Deliver<D, R>(mode: Mode, rows: seq<R>, lastRowId: int): Value<R> {
    match mode
    case FetchAll => Rows(rows)
    case FetchOne => OneRow(if rows == [] then None else Some(rows[0]))
    case NoFetch => RowId(lastRowId)
  }

  // The writer's connection closes and uncommitted work is rolled back.
  function Close<D, Q, R>(s: State<D, Q, R>, phase: Phase<R>): State<D, Q, R>
    requires s.saved <= |s.kept|
  {
    s.(phase := phase, db := s.durable, kept := s.kept[..s.saved])
  }

  predicate Enabled<D, Q, R>(s: State<D, Q, R>, step: Step<Q>) {
    match step
    case Submit(_) => true
    case Cancel(id) => id < |s.futures| && s.futures[id].Pending?
    case Shutdown => true
    case Connect(_) => s.phase.Connecting? && s.saved <= |s.kept|
    case Dequeue => s.phase.Idle? && s.queue != [] && s.saved <= |s.kept|
    case Execute => s.phase.Executing? && s.phase.id < |s.requests|
    case Resolve => s.phase.Executed? && s.phase.id < |s.futures| && s.saved <= |s.kept|
    case Drain => s.phase.Crashed?
    case Reconnect => s.phase.Backoff?
  }

  function Next<D, Q, R>(eng: Engine<D, Q, R>, s: State<D, Q, R>, step: Step<Q>): State<D, Q, R> {
    if !Enabled(s, step) then s else
    match step
    case Submit(request) =>
      s.(requests := s.requests + [request], futures := s.futures + [Pending],
         queue := s.queue + [Call(|s.requests|)])
    case Cancel(id) => s.(futures := s.futures[id := Cancelled])
    case Shutdown => s.(queue := s.queue + [Pill(|s.requests|)])
    case Connect(ok) => if ok then s.(phase := Idle) else Close(s, Crashed)
    case Dequeue =>
      var rest := s.(queue := s.queue[1..], removed := s.removed + 1);
      (match s.queue[0]
       case Call(id) => rest.(phase := Executing(id), taken := s.taken + 1)
       case Pill(stamp) => Close(rest, Stopped(stamp)))
    case Execute => ExecuteStatement(eng, s)
    case Resolve =>
      // Setting a cancelled future raises, for the result and for the exception alike.
      if s.futures[s.phase.id].Pending?
      then s.(futures := s.futures[s.phase.id := s.phase.answer], phase := Idle)
      else Close(s, Crashed)
    case Drain =>
      s.(futures := Drained(s.futures, s.queue), queue := [], phase := Backoff,
         taken := |s.requests|, removed := s.removed + |s.queue|)
    case Reconnect => s.(phase := Connecting)
  }

  function ExecuteStatement<D, Q, R>(eng: Engine<D, Q, R>, s: State<D, Q, R>): State<D, Q, R>
    requires s.phase.Executing? && s.phase.id < |s.requests|
  {
    var id := s.phase.id;
    var request := s.requests[id];
    var s1 := s.(executed := s.executed + [id], kept := s.kept + [id],
                 phase := Executed(id, AnswerOn(eng, s.db, request)));
    match eng(s.db, request.sql)
    case Done(d, _, _) =>
      if request.mode.NoFetch? then s1.(db := d, durable := d, saved := |s.kept| + 1)
      else s1.(db := d)
    case Raise => s1
  }

  // The supervisor fails every queued request that nobody has resolved or cancelled.
  function Drained<R>(futures: seq<Future<R>>, queue: seq<Item>): (r: seq<Future<R>>)
    ensures |r| == |futures|
  {
    seq(|futures|, i requires 0 <= i < |futures| =>
      if futures[i].Pending? && Call(i) in queue then Failed(Restarted) else futures[i])
  }

  function Run<D, Q, R>(eng: Engine<D, Q, R>, s: State<D, Q, R>, steps: seq<Step<Q>>): State<D, Q, R>
    decreases |steps|
  {
    if steps == [] then s else Run(eng, Next(eng, s, steps[0]), steps[1..])
  }

  // ---------- Serial execution, the reference ----------

  function AnswerOn<D, Q, R>(eng: Engine<D, Q, R>, d: D, request: Request<Q>): Future<R> {
    match eng(d, request.sql)
    case Done(_, rows, lastRowId) => Result(Deliver<D, R>(request.mode, rows, lastRowId))
    case Raise => Failed(Raised)
  }

  function DbAfter<D, Q, R>(eng: Engine<D, Q, R>, d: D, sql: Q): D {
    match eng(d, sql)
    case Done(d', _, _) => d'
    case Raise => d
  }

  ghost predicate InRange<Q>(requests: seq<Request<Q>>, ids: seq<nat>) {
    forall k | 0 <= k < |ids| :: ids[k] < |requests|
  }

  /** The database after executing the requests `ids` one after the other. */
  function Replay<D, Q, R>(eng: Engine<D, Q, R>, d0: D, requests: seq<Request<Q>>, ids: seq<nat>): D
    requires forall k | 0 <= k < |ids| :: ids[k] < |requests|
  {
    if ids == [] then d0
    else DbAfter(eng, Replay(eng, d0, requests, ids[..|ids| - 1]), requests[ids[|ids| - 1]].sql)
  }

  /** What the k-th request of that serial execution returns. */
  function Answer<D, Q, R>(eng: Engine<D, Q, R>, d0: D, requests: seq<Request<Q>>, ids: seq<nat>, k: nat): Future<R>
    requires forall i | 0 <= i < |ids| :: ids[i] < |requests|
    requires k < |ids|
  {
    AnswerOn(eng, Replay(eng, d0, requests, ids[..k]), requests[ids[k]])
  }

  lemma ReplayStep<D, Q, R>(eng: Engine<D, Q, R>, d0: D, requests: seq<Request<Q>>, ids: seq<nat>, k: nat)
    requires InRange(requests, ids) && k < |ids|
    ensures Replay(eng, d0, requests, ids[..k + 1])
            == DbAfter(eng, Replay(eng, d0, requests, ids[..k]), requests[ids[k]].sql)
  {
    assert ids[..k + 1][..k] == ids[..k];
  }

  lemma {:induction false} ReplayGrow<D, Q, R>(eng: Engine<D, Q, R>, d0: D, requests: seq<Request<Q>>,
                                               more: seq<Request<Q>>, ids: seq<nat>)
    requires forall k | 0 <= k < |ids| :: ids[k] < |requests|
    ensures Replay(eng, d0, requests + more, ids) == Replay(eng, d0, requests, ids)
  {
    if ids != [] {
      ReplayGrow(eng, d0, requests, more, ids[..|ids| - 1]);
    }
  }

  // ---------- Invariants ----------

  ghost predicate InFlight<D, Q, R>(s: State<D, Q, R>, id: nat) {
    (s.phase.Executing? || s.phase.Executed?) && s.phase.id == id
  }

  ghost predicate Increasing(ids: seq<nat>) {
    forall i, j | 0 <= i < j < |ids| :: ids[i] < ids[j]
  }

  // The queue holds the requests from `taken` on, in submission order, each once; the pills stand
  // where they were put.
  ghost predicate Fifo<D, Q, R>(s: State<D, Q, R>) {
    && |s.futures| == |s.requests|
    && s.taken <= |s.requests|
    && (forall i | 0 <= i < |s.queue| :: s.taken <= Lo(s.queue[i]) && Hi(s.queue[i]) <= |s.requests|)
    && (forall i, j | 0 <= i < j < |s.queue| :: Hi(s.queue[i]) <= Lo(s.queue[j]))
    && (forall id: nat | s.taken <= id < |s.requests| :: Call(id) in s.queue)
    && (s.phase.Stopped? ==> s.phase.stamp <= s.taken)
  }

  // Executions follow the submission order.
  ghost predicate Serial<D, Q, R>(s: State<D, Q, R>) {
    && Increasing(s.executed)
    && (forall k | 0 <= k < |s.executed| :: s.executed[k] < s.taken)
    && (s.phase.Executing? ==>
          s.phase.id < s.taken && forall k | 0 <= k < |s.executed| :: s.executed[k] < s.phase.id)
    && (s.phase.Executed? ==>
          s.phase.id < s.taken && s.executed != [] && s.executed[|s.executed| - 1] == s.phase.id)
  }

  // No future is forgotten, and what a future holds says whether its statement was executed.
  ghost predicate Accounted<D, Q, R>(s: State<D, Q, R>)
    requires |s.futures| == |s.requests|
  {
    && (forall id: nat | id < |s.futures| && id < s.taken && s.futures[id].Pending? :: InFlight(s, id))
    && (forall id: nat | id < |s.futures| && (s.taken <= id || InFlight(s, id)) ::
          s.futures[id].Pending? || s.futures[id].Cancelled?)
    && (forall id: nat | id < |s.futures| && s.futures[id] == Failed(Restarted) :: id !in s.executed)
    && (forall id: nat | id < |s.futures| && Delivered(s.futures[id]) ::
          id in s.executed)
    && (s.phase.Executed? ==> Delivered(s.phase.answer))
  }

  ghost predicate Base<D, Q, R>(s: State<D, Q, R>) {
    Fifo(s) && Serial(s) && Accounted(s)
  }

  ghost predicate Delivered<R>(future: Future<R>) {
    future.Result? || future == Failed(Raised)
  }

  // Every answer delivered to a request of `ids` is what the serial execution `ids` gives it.
  ghost predicate Agrees<D, Q, R>(eng: Engine<D, Q, R>, d0: D, requests: seq<Request<Q>>,
                                  futures: seq<Future<R>>, ids: seq<nat>)
  {
    && |futures| == |requests|
    && (forall k | 0 <= k < |ids| :: ids[k] < |requests|)
    && (forall k | 0 <= k < |ids| && Delivered(futures[ids[k]]) ::
          futures[ids[k]] == Answer(eng, d0, requests, ids, k))
  }

  // `ids` is a serial execution that explains the database and every delivered answer.
  ghost predicate Explains<D, Q, R>(eng: Engine<D, Q, R>, d0: D, s: State<D, Q, R>, ids: seq<nat>) {
    && Agrees(eng, d0, s.requests, s.futures, ids)
    && s.db == Replay(eng, d0, s.requests, ids)
    && (s.phase.Executed? ==>
          ids != [] && ids[|ids| - 1] == s.phase.id
          && s.phase.answer == Answer(eng, d0, s.requests, ids, |ids| - 1))
  }

  // The kept executions explain the open connection, their committed part the durable database,
  // and every acknowledged write is committed.
  ghost predicate Durable<D, Q, R>(eng: Engine<D, Q, R>, d0: D, s: State<D, Q, R>)
    requires |s.futures| == |s.requests|
  {
    && s.saved <= |s.kept|
    && (forall k | 0 <= k < |s.kept| :: s.kept[k] in s.executed)
    && Increasing(s.kept)
    && Explains(eng, d0, s, s.kept)
    && s.durable == Replay(eng, d0, s.requests, s.kept[..s.saved])
    && (forall id: nat | id < |s.futures| && s.futures[id].Result? && s.requests[id].mode.NoFetch? ::
          id in s.kept[..s.saved])
    && (s.phase.Executed? && s.phase.answer.Result? && s.requests[s.phase.id].mode.NoFetch? ==>
          s.saved == |s.kept|)
  }

  // `ids` is a serial execution in submission order that explains every delivered answer and the
  // current database.
  ghost predicate Orders<D, Q, R>(eng: Engine<D, Q, R>, d0: D, s: State<D, Q, R>, ids: seq<nat>) {
    && Increasing(ids)
    && Agrees(eng, d0, s.requests, s.futures, ids)
    && s.db == Replay(eng, d0, s.requests, ids)
    && forall id: nat | id < |s.futures| && Delivered(s.futures[id]) :: id in ids
  }

  /** There is such a serial execution. */
  ghost predicate Linear<D, Q, R>(eng: Engine<D, Q, R>, d0: D, s: State<D, Q, R>) {
    exists ids: seq<nat> :: Orders(eng, d0, s, ids)
  }

  /** Statements sent through the two fetch calls, which never commit, do not change the database. */
  ghost predicate ReadOnlyFetches<D(!new), Q, R>(eng: Engine<D, Q, R>, requests: seq<Request<Q>>) {
    forall i, d: D | 0 <= i < |requests| && !requests[i].mode.NoFetch? :: DbAfter(eng, d, requests[i].sql) == d
  }

  ghost predicate Inv<D(!new), Q, R>(eng: Engine<D, Q, R>, d0: D, s: State<D, Q, R>) {
    && Base(s)
    && (forall k | 0 <= k < |s.executed| :: s.executed[k] < |s.requests|)
    && Durable(eng, d0, s)
    && (ReadOnlyFetches(eng, s.requests) ==> s.db == s.durable && Explains(eng, d0, s, s.executed))
  }
}
