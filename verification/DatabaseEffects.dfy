/**
  What the single steps of the database protocol achieve, told by what a run shows and not by the
  step that does it: what was submitted is what is served, a served request has the outcome of its
  statement, an answer is final, a crash fails everything that waits, and a shutdown request stops
  the writer.
*/
module DatabaseEffects {
  import opened Wrappers
  import opened DatabaseProtocol
  import opened DatabaseSafety
  import opened DatabaseProgress

  // ---------- Callers ----------

  function Submissions<Q>(steps: seq<Step<Q>>): seq<Request<Q>> {
    if steps == [] then []
    else (if steps[0].Submit? then [steps[0].request] else []) + Submissions(steps[1..])
  }

  lemma Regroup<Q>(a: seq<Q>, b: seq<Q>, c: seq<Q>)
    ensures a + b + c == a + (b + c)
  {
  }

  /** The requests of a run are what was submitted, in order, whatever the writer's state. */
  lemma {:induction false} RequestsAreSubmitted<D, Q, R>(eng: Engine<D, Q, R>, s: State<D, Q, R>, steps: seq<Step<Q>>)
    requires |s.futures| == |s.requests|
    ensures var t := Run(eng, s, steps);
            t.requests == s.requests + Submissions(steps) && |t.futures| == |t.requests|
    decreases |steps|
  {
    if steps == [] {
      assert s.requests + Submissions(steps) == s.requests;
    } else {
      var t, first := Next(eng, s, steps[0]), if steps[0].Submit? then [steps[0].request] else [];
      NextStable(eng, s, steps[0]);
      RequestsAreSubmitted(eng, t, steps[1..]);
      Regroup(s.requests, first, Submissions(steps[1..]));
    }
  }

  lemma FinalNext<D, Q, R>(eng: Engine<D, Q, R>, s: State<D, Q, R>, step: Step<Q>, id: nat)
    requires |s.futures| == |s.requests| && id < |s.futures| && !s.futures[id].Pending?
    ensures var t := Next(eng, s, step);
            |t.futures| == |t.requests| && id < |t.futures| && t.futures[id] == s.futures[id]
  {
  }

  /** An answer, an error or a cancellation is final. */
  lemma {:induction false} AnswersAreFinal<D, Q, R>(eng: Engine<D, Q, R>, s: State<D, Q, R>, steps: seq<Step<Q>>,
                                                    id: nat)
    requires |s.futures| == |s.requests| && id < |s.futures| && !s.futures[id].Pending?
    ensures id < |Run(eng, s, steps).futures| && Run(eng, s, steps).futures[id] == s.futures[id]
    decreases |steps|
  {
    if steps != [] {
      FinalNext(eng, s, steps[0], id);
      AnswersAreFinal(eng, Next(eng, s, steps[0]), steps[1..], id);
    }
  }

  // The k-th step is a caller giving up a request that has no answer yet.
  ghost predicate GivesUp<D, Q, R>(eng: Engine<D, Q, R>, s: State<D, Q, R>, steps: seq<Step<Q>>, k: nat, id: nat) {
    && k < |steps| && steps[k] == Step.Cancel(id)
    && var t := Run(eng, s, steps[..k]);
       id < |t.futures| && t.futures[id].Pending?
  }

  lemma CancelledNext<D, Q, R>(eng: Engine<D, Q, R>, s: State<D, Q, R>, step: Step<Q>, id: nat)
    requires Base(s)
    ensures var t := Next(eng, s, step);
            id < |t.futures| && t.futures[id].Cancelled? <==>
            id < |s.futures| && (s.futures[id].Cancelled? || (s.futures[id].Pending? && step == Step.Cancel(id)))
  {
  }

  lemma RunLast<D, Q, R>(eng: Engine<D, Q, R>, s: State<D, Q, R>, steps: seq<Step<Q>>)
    requires steps != []
    ensures Run(eng, s, steps) == Next(eng, Run(eng, s, steps[..|steps| - 1]), steps[|steps| - 1])
  {
    var front, last := steps[..|steps| - 1], [steps[|steps| - 1]];
    assert steps == front + last;
    RunConcat(eng, s, front, last);
    assert Run(eng, Next(eng, Run(eng, s, front), last[0]), last[1..]) == Next(eng, Run(eng, s, front), last[0]);
  }

  lemma GivesUpLast<D, Q, R>(eng: Engine<D, Q, R>, s: State<D, Q, R>, steps: seq<Step<Q>>, id: nat)
    requires steps != []
    ensures var n := |steps| - 1;
            (exists k: nat :: GivesUp(eng, s, steps, k, id))
            <==> (exists k: nat :: GivesUp(eng, s, steps[..n], k, id)) || GivesUp(eng, s, steps, n, id)
  {
    var n := |steps| - 1;
    forall k: nat | k < n ensures GivesUp(eng, s, steps, k, id) <==> GivesUp(eng, s, steps[..n], k, id) {
      assert steps[..k] == steps[..n][..k];
    }
  }

  /** A request is cancelled exactly when its caller gave up before it had an answer. */
  lemma {:induction false} CancelledExactly<D, Q, R>(eng: Engine<D, Q, R>, d0: D, steps: seq<Step<Q>>, id: nat)
    ensures var t := Run(eng, Init(d0), steps);
            id < |t.futures| && t.futures[id].Cancelled? <==> exists k: nat :: GivesUp(eng, Init(d0), steps, k, id)
    decreases |steps|
  {
    if steps != [] {
      var front := steps[..|steps| - 1];
      RunLast(eng, Init(d0), steps);
      CancelledExactly(eng, d0, front, id);
      RunBase(eng, Init(d0), front);
      CancelledNext(eng, Run(eng, Init(d0), front), steps[|steps| - 1], id);
      GivesUpLast(eng, Init(d0), steps, id);
    }
  }

  /** Before the writer has a connection nothing is served: requests are only queued. */
  lemma {:induction false} NothingServedBeforeConnect<D, Q, R>(eng: Engine<D, Q, R>, d0: D, steps: seq<Step<Q>>)
    requires forall i | 0 <= i < |steps| :: !steps[i].Connect?
    ensures var s := Run(eng, Init(d0), steps);
            && s.phase.Connecting? && s.executed == [] && s.removed == 0 && s.db == s.durable == d0
            && forall id: nat | id < |s.futures| :: s.futures[id].Pending? || s.futures[id].Cancelled?
    decreases |steps|
  {
    if steps != [] {
      RunLast(eng, Init(d0), steps);
      NothingServedBeforeConnect(eng, d0, steps[..|steps| - 1]);
    }
  }

  // ---------- One request ----------

  // The request has the outcome of its statement on the database d.
  ghost predicate Outcomes<D, Q, R>(eng: Engine<D, Q, R>, d: D, request: Request<Q>, future: Future<R>) {
    match eng(d, request.sql)
    case Done(_, rows, lastRowId) =>
      && (request.mode.FetchAll? ==> future == Result(Rows(rows)))
      && (request.mode.FetchOne? && rows == [] ==> future == Result(OneRow(None)))
      && (request.mode.FetchOne? && rows != [] ==> future == Result(OneRow(Some(rows[0]))))
      && (request.mode.NoFetch? ==> future == Result(RowId(lastRowId)))
    case Raise => future == Failed(Raised)
  }

  // The connection right after the statement: only a write that does not raise is durable.
  ghost predicate Executes<D, Q, R>(eng: Engine<D, Q, R>, s: State<D, Q, R>, request: Request<Q>,
                                    db: D, durable: D) {
    match eng(s.db, request.sql)
    case Done(d, _, _) => db == d && durable == (if request.mode.NoFetch? then d else s.durable)
    case Raise => db == s.db && durable == s.durable
  }

  lemma HeadTaken<D, Q, R>(eng: Engine<D, Q, R>, s: State<D, Q, R>, id: nat)
    requires Base(s) && s.saved <= |s.kept| && s.phase.Idle? && s.queue != [] && s.queue[0] == Call(id)
    ensures id < |s.requests| == |s.futures|
    ensures var t := Next(eng, s, Dequeue);
            t == s.(queue := s.queue[1..], phase := Executing(id), taken := s.taken + 1, removed := s.removed + 1)
  {
    DequeueHead(s);
    assert Hi(s.queue[0]) <= |s.requests|;
  }

  lemma HeadExecuted<D, Q, R>(eng: Engine<D, Q, R>, s: State<D, Q, R>, id: nat)
    requires s.phase == Executing(id) && id < |s.requests| == |s.futures|
    ensures var t := Next(eng, s, Execute);
            && t.phase.Executed? && t.phase.id == id && t.queue == s.queue && t.requests == s.requests
            && t.futures == s.futures && t.executed == s.executed + [id]
            && Executes(eng, s, s.requests[id], t.db, t.durable)
            && Outcomes(eng, s.db, s.requests[id], t.phase.answer)
  {
  }

  lemma HeadResolved<D, Q, R>(eng: Engine<D, Q, R>, s: State<D, Q, R>, id: nat)
    requires s.phase.Executed? && s.phase.id == id < |s.requests| == |s.futures| && s.saved <= |s.kept|
    ensures var t := Next(eng, s, Resolve);
            && t.queue == s.queue && t.requests == s.requests && t.executed == s.executed && t.durable == s.durable
            && (if s.futures[id].Pending?
                then t.phase.Idle? && t.db == s.db && t.futures == s.futures[id := s.phase.answer]
                else t.phase.Crashed? && t.db == s.durable && t.futures == s.futures)
  {
  }

  /**
    A request at the head of the queue is executed once, on the open connection. If its caller still
    waits, it is answered with the outcome of its statement; only a write that does not raise is
    durable then. If its caller has given up, the writer crashes and what was not durable is undone;
    a write stays.
  */
  lemma HeadServed<D, Q, R>(eng: Engine<D, Q, R>, d0: D, before: seq<Step<Q>>, id: nat)
    requires var s := Run(eng, Init(d0), before); s.phase.Idle? && s.queue != [] && s.queue[0] == Call(id)
    ensures var s := Run(eng, Init(d0), before);
            var t := Run(eng, s, [Dequeue, Execute, Resolve]);
            && id < |s.requests| == |s.futures|
            && t.queue == s.queue[1..] && t.requests == s.requests && t.executed == s.executed + [id]
            && (if s.futures[id].Pending?
                then && t.phase.Idle? && Executes(eng, s, s.requests[id], t.db, t.durable)
                     && |t.futures| == |s.futures| && t.futures == s.futures[id := t.futures[id]]
                     && Outcomes(eng, s.db, s.requests[id], t.futures[id])
                else && t.phase.Crashed? && t.futures == s.futures && t.db == t.durable
                     && Executes(eng, s, s.requests[id], DbAfter(eng, s.db, s.requests[id].sql), t.durable))
  {
    var s := Run(eng, Init(d0), before);
    RunBase(eng, Init(d0), before);
    RunTriple(eng, s, Dequeue, Execute, Resolve);
    HeadTaken(eng, s, id);
    var taken := Next(eng, s, Dequeue);
    HeadExecuted(eng, taken, id);
    NextSaved(eng, taken, Execute);
    HeadResolved(eng, Next(eng, taken, Execute), id);
  }

  // ---------- A crash ----------

  // The writer has lost its connection, or is about to answer a caller that has given up.
  ghost predicate Crashes<D, Q, R>(s: State<D, Q, R>, step: Step<Q>) {
    || (s.phase.Connecting? && step == Connect(false))
    || (s.phase.Executed? && step.Resolve? && s.phase.id < |s.futures| && !s.futures[s.phase.id].Pending?)
  }

  lemma DrainFails<D, Q, R>(eng: Engine<D, Q, R>, s: State<D, Q, R>)
    requires Base(s) && s.phase.Crashed?
    ensures var t := Next(eng, s, Drain);
            && t.queue == [] && t.phase.Backoff? && t.db == s.db && t.durable == s.durable
            && |t.futures| == |s.futures|
            && forall id: nat | id < |s.futures| ::
                 t.futures[id] == if s.futures[id].Pending? then Failed(Restarted) else s.futures[id]
  {
    forall id: nat | id < |s.futures| && s.futures[id].Pending? ensures Call(id) in s.queue {
      assert s.taken <= id;
    }
  }

  lemma CrashCloses<D, Q, R>(eng: Engine<D, Q, R>, s: State<D, Q, R>, crash: Step<Q>)
    requires Base(s) && s.saved <= |s.kept| && Crashes(s, crash)
    ensures var t := Next(eng, s, crash);
            t.phase.Crashed? && t.db == s.durable == t.durable && t.futures == s.futures
  {
  }

  lemma ComesBack<D, Q, R>(eng: Engine<D, Q, R>, s: State<D, Q, R>)
    requires s.phase.Backoff? && s.saved <= |s.kept|
    ensures var t := Next(eng, s, Reconnect);
            && t.queue == s.queue && t.futures == s.futures && t.db == s.db && t.durable == s.durable
            && Next(eng, t, Connect(true)).phase.Idle?
  {
  }

  /**
    A crash, when the connection cannot be opened or a caller has given up in flight: the supervisor
    fails every caller that waits and nobody else, empties the queue, loses what was not durable, and
    the writer comes back.
  */
  lemma CrashFailsEveryWaiter<D, Q, R>(eng: Engine<D, Q, R>, d0: D, before: seq<Step<Q>>, crash: Step<Q>)
    requires Crashes(Run(eng, Init(d0), before), crash)
    ensures var s := Run(eng, Init(d0), before);
            var t := Run(eng, s, [crash, Drain, Reconnect]);
            && t.queue == [] && t.db == t.durable == s.durable && |t.futures| == |s.futures|
            && (forall id: nat | id < |s.futures| ::
                  t.futures[id] == if s.futures[id].Pending? then Failed(Restarted) else s.futures[id])
            && Next(eng, t, Connect(true)).phase.Idle?
  {
    var s := Run(eng, Init(d0), before);
    RunBase(eng, Init(d0), before);
    RunTriple(eng, s, crash, Drain, Reconnect);
    CrashCloses(eng, s, crash);
    NextBase(eng, s, crash);
    NextSaved(eng, s, crash);
    var crashed := Next(eng, s, crash);
    DrainFails(eng, crashed);
    NextSaved(eng, crashed, Drain);
    ComesBack(eng, Next(eng, crashed, Drain));
  }

  // ---------- A shutdown request ----------

  /**
    When shutdown_db works, exactly: it puts a pill behind everything that waits, so once everything
    and the pill have left the queue, and nobody asked again, the writer has stopped if and only if no
    drain happened, and it stopped after the requests submitted before.
  */
  lemma ShutdownStopsExactly<D, Q, R>(eng: Engine<D, Q, R>, d0: D, before: seq<Step<Q>>, after: seq<Step<Q>>)
    requires var s := Run(eng, Init(d0), before);
             && !s.phase.Stopped? && (forall i | 0 <= i < |s.queue| :: s.queue[i].Call?)
             && (forall i | 0 <= i < |after| :: !after[i].Shutdown?)
             && Run(eng, s, [Shutdown] + after).removed > s.removed + |s.queue|
    ensures var s := Run(eng, Init(d0), before);
            var t := Run(eng, s, [Shutdown] + after);
            && (t.phase.Stopped? <==> Drains(eng, s, [Shutdown] + after) == 0)
            && (t.phase.Stopped? ==> t.phase.stamp == |s.requests|)
  {
    var s := Run(eng, Init(d0), before);
    var asked := Next(eng, s, Shutdown);
    assert ([Shutdown] + after)[1..] == after;
    assert asked.queue == s.queue + [Pill(|s.requests|)] && asked.phase == s.phase;
    PillStopsUnlessDrained(eng, asked, after, |s.queue|);
    StampStays(eng, asked, after, |s.requests|);
  }

  // All pills of the queue carry this stamp, and so does the writer once it stops on one.
  ghost predicate Stamped<D, Q, R>(s: State<D, Q, R>, stamp: nat) {
    && (forall i | 0 <= i < |s.queue| && s.queue[i].Pill? :: s.queue[i].stamp == stamp)
    && (s.phase.Stopped? ==> s.phase.stamp == stamp)
  }

  lemma StampNext<D, Q, R>(eng: Engine<D, Q, R>, s: State<D, Q, R>, step: Step<Q>, stamp: nat)
    requires Stamped(s, stamp) && !step.Shutdown?
    ensures Stamped(Next(eng, s, step), stamp)
  {
  }

  lemma {:induction false} StampStays<D, Q, R>(eng: Engine<D, Q, R>, s: State<D, Q, R>, steps: seq<Step<Q>>, stamp: nat)
    requires Stamped(s, stamp) && NoShutdown(steps)
    ensures Stamped(Run(eng, s, steps), stamp)
    decreases |steps|
  {
    if steps != [] {
      assert !steps[0].Shutdown?;
      StampNext(eng, s, steps[0], stamp);
      StampStays(eng, Next(eng, s, steps[0]), steps[1..], stamp);
    }
  }
}
