/**
  Exactly when the database protocol is linearizable. The fetch calls never commit, so whatever a
  fetch writes is lost when the connection closes; callers are safe if and only if they fetch with
  statements that only read.
*/
module DatabaseLinearizability {
  import opened DatabaseProtocol
  import opened DatabaseSafety
  import opened DatabaseProgress

  // The requests that callers may send.
  type Permitted<!Q> = Request<Q> -> bool

  ghost predicate Obeys<Q>(steps: seq<Step<Q>>, permitted: Permitted<Q>) {
    forall i | 0 <= i < |steps| && steps[i].Submit? :: permitted(steps[i].request)
  }

  ghost predicate AlwaysLinear<D(!new), Q(!new), R>(eng: Engine<D, Q, R>, permitted: Permitted<Q>) {
    forall d0: D, steps: seq<Step<Q>> | Obeys(steps, permitted) :: Linear(eng, d0, Run(eng, Init(d0), steps))
  }

  ghost predicate FetchesOnlyRead<D(!new), Q(!new), R>(eng: Engine<D, Q, R>, permitted: Permitted<Q>) {
    forall request: Request<Q>, d: D | permitted(request) && !request.mode.NoFetch? ::
      DbAfter(eng, d, request.sql) == d
  }

  lemma {:induction false} RunObeys<D, Q, R>(eng: Engine<D, Q, R>, s: State<D, Q, R>, steps: seq<Step<Q>>,
                                             permitted: Permitted<Q>)
    requires Obeys(steps, permitted) && forall i | 0 <= i < |s.requests| :: permitted(s.requests[i])
    ensures var t := Run(eng, s, steps); forall i | 0 <= i < |t.requests| :: permitted(t.requests[i])
    decreases |steps|
  {
    if steps == [] {
      assert Run(eng, s, steps) == s;
    } else {
      var next := Next(eng, s, steps[0]);
      NextObeys(eng, s, steps[0], permitted);
      RunObeys(eng, next, steps[1..], permitted);
      assert Run(eng, s, steps) == Run(eng, next, steps[1..]);
    }
  }

  lemma NextObeys<D, Q, R>(eng: Engine<D, Q, R>, s: State<D, Q, R>, step: Step<Q>, permitted: Permitted<Q>)
    requires step.Submit? ==> permitted(step.request)
    requires forall i | 0 <= i < |s.requests| :: permitted(s.requests[i])
    ensures var t := Next(eng, s, step); forall i | 0 <= i < |t.requests| :: permitted(t.requests[i])
  {
  }

  // The run of a fetch that is answered before the writer is told to stop: stopping closes the
  // connection, which takes back what the fetch has written.
  function FetchThenStop<Q>(request: Request<Q>): seq<Step<Q>> {
    [Connect(true), Submit(request), Dequeue] + [Execute, Resolve, Shutdown] + [Dequeue]
  }

  lemma FetchStarted<D, Q, R>(eng: Engine<D, Q, R>, d0: D, request: Request<Q>)
    ensures Run(eng, Init(d0), [Connect(true), Submit(request), Dequeue])
            == State([request], [Pending], [], Executing(0), d0, d0, [], [], 0, 1, 1)
  {
    RunTriple(eng, Init(d0), Connect(true), Submit(request), Dequeue);
  }

  lemma FetchAnswered<D, Q, R>(eng: Engine<D, Q, R>, s: State<D, Q, R>, d0: D, request: Request<Q>)
    requires s == State([request], [Pending], [], Executing(0), d0, d0, [], [], 0, 1, 1) && !request.mode.NoFetch?
    ensures var t := Run(eng, s, [Execute, Resolve, Shutdown]);
            && t.requests == [request] && t.futures == [AnswerOn(eng, d0, request)]
            && t.queue == [Pill(1)] && t.phase.Idle? && t.durable == d0 && t.saved == 0
  {
    RunTriple(eng, s, Execute, Resolve, Shutdown);
  }

  // The fetch has its answer, and the database is what it was.
  lemma FetchTakenBack<D, Q, R>(eng: Engine<D, Q, R>, d0: D, request: Request<Q>)
    requires !request.mode.NoFetch?
    ensures var s := Run(eng, Init(d0), FetchThenStop(request));
            s.requests == [request] && s.futures == [AnswerOn(eng, d0, request)] && s.db == d0
  {
    var start, answer := [Connect(true), Submit(request), Dequeue], [Execute, Resolve, Shutdown];
    FetchStarted(eng, d0, request);
    FetchAnswered(eng, Run(eng, Init(d0), start), d0, request);
    RunConcat(eng, Init(d0), start, answer);
    var answered := Run(eng, Init(d0), start + answer);
    assert Run(eng, answered, [Dequeue]) == Next(eng, answered, Dequeue) by {
      assert Run(eng, Next(eng, answered, Dequeue), [Dequeue][1..]) == Next(eng, answered, Dequeue);
    }
    RunConcat(eng, Init(d0), start + answer, [Dequeue]);
  }

  // The only serial execution with the answered fetch in it has its write.
  lemma OnlyOrder(ids: seq<nat>)
    requires Increasing(ids) && 0 in ids && forall k | 0 <= k < |ids| :: ids[k] < 1
    ensures ids == [0]
  {
    AtLeastIndex(ids, |ids| - 1);
  }

  lemma {:induction false} AtLeastIndex(ids: seq<nat>, i: nat)
    requires Increasing(ids) && i < |ids|
    ensures ids[i] >= i
  {
    if i > 0 {
      AtLeastIndex(ids, i - 1);
    }
  }

  /** Every fetch that writes is lost in some run after its answer was delivered. */
  lemma WritingFetchBreaks<D(!new), Q(!new), R>(eng: Engine<D, Q, R>, d0: D, request: Request<Q>)
    requires !request.mode.NoFetch? && DbAfter(eng, d0, request.sql) != d0
    ensures !Linear(eng, d0, Run(eng, Init(d0), FetchThenStop(request)))
  {
    FetchTakenBack(eng, d0, request);
    var s := Run(eng, Init(d0), FetchThenStop(request));
    assert Delivered(s.futures[0]);
    assert [0][..0] == [];
    assert Replay(eng, d0, [request], [0]) == DbAfter(eng, d0, request.sql);
    forall ids: seq<nat> ensures !Orders(eng, d0, s, ids) {
      if Orders(eng, d0, s, ids) {
        OnlyOrder(ids);
      }
    }
  }

  /**
    Linearizability, exactly: for an engine and a set of permitted requests, every run from every
    initial database has a serial execution in submission order that gives every delivered answer and
    the current database if and only if no permitted fetch changes any database.
  */
  lemma LinearizableExactly<D(!new), Q(!new), R>(eng: Engine<D, Q, R>, permitted: Permitted<Q>)
    ensures AlwaysLinear(eng, permitted) <==> FetchesOnlyRead(eng, permitted)
  {
    if FetchesOnlyRead(eng, permitted) {
      forall d0: D, steps: seq<Step<Q>> | Obeys(steps, permitted)
        ensures Linear(eng, d0, Run(eng, Init(d0), steps))
      {
        RunObeys(eng, Init(d0), steps, permitted);
        var _ := Linearizable(eng, d0, steps);
      }
    } else {
      var request: Request<Q>, d: D :|
        permitted(request) && !request.mode.NoFetch? && DbAfter(eng, d, request.sql) != d;
      WritingFetchBreaks(eng, d, request);
      assert Obeys(FetchThenStop(request), permitted);
    }
  }
}
