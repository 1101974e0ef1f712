/**
  What every run of the database protocol keeps: conservation of requests, at-most-once execution,
  linearizability of the delivered values, and durability of acknowledged writes.
*/
module DatabaseSafety {
  import opened Wrappers
  import opened DatabaseProtocol

  // A caller's step adds at most one item, at the end of the queue.
  lemma CallerFifo<D, Q, R>(eng: Engine<D, Q, R>, s: State<D, Q, R>, step: Step<Q>)
    requires Fifo(s) && Enabled(s, step) && (step.Submit? || step.Shutdown?)
    ensures Fifo(Next(eng, s, step))
  {
    var t := Next(eng, s, step);
    var item := if step.Submit? then Call(|s.requests|) else Pill(|s.requests|);
    assert t.queue == s.queue + [item];
    forall id: nat | t.taken <= id < |t.requests| ensures Call(id) in t.queue {
      if id == |s.requests| {
        assert t.queue[|s.queue|] == Call(id);
      } else {
        assert Call(id) in s.queue;
      }
    }
  }

  lemma NextFifo<D, Q, R>(eng: Engine<D, Q, R>, s: State<D, Q, R>, step: Step<Q>)
    requires Fifo(s)
    ensures Fifo(Next(eng, s, step))
  {
    if Enabled(s, step) {
      match step {
        case Submit(_) => CallerFifo(eng, s, step);
        case Shutdown => CallerFifo(eng, s, step);
        case Dequeue => DequeueFifo(eng, s);
        case _ =>
      }
    }
  }

  // The first item of the queue is the next request or a pill put before it.
  lemma DequeueHead<D, Q, R>(s: State<D, Q, R>)
    requires Fifo(s) && s.queue != []
    ensures s.queue[0].Call? ==> s.queue[0].id == s.taken
    ensures s.queue[0].Pill? ==> s.queue[0].stamp == s.taken
  {
    var head := s.queue[0];
    if s.taken < |s.requests| {
      var j :| 0 <= j < |s.queue| && s.queue[j] == Call(s.taken);
      assert j > 0 ==> Hi(head) <= Lo(s.queue[j]);
    }
  }

  lemma DequeueFifo<D, Q, R>(eng: Engine<D, Q, R>, s: State<D, Q, R>)
    requires Fifo(s) && Enabled(s, Dequeue)
    ensures Fifo(Next(eng, s, Dequeue))
  {
    DequeueHead(s);
    var head, t := s.queue[0], Next(eng, s, Dequeue);
    assert t.queue == s.queue[1..] && t.taken == Hi(head) && t.requests == s.requests && t.futures == s.futures;
    assert forall i | 0 <= i < |t.queue| :: t.queue[i] == s.queue[i + 1] && Hi(head) <= Lo(s.queue[i + 1]);
    forall id: nat | t.taken <= id < |t.requests| ensures Call(id) in t.queue {
      var j :| 0 <= j < |s.queue| && s.queue[j] == Call(id);
      assert j != 0;
      assert t.queue[j - 1] == Call(id);
    }
  }

  lemma ExecuteSerial<D, Q, R>(eng: Engine<D, Q, R>, s: State<D, Q, R>)
    requires Serial(s) && Enabled(s, Execute)
    ensures Serial(Next(eng, s, Execute))
  {
    var t := Next(eng, s, Execute);
    assert t.executed == s.executed + [s.phase.id] && t.taken == s.taken;
  }

  lemma NextSerial<D, Q, R>(eng: Engine<D, Q, R>, s: State<D, Q, R>, step: Step<Q>)
    requires Fifo(s) && Serial(s)
    ensures Serial(Next(eng, s, step))
  {
    if Enabled(s, step) {
      match step {
        case Dequeue => DequeueHead(s);
        case Execute => ExecuteSerial(eng, s);
        case _ => assert Next(eng, s, step).executed == s.executed;
      }
    }
  }

  lemma DequeueAccounted<D, Q, R>(eng: Engine<D, Q, R>, s: State<D, Q, R>)
    requires Base(s) && Enabled(s, Dequeue)
    ensures Accounted(Next(eng, s, Dequeue))
  {
    DequeueHead(s);
  }

  lemma ExecuteAccounted<D, Q, R>(eng: Engine<D, Q, R>, s: State<D, Q, R>)
    requires Base(s) && Enabled(s, Execute)
    ensures Accounted(Next(eng, s, Execute))
  {
    var t := Next(eng, s, Execute);
    assert t.executed == s.executed + [s.phase.id] && t.futures == s.futures;
    forall id: nat ensures id in t.executed <==> id in s.executed || id == s.phase.id {}
  }

  lemma ResolveAccounted<D, Q, R>(eng: Engine<D, Q, R>, s: State<D, Q, R>)
    requires Base(s) && Enabled(s, Resolve)
    ensures Accounted(Next(eng, s, Resolve))
  {
    var t := Next(eng, s, Resolve);
    assert s.phase.id in s.executed;
    assert t.executed == s.executed;
  }

  lemma DrainAccounted<D, Q, R>(eng: Engine<D, Q, R>, s: State<D, Q, R>)
    requires Base(s) && Enabled(s, Drain)
    ensures Accounted(Next(eng, s, Drain))
  {
    var t := Next(eng, s, Drain);
    forall id: nat | id < |s.futures|
      ensures t.futures[id] == if s.taken <= id && s.futures[id].Pending? then Failed(Restarted) else s.futures[id]
    {
      if Call(id) in s.queue {
        var j :| 0 <= j < |s.queue| && s.queue[j] == Call(id);
      }
    }
  }

  // The steps that neither serve a request nor drain the queue.
  lemma QuietAccounted<D, Q, R>(eng: Engine<D, Q, R>, s: State<D, Q, R>, step: Step<Q>)
    requires Base(s) && Enabled(s, step)
    requires !step.Dequeue? && !step.Execute? && !step.Resolve? && !step.Drain?
    ensures |Next(eng, s, step).futures| == |Next(eng, s, step).requests|
    ensures Accounted(Next(eng, s, step))
  {
    var t := Next(eng, s, step);
    assert t.executed == s.executed && t.taken == s.taken;
    assert forall id: nat :: InFlight(t, id) <==> InFlight(s, id);
  }

  lemma NextAccounted<D, Q, R>(eng: Engine<D, Q, R>, s: State<D, Q, R>, step: Step<Q>)
    requires Base(s)
    ensures |Next(eng, s, step).futures| == |Next(eng, s, step).requests|
    ensures Accounted(Next(eng, s, step))
  {
    if Enabled(s, step) {
      match step {
        case Dequeue => DequeueAccounted(eng, s);
        case Execute => ExecuteAccounted(eng, s);
        case Resolve => ResolveAccounted(eng, s);
        case Drain => DrainAccounted(eng, s);
        case _ => QuietAccounted(eng, s, step);
      }
    }
  }

  lemma NextBase<D, Q, R>(eng: Engine<D, Q, R>, s: State<D, Q, R>, step: Step<Q>)
    requires Base(s)
    ensures Base(Next(eng, s, step))
  {
    NextFifo(eng, s, step);
    NextSerial(eng, s, step);
    NextAccounted(eng, s, step);
  }

  // A protocol step keeps the requests and every delivered result.
  lemma NextStable<D, Q, R>(eng: Engine<D, Q, R>, db: State<D, Q, R>, step: Step<Q>)
    requires |db.futures| == |db.requests|
    ensures var db' := Next(eng, db, step);
            && db'.requests == db.requests + (if step.Submit? then [step.request] else [])
            && |db'.futures| == |db'.requests|
            && forall id: nat | id < |db.futures| && db.futures[id].Result? :: db'.futures[id] == db.futures[id]
  {
  }

  lemma NextSaved<D, Q, R>(eng: Engine<D, Q, R>, s: State<D, Q, R>, step: Step<Q>)
    requires s.saved <= |s.kept|
    ensures Next(eng, s, step).saved <= |Next(eng, s, step).kept|
  {
  }

  lemma {:induction false} RunBase<D, Q, R>(eng: Engine<D, Q, R>, s: State<D, Q, R>, steps: seq<Step<Q>>)
    requires Base(s) && s.saved <= |s.kept|
    ensures Base(Run(eng, s, steps)) && Run(eng, s, steps).saved <= |Run(eng, s, steps).kept|
    decreases |steps|
  {
    if steps != [] {
      NextBase(eng, s, steps[0]);
      NextSaved(eng, s, steps[0]);
      RunBase(eng, Next(eng, s, steps[0]), steps[1..]);
    }
  }

  // ---------- Serial explanations ----------

  // Later requests are executed later.
  lemma PositionOrder(ids: seq<nat>, a: nat, b: nat)
    requires Increasing(ids) && a < |ids| && b < |ids| && ids[a] < ids[b]
    ensures a < b
  {
  }

  lemma AgreesGrow<D, Q, R>(eng: Engine<D, Q, R>, d0: D, requests: seq<Request<Q>>, more: seq<Request<Q>>,
                            futures: seq<Future<R>>, futures': seq<Future<R>>, ids: seq<nat>)
    requires Agrees(eng, d0, requests, futures, ids)
    requires |futures'| == |requests + more|
    requires forall id: nat | id < |futures| && Delivered(futures'[id]) :: futures'[id] == futures[id]
    ensures Agrees(eng, d0, requests + more, futures', ids)
    ensures Replay(eng, d0, requests + more, ids) == Replay(eng, d0, requests, ids)
  {
    ReplayGrow(eng, d0, requests, more, ids);
    forall k | 0 <= k < |ids| && Delivered(futures'[ids[k]])
      ensures futures'[ids[k]] == Answer(eng, d0, requests + more, ids, k)
    {
      ReplayGrow(eng, d0, requests, more, ids[..k]);
    }
  }

  lemma AgreesPrefix<D, Q, R>(eng: Engine<D, Q, R>, d0: D, requests: seq<Request<Q>>,
                              futures: seq<Future<R>>, ids: seq<nat>, n: nat)
    requires Agrees(eng, d0, requests, futures, ids) && n <= |ids|
    ensures Agrees(eng, d0, requests, futures, ids[..n])
  {
    forall k | 0 <= k < n ensures ids[..n][..k] == ids[..k] {}
  }

  // One more request extends a serial execution.
  lemma AgreesExtend<D, Q, R>(eng: Engine<D, Q, R>, d0: D, requests: seq<Request<Q>>,
                              futures: seq<Future<R>>, ids: seq<nat>, id: nat)
    requires Agrees(eng, d0, requests, futures, ids)
    requires id < |futures| && !Delivered(futures[id])
    ensures Agrees(eng, d0, requests, futures, ids + [id])
    ensures var d := Replay(eng, d0, requests, ids);
            && Replay(eng, d0, requests, ids + [id]) == DbAfter(eng, d, requests[id].sql)
            && Answer(eng, d0, requests, ids + [id], |ids|) == AnswerOn(eng, d, requests[id])
  {
    var more := ids + [id];
    assert more[..|ids|] == ids;
    forall k | 0 <= k < |more| && Delivered(futures[more[k]])
      ensures futures[more[k]] == Answer(eng, d0, requests, more, k)
    {
      assert k < |ids| && more[..k] == ids[..k];
    }
  }

  lemma ExecuteExplains<D, Q, R>(eng: Engine<D, Q, R>, d0: D, s: State<D, Q, R>, ids: seq<nat>)
    requires Base(s) && Enabled(s, Execute) && Explains(eng, d0, s, ids)
    ensures Explains(eng, d0, Next(eng, s, Execute), ids + [s.phase.id])
  {
    AgreesExtend(eng, d0, s.requests, s.futures, ids, s.phase.id);
  }

  // Resolving a future delivers the answer of the last request of the serial execution.
  lemma ResolveExplains<D, Q, R>(eng: Engine<D, Q, R>, d0: D, s: State<D, Q, R>, ids: seq<nat>)
    requires Enabled(s, Resolve) && s.futures[s.phase.id].Pending?
    requires Explains(eng, d0, s, ids) && Increasing(ids)
    ensures Explains(eng, d0, Next(eng, s, Resolve), ids)
  {
  }

  lemma DrainedKeeps<R>(futures: seq<Future<R>>, queue: seq<Item>)
    ensures forall id: nat | id < |futures| && Delivered(Drained(futures, queue)[id]) ::
              Drained(futures, queue)[id] == futures[id]
  {
  }

  // Every step that neither executes, nor resolves, nor closes the connection.
  lemma QuietExplains<D, Q, R>(eng: Engine<D, Q, R>, d0: D, s: State<D, Q, R>, step: Step<Q>, ids: seq<nat>)
    requires Base(s) && Explains(eng, d0, s, ids)
    requires !step.Execute? && !step.Resolve?
    requires var t := Next(eng, s, step); t.db == s.db
    ensures Explains(eng, d0, Next(eng, s, step), ids)
  {
    var t := Next(eng, s, step);
    var more := if step.Submit? then [step.request] else [];
    assert t.requests == s.requests + more;
    DrainedKeeps(s.futures, s.queue);
    AgreesGrow(eng, d0, s.requests, more, s.futures, t.futures, ids);
    if t.phase.Executed? {
      assert s.phase == t.phase;
      ReplayGrow(eng, d0, s.requests, more, ids[..|ids| - 1]);
    }
  }

  // ---------- Durability ----------

  lemma ExecuteShape<D, Q, R>(eng: Engine<D, Q, R>, s: State<D, Q, R>)
    requires Enabled(s, Execute)
    ensures var t, id := Next(eng, s, Execute), s.phase.id;
            && t.requests == s.requests && t.futures == s.futures
            && t.kept == s.kept + [id] && t.executed == s.executed + [id]
            && t.phase.Executed? && t.phase.id == id
            && ((t.saved == |t.kept| && t.durable == t.db) || (t.saved == s.saved && t.durable == s.durable))
            && (t.phase.answer.Result? && s.requests[id].mode.NoFetch? ==> t.saved == |t.kept|)
  {
  }

  lemma ExecuteKept<D, Q, R>(s: State<D, Q, R>)
    requires Serial(s) && s.phase.Executing?
    requires Increasing(s.kept) && forall k | 0 <= k < |s.kept| :: s.kept[k] in s.executed
    ensures Increasing(s.kept + [s.phase.id])
    ensures forall id: nat | id in s.kept + [s.phase.id] :: id in s.executed + [s.phase.id]
  {
    assert forall k | 0 <= k < |s.kept| :: s.kept[k] < s.phase.id;
  }

  lemma ExecuteDurable<D, Q, R>(eng: Engine<D, Q, R>, d0: D, s: State<D, Q, R>)
    requires Base(s) && Durable(eng, d0, s) && Enabled(s, Execute)
    ensures Durable(eng, d0, Next(eng, s, Execute))
  {
    var t := Next(eng, s, Execute);
    ExecuteShape(eng, s);
    ExecuteKept(s);
    ExecuteExplains(eng, d0, s, s.kept);
    assert t.durable == Replay(eng, d0, t.requests, t.kept[..t.saved]) by {
      assert t.kept[..|t.kept|] == t.kept;
      assert t.kept[..s.saved] == s.kept[..s.saved];
    }
    MembersGrow(s.kept, s.saved, t.kept, t.saved);
  }

  lemma MembersGrow(ids: seq<nat>, n: nat, ids': seq<nat>, n': nat)
    requires n <= |ids| && n <= n' <= |ids'| && ids <= ids'
    ensures forall id: nat | id in ids[..n] :: id in ids'[..n']
  {
    forall id: nat | id in ids[..n] ensures id in ids'[..n'] {
      var k :| 0 <= k < n && ids[..n][k] == id;
      assert ids'[..n'][k] == id;
    }
  }

  lemma ResolveDurable<D, Q, R>(eng: Engine<D, Q, R>, d0: D, s: State<D, Q, R>)
    requires Base(s) && Durable(eng, d0, s) && Enabled(s, Resolve) && s.futures[s.phase.id].Pending?
    ensures Durable(eng, d0, Next(eng, s, Resolve))
  {
    ResolveExplains(eng, d0, s, s.kept);
    assert s.kept[..|s.kept|] == s.kept;
  }

  // Closing the connection leaves exactly the committed executions.
  lemma CloseDurable<D, Q, R>(eng: Engine<D, Q, R>, d0: D, s: State<D, Q, R>, step: Step<Q>)
    requires Base(s) && Durable(eng, d0, s)
    requires var t := Next(eng, s, step);
             && t.kept == s.kept[..s.saved] && t.saved == s.saved && t.db == t.durable == s.durable
             && t.futures == s.futures && t.requests == s.requests && t.executed == s.executed
             && !t.phase.Executed?
    ensures Durable(eng, d0, Next(eng, s, step))
  {
    AgreesPrefix(eng, d0, s.requests, s.futures, s.kept, s.saved);
    assert s.kept[..s.saved][..s.saved] == s.kept[..s.saved];
  }

  lemma QuietDurable<D, Q, R>(eng: Engine<D, Q, R>, d0: D, s: State<D, Q, R>, step: Step<Q>)
    requires Base(s) && Durable(eng, d0, s)
    requires step.Submit? || step.Cancel? || step.Shutdown? || step.Drain? || step.Reconnect?
             || (step.Connect? && step.ok) || (step.Dequeue? && s.queue != [] && s.queue[0].Call?)
    ensures Durable(eng, d0, Next(eng, s, step))
  {
    var more := if step.Submit? then [step.request] else [];
    QuietShape(eng, s, step);
    QuietExplains(eng, d0, s, step, s.kept);
    ReplayGrow(eng, d0, s.requests, more, s.kept[..s.saved]);
  }

  lemma QuietShape<D, Q, R>(eng: Engine<D, Q, R>, s: State<D, Q, R>, step: Step<Q>)
    requires |s.futures| == |s.requests|
    requires step.Submit? || step.Cancel? || step.Shutdown? || step.Drain? || step.Reconnect?
             || (step.Connect? && step.ok) || (step.Dequeue? && s.queue != [] && s.queue[0].Call?)
    ensures var t := Next(eng, s, step);
            && t.db == s.db && t.durable == s.durable
            && t.executed == s.executed && t.kept == s.kept && t.saved == s.saved
            && t.requests == s.requests + (if step.Submit? then [step.request] else [])
            && |t.futures| == |t.requests|
            && (t.phase.Executed? ==> t.phase == s.phase)
            && (forall id: nat | id < |t.futures| && t.futures[id].Result? ::
                  id < |s.futures| && t.futures[id] == s.futures[id])
  {
    DrainedKeeps(s.futures, s.queue);
  }

  lemma NextDurable<D, Q, R>(eng: Engine<D, Q, R>, d0: D, s: State<D, Q, R>, step: Step<Q>)
    requires Base(s) && Durable(eng, d0, s)
    ensures Durable(eng, d0, Next(eng, s, step))
  {
    if Enabled(s, step) {
      match step {
        case Execute => ExecuteDurable(eng, d0, s);
        case Resolve =>
          if s.futures[s.phase.id].Pending? { ResolveDurable(eng, d0, s); } else { CloseDurable(eng, d0, s, step); }
        case Connect(ok) =>
          if ok { QuietDurable(eng, d0, s, step); } else { CloseDurable(eng, d0, s, step); }
        case Dequeue =>
          if s.queue[0].Call? { QuietDurable(eng, d0, s, step); } else { CloseDurable(eng, d0, s, step); }
        case _ => QuietDurable(eng, d0, s, step);
      }
    }
  }

  // ---------- Linearizability ----------

  lemma ReadOnlyBefore<D(!new), Q, R>(eng: Engine<D, Q, R>, s: State<D, Q, R>, step: Step<Q>)
    requires ReadOnlyFetches(eng, Next(eng, s, step).requests)
    ensures ReadOnlyFetches(eng, s.requests)
  {
    var t := Next(eng, s, step);
    forall i, d: D | 0 <= i < |s.requests| && !s.requests[i].mode.NoFetch?
      ensures DbAfter(eng, d, s.requests[i].sql) == d
    {
      assert t.requests[i] == s.requests[i];
    }
  }

  lemma ExecuteReadOnly<D(!new), Q, R>(eng: Engine<D, Q, R>, s: State<D, Q, R>)
    requires Enabled(s, Execute) && ReadOnlyFetches(eng, s.requests) && s.db == s.durable
    ensures Next(eng, s, Execute).db == Next(eng, s, Execute).durable
  {
    assert !s.requests[s.phase.id].mode.NoFetch? ==> DbAfter(eng, s.db, s.requests[s.phase.id].sql) == s.db;
  }

  // When fetches only read, rolling back loses nothing, so all executions explain the database.
  lemma NextLinear<D(!new), Q, R>(eng: Engine<D, Q, R>, d0: D, s: State<D, Q, R>, step: Step<Q>)
    requires Base(s) && ReadOnlyFetches(eng, s.requests)
    requires s.db == s.durable && Explains(eng, d0, s, s.executed)
    ensures var t := Next(eng, s, step); t.db == t.durable && Explains(eng, d0, t, t.executed)
  {
    if Enabled(s, step) {
      if step.Execute? {
        ExecuteReadOnly(eng, s);
        ExecuteShape(eng, s);
        ExecuteExplains(eng, d0, s, s.executed);
      } else if step.Resolve? && s.futures[s.phase.id].Pending? {
        ResolveExplains(eng, d0, s, s.executed);
      } else if !step.Resolve? {
        QuietExplains(eng, d0, s, step, s.executed);
      }
    }
  }

  lemma NextInv<D(!new), Q, R>(eng: Engine<D, Q, R>, d0: D, s: State<D, Q, R>, step: Step<Q>)
    requires Inv(eng, d0, s)
    ensures Inv(eng, d0, Next(eng, s, step))
  {
    NextBase(eng, s, step);
    NextDurable(eng, d0, s, step);
    if ReadOnlyFetches(eng, Next(eng, s, step).requests) {
      ReadOnlyBefore(eng, s, step);
      NextLinear(eng, d0, s, step);
    }
  }

  lemma {:induction false} RunInv<D(!new), Q, R>(eng: Engine<D, Q, R>, d0: D, s: State<D, Q, R>, steps: seq<Step<Q>>)
    requires Inv(eng, d0, s)
    ensures Inv(eng, d0, Run(eng, s, steps))
    decreases |steps|
  {
    if steps != [] {
      NextInv(eng, d0, s, steps[0]);
      RunInv(eng, d0, Next(eng, s, steps[0]), steps[1..]);
    }
  }

  // ---------- The main results, over every run from the start ----------

  /**
    Conservation: a request without a result is queued exactly once or in flight, never both; one
    that has a result or was failed is neither; every future that was failed with "DB writer
    restarted" belongs to a request that was never executed.
  */
  lemma Conservation<D(!new), Q, R>(eng: Engine<D, Q, R>, d0: D, steps: seq<Step<Q>>, id: nat)
    requires id < |Run(eng, Init(d0), steps).requests|
    ensures var s := Run(eng, Init(d0), steps);
            && id < |s.futures|
            && (s.futures[id].Pending? ==> (Call(id) in s.queue <==> !InFlight(s, id)))
            && (s.futures[id].Result? || s.futures[id].Failed? ==> Call(id) !in s.queue && !InFlight(s, id))
            && (forall i, j | 0 <= i < j < |s.queue| :: s.queue[i] == Call(id) ==> s.queue[j] != Call(id))
            && (Delivered(s.futures[id]) ==> id in s.executed)
            && (s.futures[id] == Failed(Restarted) ==> id !in s.executed)
  {
    RunInv(eng, d0, Init(d0), steps);
  }

  /** At most once: over any number of crashes and restarts no statement is executed twice. */
  lemma AtMostOnce<D(!new), Q, R>(eng: Engine<D, Q, R>, d0: D, steps: seq<Step<Q>>)
    ensures var s := Run(eng, Init(d0), steps);
            forall i, j | 0 <= i < j < |s.executed| :: s.executed[i] != s.executed[j]
  {
    RunInv(eng, d0, Init(d0), steps);
  }

  /**
    Linearizability: when fetches only read, or no request with an answer was rolled back, there is
    one serial execution of executed requests, in submission order, that gives every delivered answer
    and the current database.
  */
  lemma Linearizable<D(!new), Q, R>(eng: Engine<D, Q, R>, d0: D, steps: seq<Step<Q>>) returns (ids: seq<nat>)
    requires var s := Run(eng, Init(d0), steps);
             || ReadOnlyFetches(eng, s.requests)
             || forall id: nat | id < |s.futures| && Delivered(s.futures[id]) :: id in s.kept
    ensures var s := Run(eng, Init(d0), steps);
            && Orders(eng, d0, s, ids) && Linear(eng, d0, s)
            && forall k | 0 <= k < |ids| :: ids[k] in s.executed
  {
    RunInv(eng, d0, Init(d0), steps);
    var s := Run(eng, Init(d0), steps);
    ids := if ReadOnlyFetches(eng, s.requests) then s.executed else s.kept;
    assert Orders(eng, d0, s, ids);
  }

  /**
    Acknowledged writes are durable, with no condition on the fetches: every write whose caller
    received a row id is among the committed executions, whose serial execution yields the durable
    database and every answer delivered for them.
  */
  lemma AcknowledgedWritesAreDurable<D(!new), Q, R>(eng: Engine<D, Q, R>, d0: D, steps: seq<Step<Q>>)
    ensures var s := Run(eng, Init(d0), steps);
            && s.saved <= |s.kept|
            && var committed := s.kept[..s.saved];
            && Increasing(committed)
            && Agrees(eng, d0, s.requests, s.futures, committed)
            && s.durable == Replay(eng, d0, s.requests, committed)
            && forall id: nat | id < |s.requests| && s.futures[id].Result? && s.requests[id].mode.NoFetch? ::
                 id in committed
  {
    RunInv(eng, d0, Init(d0), steps);
    var s := Run(eng, Init(d0), steps);
    AgreesPrefix(eng, d0, s.requests, s.futures, s.kept, s.saved);
  }
}
