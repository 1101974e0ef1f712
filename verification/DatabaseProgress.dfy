/**
  Shutdown and response bounds of the database protocol, and the two promises that fail: a shutdown
  request can be lost in a crash, and a fetch that writes can be rolled back after its answer was
  delivered.
*/
module DatabaseProgress {
  import opened Wrappers
  import opened DatabaseProtocol
  import opened DatabaseSafety

  /** When the writer stops on a pill, every request submitted before that pill is done. */
  lemma ShutdownAnswersEverythingBefore<D, Q, R>(eng: Engine<D, Q, R>, d0: D, steps: seq<Step<Q>>)
    requires Run(eng, Init(d0), steps).phase.Stopped?
    ensures var s := Run(eng, Init(d0), steps);
            && s.phase.stamp <= |s.futures|
            && forall id: nat | id < s.phase.stamp :: !s.futures[id].Pending?
  {
    RunBase(eng, Init(d0), steps);
  }

  // ---------- Response bound ----------

  predicate ServerStep<Q>(step: Step<Q>) {
    !step.Submit? && !step.Cancel? && !step.Shutdown?
  }

  predicate Works<D, Q, R>(s: State<D, Q, R>, step: Step<Q>) {
    ServerStep(step) && Enabled(s, step)
  }

  // How many steps of the writer and its supervisor a run contains.
  function ServerWork<D, Q, R>(eng: Engine<D, Q, R>, s: State<D, Q, R>, steps: seq<Step<Q>>): nat
    decreases |steps|
  {
    if steps == [] then 0
    else (if Works(s, steps[0]) then 1 else 0) + ServerWork(eng, Next(eng, s, steps[0]), steps[1..])
  }

  // Server steps that remain for the request at position p of the queue.
  function Distance<R>(phase: Phase<R>, p: nat): nat {
    match phase
    case Idle => 3 * (p + 1)
    case Connecting => 3 * (p + 1) + 1
    case Executed(_, _) => 3 * (p + 1) + 1
    case Executing(_) => 3 * (p + 1) + 2
    case Backoff => 3 * (p + 1) + 2
    case Crashed => 1
    case Stopped(_) => 0
  }

  ghost predicate Waits<D, Q, R>(s: State<D, Q, R>, id: nat, p: nat, n: nat) {
    && p < |s.queue| && s.queue[p] == Call(id)
    && (forall i | 0 <= i < p :: s.queue[i].Call?)
    && !s.phase.Stopped?
    && Distance(s.phase, p) <= n
  }

  // The request is answered within n server steps.
  ghost predicate Within<D, Q, R>(s: State<D, Q, R>, id: nat, n: nat) {
    && id < |s.futures|
    && (|| !s.futures[id].Pending?
        || (s.phase.Executing? && s.phase.id == id && 2 <= n)
        || (s.phase.Executed? && s.phase.id == id && 1 <= n)
        || exists p: nat :: Waits(s, id, p, n))
  }

  // A caller's step or a step that does nothing leaves the place in the queue.
  lemma WaitsCaller<D, Q, R>(eng: Engine<D, Q, R>, s: State<D, Q, R>, step: Step<Q>, id: nat, p: nat, n: nat)
    requires Waits(s, id, p, n) && !Works(s, step)
    ensures Waits(Next(eng, s, step), id, p, n)
  {
    var t := Next(eng, s, step);
    assert s.queue <= t.queue && t.phase == s.phase;
  }

  lemma WaitsDequeue<D, Q, R>(eng: Engine<D, Q, R>, s: State<D, Q, R>, id: nat, p: nat, n: nat)
    requires Waits(s, id, p, n) && Enabled(s, Dequeue)
    ensures n > 0
    ensures var t := Next(eng, s, Dequeue);
            if p > 0 then Waits(t, id, p - 1, n - 1) else t.phase == Executing(id) && n >= 3
  {
    var t := Next(eng, s, Dequeue);
    assert forall i | 0 <= i < |t.queue| :: t.queue[i] == s.queue[i + 1];
    assert Distance(s.phase, p) == 3 * (p + 1);
  }

  lemma WaitsServer<D, Q, R>(eng: Engine<D, Q, R>, s: State<D, Q, R>, step: Step<Q>, id: nat, p: nat, n: nat)
    requires Waits(s, id, p, n) && Works(s, step) && !step.Dequeue? && !step.Drain?
    ensures n > 0 && Waits(Next(eng, s, step), id, p, n - 1)
  {
    assert Next(eng, s, step).queue == s.queue;
  }

  lemma WaitsDrain<D, Q, R>(eng: Engine<D, Q, R>, s: State<D, Q, R>, id: nat, p: nat, n: nat)
    requires id < |s.futures| && s.futures[id].Pending? && Waits(s, id, p, n) && Enabled(s, Drain)
    ensures n > 0
    ensures id < |Next(eng, s, Drain).futures| && !Next(eng, s, Drain).futures[id].Pending?
  {
    assert Call(id) in s.queue;
  }

  lemma WaitsNext<D, Q, R>(eng: Engine<D, Q, R>, s: State<D, Q, R>, step: Step<Q>, id: nat, p: nat, n: nat)
    requires Base(s) && s.saved <= |s.kept| && id < |s.futures| && s.futures[id].Pending? && Waits(s, id, p, n)
    ensures n > 0
    ensures Within(Next(eng, s, step), id, if Works(s, step) then n - 1 else n)
  {
    FuturesStay(eng, s, step);
    if !Works(s, step) {
      WaitsCaller(eng, s, step, id, p, n);
    } else if step.Dequeue? {
      WaitsDequeue(eng, s, id, p, n);
    } else if step.Drain? {
      WaitsDrain(eng, s, id, p, n);
    } else {
      WaitsServer(eng, s, step, id, p, n);
    }
  }

  lemma FuturesStay<D, Q, R>(eng: Engine<D, Q, R>, s: State<D, Q, R>, step: Step<Q>)
    requires |s.futures| == |s.requests|
    ensures |Next(eng, s, step).futures| >= |s.futures|
  {
  }

  lemma WithinNext<D, Q, R>(eng: Engine<D, Q, R>, s: State<D, Q, R>, step: Step<Q>, id: nat, n: nat)
    requires Base(s) && s.saved <= |s.kept| && Within(s, id, n)
    ensures Works(s, step) && n == 0 ==> !s.futures[id].Pending?
    ensures Within(Next(eng, s, step), id, if Works(s, step) && n > 0 then n - 1 else n)
  {
    if s.futures[id].Pending? && !InFlight(s, id) {
      var p: nat :| Waits(s, id, p, n);
      WaitsNext(eng, s, step, id, p, n);
    }
  }

  lemma {:induction false} WithinRun<D, Q, R>(eng: Engine<D, Q, R>, s: State<D, Q, R>, steps: seq<Step<Q>>,
                                              id: nat, n: nat)
    requires Base(s) && s.saved <= |s.kept| && Within(s, id, n)
    requires ServerWork(eng, s, steps) >= n
    ensures var t := Run(eng, s, steps); id < |t.futures| && !t.futures[id].Pending?
    decreases |steps|
  {
    if steps != [] {
      WithinNext(eng, s, steps[0], id, n);
      NextBase(eng, s, steps[0]);
      NextSaved(eng, s, steps[0]);
      WithinRun(eng, Next(eng, s, steps[0]), steps[1..], id, if Works(s, steps[0]) && n > 0 then n - 1 else n);
    } else {
      WithinNext(eng, s, Shutdown, id, n);
      NothingLeft(s, id);
    }
  }

  // Within zero steps means now.
  lemma NothingLeft<D, Q, R>(s: State<D, Q, R>, id: nat)
    requires Within(s, id, 0)
    ensures !s.futures[id].Pending?
  {
  }

  /**
    Bounded response: a request at queue position p with no pill ahead of it, in front of a writer
    that has not stopped, has its answer after at most 3p + 5 steps of the writer and supervisor,
    whatever callers submit or cancel and however often the writer crashes meanwhile.
  */
  lemma BoundedResponse<D, Q, R>(eng: Engine<D, Q, R>, d0: D, before: seq<Step<Q>>, after: seq<Step<Q>>,
                                 id: nat, p: nat)
    requires var s := Run(eng, Init(d0), before);
             && p < |s.queue| && s.queue[p] == Call(id)
             && (forall i | 0 <= i < p :: s.queue[i].Call?)
             && !s.phase.Stopped?
             && ServerWork(eng, s, after) >= 3 * p + 5
    ensures var t := Run(eng, Run(eng, Init(d0), before), after);
            id < |t.futures| && !t.futures[id].Pending?
  {
    var s := Run(eng, Init(d0), before);
    RunBase(eng, Init(d0), before);
    StartsWithin(s, id, p);
    WithinRun(eng, s, after, id, 3 * p + 5);
  }

  lemma StartsWithin<D, Q, R>(s: State<D, Q, R>, id: nat, p: nat)
    requires Base(s) && p < |s.queue| && s.queue[p] == Call(id) && !s.phase.Stopped?
    requires forall i | 0 <= i < p :: s.queue[i].Call?
    ensures Within(s, id, 3 * p + 5)
  {
    assert Hi(s.queue[p]) <= |s.requests|;
    assert Waits(s, id, p, 3 * p + 5);
  }

  /** The writer and supervisor can always take one of those steps while there is work. */
  lemma NeverStuck<D, Q, R>(eng: Engine<D, Q, R>, d0: D, steps: seq<Step<Q>>)
    requires var s := Run(eng, Init(d0), steps);
             !s.phase.Stopped? && (s.phase.Idle? ==> s.queue != [])
    ensures exists step: Step<Q> :: Works(Run(eng, Init(d0), steps), step)
  {
    RunBase(eng, Init(d0), steps);
    HasStep(Run(eng, Init(d0), steps));
  }

  lemma HasStep<D, Q, R>(s: State<D, Q, R>)
    requires Base(s) && s.saved <= |s.kept| && !s.phase.Stopped? && (s.phase.Idle? ==> s.queue != [])
    ensures exists step: Step<Q> :: Works(s, step)
  {
    var step: Step<Q> := match s.phase
      case Connecting => Connect(true)
      case Idle => Dequeue
      case Executing(_) => Execute
      case Executed(_, _) => Resolve
      case Crashed => Drain
      case _ => Reconnect;
    assert Works(s, step);
  }

  // The request stays at its place counted from the first item ever queued.
  ghost predicate AtPlace<D, Q, R>(s: State<D, Q, R>, id: nat, place: nat) {
    if s.removed <= place then place - s.removed < |s.queue| && s.queue[place - s.removed] == Call(id)
    else id < s.taken
  }

  lemma {:induction false} PlaceRun<D, Q, R>(eng: Engine<D, Q, R>, s: State<D, Q, R>, steps: seq<Step<Q>>,
                                             id: nat, place: nat)
    requires Base(s) && AtPlace(s, id, place)
    ensures Base(Run(eng, s, steps)) && AtPlace(Run(eng, s, steps), id, place)
    decreases |steps|
  {
    if steps != [] {
      NextBase(eng, s, steps[0]);
      PlaceNext(eng, s, steps[0], id, place);
      PlaceRun(eng, Next(eng, s, steps[0]), steps[1..], id, place);
    }
  }

  lemma PlaceDequeue<D, Q, R>(eng: Engine<D, Q, R>, s: State<D, Q, R>, id: nat, place: nat)
    requires Base(s) && AtPlace(s, id, place) && Enabled(s, Dequeue)
    ensures AtPlace(Next(eng, s, Dequeue), id, place)
  {
    DequeueHead(s);
    var t := Next(eng, s, Dequeue);
    assert t.removed == s.removed + 1 && t.queue == s.queue[1..];
    if s.removed < place {
      assert t.queue[place - t.removed] == s.queue[place - s.removed];
    }
  }

  lemma PlaceNext<D, Q, R>(eng: Engine<D, Q, R>, s: State<D, Q, R>, step: Step<Q>, id: nat, place: nat)
    requires Base(s) && AtPlace(s, id, place)
    ensures AtPlace(Next(eng, s, step), id, place)
  {
    if Enabled(s, step) {
      if step.Dequeue? {
        PlaceDequeue(eng, s, id, place);
      } else if step.Drain? && s.removed <= place {
        assert Hi(s.queue[place - s.removed]) <= |s.requests|;
      }
    }
  }

  /**
    First come, first served: once p + 1 items have been removed, by the writer or by a drain, the
    request that stood at position p is done or is the one being executed.
  */
  lemma RemovalsSuffice<D, Q, R>(eng: Engine<D, Q, R>, d0: D, before: seq<Step<Q>>, after: seq<Step<Q>>,
                                 id: nat, p: nat)
    requires var s := Run(eng, Init(d0), before);
             && p < |s.queue| && s.queue[p] == Call(id)
             && Run(eng, s, after).removed >= s.removed + p + 1
    ensures var t := Run(eng, Run(eng, Init(d0), before), after);
            id < |t.futures| && (t.futures[id].Pending? ==> InFlight(t, id))
  {
    var s := Run(eng, Init(d0), before);
    RunBase(eng, Init(d0), before);
    PlaceRun(eng, s, after, id, s.removed + p);
  }

  // ---------- When a shutdown request stops the writer ----------

  // How often the supervisor drains the queue during a run.
  function Drains<D, Q, R>(eng: Engine<D, Q, R>, s: State<D, Q, R>, steps: seq<Step<Q>>): nat
    decreases |steps|
  {
    if steps == [] then 0
    else (if steps[0].Drain? && Enabled(s, Drain) then 1 else 0) + Drains(eng, Next(eng, s, steps[0]), steps[1..])
  }

  ghost predicate NoShutdown<Q>(steps: seq<Step<Q>>) {
    forall i | 0 <= i < |steps| :: !steps[i].Shutdown?
  }

  ghost predicate NoPill<D, Q, R>(s: State<D, Q, R>) {
    !s.phase.Stopped? && forall i | 0 <= i < |s.queue| :: s.queue[i].Call?
  }

  // The only pill still stands at its place, counted from the first item ever queued.
  ghost predicate OnePill<D, Q, R>(s: State<D, Q, R>, place: nat) {
    && !s.phase.Stopped?
    && s.removed <= place < s.removed + |s.queue|
    && forall i | 0 <= i < |s.queue| :: s.queue[i].Pill? <==> i == place - s.removed
  }

  lemma {:induction false} StoppedStays<D, Q, R>(eng: Engine<D, Q, R>, s: State<D, Q, R>, steps: seq<Step<Q>>)
    requires s.phase.Stopped?
    ensures Run(eng, s, steps).phase == s.phase && Drains(eng, s, steps) == 0
    decreases |steps|
  {
    if steps != [] {
      StoppedStays(eng, Next(eng, s, steps[0]), steps[1..]);
    }
  }

  lemma {:induction false} NoPillStays<D, Q, R>(eng: Engine<D, Q, R>, s: State<D, Q, R>, steps: seq<Step<Q>>)
    requires NoPill(s) && NoShutdown(steps)
    ensures NoPill(Run(eng, s, steps))
    decreases |steps|
  {
    if steps != [] {
      assert !steps[0].Shutdown?;
      NoPillStays(eng, Next(eng, s, steps[0]), steps[1..]);
    }
  }

  lemma OnePillNext<D, Q, R>(eng: Engine<D, Q, R>, s: State<D, Q, R>, step: Step<Q>, place: nat)
    requires OnePill(s, place) && !step.Shutdown?
    ensures var t := Next(eng, s, step);
            if step.Drain? && Enabled(s, Drain) then NoPill(t) else OnePill(t, place) || t.phase.Stopped?
  {
  }

  lemma {:induction false} OnePillRun<D, Q, R>(eng: Engine<D, Q, R>, s: State<D, Q, R>, steps: seq<Step<Q>>, place: nat)
    requires OnePill(s, place) && NoShutdown(steps)
    ensures var t := Run(eng, s, steps);
            if Drains(eng, s, steps) > 0 then NoPill(t) else OnePill(t, place) || t.phase.Stopped?
    decreases |steps|
  {
    if steps != [] {
      assert !steps[0].Shutdown?;
      OnePillNext(eng, s, steps[0], place);
      var t := Next(eng, s, steps[0]);
      if t.phase.Stopped? {
        StoppedStays(eng, t, steps[1..]);
      } else if steps[0].Drain? && Enabled(s, Drain) {
        NoPillStays(eng, t, steps[1..]);
      } else {
        OnePillRun(eng, t, steps[1..], place);
      }
    }
  }

  /**
    When a shutdown request works, exactly: once the only pill has been removed from the queue, and
    nobody asked again, the writer has stopped if and only if no drain happened meanwhile.
  */
  lemma PillStopsUnlessDrained<D, Q, R>(eng: Engine<D, Q, R>, s: State<D, Q, R>, steps: seq<Step<Q>>, p: nat)
    requires OnePill(s, s.removed + p) && NoShutdown(steps)
    requires Run(eng, s, steps).removed > s.removed + p
    ensures Run(eng, s, steps).phase.Stopped? <==> Drains(eng, s, steps) == 0
  {
    OnePillRun(eng, s, steps, s.removed + p);
  }

  // ---------- A request behind a pill ----------

  ghost predicate BehindPill<D, Q, R>(s: State<D, Q, R>, id: nat) {
    exists i, j :: 0 <= i < j < |s.queue| && s.queue[i].Pill? && s.queue[j] == Call(id)
  }

  ghost predicate NoCancel<Q>(steps: seq<Step<Q>>, id: nat) {
    forall i | 0 <= i < |steps| :: steps[i] != Step.Cancel(id)
  }

  // Nobody will serve the request: the writer has stopped, or will before it gets there.
  ghost predicate Stranded<D, Q, R>(s: State<D, Q, R>, id: nat) {
    && id < |s.futures| && s.futures[id].Pending?
    && (s.phase.Stopped? || BehindPill(s, id))
  }

  lemma StrandedDequeue<D, Q, R>(eng: Engine<D, Q, R>, s: State<D, Q, R>, id: nat)
    requires Enabled(s, Dequeue) && Stranded(s, id)
    ensures Stranded(Next(eng, s, Dequeue), id)
  {
    var t := Next(eng, s, Dequeue);
    var i, j :| 0 <= i < j < |s.queue| && s.queue[i].Pill? && s.queue[j] == Call(id);
    if i > 0 {
      assert t.queue[i - 1] == s.queue[i] && t.queue[j - 1] == s.queue[j];
    }
  }

  // A step that takes nothing from the queue answers at most the request in flight.
  lemma QueueGrows<D, Q, R>(eng: Engine<D, Q, R>, s: State<D, Q, R>, step: Step<Q>, id: nat)
    requires |s.futures| == |s.requests| && id < |s.futures| && !InFlight(s, id)
    requires step != Step.Cancel(id) && !step.Dequeue? && !step.Drain?
    ensures var t := Next(eng, s, step);
            && s.queue <= t.queue && id < |t.futures| && t.futures[id] == s.futures[id]
            && (s.phase.Stopped? ==> t.phase.Stopped?)
  {
  }

  lemma StrandedKeepsQueue<D, Q, R>(eng: Engine<D, Q, R>, s: State<D, Q, R>, step: Step<Q>, id: nat)
    requires Base(s) && Stranded(s, id) && step != Step.Cancel(id) && !step.Dequeue? && !step.Drain?
    ensures Stranded(Next(eng, s, step), id)
  {
    if s.phase.Stopped? {
      QueueGrows(eng, s, step, id);
    } else {
      var i, j :| 0 <= i < j < |s.queue| && s.queue[i].Pill? && s.queue[j] == Call(id);
      assert s.taken <= Lo(s.queue[j]);
      QueueGrows(eng, s, step, id);
      var t := Next(eng, s, step);
      assert t.queue[i] == s.queue[i] && t.queue[j] == s.queue[j];
    }
  }

  lemma StrandedNext<D, Q, R>(eng: Engine<D, Q, R>, s: State<D, Q, R>, step: Step<Q>, id: nat)
    requires Base(s) && Stranded(s, id) && step != Step.Cancel(id)
    ensures var t := Next(eng, s, step);
            if step.Drain? && Enabled(s, Drain) then id < |t.futures| && !t.futures[id].Pending? else Stranded(t, id)
  {
    if step.Dequeue? {
      if Enabled(s, step) { StrandedDequeue(eng, s, id); }
    } else if step.Drain? {
      if Enabled(s, step) { StrandedDrain(eng, s, id); }
    } else {
      StrandedKeepsQueue(eng, s, step, id);
    }
  }

  lemma StrandedDrain<D, Q, R>(eng: Engine<D, Q, R>, s: State<D, Q, R>, id: nat)
    requires Enabled(s, Drain) && Stranded(s, id)
    ensures id < |Next(eng, s, Drain).futures| && Next(eng, s, Drain).futures[id] == Failed(Restarted)
  {
    var i, j :| 0 <= i < j < |s.queue| && s.queue[i].Pill? && s.queue[j] == Call(id);
  }

  lemma {:induction false} DoneStays<D, Q, R>(eng: Engine<D, Q, R>, s: State<D, Q, R>, steps: seq<Step<Q>>, id: nat)
    requires |s.futures| == |s.requests| && id < |s.futures| && !s.futures[id].Pending?
    ensures var t := Run(eng, s, steps); id < |t.futures| && !t.futures[id].Pending?
    decreases |steps|
  {
    if steps != [] {
      DoneNext(eng, s, steps[0], id);
      DoneStays(eng, Next(eng, s, steps[0]), steps[1..], id);
    }
  }

  lemma DoneNext<D, Q, R>(eng: Engine<D, Q, R>, s: State<D, Q, R>, step: Step<Q>, id: nat)
    requires |s.futures| == |s.requests| && id < |s.futures| && !s.futures[id].Pending?
    ensures var t := Next(eng, s, step);
            |t.futures| == |t.requests| && id < |t.futures| && !t.futures[id].Pending?
  {
  }

  lemma {:induction false} StrandedRun<D, Q, R>(eng: Engine<D, Q, R>, s: State<D, Q, R>, steps: seq<Step<Q>>, id: nat)
    requires Base(s) && Stranded(s, id) && NoCancel(steps, id)
    ensures var t := Run(eng, s, steps);
            && id < |t.futures|
            && (t.futures[id].Pending? <==> Drains(eng, s, steps) == 0)
    decreases |steps|
  {
    if steps != [] {
      var t := Next(eng, s, steps[0]);
      assert steps[0] != Step.Cancel(id);
      NextBase(eng, s, steps[0]);
      StrandedNext(eng, s, steps[0], id);
      if steps[0].Drain? && Enabled(s, Drain) {
        DoneStays(eng, t, steps[1..], id);
      } else {
        assert NoCancel(steps[1..], id);
        StrandedRun(eng, t, steps[1..], id);
      }
    }
  }

  /**
    A request put behind a pill, or after the writer has stopped, is never served: unless its caller
    cancels it, it waits for ever if and only if no drain happens.
  */
  lemma BehindPillNeverServed<D, Q, R>(eng: Engine<D, Q, R>, d0: D, before: seq<Step<Q>>, after: seq<Step<Q>>,
                                       id: nat)
    requires var s := Run(eng, Init(d0), before);
             && id < |s.futures| && s.futures[id].Pending? && (s.phase.Stopped? || BehindPill(s, id))
    requires NoCancel(after, id)
    ensures var s := Run(eng, Init(d0), before);
            var t := Run(eng, s, after);
            && id < |t.futures|
            && (t.futures[id].Pending? <==> Drains(eng, s, after) == 0)
            && (s.phase.Stopped? ==> t.futures[id].Pending?)
  {
    var s := Run(eng, Init(d0), before);
    RunBase(eng, Init(d0), before);
    StrandedRun(eng, s, after, id);
    if s.phase.Stopped? {
      StoppedStays(eng, s, after);
    }
  }

  // ---------- What fails ----------

  lemma RunTriple<D, Q, R>(eng: Engine<D, Q, R>, s: State<D, Q, R>, a: Step<Q>, b: Step<Q>, c: Step<Q>)
    ensures Run(eng, s, [a, b, c]) == Next(eng, Next(eng, Next(eng, s, a), b), c)
  {
    assert [a, b, c][1..] == [b, c] && [b, c][1..] == [c] && [c][1..] == [];
    assert Run(eng, Next(eng, Next(eng, s, a), b), [c]) == Next(eng, Next(eng, Next(eng, s, a), b), c);
  }

  lemma {:induction false} RunConcat<D, Q, R>(eng: Engine<D, Q, R>, s: State<D, Q, R>,
                                              steps: seq<Step<Q>>, more: seq<Step<Q>>)
    ensures Run(eng, s, steps + more) == Run(eng, Run(eng, s, steps), more)
    decreases |steps|
  {
    if steps == [] {
      assert steps + more == more;
    } else {
      assert (steps + more)[1..] == steps[1..] + more;
      RunConcat(eng, Next(eng, s, steps[0]), steps[1..], more);
    }
  }

  // A counter whose statements add to it and return it.
  function Adder(d: int, q: int): Outcome<int, int> {
    Done(d + q, [d + q], 0)
  }

  /**
    Not every pill stops the writer: the pill is put while the writer is about to crash on a
    cancelled future, the drain discards it, and the writer comes back with an empty queue.
  */
  lemma ShutdownCanBeLost(request: Request<int>)
    ensures var before := [Connect(true), Submit(request), Dequeue] + [Execute, Cancel(0), Shutdown];
            var after := [Resolve, Drain, Reconnect];
            && Run(Adder, Init(0), before).queue == [Pill(1)]
            && var s := Run(Adder, Init(0), before + after);
               s.phase.Connecting? && s.queue == [] && s.removed == 2 && s.taken == 1
  {
    var first, second := [Connect(true), Submit(request), Dequeue], [Execute, Cancel(0), Shutdown];
    StartFirst(request);
    var s1 := Run(Adder, Init(0), first);
    CancelAndShutdown(s1);
    RunConcat(Adder, Init(0), first, second);
    CrashWithPill(Run(Adder, s1, second));
    RunConcat(Adder, Init(0), first + second, [Resolve, Drain, Reconnect]);
  }

  lemma StartFirst(request: Request<int>)
    ensures Run(Adder, Init(0), [Connect(true), Submit(request), Dequeue])
            == State([request], [Pending], [], Executing(0), 0, 0, [], [], 0, 1, 1)
  {
    RunTriple(Adder, Init(0), Connect(true), Submit(request), Dequeue);
  }

  lemma CancelAndShutdown(s: State<int, int, int>)
    requires s.phase == Executing(0) && |s.requests| == 1 && s.futures == [Pending] && s.queue == []
    requires s.kept == [] && s.saved == 0
    ensures var t := Run(Adder, s, [Execute, Cancel(0), Shutdown]);
            && t.phase.Executed? && t.phase.id == 0 && t.futures == [Cancelled] && t.queue == [Pill(1)]
            && t.saved <= |t.kept| && t.requests == s.requests && t.taken == s.taken && t.removed == s.removed
  {
    RunTriple(Adder, s, Execute, Cancel(0), Shutdown);
  }

  lemma CrashWithPill(s: State<int, int, int>)
    requires s.phase.Executed? && s.phase.id == 0 && s.futures == [Cancelled] && s.queue == [Pill(1)]
    requires s.saved <= |s.kept| && |s.requests| == 1
    ensures var t := Run(Adder, s, [Resolve, Drain, Reconnect]);
            t.phase.Connecting? && t.queue == [] && t.removed == s.removed + 1 && t.taken == 1
  {
    RunTriple(Adder, s, Resolve, Drain, Reconnect);
  }

  const BUMP: Request<int> := Request(1, FetchOne)

  lemma FirstBump(s: State<int, int, int>)
    requires s == State([BUMP], [Pending], [], Executing(0), 0, 0, [], [], 0, 1, 1)
    ensures Run(Adder, s, [Execute, Resolve, Submit(BUMP)])
            == State([BUMP, BUMP], [Result(OneRow(Some(1))), Pending], [Call(1)], Idle, 1, 0, [0], [0], 0, 1, 1)
  {
    RunTriple(Adder, s, Execute, Resolve, Submit(BUMP));
  }

  lemma SecondBumpCancelled(s: State<int, int, int>)
    requires s == State([BUMP, BUMP], [Result(OneRow(Some(1))), Pending], [Call(1)], Idle, 1, 0, [0], [0], 0, 1, 1)
    ensures Run(Adder, s, [Dequeue, Execute, Cancel(1)])
            == State([BUMP, BUMP], [Result(OneRow(Some(1))), Cancelled], [], Executed(1, Result(OneRow(Some(2)))),
                     2, 0, [0, 1], [0, 1], 0, 2, 2)
  {
    RunTriple(Adder, s, Dequeue, Execute, Cancel(1));
  }

  lemma SecondBumpCrashes(s: State<int, int, int>)
    requires s == State([BUMP, BUMP], [Result(OneRow(Some(1))), Cancelled], [], Executed(1, Result(OneRow(Some(2)))),
                        2, 0, [0, 1], [0, 1], 0, 2, 2)
    ensures Run(Adder, s, [Resolve, Drain, Reconnect])
            == State([BUMP, BUMP], [Result(OneRow(Some(1))), Cancelled], [], Connecting, 0, 0, [0, 1], [], 0, 2, 2)
  {
    RunTriple(Adder, s, Resolve, Drain, Reconnect);
  }

  // The counter after a first increment was rolled back; the first caller keeps its answer.
  lemma RolledBackOnce() returns (steps: seq<Step<int>>)
    ensures Run(Adder, Init(0), steps) ==
            State([BUMP, BUMP], [Result(OneRow(Some(1))), Cancelled], [], Connecting, 0, 0, [0, 1], [], 0, 2, 2)
  {
    var a, b := [Connect(true), Submit(BUMP), Dequeue], [Execute, Resolve, Submit(BUMP)];
    var c: seq<Step<int>>, d: seq<Step<int>> := [Dequeue, Execute, Cancel(1)], [Resolve, Drain, Reconnect];
    steps := a + b + c + d;
    StartFirst(BUMP);
    FirstBump(Run(Adder, Init(0), a));
    RunConcat(Adder, Init(0), a, b);
    SecondBumpCancelled(Run(Adder, Init(0), a + b));
    RunConcat(Adder, Init(0), a + b, c);
    SecondBumpCrashes(Run(Adder, Init(0), a + b + c));
    RunConcat(Adder, Init(0), a + b + c, d);
  }

  /**
    Without read-only fetches linearizability fails: three requests that increment a counter
    through a fetch call, the second one cancelled in flight. The crash rolls the first increment
    back, so the first and the third caller both receive 1, which no serial execution gives.
  */
  lemma FetchedWriteIsRolledBack() returns (steps: seq<Step<int>>)
    ensures var s := Run(Adder, Init(0), steps);
            && |s.futures| == 3
            && s.futures[0] == s.futures[2] == Result(OneRow(Some(1)))
            && forall ids: seq<nat> :: Agrees(Adder, 0, s.requests, s.futures, ids) ==> 0 !in ids || 2 !in ids
  {
    var before := RolledBackOnce();
    var third := [Connect(true), Submit(BUMP), Dequeue] + [Execute, Resolve, Reconnect];
    steps := before + third;
    RunConcat(Adder, Init(0), before, third);
    ThirdBump(Run(Adder, Init(0), before));
    var s := Run(Adder, Init(0), steps);
    forall ids: seq<nat> | Agrees(Adder, 0, s.requests, s.futures, ids) ensures 0 !in ids || 2 !in ids {
      NoOrderGivesBoth(s.requests, s.futures, ids);
    }
  }

  lemma ThirdBumpStarts(s: State<int, int, int>)
    requires s == State([BUMP, BUMP], [Result(OneRow(Some(1))), Cancelled], [], Connecting, 0, 0, [0, 1], [], 0, 2, 2)
    ensures Run(Adder, s, [Connect(true), Submit(BUMP), Dequeue])
            == State([BUMP, BUMP, BUMP], [Result(OneRow(Some(1))), Cancelled, Pending], [], Executing(2),
                     0, 0, [0, 1], [], 0, 3, 3)
  {
    RunTriple(Adder, s, Connect(true), Submit(BUMP), Dequeue);
  }

  lemma ThirdBump(s: State<int, int, int>)
    requires s == State([BUMP, BUMP], [Result(OneRow(Some(1))), Cancelled], [], Connecting, 0, 0, [0, 1], [], 0, 2, 2)
    ensures var t := Run(Adder, s, [Connect(true), Submit(BUMP), Dequeue] + [Execute, Resolve, Reconnect]);
            && t.requests == [BUMP, BUMP, BUMP]
            && t.futures == [Result(OneRow(Some(1))), Cancelled, Result(OneRow(Some(1)))]
  {
    var first, second := [Connect(true), Submit(BUMP), Dequeue], [Execute, Resolve, Reconnect];
    ThirdBumpStarts(s);
    RunTriple(Adder, Run(Adder, s, first), Execute, Resolve, Reconnect);
    RunConcat(Adder, s, first, second);
  }

  lemma NoOrderGivesBoth(requests: seq<Request<int>>, futures: seq<Future<int>>, ids: seq<nat>)
    requires requests == [BUMP, BUMP, BUMP] && |futures| == 3
    requires futures[0] == futures[2] == Result(OneRow(Some(1)))
    requires Agrees(Adder, 0, requests, futures, ids)
    ensures 0 !in ids || 2 !in ids
  {
    if 0 in ids && 2 in ids {
      var i :| 0 <= i < |ids| && ids[i] == 0;
      var j :| 0 <= j < |ids| && ids[j] == 2;
      AdderAnswer(requests, ids, i);
      AdderAnswer(requests, ids, j);
    }
  }

  lemma AdderAnswer(requests: seq<Request<int>>, ids: seq<nat>, k: nat)
    requires requests == [BUMP, BUMP, BUMP] && k < |ids|
    requires forall i | 0 <= i < |ids| :: ids[i] < |requests|
    ensures Answer(Adder, 0, requests, ids, k) == Result(OneRow(Some(k + 1)))
  {
    AdderReplay(requests, ids[..k]);
  }

  lemma {:induction false} AdderReplay(requests: seq<Request<int>>, ids: seq<nat>)
    requires forall k | 0 <= k < |ids| :: ids[k] < |requests|
    requires forall k | 0 <= k < |requests| :: requests[k].sql == 1
    ensures Replay(Adder, 0, requests, ids) == |ids|
  {
    if ids != [] {
      AdderReplay(requests, ids[..|ids| - 1]);
    }
  }
}
