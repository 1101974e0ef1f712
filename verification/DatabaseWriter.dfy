/**
  The writer, its supervisor and their callers over shared mutable state: the queue, the futures and
  the connection. Each method is one uninterrupted section of the coroutines in
  `memory/database.py` and is proved to be the step of the same name of the protocol.
*/
module DatabaseWriter {
  import opened Wrappers
  import opened DatabaseProtocol
  import opened DatabaseSafety

  class Database<D(!new), Q, R> {
    const engine: Engine<D, Q, R>
    ghost const initial: D

    var requests: seq<Request<Q>>
    var futures: seq<Future<R>>
    var queue: seq<Item>
    var phase: Phase<R>
    var db: D
    var durable: D

    ghost var executed: seq<nat>
    ghost var kept: seq<nat>
    ghost var saved: nat
    ghost var taken: nat
    ghost var removed: nat

    ghost function View(): State<D, Q, R>
      reads this
    {
      State(requests, futures, queue, phase, db, durable, executed, kept, saved, taken, removed)
    }

    ghost predicate Valid()
      reads this
    {
      Inv(engine, initial, View())
    }

    constructor (engine: Engine<D, Q, R>, d0: D)
      ensures Valid() && View() == Init(d0) && this.engine == engine && initial == d0
    {
      this.engine, initial := engine, d0;
      requests, futures, queue, phase := [], [], [], Connecting;
      db, durable := d0, d0;
      executed, kept, saved, taken, removed := [], [], 0, 0, 0;
    }

    // ---------- Callers ----------

    /** db_write, db_fetch_one and db_fetch_all up to the point where they wait for the future. */
    method Submit(sql: Q, mode: Mode) returns (id: nat)
      requires |futures| == |requests|
      modifies this
      ensures View() == Next(engine, old(View()), Step.Submit(Request(sql, mode)))
      ensures id == old(|requests|) && futures[id] == Pending && queue == old(queue) + [Call(id)]
    {
      id := |requests|;
      requests := requests + [Request(sql, mode)];
      futures := futures + [Pending];
      queue := queue + [Call(id)];
    }

    method Cancel(id: nat)
      requires Enabled(View(), Step.Cancel(id))
      modifies this
      ensures View() == Next(engine, old(View()), Step.Cancel(id))
    {
      futures := futures[id := Cancelled];
    }

    method Shutdown()
      modifies this
      ensures View() == Next(engine, old(View()), Step.Shutdown)
    {
      queue := queue + [Pill(|requests|)];
    }

    // ---------- The writer ----------

    method Connect(ok: bool)
      requires Enabled(View(), Step.Connect(ok))
      modifies this
      ensures View() == Next(engine, old(View()), Step.Connect(ok))
    {
      if ok {
        phase := Idle;
      } else {
        CloseConnection();
        phase := Crashed;
      }
    }

    // Leaving the connection block rolls uncommitted work back.
    method CloseConnection()
      requires saved <= |kept|
      modifies this`db, this`kept
      ensures db == durable && kept == old(kept)[..saved]
    {
      db := durable;
      kept := kept[..saved];
    }

    method Dequeue()
      requires Enabled(View(), Step.Dequeue)
      modifies this
      ensures View() == Next(engine, old(View()), Step.Dequeue)
    {
      var item := queue[0];
      queue := queue[1..];
      removed := removed + 1;
      match item {
        case Call(id) =>
          phase := Executing(id);
          taken := taken + 1;
        case Pill(stamp) =>
          CloseConnection();
          phase := Stopped(stamp);
      }
    }

    method Execute()
      requires Enabled(View(), Step.Execute)
      modifies this
      ensures View() == Next(engine, old(View()), Step.Execute)
    {
      var id := phase.id;
      var request := requests[id];
      executed := executed + [id];
      kept := kept + [id];
      match engine(db, request.sql) {
        case Done(d, rows, lastRowId) =>
          db := d;
          if request.mode.NoFetch? {
            durable := d;
            saved := |kept|;
          }
          phase := Executed(id, Result(Deliver<D, R>(request.mode, rows, lastRowId)));
        case Raise =>
          phase := Executed(id, Failed(Raised));
      }
    }

    method Resolve()
      requires Enabled(View(), Step.Resolve)
      modifies this
      ensures View() == Next(engine, old(View()), Step.Resolve)
    {
      if futures[phase.id].Pending? {
        futures := futures[phase.id := phase.answer];
        phase := Idle;
      } else {
        CloseConnection();
        phase := Crashed;
      }
    }

    // ---------- The supervisor ----------

    /** Fails what is still queued; the loop runs without suspension, so nothing joins meanwhile. */
    method Drain()
      requires Enabled(View(), Step.Drain)
      modifies this
      ensures View() == Next(engine, old(View()), Step.Drain)
    {
      ghost var line := queue;
      while queue != []
        invariant |queue| <= |line| && queue == line[|line| - |queue|..]
        invariant removed == old(removed) + |line| - |queue|
        invariant |futures| == |old(futures)|
        invariant forall i | 0 <= i < |futures| ::
          futures[i] == if old(futures)[i].Pending? && Call(i) in line[..|line| - |queue|]
                        then Failed(Restarted) else old(futures)[i]
        modifies this`queue, this`futures, this`removed
        decreases |queue|
      {
        var item := queue[0];
        ghost var n := |line| - |queue|;
        assert item == line[n] && line[..n + 1] == line[..n] + [item];
        queue := queue[1..];
        removed := removed + 1;
        if item.Call? && item.id < |futures| && futures[item.id].Pending? {
          futures := futures[item.id := Failed(Restarted)];
        }
      }
      assert line[..|line|] == line;
      assert futures == Drained(old(futures), line);
      phase := Backoff;
      taken := |requests|;
    }

    method Reconnect()
      requires Enabled(View(), Step.Reconnect)
      modifies this
      ensures View() == Next(engine, old(View()), Step.Reconnect)
    {
      phase := Connecting;
    }

    /** Any schedule of the callers, the writer and the supervisor is a run of the protocol. */
    method Serve(schedule: seq<Step<Q>>)
      requires Valid()
      modifies this
      ensures Valid() && View() == Run(engine, old(View()), schedule)
    {
      var i := 0;
      while i < |schedule|
        invariant 0 <= i <= |schedule| && Valid()
        invariant Run(engine, View(), schedule[i..]) == Run(engine, old(View()), schedule)
      {
        Take(schedule[i]);
        assert schedule[i..][1..] == schedule[i + 1..];
        i := i + 1;
      }
    }

    method Take(step: Step<Q>)
      requires Valid()
      modifies this
      ensures Valid() && View() == Next(engine, old(View()), step)
    {
      NextInv(engine, initial, View(), step);
      match step {
        case Submit(request) => var _ := Submit(request.sql, request.mode);
        case Cancel(id) => if id < |futures| && futures[id].Pending? { Cancel(id); }
        case Shutdown => Shutdown();
        case Connect(ok) => if phase.Connecting? { Connect(ok); }
        case Dequeue => if phase.Idle? && queue != [] { Dequeue(); }
        case Execute => if phase.Executing? { Execute(); }
        case Resolve => if phase.Executed? { Resolve(); }
        case Drain => if phase.Crashed? { Drain(); }
        case Reconnect => if phase.Backoff? { Reconnect(); }
      }
    }
  }
}
