/**
  The sliding-window rate limiter of `api/main.py`: per key a list of the times of admitted calls,
  pruned at every call. The reference counts over all admitted calls ever.
*/
module RateLimit {

  // list comprehension [t for t in window if now - t < window_s]
  function Recent(times: seq<real>, now: real, width: real): seq<real> {
    if times == [] then []
    else Recent(times[..|times| - 1], now, width)
         + (if now - times[|times| - 1] < width then [times[|times| - 1]] else [])
  }

  // Fixed limits per key.
  datatype Limit = Limit(maxRequests: int, width: real)

  function Window(windows: map<string, seq<real>>, key: string): seq<real> {
    if key in windows then windows[key] else []
  }

  predicate Admits(window: seq<real>, now: real, limit: Limit) {
    |Recent(window, now, limit.width)| < limit.maxRequests
  }

  // The list of a key after a call.
  function Updated(window: seq<real>, now: real, limit: Limit): seq<real> {
    var recent := Recent(window, now, limit.width);
    if Admits(window, now, limit) then recent + [now] else recent
  }

  class RateLimiter {
    var windows: map<string, seq<real>>

    constructor ()
      ensures windows == map[]
    {
      windows := map[];
    }

    method Check(key: string, now: real, maxRequests: int, width: real) returns (allowed: bool)
      modifies this
      ensures var window, limit := Window(old(windows), key), Limit(maxRequests, width);
              && allowed == Admits(window, now, limit)
              && windows == old(windows)[key := Updated(window, now, limit)]
    {
      var window := if key in windows then windows[key] else [];
      var kept: seq<real> := [];
      var i := 0;
      while i < |window|
        invariant 0 <= i <= |window| && kept == Recent(window[..i], now, width)
      {
        if now - window[i] < width {
          kept := kept + [window[i]];
        }
        assert window[..i + 1][..i] == window[..i];
        i := i + 1;
      }
      assert window[..i] == window;
      if |kept| >= maxRequests {
        windows := windows[key := kept];
        return false;
      }
      windows := windows[key := kept + [now]];
      return true;
    }
  }

  // ---------- Runs ----------

  datatype Call = Call(key: string, now: real)

  type Limits = string -> Limit

  // The limiter's windows, and all admitted times of every key as history.
  datatype State = State(windows: map<string, seq<real>>, admitted: map<string, seq<real>>)

  predicate Allows(s: State, call: Call, limits: Limits) {
    Admits(Window(s.windows, call.key), call.now, limits(call.key))
  }

  function Next(s: State, call: Call, limits: Limits): State {
    var updated := s.windows[call.key := Updated(Window(s.windows, call.key), call.now, limits(call.key))];
    if Allows(s, call, limits)
    then State(updated, s.admitted[call.key := Window(s.admitted, call.key) + [call.now]])
    else s.(windows := updated)
  }

  function Run(calls: seq<Call>, limits: Limits): State {
    if calls == [] then State(map[], map[]) else Next(Run(calls[..|calls| - 1], limits), calls[|calls| - 1], limits)
  }

  ghost predicate Clocked(calls: seq<Call>) {
    forall i, j | 0 <= i < j < |calls| :: calls[i].now <= calls[j].now
  }

  // ---------- Pruning loses nothing ----------

  lemma {:induction false} RecentConcat(a: seq<real>, b: seq<real>, now: real, width: real)
    ensures Recent(a + b, now, width) == Recent(a, now, width) + Recent(b, now, width)
  {
    if b == [] {
      assert a + b == a;
    } else {
      assert (a + b)[..|a + b| - 1] == a + b[..|b| - 1];
      RecentConcat(a, b[..|b| - 1], now, width);
    }
  }

  // Pruning earlier does not change what is recent later.
  lemma {:induction false} RecentTwice(times: seq<real>, now: real, later: real, width: real)
    requires now <= later
    ensures Recent(Recent(times, now, width), later, width) == Recent(times, later, width)
  {
    if times != [] {
      var front, t := times[..|times| - 1], times[|times| - 1];
      RecentTwice(front, now, later, width);
      assert Recent(front, now, width) + [] == Recent(front, now, width);
      assert Recent(front, later, width) + [] == Recent(front, later, width);
      if now - t < width {
        RecentConcat(Recent(front, now, width), [t], later, width);
        assert Recent([t], later, width) == if later - t < width then [t] else [] by { assert [t][..0] == []; }
      }
    }
  }

  // The window of a key shows what is recent among all its admitted calls.
  ghost predicate Faithful(s: State, limits: Limits, now: real) {
    forall key: string, later: real | now <= later ::
      Recent(Window(s.windows, key), later, limits(key).width)
      == Recent(Window(s.admitted, key), later, limits(key).width)
  }

  lemma NextFaithful(s: State, call: Call, limits: Limits, now: real)
    requires Faithful(s, limits, now) && now <= call.now
    ensures Faithful(Next(s, call, limits), limits, call.now)
  {
    var t := Next(s, call, limits);
    forall key: string, later: real | call.now <= later
      ensures Recent(Window(t.windows, key), later, limits(key).width)
              == Recent(Window(t.admitted, key), later, limits(key).width)
    {
      assert Recent(Window(s.windows, key), later, limits(key).width)
             == Recent(Window(s.admitted, key), later, limits(key).width);
      if key != call.key {
        OtherKeysUntouched(s, call, limits, key);
      } else {
        var width := limits(key).width;
        var recent := Recent(Window(s.windows, key), call.now, width);
        RecentTwice(Window(s.windows, key), call.now, later, width);
        RecentConcat(recent, [call.now], later, width);
        RecentConcat(Window(s.admitted, key), [call.now], later, width);
      }
    }
  }

  lemma {:induction false} RunFaithful(calls: seq<Call>, limits: Limits, now: real)
    requires Clocked(calls) && forall i | 0 <= i < |calls| :: calls[i].now <= now
    ensures Faithful(Run(calls, limits), limits, now)
  {
    if calls != [] {
      var front, call := calls[..|calls| - 1], calls[|calls| - 1];
      RunFaithful(front, limits, call.now);
      NextFaithful(Run(front, limits), call, limits, call.now);
    }
  }

  // ---------- Counting admitted calls ----------

  // How many of the times lie in the half-open interval (x - width, x].
  function CountIn(times: seq<real>, x: real, width: real): nat {
    if times == [] then 0
    else CountIn(times[..|times| - 1], x, width)
         + (if x - width < times[|times| - 1] <= x then 1 else 0)
  }

  lemma {:induction false} CountIsRecent(times: seq<real>, x: real, width: real)
    requires forall i | 0 <= i < |times| :: times[i] <= x
    ensures CountIn(times, x, width) == |Recent(times, x, width)|
  {
    if times != [] {
      CountIsRecent(times[..|times| - 1], x, width);
    }
  }

  lemma {:induction false} AdmittedTimes(calls: seq<Call>, limits: Limits, key: string, now: real)
    requires forall i | 0 <= i < |calls| :: calls[i].now <= now
    ensures forall i | 0 <= i < |Window(Run(calls, limits).admitted, key)| ::
              Window(Run(calls, limits).admitted, key)[i] <= now
  {
    if calls != [] {
      AdmittedTimes(calls[..|calls| - 1], limits, key, now);
    }
  }

  /**
    Pruning is invisible: with a clock that does not go back, a call is admitted if and only if fewer
    than maxRequests calls of its key, among all ever admitted, lie in (now - width, now].
  */
  lemma AdmitsExactly(calls: seq<Call>, limits: Limits, call: Call)
    requires Clocked(calls + [call])
    ensures Allows(Run(calls, limits), call, limits) <==>
            CountIn(Window(Run(calls, limits).admitted, call.key), call.now, limits(call.key).width)
              < limits(call.key).maxRequests
  {
    forall i, j | 0 <= i < j < |calls| ensures calls[i].now <= calls[j].now {
      assert (calls + [call])[i].now <= (calls + [call])[j].now;
    }
    forall i | 0 <= i < |calls| ensures calls[i].now <= call.now {
      assert (calls + [call])[i].now <= (calls + [call])[|calls|].now;
    }
    RunFaithful(calls, limits, call.now);
    AdmittedTimes(calls, limits, call.key, call.now);
    CountIsRecent(Window(Run(calls, limits).admitted, call.key), call.now, limits(call.key).width);
  }

  lemma {:induction false} RecentTimes(times: seq<real>, now: real, width: real, t: real)
    ensures multiset(Recent(times, now, width))[t] == if now - t < width then multiset(times)[t] else 0
  {
    if times != [] {
      var front, last := times[..|times| - 1], times[|times| - 1];
      RecentTimes(front, now, width, t);
      assert times == front + [last];
    }
  }

  /**
    After every call, admitted or not, the list of its key holds the times of the list before that lie
    less than the width back, each as often as before, and the time of the call if it was admitted.
  */
  lemma WindowAfterCall(s: State, call: Call, limits: Limits, t: real)
    ensures var before, after := Window(s.windows, call.key), Window(Next(s, call, limits).windows, call.key);
            multiset(after)[t] == (if call.now - t < limits(call.key).width then multiset(before)[t] else 0)
                                  + (if Allows(s, call, limits) && t == call.now then 1 else 0)
  {
    RecentTimes(Window(s.windows, call.key), call.now, limits(call.key).width, t);
  }

  // ---------- The window bound ----------

  // An interval that ends later but holds no later time counts no more than the one that ends at `now`.
  lemma {:induction false} CountLater(times: seq<real>, now: real, x: real, width: real)
    requires now <= x && forall i | 0 <= i < |times| :: times[i] <= now
    ensures CountIn(times, x, width) <= CountIn(times, now, width)
  {
    if times != [] {
      CountLater(times[..|times| - 1], now, x, width);
    }
  }

  lemma CountOneMore(times: seq<real>, t: real, x: real, width: real)
    ensures CountIn(times + [t], x, width) == CountIn(times, x, width) + (if x - width < t <= x then 1 else 0)
  {
    assert (times + [t])[..|times|] == times;
  }

  // A call is only admitted when the interval that ends at it has room.
  lemma AdmittedWithRoom(front: seq<Call>, limits: Limits, call: Call, x: real)
    requires Clocked(front + [call]) && Allows(Run(front, limits), call, limits) && call.now <= x
    ensures CountIn(Window(Run(front, limits).admitted, call.key), x, limits(call.key).width)
              < limits(call.key).maxRequests
  {
    var times, width := Window(Run(front, limits).admitted, call.key), limits(call.key).width;
    forall i | 0 <= i < |front| ensures front[i].now <= call.now {
      assert (front + [call])[i].now <= (front + [call])[|front|].now;
    }
    AdmittedTimes(front, limits, call.key, call.now);
    CountLater(times, call.now, x, width);
    AdmitsExactly(front, limits, call);
  }

  /**
    Sliding-window safety over whole runs of a clock that does not go back: every interval
    (x - width, x], wherever it ends, contains at most maxRequests admitted calls of a key.
  */
  lemma {:induction false} WindowBound(calls: seq<Call>, limits: Limits, key: string, x: real)
    requires Clocked(calls) && limits(key).maxRequests >= 0
    ensures CountIn(Window(Run(calls, limits).admitted, key), x, limits(key).width) <= limits(key).maxRequests
  {
    if calls != [] {
      var front, call := calls[..|calls| - 1], calls[|calls| - 1];
      assert calls == front + [call];
      WindowBound(front, limits, key, x);
      if call.key != key {
        OtherKeysUntouched(Run(front, limits), call, limits, key);
      } else if Allows(Run(front, limits), call, limits) {
        CountOneMore(Window(Run(front, limits).admitted, key), call.now, x, limits(key).width);
        if call.now <= x {
          AdmittedWithRoom(front, limits, call, x);
        }
      }
    }
  }

  /** Calls on other keys change nothing for a key. */
  lemma OtherKeysUntouched(s: State, call: Call, limits: Limits, key: string)
    requires call.key != key
    ensures Window(Next(s, call, limits).windows, key) == Window(s.windows, key)
    ensures Window(Next(s, call, limits).admitted, key) == Window(s.admitted, key)
  {
  }

  function OnlyKey(calls: seq<Call>, key: string): seq<Call> {
    if calls == [] then []
    else OnlyKey(calls[..|calls| - 1], key) + (if calls[|calls| - 1].key == key then [calls[|calls| - 1]] else [])
  }

  // The next decision and state of a key depend on the state of that key only.
  lemma SameKeySameStep(s: State, t: State, call: Call, limits: Limits)
    requires Window(s.windows, call.key) == Window(t.windows, call.key)
    requires Window(s.admitted, call.key) == Window(t.admitted, call.key)
    ensures Allows(s, call, limits) == Allows(t, call, limits)
    ensures Window(Next(s, call, limits).windows, call.key) == Window(Next(t, call, limits).windows, call.key)
    ensures Window(Next(s, call, limits).admitted, call.key) == Window(Next(t, call, limits).admitted, call.key)
  {
  }

  /** What happens to a key is decided by its own calls alone. */
  lemma {:induction false} KeysAreIndependent(calls: seq<Call>, limits: Limits, key: string)
    ensures Window(Run(calls, limits).windows, key) == Window(Run(OnlyKey(calls, key), limits).windows, key)
    ensures Window(Run(calls, limits).admitted, key) == Window(Run(OnlyKey(calls, key), limits).admitted, key)
  {
    if calls != [] {
      var front, call := calls[..|calls| - 1], calls[|calls| - 1];
      var own := OnlyKey(front, key);
      KeysAreIndependent(front, limits, key);
      if call.key == key {
        assert (own + [call])[..|own|] == own;
        SameKeySameStep(Run(front, limits), Run(own, limits), call, limits);
      } else {
        assert own + [] == own;
        OtherKeysUntouched(Run(front, limits), call, limits, key);
      }
    }
  }

  // ---------- Clocks that go back ----------

  lemma {:induction false} CountNone(times: seq<real>, x: real, width: real)
    requires width <= 0.0 || forall i | 0 <= i < |times| :: times[i] <= x - width
    ensures CountIn(times, x, width) == 0
  {
    if times != [] {
      CountNone(times[..|times| - 1], x, width);
    }
  }

  ghost predicate Spaced(times: seq<real>, width: real) {
    forall i, j | 0 <= i < j < |times| :: times[i] <= times[j] - width
  }

  lemma SpacedCount(times: seq<real>, x: real, width: real)
    requires Spaced(times, width)
    ensures CountIn(times, x, width) <= 1
    decreases |times|
  {
    if times != [] {
      var front, last := times[..|times| - 1], times[|times| - 1];
      if x - width < last <= x {
        CountNone(front, x, width);
      } else {
        SpacedCount(front, x, width);
      }
    }
  }

  // With one request per window the list holds the last admitted time, so the next one is a window later.
  ghost predicate HoldsLast(window: seq<real>, admitted: seq<real>, width: real) {
    && Spaced(admitted, width)
    && window == if admitted == [] then [] else [admitted[|admitted| - 1]]
  }

  lemma RecentOne(t: real, now: real, width: real)
    ensures Recent([t], now, width) == if now - t < width then [t] else []
  {
    assert [t][..0] == [];
  }

  lemma HoldsLastNext(window: seq<real>, admitted: seq<real>, now: real, limit: Limit)
    requires limit.maxRequests == 1 && limit.width > 0.0 && HoldsLast(window, admitted, limit.width)
    ensures HoldsLast(Updated(window, now, limit),
                      if Admits(window, now, limit) then admitted + [now] else admitted, limit.width)
  {
    if admitted != [] {
      RecentOne(admitted[|admitted| - 1], now, limit.width);
    }
  }

  lemma {:induction false} OneIsSpaced(calls: seq<Call>, limits: Limits, key: string)
    requires limits(key).maxRequests == 1 && limits(key).width > 0.0
    ensures var s := Run(calls, limits);
            HoldsLast(Window(s.windows, key), Window(s.admitted, key), limits(key).width)
  {
    if calls != [] {
      var front, call := calls[..|calls| - 1], calls[|calls| - 1];
      var s := Run(front, limits);
      OneIsSpaced(front, limits, key);
      if call.key == key {
        HoldsLastNext(Window(s.windows, key), Window(s.admitted, key), call.now, limits(key));
      } else {
        OtherKeysUntouched(s, call, limits, key);
      }
    }
  }

  lemma {:induction false} NoneAdmitted(calls: seq<Call>, limits: Limits, key: string)
    requires limits(key).maxRequests <= 0
    ensures Window(Run(calls, limits).admitted, key) == []
  {
    if calls != [] {
      NoneAdmitted(calls[..|calls| - 1], limits, key);
    }
  }

  function Zeros(n: nat): seq<real> {
    seq(n, _ => 0.0)
  }

  lemma {:induction false} RecentZeros(n: nat, now: real, width: real)
    ensures Recent(Zeros(n), now, width) == if now < width then Zeros(n) else []
  {
    if n > 0 {
      RecentZeros(n - 1, now, width);
      assert Zeros(n)[..n - 1] == Zeros(n - 1);
      assert now < width ==> Zeros(n - 1) + [0.0] == Zeros(n);
    }
  }

  lemma {:induction false} CountZeros(n: nat, x: real, width: real)
    requires 0.0 <= x < width
    ensures CountIn(Zeros(n), x, width) == n
  {
    if n > 0 {
      CountZeros(n - 1, x, width);
      assert Zeros(n)[..n - 1] == Zeros(n - 1);
    }
  }

  // The list and the admitted times of a key after some calls.
  ghost predicate Shows(calls: seq<Call>, limits: Limits, key: string, window: seq<real>, admitted: seq<real>) {
    && Window(Run(calls, limits).windows, key) == window
    && Window(Run(calls, limits).admitted, key) == admitted
  }

  lemma ShowsNext(calls: seq<Call>, limits: Limits, key: string, now: real,
                  window: seq<real>, admitted: seq<real>, recent: seq<real>)
    requires Shows(calls, limits, key, window, admitted) && recent == Recent(window, now, limits(key).width)
    requires |recent| < limits(key).maxRequests
    ensures Shows(calls + [Call(key, now)], limits, key, recent + [now], admitted + [now])
  {
    assert (calls + [Call(key, now)])[..|calls|] == calls;
  }

  // As many calls as the limit allows, all at time zero.
  lemma {:induction false} ZerosAdmitted(limits: Limits, key: string, n: nat) returns (calls: seq<Call>)
    requires n <= limits(key).maxRequests && limits(key).width > 0.0
    ensures Shows(calls, limits, key, Zeros(n), Zeros(n))
  {
    calls := [];
    if n > 0 {
      calls := ZerosAdmitted(limits, key, n - 1);
      RecentZeros(n - 1, 0.0, limits(key).width);
      ShowsNext(calls, limits, key, 0.0, Zeros(n - 1), Zeros(n - 1), Zeros(n - 1));
      calls := calls + [Call(key, 0.0)];
      assert Zeros(n - 1) + [0.0] == Zeros(n);
    }
  }

  /**
    From two requests per window on, a clock that goes back defeats the limit: a call one window later
    prunes all that was admitted at time zero, and a call half a window earlier than that is admitted.
  */
  lemma ClockBackBreaksBound(limits: Limits, key: string) returns (calls: seq<Call>, x: real)
    requires limits(key).maxRequests >= 2 && limits(key).width > 0.0
    ensures CountIn(Window(Run(calls, limits).admitted, key), x, limits(key).width) == limits(key).maxRequests + 1
  {
    var n, width := limits(key).maxRequests, limits(key).width;
    x := width / 2.0;
    calls := ZerosAdmitted(limits, key, n);
    RecentZeros(n, width, width);
    ShowsNext(calls, limits, key, width, Zeros(n), Zeros(n), []);
    calls := calls + [Call(key, width)];
    assert [] + [width] == [width];
    RecentOne(width, x, width);
    ShowsNext(calls, limits, key, x, [width], Zeros(n) + [width], [width]);
    calls := calls + [Call(key, x)];
    CountTwoMore(n, x, width);
  }

  lemma CountTwoMore(n: nat, x: real, width: real)
    requires 0.0 < x < width
    ensures CountIn(Zeros(n) + [width] + [x], x, width) == n + 1
  {
    CountZeros(n, x, width);
    CountOneMore(Zeros(n), width, x, width);
    CountOneMore(Zeros(n) + [width], x, x, width);
  }

  /**
    The window bound with an arbitrary clock, exactly: every interval of every call sequence keeps the
    limit if and only if at most one request per window is allowed or the window is empty.
  */
  lemma BoundForAnyClock(limits: Limits, key: string)
    requires limits(key).maxRequests >= 0
    ensures (forall calls: seq<Call>, x: real ::
               CountIn(Window(Run(calls, limits).admitted, key), x, limits(key).width) <= limits(key).maxRequests)
            <==> limits(key).maxRequests <= 1 || limits(key).width <= 0.0
  {
    if limits(key).maxRequests <= 1 || limits(key).width <= 0.0 {
      forall calls: seq<Call>, x: real
        ensures CountIn(Window(Run(calls, limits).admitted, key), x, limits(key).width) <= limits(key).maxRequests
      {
        KeepsLimit(calls, limits, key, x);
      }
    } else {
      var calls, x := ClockBackBreaksBound(limits, key);
    }
  }

  lemma KeepsLimit(calls: seq<Call>, limits: Limits, key: string, x: real)
    requires 0 <= limits(key).maxRequests <= 1 || (limits(key).maxRequests >= 0 && limits(key).width <= 0.0)
    ensures CountIn(Window(Run(calls, limits).admitted, key), x, limits(key).width) <= limits(key).maxRequests
  {
    var admitted := Window(Run(calls, limits).admitted, key);
    if limits(key).width <= 0.0 {
      CountNone(admitted, x, limits(key).width);
    } else if limits(key).maxRequests == 0 {
      NoneAdmitted(calls, limits, key);
    } else {
      OneIsSpaced(calls, limits, key);
      SpacedCount(admitted, x, limits(key).width);
    }
  }

  function TwoPerMinute(key: string): Limit {
    Limit(2, 60.0)
  }

  /** For example, three calls within half a minute pass a limit of two per minute. */
  lemma ThreeOfTwoPerMinute() returns (calls: seq<Call>, x: real)
    ensures CountIn(Window(Run(calls, TwoPerMinute).admitted, "k"), x, 60.0) == 3
  {
    calls, x := ClockBackBreaksBound(TwoPerMinute, "k");
  }
}
