/**
  The circuit breaker of `llm/client.py`: a bounded history of allowed calls that blocks a call when
  the last `maxSame` of them are all the same as it. The reference looks at the whole stream of
  calls and caps every run of equal ones.
*/
module Breaker {

  /** What one call sees of the history: list(history)[-maxSame:]. */
  function Recent(history: seq<string>, maxSame: int): seq<string> {
    if maxSame >= 1 then (if maxSame <= |history| then history[|history| - maxSame..] else history)
    else if -maxSame <= |history| then history[-maxSame..] else []
  }

  predicate Blocks(history: seq<string>, maxSame: int, key: string) {
    var recent := Recent(history, maxSame);
    |recent| == maxSame && recent != [] && forall i | 0 <= i < |recent| :: recent[i] == key
  }

  // A deque with a maximal length drops its oldest entry.
  function Push(history: seq<string>, window: nat, key: string): seq<string> {
    var longer := history + [key];
    if |longer| > window then longer[1..] else longer
  }

  class CircuitBreaker {
    const maxSame: int
    const window: nat
    var history: seq<string>

    constructor (maxSame: int, window: nat)
      ensures this.maxSame == maxSame && this.window == window && history == []
    {
      this.maxSame, this.window := maxSame, window;
      history := [];
    }

    method Check(key: string) returns (allowed: bool)
      modifies this
      ensures allowed == !Blocks(old(history), maxSame, key)
      ensures history == if allowed then Push(old(history), window, key) else old(history)
    {
      var recent := Recent(history, maxSame);
      if |recent| == maxSame && |set k | k in recent| == 1 && recent[0] == key {
        OneKey(recent);
        allowed := false;
      } else {
        if Blocks(history, maxSame, key) { SameKey(recent, key); }
        history := Push(history, window, key);
        allowed := true;
      }
    }
  }

  lemma OneKey(recent: seq<string>)
    requires |set k | k in recent| == 1 && recent != []
    ensures forall i | 0 <= i < |recent| :: recent[i] == recent[0]
  {
    var keys := set k | k in recent;
    assert recent[0] in keys;
    assert |keys - {recent[0]}| == 0;
    assert keys == {recent[0]};
    forall i | 0 <= i < |recent| ensures recent[i] == recent[0] {
      assert recent[i] in keys;
    }
  }

  lemma SameKey(recent: seq<string>, key: string)
    requires recent != [] && forall i | 0 <= i < |recent| :: recent[i] == key
    ensures |set k | k in recent| == 1
  {
    assert recent[0] in recent;
    assert (set k | k in recent) == {key};
  }

  // ---------- A stream of calls ----------

  function HistoryAfter(maxSame: int, window: nat, keys: seq<string>): seq<string> {
    if keys == [] then []
    else
      var before, key := HistoryAfter(maxSame, window, keys[..|keys| - 1]), keys[|keys| - 1];
      if Blocks(before, maxSame, key) then before else Push(before, window, key)
  }

  /** The calls of a stream that the breaker lets through. */
  function Allowed(maxSame: int, window: nat, keys: seq<string>): seq<string> {
    if keys == [] then []
    else
      var front, key := keys[..|keys| - 1], keys[|keys| - 1];
      Allowed(maxSame, window, front)
      + (if Blocks(HistoryAfter(maxSame, window, front), maxSame, key) then [] else [key])
  }

  // ---------- The reference ----------

  /** How many equal calls in a row end at position i. */
  function RunLength(keys: seq<string>, i: nat): nat
    requires i < |keys|
  {
    if i > 0 && keys[i - 1] == keys[i] then RunLength(keys, i - 1) + 1 else 1
  }

  /** The stream with every maximal run of equal calls cut to its first maxSame. */
  function Capped(keys: seq<string>, maxSame: int): seq<string> {
    if keys == [] then []
    else Capped(keys[..|keys| - 1], maxSame)
         + (if RunLength(keys, |keys| - 1) <= maxSame then [keys[|keys| - 1]] else [])
  }

  function Min(a: int, b: int): int {
    if a <= b then a else b
  }

  lemma {:induction false} RunLengthPrefix(keys: seq<string>, more: seq<string>, i: nat)
    requires i < |keys|
    ensures RunLength(keys + more, i) == RunLength(keys, i)
  {
    if i > 0 {
      RunLengthPrefix(keys, more, i - 1);
    }
  }

  // The run at the end of the capped stream is the run at the end of the stream, cut.
  lemma {:induction false} CappedEnd(keys: seq<string>, maxSame: int)
    requires maxSame >= 1 && keys != []
    ensures var capped := Capped(keys, maxSame);
            && capped != [] && capped[|capped| - 1] == keys[|keys| - 1]
            && RunLength(capped, |capped| - 1) == Min(RunLength(keys, |keys| - 1), maxSame)
  {
    var n := |keys|;
    var front, key := keys[..n - 1], keys[n - 1];
    assert keys == front + [key];
    if n > 1 {
      CappedEnd(front, maxSame);
      RunLengthPrefix(front, [key], n - 2);
      RunOneMore(front, key);
      var before := Capped(front, maxSame);
      RunOneMore(before, key);
      if RunLength(keys, n - 1) <= maxSame {
        assert Capped(keys, maxSame) == before + [key];
      } else {
        assert Capped(keys, maxSame) == before;
      }
    } else {
      assert Capped(keys, maxSame) == [key];
    }
  }

  lemma RunOneMore(keys: seq<string>, key: string)
    ensures RunLength(keys + [key], |keys|) ==
            if keys != [] && keys[|keys| - 1] == key then RunLength(keys, |keys| - 1) + 1 else 1
  {
    if keys != [] {
      RunLengthPrefix(keys, [key], |keys| - 1);
    }
  }

  ghost predicate SameFrom(keys: seq<string>, from: nat, i: nat)
    requires i < |keys|
  {
    forall j | from <= j <= i :: keys[j] == keys[i]
  }

  // Enough equal calls in a row are what the breaker looks for.
  lemma {:induction false} RunMeansEqual(keys: seq<string>, i: nat, n: nat)
    requires i < |keys| && 1 <= n <= i + 1
    ensures RunLength(keys, i) >= n <==> SameFrom(keys, i + 1 - n, i)
  {
    if n > 1 {
      if i > 0 && keys[i - 1] == keys[i] {
        RunMeansEqual(keys, i - 1, n - 1);
      } else {
        assert i + 1 - n <= i - 1 <= i;
      }
    }
  }

  lemma RecentMeansEnd(history: seq<string>, maxSame: int, key: string)
    requires 1 <= maxSame <= |history|
    ensures Blocks(history, maxSame, key) <==>
            history[|history| - 1] == key && SameFrom(history, |history| - maxSame, |history| - 1)
  {
    var start, recent := |history| - maxSame, Recent(history, maxSame);
    forall j | start <= j < |history| ensures history[j] == recent[j - start] {}
    forall i | 0 <= i < maxSame ensures recent[i] == history[start + i] {}
  }

  ghost predicate EndsWithRun(keys: seq<string>, key: string, n: int) {
    keys != [] && keys[|keys| - 1] == key && RunLength(keys, |keys| - 1) >= n
  }

  lemma BlocksMeansRun(history: seq<string>, maxSame: int, key: string)
    requires maxSame >= 1
    ensures Blocks(history, maxSame, key) <==> EndsWithRun(history, key, maxSame)
  {
    if maxSame <= |history| {
      RunMeansEqual(history, |history| - 1, maxSame);
      RecentMeansEnd(history, maxSame, key);
    } else if history != [] {
      RunBound(history, |history| - 1);
    }
  }

  lemma {:induction false} RunBound(keys: seq<string>, i: nat)
    requires i < |keys|
    ensures RunLength(keys, i) <= i + 1
  {
    if i > 0 {
      RunBound(keys, i - 1);
    }
  }

  ghost function Tail(s: seq<string>, n: nat): seq<string> {
    if |s| <= n then s else s[|s| - n..]
  }

  lemma PushTail(s: seq<string>, window: nat, key: string)
    ensures Push(Tail(s, window), window, key) == Tail(s + [key], window)
  {
  }

  // The deque holds the end of the allowed stream; a window of maxSame is enough to decide.
  lemma {:induction false} HistoryIsTail(maxSame: int, window: nat, keys: seq<string>)
    ensures HistoryAfter(maxSame, window, keys) == Tail(Allowed(maxSame, window, keys), window)
  {
    if keys != [] {
      var front, key := keys[..|keys| - 1], keys[|keys| - 1];
      HistoryIsTail(maxSame, window, front);
      if Blocks(HistoryAfter(maxSame, window, front), maxSame, key) {
        assert Allowed(maxSame, window, keys) == Allowed(maxSame, window, front);
      } else {
        PushTail(Allowed(maxSame, window, front), window, key);
      }
    }
  }

  lemma WindowDecides(s: seq<string>, window: nat, maxSame: int, key: string)
    requires 1 <= maxSame <= window
    ensures Blocks(Tail(s, window), maxSame, key) <==> Blocks(s, maxSame, key)
  {
    assert Recent(Tail(s, window), maxSame) == Recent(s, maxSame);
  }

  // The bounded history decides as all allowed calls would.
  lemma HistoryDecides(maxSame: int, window: nat, front: seq<string>, key: string)
    requires 1 <= maxSame <= window
    ensures Blocks(HistoryAfter(maxSame, window, front), maxSame, key)
            <==> Blocks(Allowed(maxSame, window, front), maxSame, key)
  {
    HistoryIsTail(maxSame, window, front);
    WindowDecides(Allowed(maxSame, window, front), window, maxSame, key);
  }

  // The capped stream ends with a full run of the key when one more call makes the run too long.
  lemma CappedDecides(front: seq<string>, maxSame: int, key: string)
    requires maxSame >= 1
    ensures EndsWithRun(Capped(front, maxSame), key, maxSame) <==> RunLength(front + [key], |front|) > maxSame
  {
    RunOneMore(front, key);
    if front != [] {
      CappedEnd(front, maxSame);
    }
  }

  // The next call is blocked when it makes the run longer than maxSame.
  lemma BlocksTooLongRuns(maxSame: int, window: nat, front: seq<string>, key: string)
    requires 1 <= maxSame <= window && Allowed(maxSame, window, front) == Capped(front, maxSame)
    ensures Blocks(HistoryAfter(maxSame, window, front), maxSame, key) <==>
            RunLength(front + [key], |front|) > maxSame
  {
    HistoryDecides(maxSame, window, front, key);
    BlocksMeansRun(Capped(front, maxSame), maxSame, key);
    CappedDecides(front, maxSame, key);
  }

  /**
    The bounded breaker refines run-capping: for 1 <= maxSame <= window the calls let through are
    exactly the stream with every run cut to maxSame, however long the stream.
  */
  lemma {:induction false} AllowedIsCapped(maxSame: int, window: nat, keys: seq<string>)
    requires 1 <= maxSame <= window
    ensures Allowed(maxSame, window, keys) == Capped(keys, maxSame)
  {
    if keys != [] {
      var front, key := keys[..|keys| - 1], keys[|keys| - 1];
      AllowedIsCapped(maxSame, window, front);
      BlocksTooLongRuns(maxSame, window, front, key);
      assert keys == front + [key];
    }
  }

  // Outside that range nothing is ever blocked.
  lemma NeverBlocks(history: seq<string>, maxSame: int, window: nat, key: string)
    requires (maxSame < 1 || maxSame > window) && |history| <= window
    ensures !Blocks(history, maxSame, key) && |Push(history, window, key)| <= window
  {
  }

  lemma {:induction false} OtherwiseAllAllowed(maxSame: int, window: nat, keys: seq<string>)
    requires maxSame < 1 || maxSame > window
    ensures Allowed(maxSame, window, keys) == keys && |HistoryAfter(maxSame, window, keys)| <= window
  {
    if keys != [] {
      var front, key := keys[..|keys| - 1], keys[|keys| - 1];
      OtherwiseAllAllowed(maxSame, window, front);
      NeverBlocks(HistoryAfter(maxSame, window, front), maxSame, window, key);
      assert keys == front + [key];
    }
  }

  lemma {:induction false} EqualRun(n: nat, key: string)
    requires n >= 1
    ensures RunLength(seq(n, _ => key), n - 1) == n
  {
    if n > 1 {
      EqualRun(n - 1, key);
      assert seq(n, _ => key) == seq(n - 1, _ => key) + [key];
      RunLengthPrefix(seq(n - 1, _ => key), [key], n - 2);
    }
  }

  lemma {:induction false} CappedLength(keys: seq<string>, maxSame: int)
    ensures |Capped(keys, maxSame)| <= |keys|
  {
    if keys != [] {
      CappedLength(keys[..|keys| - 1], maxSame);
    }
  }

  // A run one longer than maxSame is let through and should not be.
  lemma OutsideRangeFails(maxSame: int, window: nat)
    requires maxSame < 1 || maxSame > window
    ensures exists keys :: Allowed(maxSame, window, keys) != Capped(keys, maxSame)
  {
    var n := if maxSame < 1 then 1 else maxSame + 1;
    var keys := seq(n, _ => "a");
    OtherwiseAllAllowed(maxSame, window, keys);
    EqualRun(n, "a");
    CappedLength(keys[..n - 1], maxSame);
    assert |Capped(keys, maxSame)| < n;
    assert Allowed(maxSame, window, keys) != Capped(keys, maxSame);
  }

  /** The breaker caps the runs of every stream if and only if 1 <= maxSame <= window. */
  lemma CapsExactly(maxSame: int, window: nat)
    ensures (forall keys: seq<string> :: Allowed(maxSame, window, keys) == Capped(keys, maxSame))
            <==> 1 <= maxSame <= window
  {
    if 1 <= maxSame <= window {
      forall keys: seq<string> ensures Allowed(maxSame, window, keys) == Capped(keys, maxSame) {
        AllowedIsCapped(maxSame, window, keys);
      }
    } else {
      OutsideRangeFails(maxSame, window);
    }
  }

  /** No call is let through more than maxSame times in a row. */
  lemma {:induction false} NoLongRuns(keys: seq<string>, maxSame: int, i: nat)
    requires maxSame >= 1 && i < |Capped(keys, maxSame)|
    ensures RunLength(Capped(keys, maxSame), i) <= maxSame
    decreases |keys|
  {
    var front := keys[..|keys| - 1];
    var before := Capped(front, maxSame);
    var capped := Capped(keys, maxSame);
    if i < |before| {
      NoLongRuns(front, maxSame, i);
      RunLengthPrefix(before, capped[|before|..], i);
      assert capped == before + capped[|before|..];
    } else {
      CappedEnd(keys, maxSame);
    }
  }

  lemma {:induction false} ShortRunsStay(keys: seq<string>, maxSame: int)
    requires forall i | 0 <= i < |keys| :: RunLength(keys, i) <= maxSame
    ensures Capped(keys, maxSame) == keys
  {
    if keys != [] {
      var n := |keys|;
      var front := keys[..n - 1];
      assert keys == front + [keys[n - 1]];
      forall i | 0 <= i < n - 1 ensures RunLength(front, i) <= maxSame { RunLengthPrefix(front, [keys[n - 1]], i); }
      ShortRunsStay(front, maxSame);
    }
  }

  /** Replaying what was let through blocks nothing. */
  lemma ReplayBlocksNothing(maxSame: int, window: nat, keys: seq<string>)
    requires 1 <= maxSame <= window
    ensures var allowed := Allowed(maxSame, window, keys);
            Allowed(maxSame, window, allowed) == allowed
  {
    var allowed := Allowed(maxSame, window, keys);
    AllowedIsCapped(maxSame, window, keys);
    AllowedIsCapped(maxSame, window, allowed);
    forall i | 0 <= i < |allowed| ensures RunLength(allowed, i) <= maxSame { NoLongRuns(keys, maxSame, i); }
    ShortRunsStay(allowed, maxSame);
  }
}
