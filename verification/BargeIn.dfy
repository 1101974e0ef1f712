/**
  The barge-in detector of `voice/vad.py`: a trimmed and cleared buffer of frames signals an
  interrupt after 300 ms of continuous speech. The reference is a counter of consecutive speech
  frames since the last signal.
*/
module BargeIn {

  const NEEDED: nat := 10

  // A frame on which the detector raises counts as silence.
  datatype Frame = Speech | Silence | Faulty

  function Trimmed(buffer: seq<bool>): seq<bool> {
    if |buffer| > NEEDED * 2 then buffer[|buffer| - NEEDED..] else buffer
  }

  predicate Triggers(buffer: seq<bool>) {
    |buffer| >= NEEDED && forall i | |buffer| - NEEDED <= i < |buffer| :: buffer[i]
  }

  // How many speech frames the buffer ends with.
  function Trailing(buffer: seq<bool>): (n: nat)
    ensures n <= |buffer|
  {
    if buffer == [] || !buffer[|buffer| - 1] then 0 else Trailing(buffer[..|buffer| - 1]) + 1
  }

  // The buffer after one more frame, and whether that frame raises an interrupt.
  function Heard(buffer: seq<bool>, speech: bool): (seq<bool>, bool) {
    var longer := Trimmed(buffer + [speech]);
    if Triggers(longer) then ([], true) else (longer, false)
  }

  // The buffer and the number of interrupts after one more frame.
  function Round(state: (seq<bool>, nat), frame: Frame): (seq<bool>, nat) {
    var heard := Heard(state.0, frame.Speech?);
    (heard.0, state.1 + (if heard.1 then 1 else 0))
  }

  function Fold<S, F>(step: (S, F) -> S, start: S, frames: seq<F>): S {
    if frames == [] then start
    else step(Fold(step, start, frames[..|frames| - 1]), frames[|frames| - 1])
  }

  function BufferAfter(frames: seq<Frame>): seq<bool> {
    Fold(Round, ([], 0), frames).0
  }

  function Interrupts(frames: seq<Frame>): nat {
    Fold(Round, ([], 0), frames).1
  }

  // Whether the last frame raises an interrupt.
  predicate Signals(frames: seq<Frame>)
    requires frames != []
  {
    Heard(BufferAfter(frames[..|frames| - 1]), frames[|frames| - 1].Speech?).1
  }

  /** The last n frames are all speech exactly when the buffer ends with at least n of them. */
  lemma {:induction false} TrailingExactly(buffer: seq<bool>, n: nat)
    ensures Trailing(buffer) >= n <==> |buffer| >= n && forall i | |buffer| - n <= i < |buffer| :: buffer[i]
  {
    if n > 0 && buffer != [] {
      var front := buffer[..|buffer| - 1];
      TrailingExactly(front, n - 1);
      assert forall i | 0 <= i < |front| :: front[i] == buffer[i];
    }
  }

  // One round of the loop.
  method Hear(buffer: seq<bool>, speech: bool) returns (next: seq<bool>, interrupt: bool)
    ensures (next, interrupt) == Heard(buffer, speech)
  {
    next := buffer + [speech];
    if |next| > NEEDED * 2 {
      next := next[|next| - NEEDED..];
    }
    interrupt := |next| >= NEEDED && forall k | |next| - NEEDED <= k < |next| :: next[k];
    if interrupt {
      next := [];
    }
  }

  ghost predicate Follows<S, F>(step: (S, F) -> S, before: S, frame: F, now: S) {
    now == step(before, frame)
  }

  // The state before every step of a fold and at its end.
  lemma {:induction false} FoldPath<S, F>(step: (S, F) -> S, start: S, frames: seq<F>) returns (path: seq<S>)
    ensures |path| == |frames| + 1 && path[0] == start && path[|frames|] == Fold(step, start, frames)
    ensures forall i | 0 <= i < |frames| :: Follows(step, path[i], frames[i], path[i + 1])
  {
    if frames == [] {
      path := [start];
    } else {
      var front := frames[..|frames| - 1];
      var shorter := FoldPath(step, start, front);
      path := shorter + [Fold(step, start, frames)];
      forall i | 0 <= i < |frames| ensures Follows(step, path[i], frames[i], path[i + 1]) {
        if i < |front| {
          assert front[i] == frames[i];
        }
      }
    }
  }

  lemma Rounds(frames: seq<Frame>) returns (path: seq<(seq<bool>, nat)>)
    ensures |path| == |frames| + 1 && path[0] == ([], 0) && path[|frames|].1 == Interrupts(frames)
    ensures forall i | 0 <= i < |frames| :: Follows(Round, path[i], frames[i], path[i + 1])
  {
    path := FoldPath(Round, ([], 0), frames);
  }

  /** The loop over the frames up to the end of the stream. */
  method VadWorker(frames: seq<Frame>) returns (interrupts: nat)
    ensures interrupts == Interrupts(frames)
  {
    var buffer: seq<bool> := [];
    interrupts := 0;
    ghost var path := Rounds(frames);
    var i := 0;
    while i < |frames|
      invariant 0 <= i <= |frames|
      invariant (buffer, interrupts) == path[i]
    {
      assert Follows(Round, path[i], frames[i], path[i + 1]);
      var interrupt;
      buffer, interrupt := Hear(buffer, frames[i].Speech?);
      if interrupt {
        interrupts := interrupts + 1;
      }
      i := i + 1;
    }
  }

  // ---------- The reference ----------

  /** Consecutive speech frames since the last signal. */
  function Counter(frames: seq<Frame>): nat {
    if frames == [] then 0
    else if !frames[|frames| - 1].Speech? then 0
    else
      var c := Counter(frames[..|frames| - 1]) + 1;
      if c >= 10 then 0 else c
  }

  lemma {:induction false} TrailingCut(buffer: seq<bool>, n: nat)
    requires n <= |buffer|
    ensures Trailing(buffer[n..]) == if Trailing(buffer) <= |buffer| - n then Trailing(buffer) else |buffer| - n
  {
    if n < |buffer| && buffer[|buffer| - 1] {
      assert buffer[n..][..|buffer| - n - 1] == buffer[..|buffer| - 1][n..];
      TrailingCut(buffer[..|buffer| - 1], n);
    }
  }

  // Trimming is invisible as long as it keeps enough frames.
  lemma HeardRefines(buffer: seq<bool>, speech: bool)
    requires Trailing(buffer) < NEEDED && |buffer| <= NEEDED * 2
    ensures var c, heard := if speech then Trailing(buffer) + 1 else 0, Heard(buffer, speech);
            && (heard.1 <==> c == NEEDED)
            && Trailing(heard.0) == (if c == NEEDED then 0 else c)
            && |heard.0| <= NEEDED * 2
  {
    var longer := buffer + [speech];
    assert longer[..|buffer|] == buffer;
    TrailingExactly(Trimmed(longer), NEEDED);
    if |longer| > NEEDED * 2 {
      TrailingCut(longer, |longer| - NEEDED);
    }
  }

  /**
    The buffer refines the counter: on every stream a frame signals exactly when it brings the
    counter to ten, and the buffer never keeps more than twenty frames.
  */
  lemma {:induction false} BufferRefinesCounter(frames: seq<Frame>)
    ensures Counter(frames) < 10 && Trailing(BufferAfter(frames)) == Counter(frames)
    ensures |BufferAfter(frames)| <= 20
    ensures frames != [] ==>
      (Signals(frames) <==> frames[|frames| - 1].Speech? && Counter(frames[..|frames| - 1]) + 1 == 10)
  {
    if frames != [] {
      var front, speech := frames[..|frames| - 1], frames[|frames| - 1].Speech?;
      BufferRefinesCounter(front);
      HeardRefines(BufferAfter(front), speech);
    }
  }

  lemma OneMore(frames: seq<Frame>, frame: Frame)
    ensures Counter(frames + [frame])
            == if !frame.Speech? || Counter(frames) + 1 == NEEDED then 0 else Counter(frames) + 1
    ensures Interrupts(frames + [frame])
            == Interrupts(frames) + (if frame.Speech? && Counter(frames) + 1 == NEEDED then 1 else 0)
  {
    var longer := frames + [frame];
    assert longer[..|longer| - 1] == frames;
    BufferRefinesCounter(longer);
  }

  lemma {:induction false} CounterRun(before: seq<Frame>, run: seq<Frame>)
    requires Counter(before) == 0 && forall i | 0 <= i < |run| :: run[i].Speech?
    ensures Counter(before + run) == |run| % NEEDED
    ensures Interrupts(before + run) == Interrupts(before) + |run| / NEEDED
  {
    if run == [] {
      assert before + run == before;
    } else {
      var front, frame := run[..|run| - 1], run[|run| - 1];
      CounterRun(before, front);
      var whole := before + front;
      assert before + run == whole + [frame];
      OneMore(whole, frame);
      CountOn(|front|);
    }
  }

  lemma CountOn(n: nat)
    ensures if n % NEEDED + 1 == NEEDED then (n + 1) % NEEDED == 0 && (n + 1) / NEEDED == n / NEEDED + 1
            else (n + 1) % NEEDED == n % NEEDED + 1 && (n + 1) / NEEDED == n / NEEDED
  {
  }

  /** A maximal run of L speech frames raises exactly L / 10 interrupts. */
  lemma RunOfSpeech(before: seq<Frame>, run: seq<Frame>, after: Frame)
    requires (before == [] || !before[|before| - 1].Speech?) && !after.Speech?
    requires forall i | 0 <= i < |run| :: run[i].Speech?
    ensures Interrupts(before + run + [after]) == Interrupts(before) + |run| / 10
  {
    CounterRun(before, run);
    OneMore(before + run, after);
  }
}
