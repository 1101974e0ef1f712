/**
  What an agent run returns, told by the model's responses alone: the answer, how the loop ends, the
  tokens it bills, which tool calls are asked for, and what each tool result carries.
*/
module AgentAnswers {
  import opened Wrappers
  import opened Breaker
  import opened AgentLoop

  // ---------- The answer ----------

  lemma {:induction false} JoinedConcat(a: seq<Block>, b: seq<Block>)
    ensures Joined(a + b) == Joined(a) + Joined(b)
  {
    if a == [] {
      assert a + b == b;
    } else {
      assert (a + b)[1..] == a[1..] + b;
      JoinedConcat(a[1..], b);
    }
  }

  lemma JoinedOne(block: Block)
    ensures Joined([block]) == if block.Text? then block.text else ""
  {
    assert [block][1..] == [];
  }

  // The text blocks, one after the other.
  function Texts(blocks: seq<Block>): seq<string> {
    if blocks == [] then []
    else Texts(blocks[..|blocks| - 1]) + (if blocks[|blocks| - 1].Text? then [blocks[|blocks| - 1].text] else [])
  }

  function Concat(parts: seq<string>): string {
    if parts == [] then "" else Concat(parts[..|parts| - 1]) + parts[|parts| - 1]
  }

  lemma ConcatMore(parts: seq<string>, part: string)
    ensures Concat(parts + [part]) == Concat(parts) + part
  {
    assert (parts + [part])[..|parts|] == parts;
  }

  /** The answer is all text blocks of a response, in order, with nothing between them. */
  lemma {:induction false} JoinedIsAllTexts(blocks: seq<Block>)
    ensures Joined(blocks) == Concat(Texts(blocks))
  {
    if blocks != [] {
      var front, last := blocks[..|blocks| - 1], blocks[|blocks| - 1];
      JoinedIsAllTexts(front);
      JoinedConcat(front, [last]);
      JoinedOne(last);
      assert front + [last] == blocks;
      if last.Text? {
        ConcatMore(Texts(front), last.text);
      } else {
        assert Texts(blocks) == Texts(front);
      }
    }
  }

  // ---------- How the loop ends ----------

  predicate GoesOn(response: Option<Response>) {
    response.Some? && (response.value.stop.MaxTokens? || response.value.stop.ToolStop?)
  }

  // The k-th model call is the first one that does not ask for another.
  ghost predicate EndsAt(model: Model, k: nat) {
    !GoesOn(model(k)) && forall j: nat | j < k :: GoesOn(model(j))
  }

  lemma {:induction false} RunningExactly(messages: seq<Message>, model: Model, executor: Option<Executor>, n: nat)
    ensures After(messages, model, executor, n).outcome.Running? <==> forall j: nat | j < n :: GoesOn(model(j))
  {
    if n > 0 {
      RunningExactly(messages, model, executor, n - 1);
      var before := After(messages, model, executor, n - 1);
      if before.outcome.Running? { TurnRuns(before, model(n - 1), executor); }
    }
  }

  lemma TurnRuns(loop: Loop, response: Option<Response>, executor: Option<Executor>)
    requires loop.outcome.Running?
    ensures Turn(loop, response, executor).outcome.Running? <==> GoesOn(response)
    ensures !GoesOn(response) ==>
              Turn(loop, response, executor).outcome
              == if response.None? then ModelError else Answered(Joined(response.value.blocks))
  {
    if response.Some? { UseAllKeeps(Counted(loop, response.value), response.value.blocks, executor); }
  }

  lemma EndOutcome(messages: seq<Message>, model: Model, executor: Option<Executor>, k: nat, n: nat)
    requires EndsAt(model, k) && k < n
    ensures After(messages, model, executor, n).outcome
            == if model(k).None? then ModelError else Answered(Joined(model(k).value.blocks))
  {
    RunningExactly(messages, model, executor, k);
    TurnRuns(After(messages, model, executor, k), model(k), executor);
    RunningExactly(messages, model, executor, k + 1);
    EndedStays(messages, model, executor, k + 1, n);
  }

  lemma {:induction false} FirstEnd(model: Model, n: nat) returns (k: nat)
    requires exists j: nat :: j < n && !GoesOn(model(j))
    ensures k < n && EndsAt(model, k)
  {
    if exists j: nat :: j < n - 1 && !GoesOn(model(j)) {
      k := FirstEnd(model, n - 1);
    } else {
      k := n - 1;
    }
  }

  lemma OneEnd(model: Model, j: nat, k: nat)
    requires EndsAt(model, j) && EndsAt(model, k)
    ensures j == k
  {
  }

  /**
    How a run ends, exactly. It answers with a text if and only if that is the joined text of the
    first response within the limit that neither asks for tools nor was cut off; it passes an
    exception on if and only if the model raises before; it runs out of iterations if and only if
    every response within the limit asks for another.
  */
  lemma OutcomeExactly(messages: seq<Message>, model: Model, executor: Option<Executor>, max: nat, text: string)
    ensures var outcome := Final(After(messages, model, executor, max), max);
            && (outcome == Answered(text) <==>
                  exists k: nat :: k < max && EndsAt(model, k) && model(k).Some?
                                   && text == Concat(Texts(model(k).value.blocks)))
            && (outcome.ModelError? <==> exists k: nat :: k < max && EndsAt(model, k) && model(k).None?)
            && (outcome.OutOfIterations? <==> max > 0 && forall k: nat | k < max :: GoesOn(model(k)))
            && (outcome.Unbound? <==> max == 0)
  {
    RunningExactly(messages, model, executor, max);
    if exists j: nat :: j < max && !GoesOn(model(j)) {
      var k := FirstEnd(model, max);
      EndOutcome(messages, model, executor, k, max);
      if model(k).Some? { JoinedIsAllTexts(model(k).value.blocks); }
      forall j: nat | j < max && EndsAt(model, j) ensures j == k { OneEnd(model, j, k); }
    }
  }

  // ---------- The bill ----------

  // The tokens of the first n responses.
  function Tokens(model: Model, n: nat): (nat, nat) {
    if n == 0 then (0, 0)
    else
      var before := Tokens(model, n - 1);
      if model(n - 1).None? then before
      else (before.0 + model(n - 1).value.inputTokens, before.1 + model(n - 1).value.outputTokens)
  }

  lemma TurnTokens(loop: Loop, response: Option<Response>, executor: Option<Executor>)
    ensures var t := Turn(loop, response, executor);
            && t.inputTokens == loop.inputTokens + (if response.Some? then response.value.inputTokens else 0)
            && t.outputTokens == loop.outputTokens + (if response.Some? then response.value.outputTokens else 0)
  {
    if response.Some? { UseAllKeeps(Counted(loop, response.value), response.value.blocks, executor); }
  }

  /** As long as the loop runs, and with the response that ends it, every response is billed once. */
  lemma {:induction false} TokensAreBilled(messages: seq<Message>, model: Model, executor: Option<Executor>, n: nat)
    requires forall j: nat | j + 1 < n :: GoesOn(model(j))
    ensures var loop := After(messages, model, executor, n);
            (loop.inputTokens, loop.outputTokens) == Tokens(model, n)
  {
    if n > 0 {
      TokensAreBilled(messages, model, executor, n - 1);
      RunningExactly(messages, model, executor, n - 1);
      TurnTokens(After(messages, model, executor, n - 1), model(n - 1), executor);
    }
  }

  /** The bill is the sum over the responses up to the one that ends the run, or up to the limit. */
  lemma BillExactly(messages: seq<Message>, model: Model, executor: Option<Executor>, max: nat)
    ensures var loop := After(messages, model, executor, max);
            && (forall k: nat | k < max && EndsAt(model, k) ::
                  (loop.inputTokens, loop.outputTokens) == Tokens(model, k + 1))
            && ((forall k: nat | k < max :: GoesOn(model(k))) ==>
                  (loop.inputTokens, loop.outputTokens) == Tokens(model, max))
  {
    if forall k: nat | k < max :: GoesOn(model(k)) {
      TokensAreBilled(messages, model, executor, max);
    }
    forall k: nat | k < max && EndsAt(model, k)
      ensures var loop := After(messages, model, executor, max);
              (loop.inputTokens, loop.outputTokens) == Tokens(model, k + 1)
    {
      BillAtEnd(messages, model, executor, k, max);
    }
  }

  lemma BillAtEnd(messages: seq<Message>, model: Model, executor: Option<Executor>, k: nat, max: nat)
    requires k < max && EndsAt(model, k)
    ensures var loop := After(messages, model, executor, max);
            (loop.inputTokens, loop.outputTokens) == Tokens(model, k + 1)
  {
    TokensAreBilled(messages, model, executor, k + 1);
    RunningExactly(messages, model, executor, k + 1);
    EndedStays(messages, model, executor, k + 1, max);
  }

  // ---------- Tool calls ----------

  /** Calls of tools whose names have no colon share a key if and only if name and input are the same. */
  lemma KeysTellCallsApart(a: Block, b: Block)
    requires a.ToolUse? && b.ToolUse? && ':' !in a.name && ':' !in b.name
    ensures Key(a) == Key(b) <==> a.name == b.name && a.input == b.input
  {
    var k, m, n := Key(a), |a.name|, |b.name|;
    assert k[m] == ':' && Key(b)[n] == ':';
    assert forall i | 0 <= i < m :: k[i] == a.name[i];
    assert forall i | 0 <= i < n :: Key(b)[i] == b.name[i];
    assert k[..m] == a.name && k[m + 1..] == a.input;
    assert Key(b)[..n] == b.name && Key(b)[n + 1..] == b.input;
  }

  function Keys(blocks: seq<Block>): seq<string> {
    if blocks == [] then []
    else Keys(blocks[..|blocks| - 1]) + (if blocks[|blocks| - 1].ToolUse? then [Key(blocks[|blocks| - 1])] else [])
  }

  // The tool calls of the first n responses, of those that stopped for tool use.
  function CallsOf(model: Model, n: nat): seq<string> {
    if n == 0 then []
    else CallsOf(model, n - 1)
         + (if model(n - 1).Some? && model(n - 1).value.stop.ToolStop? then Keys(model(n - 1).value.blocks) else [])
  }

  lemma {:induction false} UseAllAsks(loop: Loop, blocks: seq<Block>, executor: Option<Executor>)
    ensures UseAll(loop, blocks, executor).0.asked == loop.asked + Keys(blocks)
  {
    if blocks != [] {
      UseAllAsks(loop, blocks[..|blocks| - 1], executor);
    }
  }

  /** What the breaker is asked over a run is every tool call of every tool-use response, in order. */
  lemma {:induction false} AskedIsEveryCall(messages: seq<Message>, model: Model, executor: Option<Executor>, n: nat)
    requires forall j: nat | j + 1 < n :: GoesOn(model(j))
    ensures After(messages, model, executor, n).asked == CallsOf(model, n)
  {
    if n > 0 {
      AskedIsEveryCall(messages, model, executor, n - 1);
      RunningExactly(messages, model, executor, n - 1);
      var before, response := After(messages, model, executor, n - 1), model(n - 1);
      if response.Some? { UseAllAsks(Counted(before, response.value), response.value.blocks, executor); }
    }
  }

  // How many of these results come from the executor or its absence, not from the breaker.
  function Passed(results: seq<ToolResult>): nat {
    if results == [] then 0
    else Passed(results[..|results| - 1]) + (if results[|results| - 1].body.Blocked? then 0 else 1)
  }

  // The i-th result says what became of its call; `start` calls had been asked before these, and `done`
  // had reached the executor.
  ghost predicate Tells(start: nat, done: nat, asked: seq<string>, results: seq<ToolResult>,
                        executor: Option<Executor>, i: nat)
    requires i < |results| && start + i < |asked|
  {
    var run, body := RunLength(asked, start + i), results[i].body;
    && (body.Blocked? <==> run > 3)
    && (run <= 3 && executor.None? ==> body == NoExecutor)
    && (run <= 3 && executor.Some? ==> body == Ran(executor.value(done + Passed(results[..i]))))
  }

  ghost predicate AllTell(start: nat, done: nat, asked: seq<string>, results: seq<ToolResult>,
                          executor: Option<Executor>)
  {
    |asked| == start + |results| && forall i | 0 <= i < |results| :: Tells(start, done, asked, results, executor, i)
  }

  lemma TellsStill(start: nat, done: nat, asked: seq<string>, results: seq<ToolResult>, executor: Option<Executor>,
                   key: string, result: ToolResult, i: nat)
    requires i < |results| && start + i < |asked| && Tells(start, done, asked, results, executor, i)
    ensures Tells(start, done, asked + [key], results + [result], executor, i)
  {
    RunLengthPrefix(asked, [key], start + i);
    assert (results + [result])[..i] == results[..i];
  }

  // What one more call adds to the results that tell already.
  lemma TellsMore(start: nat, done: nat, asked: seq<string>, results: seq<ToolResult>, executor: Option<Executor>,
                  key: string, result: ToolResult)
    requires AllTell(start, done, asked, results, executor)
    requires var run := RunLength(asked + [key], |asked|);
             && (result.body.Blocked? <==> run > 3)
             && (run <= 3 ==> result.body == if executor.Some? then Ran(executor.value(done + Passed(results)))
                                             else NoExecutor)
    ensures AllTell(start, done, asked + [key], results + [result], executor)
  {
    var more := results + [result];
    forall i | 0 <= i < |more| ensures Tells(start, done, asked + [key], more, executor, i) {
      if i < |results| {
        TellsStill(start, done, asked, results, executor, key, result, i);
      } else {
        assert more[..i] == results;
      }
    }
  }

  lemma UseTells(loop: Loop, block: Block, executor: Option<Executor>)
    requires BreakerInStep(loop) && block.ToolUse?
    ensures var used, run := Use(loop, block, executor), RunLength(loop.asked + [Key(block)], |loop.asked|);
            && (used.1.body.Blocked? <==> run > 3)
            && (run <= 3 ==> used.1.body == if executor.Some? then Ran(executor.value(|loop.reached|)) else NoExecutor)
            && |used.0.reached| == |loop.reached| + (if run > 3 then 0 else 1)
            && used.0.asked == loop.asked + [Key(block)]
  {
    AllowedIsCapped(MAX_SAME, WINDOW, loop.asked);
    BlocksTooLongRuns(MAX_SAME, WINDOW, loop.asked, Key(block));
  }

  lemma PassedMore(results: seq<ToolResult>, result: ToolResult)
    ensures Passed(results + [result]) == Passed(results) + (if result.body.Blocked? then 0 else 1)
  {
    assert (results + [result])[..|results|] == results;
  }

  lemma OneTells(start: nat, done: nat, loop: Loop, results: seq<ToolResult>, block: Block, executor: Option<Executor>)
    requires BreakerInStep(loop) && block.ToolUse?
    requires AllTell(start, done, loop.asked, results, executor) && |loop.reached| == done + Passed(results)
    ensures var used := Use(loop, block, executor);
            && AllTell(start, done, used.0.asked, results + [used.1], executor)
            && |used.0.reached| == done + Passed(results + [used.1])
  {
    UseTells(loop, block, executor);
    var result := Use(loop, block, executor).1;
    TellsMore(start, done, loop.asked, results, executor, Key(block), result);
    PassedMore(results, result);
  }

  /**
    Tool results, exactly: over the tool calls of one response the result says that the call was
    blocked if and only if it is the fourth or a later identical call in a row of the whole run;
    otherwise it carries what the executor returned to the next call that reached it.
  */
  lemma {:induction false} ResultsTell(loop: Loop, blocks: seq<Block>, executor: Option<Executor>)
    requires BreakerInStep(loop)
    ensures var used := UseAll(loop, blocks, executor);
            && AllTell(|loop.asked|, |loop.reached|, used.0.asked, used.1, executor)
            && |used.0.reached| == |loop.reached| + Passed(used.1)
  {
    if blocks != [] {
      var front, block := blocks[..|blocks| - 1], blocks[|blocks| - 1];
      ResultsTell(loop, front, executor);
      if block.ToolUse? {
        UseAllInStep(loop, front, executor);
        var before := UseAll(loop, front, executor);
        OneTells(|loop.asked|, |loop.reached|, before.0, before.1, block, executor);
      }
    }
  }

  /** So it is for the tool results in the history of every run. */
  lemma ToolResultsExactly(messages: seq<Message>, model: Model, executor: Option<Executor>, k: nat)
    requires After(messages, model, executor, k).outcome.Running? && model(k).Some? && model(k).value.stop.ToolStop?
    ensures var before, next := After(messages, model, executor, k), After(messages, model, executor, k + 1);
            var answer := next.history[|next.history| - 1];
            && answer.role.User? && answer.content.Results?
            && AllTell(|before.asked|, |before.reached|, next.asked, answer.content.results, executor)
            && Ids(answer.content.results) == ToolIds(model(k).value.blocks)
  {
    RunInStep(messages, model, executor, k);
    var counted := Counted(After(messages, model, executor, k), model(k).value);
    ResultsTell(counted, model(k).value.blocks, executor);
    ResultsMatch(counted, model(k).value.blocks, executor);
  }
}
