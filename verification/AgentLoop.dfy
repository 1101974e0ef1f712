/**
  The agent loop of `llm/client.py`, run_agent: call the model, run the tools it asks for through the
  circuit breaker, append both turns to the history, repeat. The model and the tools are arbitrary:
  the i-th model call has any outcome, and so has the k-th tool execution.
*/
module AgentLoop {
  import opened Wrappers
  import opened Breaker

  datatype Block = Text(text: string) | ToolUse(id: string, name: string, input: string)

  datatype Stop = EndTurn | MaxTokens | ToolStop | OtherStop

  datatype Response = Response(stop: Stop, blocks: seq<Block>, inputTokens: nat, outputTokens: nat)

  datatype Body = Blocked | NoExecutor | Ran(outcome: ToolOutcome)

  datatype ToolOutcome = Returned(text: string) | Raised(text: string)

  datatype ToolResult = ToolResult(id: string, body: Body)

  datatype Role = User | Assistant

  datatype Content = Plain(text: string) | BlockList(blocks: seq<Block>) | Results(results: seq<ToolResult>)

  datatype Message = Message(role: Role, content: Content)

  // Outcomes of the environment: None is a model call that raises after its retries.
  type Model = nat -> Option<Response>
  type Executor = nat -> ToolOutcome

  const MAX_SAME: int := 3
  const WINDOW: nat := 50

  const CONTINUE: Message := Message(User, Plain("Continue from where you stopped."))

  datatype Outcome =
    | Running
    | Answered(text: string)
    | ModelError       // the exception is passed on and the run's tokens are not billed
    | OutOfIterations
    | Unbound          // without any iteration the usage record names an unset variable

  // `calls` are the histories the model was called with, `asked` the keys of the tool calls that
  // reached the breaker and `reached` those that reached the executor, all in order.
  datatype Loop = Loop(history: seq<Message>, breaker: seq<string>, outcome: Outcome,
                       inputTokens: nat, outputTokens: nat,
                       calls: seq<seq<Message>>, asked: seq<string>, reached: seq<string>)

  function Key(block: Block): string
    requires block.ToolUse?
  {
    block.name + ":" + block.input
  }

  function Joined(blocks: seq<Block>): string {
    if blocks == [] then ""
    else (if blocks[0].Text? then blocks[0].text else "") + Joined(blocks[1..])
  }

  // One tool call: the breaker decides, then the executor answers if there is one.
  function Use(loop: Loop, block: Block, executor: Option<Executor>): (Loop, ToolResult)
    requires block.ToolUse?
  {
    var key := Key(block);
    var asked := loop.(asked := loop.asked + [key]);
    if Blocks(loop.breaker, MAX_SAME, key) then (asked, ToolResult(block.id, Blocked))
    else
      var passed := asked.(breaker := Push(loop.breaker, WINDOW, key), reached := loop.reached + [key]);
      (passed, ToolResult(block.id, if executor.Some? then Ran(executor.value(|loop.reached|)) else NoExecutor))
  }

  function UseAll(loop: Loop, blocks: seq<Block>, executor: Option<Executor>): (Loop, seq<ToolResult>) {
    if blocks == [] then (loop, [])
    else
      var before := UseAll(loop, blocks[..|blocks| - 1], executor);
      var block := blocks[|blocks| - 1];
      if !block.ToolUse? then before
      else
        var used := Use(before.0, block, executor);
        (used.0, before.1 + [used.1])
  }

  // The bookkeeping of one model call.
  function Counted(loop: Loop, r: Response): Loop {
    loop.(calls := loop.calls + [loop.history],
          inputTokens := loop.inputTokens + r.inputTokens, outputTokens := loop.outputTokens + r.outputTokens)
  }

  function Turn(loop: Loop, response: Option<Response>, executor: Option<Executor>): Loop {
    if response.None? then loop.(calls := loop.calls + [loop.history], outcome := ModelError)
    else
      var r := response.value;
      var counted := Counted(loop, r);
      match r.stop
      case EndTurn => counted.(outcome := Answered(Joined(r.blocks)))
      case MaxTokens => counted.(history := loop.history + [Message(Assistant, BlockList(r.blocks)), CONTINUE])
      case ToolStop =>
        var used := UseAll(counted, r.blocks, executor);
        used.0.(history := loop.history + [Message(Assistant, BlockList(r.blocks)), Message(User, Results(used.1))])
      case OtherStop => counted.(outcome := Answered(Joined(r.blocks)))
  }

  function Start(messages: seq<Message>): Loop {
    Loop(messages, [], Running, 0, 0, [], [], [])
  }

  // The state after n iterations; a loop that has ended stays as it is.
  function After(messages: seq<Message>, model: Model, executor: Option<Executor>, n: nat): Loop {
    if n == 0 then Start(messages)
    else
      var before := After(messages, model, executor, n - 1);
      if before.outcome.Running? then Turn(before, model(n - 1), executor) else before
  }

  function Final(loop: Loop, maxIterations: nat): Outcome {
    if maxIterations == 0 then Unbound else if loop.outcome.Running? then OutOfIterations else loop.outcome
  }

  /** run_agent after its budget check; `billed` are the tokens added to the day's spend. */
  method RunAgent(messages: seq<Message>, model: Model, executor: Option<Executor>, maxIterations: nat)
    returns (outcome: Outcome, billed: Option<(nat, nat)>, history: seq<Message>)
    ensures var loop := After(messages, model, executor, maxIterations);
            && outcome == Final(loop, maxIterations) && history == loop.history
            && billed == if outcome.ModelError? then None else Some((loop.inputTokens, loop.outputTokens))
  {
    var breaker := new CircuitBreaker(MAX_SAME, WINDOW);
    var inputTokens, outputTokens, executions, iteration := 0, 0, 0, 0;
    history, outcome := messages, Running;
    ghost var trace := Start(messages);
    while iteration < maxIterations && outcome.Running?
      invariant 0 <= iteration <= maxIterations
      invariant trace == After(messages, model, executor, iteration) && outcome == trace.outcome
      invariant inputTokens == trace.inputTokens && outputTokens == trace.outputTokens && history == trace.history
      invariant breaker.maxSame == MAX_SAME && breaker.window == WINDOW && breaker.history == trace.breaker
      invariant executions == |trace.reached| && fresh(breaker)
    {
      var response := model(iteration);
      ghost var before := trace;
      trace := Turn(trace, response, executor);
      iteration := iteration + 1;
      if response.None? {
        outcome := ModelError;
        break;
      }
      inputTokens := inputTokens + response.value.inputTokens;
      outputTokens := outputTokens + response.value.outputTokens;
      var blocks := response.value.blocks;
      match response.value.stop {
        case MaxTokens =>
          history := history + [Message(Assistant, BlockList(blocks)), CONTINUE];
        case ToolStop =>
          ghost var counted := Counted(before, response.value);
          UseAllKeeps(counted, blocks, executor);
          var results;
          results, executions := UseTools(breaker, blocks, executor, executions, counted);
          history := history + [Message(Assistant, BlockList(blocks)), Message(User, Results(results))];
        case _ =>
          outcome := Answered(Joined(blocks));
      }
    }
    EndedStays(messages, model, executor, iteration, maxIterations);
    billed := if outcome.ModelError? then None else Some((inputTokens, outputTokens));
    if maxIterations == 0 {
      outcome := Unbound;
    } else if outcome.Running? {
      outcome := OutOfIterations;
    }
  }

  // The loop over the blocks of one response.
  method UseTools(breaker: CircuitBreaker, blocks: seq<Block>, executor: Option<Executor>, executed: nat,
                  ghost loop: Loop)
    returns (results: seq<ToolResult>, executions: nat)
    requires breaker.maxSame == MAX_SAME && breaker.window == WINDOW && breaker.history == loop.breaker
    requires executed == |loop.reached|
    modifies breaker
    ensures results == UseAll(loop, blocks, executor).1
    ensures breaker.history == UseAll(loop, blocks, executor).0.breaker
    ensures executions == |UseAll(loop, blocks, executor).0.reached|
  {
    results, executions := [], executed;
    var i := 0;
    while i < |blocks|
      invariant 0 <= i <= |blocks|
      invariant results == UseAll(loop, blocks[..i], executor).1
      invariant breaker.history == UseAll(loop, blocks[..i], executor).0.breaker
      invariant executions == |UseAll(loop, blocks[..i], executor).0.reached|
    {
      var block := blocks[i];
      assert blocks[..i + 1][..i] == blocks[..i];
      i := i + 1;
      if !block.ToolUse? {
        continue;
      }
      var allowed := breaker.Check(Key(block));
      if !allowed {
        results := results + [ToolResult(block.id, Blocked)];
        continue;
      }
      var body := NoExecutor;
      if executor.Some? {
        body := Ran(executor.value(executions));
      }
      executions := executions + 1;
      results := results + [ToolResult(block.id, body)];
    }
    assert blocks[..i] == blocks;
  }

  lemma {:induction false} EndedStays(messages: seq<Message>, model: Model, executor: Option<Executor>, n: nat, m: nat)
    requires n <= m
    ensures var ended := After(messages, model, executor, n);
            !ended.outcome.Running? ==> After(messages, model, executor, m) == ended
  {
    if n < m {
      EndedStays(messages, model, executor, n, m - 1);
    }
  }

  // ---------- The message protocol ----------

  /** What the model requires: user and assistant alternate, and the last turn is the user's. */
  ghost predicate Alternating(history: seq<Message>) {
    && history != []
    && history[|history| - 1].role == User
    && forall i | 0 <= i < |history| - 1 :: history[i].role != history[i + 1].role
  }

  lemma {:induction false} UseAllKeeps(loop: Loop, blocks: seq<Block>, executor: Option<Executor>)
    ensures var used := UseAll(loop, blocks, executor).0;
            && used.calls == loop.calls && used.history == loop.history && used.outcome == loop.outcome
            && used.inputTokens == loop.inputTokens && used.outputTokens == loop.outputTokens
  {
    if blocks != [] {
      UseAllKeeps(loop, blocks[..|blocks| - 1], executor);
    }
  }

  lemma TurnAlternates(loop: Loop, response: Option<Response>, executor: Option<Executor>)
    requires Alternating(loop.history)
    ensures var next := Turn(loop, response, executor);
            Alternating(next.history) && next.calls == loop.calls + [loop.history]
  {
    if response.Some? {
      UseAllKeeps(Counted(loop, response.value), response.value.blocks, executor);
    }
  }

  /** Every history the model is called with alternates and ends with the user. */
  lemma {:induction false} ModelSeesAlternation(messages: seq<Message>, model: Model,
                                                     executor: Option<Executor>, n: nat)
    requires Alternating(messages)
    ensures var loop := After(messages, model, executor, n);
            Alternating(loop.history) && forall i | 0 <= i < |loop.calls| :: Alternating(loop.calls[i])
  {
    if n > 0 {
      ModelSeesAlternation(messages, model, executor, n - 1);
      TurnAlternates(After(messages, model, executor, n - 1), model(n - 1), executor);
    }
  }

  // ---------- Tool results ----------

  function ToolIds(blocks: seq<Block>): seq<string> {
    if blocks == [] then []
    else ToolIds(blocks[..|blocks| - 1])
         + (if blocks[|blocks| - 1].ToolUse? then [blocks[|blocks| - 1].id] else [])
  }

  function Ids(results: seq<ToolResult>): seq<string> {
    seq(|results|, i requires 0 <= i < |results| => results[i].id)
  }

  lemma {:induction false} ResultsMatch(loop: Loop, blocks: seq<Block>, executor: Option<Executor>)
    ensures Ids(UseAll(loop, blocks, executor).1) == ToolIds(blocks)
  {
    if blocks != [] {
      ResultsMatch(loop, blocks[..|blocks| - 1], executor);
    }
  }

  // The k-th iteration asks for another one.
  ghost predicate Continues(messages: seq<Message>, model: Model, executor: Option<Executor>, k: nat) {
    && After(messages, model, executor, k).outcome.Running?
    && model(k).Some? && (model(k).value.stop.ToolStop? || model(k).value.stop.MaxTokens?)
  }

  ghost predicate Answers(message: Message, blocks: seq<Block>) {
    message.role.User? && message.content.Results? && Ids(message.content.results) == ToolIds(blocks)
  }

  lemma {:induction false} RunningLength(messages: seq<Message>, model: Model, executor: Option<Executor>, n: nat)
    ensures var loop := After(messages, model, executor, n);
            loop.outcome.Running? ==> |loop.history| == |messages| + 2 * n
  {
    if n > 0 {
      RunningLength(messages, model, executor, n - 1);
      EndedStays(messages, model, executor, n - 1, n);
    }
  }

  lemma {:induction false} HistoryGrows(messages: seq<Message>, model: Model, executor: Option<Executor>,
                                             m: nat, n: nat)
    requires m <= n
    ensures After(messages, model, executor, m).history <= After(messages, model, executor, n).history
  {
    if m < n {
      HistoryGrows(messages, model, executor, m, n - 1);
    }
  }

  /**
    Tool results, exactly: when an iteration asks for another one, its assistant turn stands in every
    later history at a fixed place, and if it has tool calls the next turn answers them, id for id in
    order, if and only if the model stopped for tool use. A turn cut off at max_tokens with tool calls
    in it is followed by the continuation request instead.
  */
  lemma ToolCallsAnsweredExactly(messages: seq<Message>, model: Model, executor: Option<Executor>, k: nat, n: nat)
    requires k < n && Continues(messages, model, executor, k)
    ensures var history := After(messages, model, executor, n).history;
            var at, r := |messages| + 2 * k, model(k).value;
            && at + 1 < |history|
            && history[at] == Message(Assistant, BlockList(r.blocks))
            && (r.stop.ToolStop? ==> Answers(history[at + 1], r.blocks))
            && (r.stop.MaxTokens? ==> history[at + 1] == Message(User, Plain("Continue from where you stopped.")))
            && (Answers(history[at + 1], r.blocks) <==> r.stop.ToolStop?)
  {
    RunningLength(messages, model, executor, k);
    HistoryGrows(messages, model, executor, k + 1, n);
    var before, r := After(messages, model, executor, k), model(k).value;
    ResultsMatch(Counted(before, r), r.blocks, executor);
    assert After(messages, model, executor, k + 1) == Turn(before, model(k), executor);
    var next := After(messages, model, executor, k + 1).history;
    assert next[|messages| + 2 * k] == Message(Assistant, BlockList(r.blocks));
  }

  // ---------- The breaker over the whole run ----------

  ghost predicate BreakerInStep(loop: Loop) {
    && loop.breaker == HistoryAfter(MAX_SAME, WINDOW, loop.asked)
    && loop.reached == Allowed(MAX_SAME, WINDOW, loop.asked)
  }

  lemma {:induction false} UseAllInStep(loop: Loop, blocks: seq<Block>, executor: Option<Executor>)
    requires BreakerInStep(loop)
    ensures BreakerInStep(UseAll(loop, blocks, executor).0)
  {
    if blocks != [] {
      UseAllInStep(loop, blocks[..|blocks| - 1], executor);
      var before, block := UseAll(loop, blocks[..|blocks| - 1], executor).0, blocks[|blocks| - 1];
      if block.ToolUse? {
        assert (before.asked + [Key(block)])[..|before.asked|] == before.asked;
      }
    }
  }

  lemma TurnInStep(loop: Loop, response: Option<Response>, executor: Option<Executor>)
    requires BreakerInStep(loop)
    ensures BreakerInStep(Turn(loop, response, executor))
  {
    var next := Turn(loop, response, executor);
    if response.Some? && response.value.stop.ToolStop? {
      var counted := Counted(loop, response.value);
      UseAllInStep(counted, response.value.blocks, executor);
      var used := UseAll(counted, response.value.blocks, executor).0;
      assert next.breaker == used.breaker && next.asked == used.asked && next.reached == used.reached;
    } else {
      assert next.breaker == loop.breaker && next.asked == loop.asked && next.reached == loop.reached;
    }
  }

  lemma {:induction false} RunInStep(messages: seq<Message>, model: Model, executor: Option<Executor>, n: nat)
    ensures BreakerInStep(After(messages, model, executor, n))
  {
    if n > 0 {
      RunInStep(messages, model, executor, n - 1);
      TurnInStep(After(messages, model, executor, n - 1), model(n - 1), executor);
    }
  }

  /**
    What reaches the executor over a whole run: the tool calls of all responses with every run of
    identical calls cut to three, so never four identical calls in a row.
  */
  lemma ExecutorSeesCappedRuns(messages: seq<Message>, model: Model, executor: Option<Executor>, n: nat)
    ensures var loop := After(messages, model, executor, n);
            && loop.reached == Capped(loop.asked, MAX_SAME)
            && forall i | 0 <= i < |loop.reached| - 3 ::
                 !(loop.reached[i] == loop.reached[i + 1] == loop.reached[i + 2] == loop.reached[i + 3])
  {
    RunInStep(messages, model, executor, n);
    var loop := After(messages, model, executor, n);
    AllowedIsCapped(MAX_SAME, WINDOW, loop.asked);
    forall i | 0 <= i < |loop.reached| - 3
      ensures !(loop.reached[i] == loop.reached[i + 1] == loop.reached[i + 2] == loop.reached[i + 3])
    {
      NoFourInARow(loop.asked, i);
    }
  }

  lemma NoFourInARow(keys: seq<string>, i: nat)
    requires i + 3 < |Capped(keys, MAX_SAME)|
    ensures var c := Capped(keys, MAX_SAME); !(c[i] == c[i + 1] == c[i + 2] == c[i + 3])
  {
    var c := Capped(keys, MAX_SAME);
    NoLongRuns(keys, MAX_SAME, i + 3);
    RunMeansEqual(c, i + 3, 4);
    var j :| i + 3 - 4 < j <= i + 3 && c[j] != c[i + 3];
    assert j == i || j == i + 1 || j == i + 2;
  }
}
