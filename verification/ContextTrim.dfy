/**
  Context trimming (`memory/store.py`, trim_context): a batch of pairs is dropped by an estimate of
  500 tokens a pair, then single pairs until the rest fits. The reference is plain trimming, one
  oldest pair at a time.
*/
module ContextTrim {

  datatype Role = User | Assistant | System | Tool

  // `content` is the text whose length the estimate uses, str(content).
  datatype Message = Message(role: Role, content: string)

  const PAIR_ESTIMATE: int := 500

  function Tokens(text: string): nat {
    |text| / 4
  }

  function Cost(messages: seq<Message>): nat {
    if messages == [] then 0 else Tokens(messages[0].content) + Cost(messages[1..])
  }

  function Rest(messages: seq<Message>): seq<Message> {
    if messages == [] then []
    else (if messages[0].role.System? then [] else [messages[0]]) + Rest(messages[1..])
  }

  // rest[n:], which stops at the end of the list.
  function Drop(rest: seq<Message>, n: nat): seq<Message> {
    if n <= |rest| then rest[n..] else []
  }

  function DropAssistant(rest: seq<Message>): seq<Message> {
    if rest != [] && rest[0].role.Assistant? then rest[1..] else rest
  }

  function FineTune(rest: seq<Message>, budget: int): seq<Message>
    decreases |rest|
  {
    if |rest| <= 2 || Cost(rest) <= budget then rest else FineTune(DropAssistant(rest[2..]), budget)
  }

  // How many pairs the estimate removes, for a rest that is over the budget.
  function BatchPairs(rest: seq<Message>, budget: int): nat
    requires Cost(rest) > budget
  {
    (Cost(rest) - budget) / PAIR_ESTIMATE
  }

  /** What trimming leaves; `budget` is what max_tokens leaves after the system prompt. */
  function Trim(rest: seq<Message>, budget: int): seq<Message> {
    if Cost(rest) <= budget then rest
    else FineTune(DropAssistant(Drop(rest, 2 * BatchPairs(rest, budget))), budget)
  }

  method TrimContext(messages: seq<Message>, system: string, maxTokens: int) returns (rest: seq<Message>)
    ensures rest == Trim(Rest(messages), maxTokens - Tokens(system))
  {
    var systemTokens := Tokens(system);
    rest := Rest(messages);
    rest := TrimRest(rest, systemTokens, maxTokens);
  }

  // What trim_context does after the system messages are gone.
  method TrimRest(all: seq<Message>, systemTokens: nat, maxTokens: int) returns (rest: seq<Message>)
    ensures rest == Trim(all, maxTokens - systemTokens)
  {
    rest := all;
    var total := systemTokens + Cost(rest);
    if total <= maxTokens {
      return;
    }
    var pairs := (total - maxTokens) / PAIR_ESTIMATE;
    rest := Drop(rest, 2 * pairs);
    rest := DropAssistant(rest);
    rest := RemoveSinglePairs(rest, systemTokens, maxTokens);
  }

  // The loop of trim_context, after the batch is gone.
  method RemoveSinglePairs(batched: seq<Message>, systemTokens: nat, maxTokens: int) returns (rest: seq<Message>)
    ensures rest == FineTune(batched, maxTokens - systemTokens)
  {
    rest := batched;
    while |rest| > 2
      invariant FineTune(rest, maxTokens - systemTokens) == FineTune(batched, maxTokens - systemTokens)
      decreases |rest|
    {
      var total := systemTokens + Cost(rest);
      if total <= maxTokens {
        break;
      }
      rest := rest[2..];
      rest := DropAssistant(rest);
    }
  }

  lemma {:induction false} RestConcat(a: seq<Message>, b: seq<Message>)
    ensures Rest(a + b) == Rest(a) + Rest(b)
  {
    if a == [] {
      assert a + b == b;
    } else {
      assert (a + b)[1..] == a[1..] + b;
      RestConcat(a[1..], b);
    }
  }

  /** Exactly the system messages go before trimming, and the others keep their order. */
  lemma RestFilters(before: seq<Message>, m: Message, after: seq<Message>)
    ensures Rest(before + [m] + after) == Rest(before) + (if m.role.System? then [] else [m]) + Rest(after)
  {
    RestConcat(before, [m]);
    RestConcat(before + [m], after);
    assert Rest([m]) == if m.role.System? then [] else [m] by { assert [m][1..] == []; }
  }

  // ---------- The reference ----------

  /** Remove the oldest pair until the rest fits or one or two messages are left. */
  function PlainTrim(rest: seq<Message>, budget: int): seq<Message>
    decreases |rest|
  {
    if |rest| <= 2 || Cost(rest) <= budget then rest else PlainTrim(rest[2..], budget)
  }

  ghost predicate Alternates(rest: seq<Message>) {
    forall i | 0 <= i < |rest| :: rest[i].role == if i % 2 == 0 then User else Assistant
  }

  lemma {:induction false} CostSuffix(rest: seq<Message>, n: nat)
    requires n <= |rest|
    ensures Cost(rest[n..]) <= Cost(rest)
  {
    if n > 0 {
      CostSuffix(rest[1..], n - 1);
      assert rest[1..][n - 1..] == rest[n..];
    } else {
      assert rest[0..] == rest;
    }
  }

  lemma CostFromTo(rest: seq<Message>, m: nat, n: nat)
    requires m <= n <= |rest|
    ensures Cost(rest[n..]) <= Cost(rest[m..])
  {
    CostSuffix(rest[m..], n - m);
    assert rest[m..][n - m..] == rest[n..];
  }

  lemma WithoutPair(rest: seq<Message>)
    requires Alternates(rest) && |rest| >= 2
    ensures Alternates(rest[2..])
  {
    var tail := rest[2..];
    forall i | 0 <= i < |tail| ensures tail[i].role == if i % 2 == 0 then User else Assistant {
      assert tail[i] == rest[i + 2] && (i + 2) % 2 == i % 2;
    }
  }

  lemma {:induction false} AlternatesSuffix(rest: seq<Message>, n: nat)
    requires Alternates(rest) && 2 * n <= |rest|
    ensures Alternates(rest[2 * n..]) && DropAssistant(rest[2 * n..]) == rest[2 * n..]
    decreases n
  {
    if n == 0 {
      assert rest[0..] == rest;
    } else {
      WithoutPair(rest);
      AlternatesSuffix(rest[2..], n - 1);
      assert rest[2..][2 * (n - 1)..] == rest[2 * n..];
    }
  }

  // On alternating messages the fine tuning is plain trimming.
  lemma {:induction false} FineTuneIsPlain(rest: seq<Message>, budget: int)
    requires Alternates(rest)
    ensures FineTune(rest, budget) == PlainTrim(rest, budget)
    decreases |rest|
  {
    if |rest| > 2 && Cost(rest) > budget {
      AlternatesSuffix(rest, 1);
      FineTuneIsPlain(rest[2..], budget);
    }
  }

  /** Plain trimming finds the first place where the rest fits or is down to one or two messages. */
  lemma {:induction false} PlainTrimFinds(rest: seq<Message>, budget: int) returns (q: nat)
    ensures 2 * q <= |rest| && (rest != [] ==> 2 * q < |rest|)
    ensures PlainTrim(rest, budget) == rest[2 * q..]
    ensures |rest| - 2 * q <= 2 || Cost(rest[2 * q..]) <= budget
    ensures forall j | 0 <= j < q :: |rest| - 2 * j > 2 && Cost(rest[2 * j..]) > budget
    decreases |rest|
  {
    assert rest[0..] == rest;
    if |rest| <= 2 || Cost(rest) <= budget {
      q := 0;
    } else {
      var q' := PlainTrimFinds(rest[2..], budget);
      q := q' + 1;
      assert rest[2..][2 * q'..] == rest[2 * q..];
      forall j | 0 <= j < q ensures |rest| - 2 * j > 2 && Cost(rest[2 * j..]) > budget {
        if j > 0 { assert rest[2..][2 * (j - 1)..] == rest[2 * j..]; }
      }
    }
  }

  // Plain trimming from a place it passes ends at the same place.
  lemma {:induction false} PlainTrimSkips(rest: seq<Message>, budget: int, p: nat)
    requires 2 * p <= |rest|
    requires p == 0 || (2 * p < |rest| && Cost(rest[2 * (p - 1)..]) > budget)
    ensures PlainTrim(rest, budget) == PlainTrim(rest[2 * p..], budget)
  {
    if p == 0 {
      assert rest[0..] == rest;
    } else {
      CostFromTo(rest, 0, 2 * (p - 1));
      assert rest[0..] == rest;
      if p > 1 { assert rest[2..][2 * (p - 2)..] == rest[2 * (p - 1)..]; }
      assert rest[2..][2 * (p - 1)..] == rest[2 * p..];
      PlainTrimSkips(rest[2..], budget, p - 1);
    }
  }

  // The pairs the estimate removes would all be removed one by one.
  predicate BatchIsSafe(rest: seq<Message>, budget: int)
    requires Cost(rest) > budget
  {
    var p := BatchPairs(rest, budget);
    p == 0 || (2 * p < |rest| && Cost(rest[2 * (p - 1)..]) > budget)
  }

  /**
    When the batch agrees with plain trimming, exactly: on alternating messages over the budget the
    two agree if and only if the batch leaves a message and the rest is still over the budget before
    the batch's last pair goes.
  */
  lemma TrimAgreesExactly(rest: seq<Message>, budget: int)
    requires Alternates(rest) && rest != [] && Cost(rest) > budget
    ensures Trim(rest, budget) == PlainTrim(rest, budget) <==> BatchIsSafe(rest, budget)
  {
    var p := BatchPairs(rest, budget);
    if BatchIsSafe(rest, budget) {
      if p == 0 { assert rest[0..] == rest; }
      AlternatesSuffix(rest, p);
      FineTuneIsPlain(rest[2 * p..], budget);
      PlainTrimSkips(rest, budget, p);
    } else {
      var q := PlainTrimFinds(rest, budget);
      UnsafeIsFurther(rest, budget, q);
      FineTuneShrinks(DropAssistant(Drop(rest, 2 * p)), budget);
    }
  }

  lemma UnsafeIsFurther(rest: seq<Message>, budget: int, q: nat)
    requires rest != [] && Cost(rest) > budget && !BatchIsSafe(rest, budget) && 2 * q < |rest|
    requires forall j | 0 <= j < q :: |rest| - 2 * j > 2 && Cost(rest[2 * j..]) > budget
    ensures q < BatchPairs(rest, budget)
  {
    assert BatchPairs(rest, budget) > 0;
  }

  lemma {:induction false} FineTuneShrinks(rest: seq<Message>, budget: int)
    ensures |FineTune(rest, budget)| <= |rest|
    decreases |rest|
  {
    if |rest| > 2 && Cost(rest) > budget {
      FineTuneShrinks(DropAssistant(rest[2..]), budget);
    }
  }

  // ---------- Pairs within the estimate ----------

  function PairCost(rest: seq<Message>, i: nat): nat
    requires i < |rest|
  {
    Tokens(rest[i].content) + (if i + 1 < |rest| then Tokens(rest[i + 1].content) else 0)
  }

  ghost predicate PairsWithinEstimate(rest: seq<Message>) {
    forall j: nat | 2 * j < |rest| :: PairCost(rest, 2 * j) <= 500
  }

  lemma {:induction false} SmallPairsCost(rest: seq<Message>, p: nat)
    requires PairsWithinEstimate(rest)
    ensures 2 * p <= |rest| ==> Cost(rest) <= Cost(rest[2 * p..]) + 500 * p
    ensures 2 * p >= |rest| ==> Cost(rest) <= 500 * p
    decreases p
  {
    assert rest[0..] == rest;
    if p > 0 && rest != [] {
      assert PairCost(rest, 2 * 0) <= 500;
      if |rest| == 1 {
        assert Cost(rest[1..]) == 0;
      } else {
        assert Cost(rest) == PairCost(rest, 0) + Cost(rest[2..]) by { assert rest[1..][1..] == rest[2..]; }
        forall j: nat | 2 * j < |rest[2..]| ensures PairCost(rest[2..], 2 * j) <= 500 {
          assert PairCost(rest[2..], 2 * j) == PairCost(rest, 2 * (j + 1));
        }
        SmallPairsCost(rest[2..], p - 1);
        if 2 * p <= |rest| { assert rest[2..][2 * (p - 1)..] == rest[2 * p..]; }
      }
    }
  }

  // Then the pairs the estimate removes cost less than what is over the budget.
  lemma SmallPairsAreSafe(rest: seq<Message>, budget: int)
    requires PairsWithinEstimate(rest) && Cost(rest) > budget > 0
    ensures BatchIsSafe(rest, budget)
  {
    var p := BatchPairs(rest, budget);
    assert 500 * p <= Cost(rest) - budget;
    SmallPairsCost(rest, p);
    if p > 0 && 2 * p < |rest| {
      SmallPairsCost(rest, p - 1);
    }
  }

  /**
    Batch trimming refines plain trimming: when no pair costs more than the estimate and the system
    prompt alone fits, the two agree, and the result is the longest suffix at an even offset that
    fits or, failing that, the last one or two messages.
  */
  lemma BatchRefinesPlain(rest: seq<Message>, budget: int) returns (q: nat)
    requires Alternates(rest) && PairsWithinEstimate(rest) && budget > 0
    ensures Trim(rest, budget) == PlainTrim(rest, budget)
    ensures 2 * q <= |rest| && Trim(rest, budget) == rest[2 * q..]
    ensures |rest| - 2 * q <= 2 || Cost(rest[2 * q..]) <= budget
    ensures forall j | 0 <= j < q :: |rest| - 2 * j > 2 && Cost(rest[2 * j..]) > budget
  {
    q := PlainTrimFinds(rest, budget);
    if Cost(rest) > budget {
      SmallPairsAreSafe(rest, budget);
      TrimAgreesExactly(rest, budget);
    }
  }

  // ---------- All inputs ----------

  ghost predicate Suffix(a: seq<Message>, b: seq<Message>) {
    |a| <= |b| && a == b[|b| - |a|..]
  }

  lemma SuffixTrans(a: seq<Message>, b: seq<Message>, c: seq<Message>)
    requires Suffix(a, b) && Suffix(b, c)
    ensures Suffix(a, c)
  {
    assert a == c[|c| - |b|..][|b| - |a|..];
  }

  lemma {:induction false} FineTuneSuffix(rest: seq<Message>, budget: int)
    ensures Suffix(FineTune(rest, budget), rest)
    ensures |FineTune(rest, budget)| <= 2 || Cost(FineTune(rest, budget)) <= budget
    decreases |rest|
  {
    if |rest| > 2 && Cost(rest) > budget {
      var next := DropAssistant(rest[2..]);
      FineTuneSuffix(next, budget);
      assert Suffix(next, rest);
      SuffixTrans(FineTune(next, budget), next, rest);
    }
  }

  ghost predicate NoAdjacentAssistants(rest: seq<Message>) {
    forall i | 0 <= i < |rest| - 1 :: !(rest[i].role.Assistant? && rest[i + 1].role.Assistant?)
  }

  lemma {:induction false} FineTuneFirst(rest: seq<Message>, budget: int)
    requires NoAdjacentAssistants(rest) && (rest == [] || !rest[0].role.Assistant?)
    ensures var r := FineTune(rest, budget); r == [] || !r[0].role.Assistant?
    decreases |rest|
  {
    if |rest| > 2 && Cost(rest) > budget {
      var tail := rest[2..];
      assert forall i | 0 <= i < |tail| :: tail[i] == rest[i + 2];
      FineTuneFirst(DropAssistant(tail), budget);
    }
  }

  lemma SuffixKeeps(rest: seq<Message>, k: nat)
    requires k <= |rest|
    ensures Suffix(rest[k..], rest)
    ensures NoAdjacentAssistants(rest) ==> NoAdjacentAssistants(rest[k..])
  {
    assert forall i | 0 <= i < |rest| - k :: rest[k..][i] == rest[k + i];
  }

  lemma DropSuffix(rest: seq<Message>, n: nat)
    ensures Suffix(Drop(rest, n), rest)
    ensures NoAdjacentAssistants(rest) ==> NoAdjacentAssistants(Drop(rest, n))
  {
    if n <= |rest| {
      SuffixKeeps(rest, n);
    }
  }

  // What the batch leaves is a suffix, and does not start with an assistant message.
  lemma BatchSuffix(rest: seq<Message>, n: nat)
    ensures var next := DropAssistant(Drop(rest, n));
            && Suffix(next, rest)
            && (NoAdjacentAssistants(rest) ==>
                  NoAdjacentAssistants(next) && (next == [] || !next[0].role.Assistant?))
  {
    var dropped := Drop(rest, n);
    DropSuffix(rest, n);
    if dropped != [] && dropped[0].role.Assistant? {
      SuffixKeeps(dropped, 1);
      SuffixTrans(dropped[1..], dropped, rest);
    }
  }

  /**
    For all messages: the result is a suffix of the non-system messages, and it fits the budget or
    has at most two messages. When no two assistant messages are adjacent, it starts with an
    assistant message if and only if nothing had to be trimmed and the rest started with one.
  */
  lemma TrimShape(rest: seq<Message>, budget: int)
    ensures var r := Trim(rest, budget);
            && Suffix(r, rest)
            && (|r| <= 2 || Cost(r) <= budget)
            && (NoAdjacentAssistants(rest) ==>
                  (r != [] && r[0].role.Assistant? <==>
                   Cost(rest) <= budget && rest != [] && rest[0].role.Assistant?))
  {
    if Cost(rest) > budget {
      var n := 2 * BatchPairs(rest, budget);
      var next := DropAssistant(Drop(rest, n));
      BatchSuffix(rest, n);
      FineTuneSuffix(next, budget);
      SuffixTrans(FineTune(next, budget), next, rest);
      if NoAdjacentAssistants(rest) {
        FineTuneFirst(next, budget);
      }
    }
  }

  /**
    When everything is lost, exactly: on alternating messages over the budget nothing is left if and
    only if the estimate removes as many messages as there are.
  */
  lemma NothingLeftExactly(rest: seq<Message>, budget: int)
    requires Alternates(rest) && Cost(rest) > budget
    ensures Trim(rest, budget) == [] <==> 2 * BatchPairs(rest, budget) >= |rest|
  {
    var p := BatchPairs(rest, budget);
    if 2 * p < |rest| {
      AlternatesSuffix(rest, p);
      FineTuneIsPlain(rest[2 * p..], budget);
      var q := PlainTrimFinds(rest[2 * p..], budget);
    }
  }

  // The loop comes down to these messages before it stops.
  ghost predicate ComesDownTo(rest: seq<Message>, budget: int, last: seq<Message>)
    decreases |rest|
  {
    rest == last || (|rest| > 2 && Cost(rest) > budget && ComesDownTo(DropAssistant(rest[2..]), budget, last))
  }

  function LastThree(rest: seq<Message>): seq<Message>
    requires |rest| >= 3
  {
    rest[|rest| - 3..]
  }

  // The last three messages are over the budget and end with an assistant message, and the loop gets there.
  ghost predicate LosesLastThree(rest: seq<Message>, budget: int) {
    && |rest| >= 3
    && Cost(LastThree(rest)) > budget && LastThree(rest)[2].role.Assistant?
    && ComesDownTo(rest, budget, LastThree(rest))
  }

  lemma {:induction false} FineTuneEmpty(rest: seq<Message>, budget: int)
    ensures FineTune(rest, budget) == [] <==> rest == [] || LosesLastThree(rest, budget)
    decreases |rest|
  {
    if |rest| > 2 && Cost(rest) > budget {
      var next := DropAssistant(rest[2..]);
      FineTuneEmpty(next, budget);
      LosesNext(rest, budget);
    } else if |rest| >= 3 {
      LosesOver(rest, budget);
    }
  }

  lemma LosesOver(rest: seq<Message>, budget: int)
    requires |rest| >= 3 && Cost(rest) <= budget
    ensures !LosesLastThree(rest, budget)
  {
    CostSuffix(rest, |rest| - 3);
  }

  lemma LosesNext(rest: seq<Message>, budget: int)
    requires |rest| > 2 && Cost(rest) > budget
    ensures var next := DropAssistant(rest[2..]);
            LosesLastThree(rest, budget) <==> next == [] || LosesLastThree(next, budget)
  {
    if |rest| == 3 {
      LosesThree(rest, budget);
    } else {
      ComesDownFurther(rest, DropAssistant(rest[2..]), budget);
    }
  }

  lemma LosesThree(rest: seq<Message>, budget: int)
    requires |rest| == 3 && Cost(rest) > budget
    ensures LosesLastThree(rest, budget) <==> rest[2].role.Assistant?
    ensures DropAssistant(rest[2..]) == if rest[2].role.Assistant? then [] else [rest[2]]
  {
    assert LastThree(rest) == rest;
    assert rest[2..] == [rest[2]];
  }

  lemma ComesDownFurther(rest: seq<Message>, next: seq<Message>, budget: int)
    requires |rest| > 3 && Cost(rest) > budget && next == DropAssistant(rest[2..])
    ensures next != []
    ensures LosesLastThree(rest, budget) <==> LosesLastThree(next, budget)
  {
    var last := LastThree(rest);
    assert |last| == 3;
    assert ComesDownTo(rest, budget, last) <==> ComesDownTo(next, budget, last);
    if |next| >= 3 {
      LastThreeOfTail(rest, |rest| - |next|);
    }
  }

  lemma LastThreeOfTail(rest: seq<Message>, n: nat)
    requires n + 3 <= |rest|
    ensures LastThree(rest[n..]) == LastThree(rest)
  {
  }

  /**
    When everything is lost, for all messages: nothing is left if and only if the batch leaves nothing,
    or the loop comes down to three messages that are over the budget and end with an assistant
    message, whose pair goes and leaves it in front.
  */
  lemma NothingLeft(rest: seq<Message>, budget: int)
    requires Cost(rest) > budget
    ensures var batched := DropAssistant(Drop(rest, 2 * BatchPairs(rest, budget)));
            Trim(rest, budget) == [] <==> batched == [] || LosesLastThree(batched, budget)
  {
    FineTuneEmpty(DropAssistant(Drop(rest, 2 * BatchPairs(rest, budget))), budget);
  }

  /** So a list that does not end with an assistant message is only lost to the batch. */
  lemma LostToTheBatch(rest: seq<Message>, budget: int)
    requires Cost(rest) > budget && rest != [] && !rest[|rest| - 1].role.Assistant?
    ensures Trim(rest, budget) == [] <==> 2 * BatchPairs(rest, budget) >= |rest|
  {
    var n := 2 * BatchPairs(rest, budget);
    var batched := DropAssistant(Drop(rest, n));
    NothingLeft(rest, budget);
    LastStays(rest, n);
  }

  lemma LastStays(rest: seq<Message>, n: nat)
    requires rest != [] && !rest[|rest| - 1].role.Assistant?
    ensures var batched := DropAssistant(Drop(rest, n));
            && (batched == [] <==> n >= |rest|)
            && (batched != [] ==> batched[|batched| - 1] == rest[|rest| - 1])
  {
  }

  lemma CostThree(a: Message, b: Message, c: Message)
    ensures Cost([a, b, c]) == Tokens(a.content) + Tokens(b.content) + Tokens(c.content)
  {
    assert [a, b, c][1..] == [b, c] && [b, c][1..] == [c] && [c][1..] == [];
    assert Cost([c]) == Tokens(c.content);
    assert Cost([b, c]) == Tokens(b.content) + Cost([c]);
  }

  function Letters(n: nat): string {
    seq(n, _ => 'A')
  }

  const LOST: seq<Message> := [Message(User, Letters(400)), Message(User, ""), Message(Assistant, "")]

  /** Without any batch, a list that ends with an assistant message can be lost. */
  lemma LostWithoutBatch()
    ensures Cost(LOST) > 50 && BatchPairs(LOST, 50) == 0 && Trim(LOST, 50) == []
  {
    CostThree(LOST[0], LOST[1], LOST[2]);
    assert LOST == [LOST[0], LOST[1], LOST[2]];
    assert Cost(LOST) == 100;
    assert Drop(LOST, 2 * BatchPairs(LOST, 50)) == LOST;
    LosesThree(LOST, 50);
    NothingLeft(LOST, 50);
  }

  /** A single huge pair makes the estimate drop everything, also the latest message. */
  lemma LatestMessageLost()
    ensures var huge := seq(20000, _ => 'A');
            var rest := [Message(User, huge), Message(Assistant, ""), Message(User, "hi")];
            && Alternates(rest)
            && Trim(rest, 100) == []
            && PlainTrim(rest, 100) == [Message(User, "hi")]
  {
    var huge := seq(20000, _ => 'A');
    var rest := [Message(User, huge), Message(Assistant, ""), Message(User, "hi")];
    assert rest[2..] == [Message(User, "hi")];
    assert rest[1..][1..] == rest[2..];
    assert Cost(rest[2..]) == 0 by { assert rest[2..][1..] == []; }
    assert Cost(rest) == 5000;
  }
}
