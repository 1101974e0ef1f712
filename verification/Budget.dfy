/**
  The daily budget of `llm/client.py`: a run is admitted when the spend of the day plus its own
  estimate stays within 90 percent of the limit, and adds its cost when it completes. Runs overlap,
  so the limit can be overshot, but only by what was admitted and unfinished at once.
*/
module Budget {

  const DAY: real := 86400.0

  // The two globals of the module, and how many admitted runs have not finished.
  datatype Spend = Spend(total: real, resetAt: real, active: nat)

  datatype Step =
    | Admit(now: real, estimate: real)
    | Complete(cost: real)
    | Abort  // a run that raises records nothing

  function Ceiling(limit: real): real {
    limit * 0.9
  }

  function Refreshed(s: Spend, now: real): Spend {
    if now - s.resetAt > DAY then s.(total := 0.0, resetAt := now) else s
  }

  function After(s: Spend, step: Step, limit: real): Spend {
    match step
    case Admit(now, estimate) =>
      var today := Refreshed(s, now);
      if today.total + estimate > Ceiling(limit) then today else today.(active := s.active + 1)
    case Complete(cost) => if s.active == 0 then s else s.(total := s.total + cost, active := s.active - 1)
    case Abort => if s.active == 0 then s else s.(active := s.active - 1)
  }

  class DailySpend {
    var total: real
    var resetAt: real
    ghost var active: nat

    ghost function View(): Spend
      reads this
    {
      Spend(total, resetAt, active)
    }

    constructor ()
      ensures View() == Spend(0.0, 0.0, 0)
    {
      total, resetAt, active := 0.0, 0.0, 0;
    }

    method DailyTotal(now: real) returns (today: real)
      modifies this
      ensures View() == Refreshed(old(View()), now) && today == total
    {
      if now - resetAt > DAY {
        total := 0.0;
        resetAt := now;
      }
      today := total;
    }

    /** The check before the first model call; a refused run raises. */
    method Preflight(now: real, estimate: real, limit: real) returns (admitted: bool)
      modifies this
      ensures View() == After(old(View()), Admit(now, estimate), limit)
      ensures admitted == (Refreshed(old(View()), now).total + estimate <= limit * 0.9)
    {
      var today := DailyTotal(now);
      admitted := !(today + estimate > limit * 0.9);
      if admitted {
        active := active + 1;
      }
    }

    method Record(cost: real, limit: real)
      requires active > 0
      modifies this
      ensures View() == After(old(View()), Complete(cost), limit)
    {
      total := total + cost;
      active := active - 1;
    }
  }

  function Run(s: Spend, steps: seq<Step>, limit: real): Spend {
    if steps == [] then s else After(Run(s, steps[..|steps| - 1], limit), steps[|steps| - 1], limit)
  }

  // ---------- What the total is ----------

  const START: Spend := Spend(0.0, 0.0, 0)

  // The k-th step finds more than a day gone since the last reset.
  ghost predicate ResetsAt(steps: seq<Step>, limit: real, k: nat) {
    && k < |steps| && steps[k].Admit?
    && steps[k].now - Run(START, steps[..k], limit).resetAt > 86400.0
  }

  // What the runs cost that were admitted and completed from the k-th step on.
  function CostFrom(steps: seq<Step>, limit: real, k: nat): real {
    if |steps| <= k then 0.0
    else
      var front, last := steps[..|steps| - 1], steps[|steps| - 1];
      CostFrom(front, limit, k) + (if last.Complete? && Run(START, front, limit).active > 0 then last.cost else 0.0)
  }

  // The last reset before the n-th step is the one at the step before `from`; 0 means that there was none.
  ghost predicate DayFrom(steps: seq<Step>, limit: real, from: nat) {
    && from <= |steps| && (from > 0 ==> ResetsAt(steps, limit, from - 1))
    && forall k | from <= k < |steps| :: !ResetsAt(steps, limit, k)
  }

  lemma ResetsEarlier(steps: seq<Step>, limit: real, k: nat)
    requires steps != [] && k < |steps| - 1
    ensures ResetsAt(steps, limit, k) <==> ResetsAt(steps[..|steps| - 1], limit, k)
  {
    assert steps[..|steps| - 1][..k] == steps[..k];
  }

  lemma StepTotal(s: Spend, step: Step, limit: real)
    ensures var t, reset := After(s, step, limit), step.Admit? && step.now - s.resetAt > 86400.0;
            && t.total == (if reset then 0.0 else s.total)
                          + (if step.Complete? && s.active > 0 then step.cost else 0.0)
            && t.resetAt == (if reset then step.now else s.resetAt)
  {
  }

  /**
    The recorded spend is what the runs completed since the last reset have cost, and the spend is
    reset by the first admission check more than a day after the reset before.
  */
  lemma {:induction false} TotalIsSpendOfTheDay(steps: seq<Step>, limit: real, from: nat)
    requires DayFrom(steps, limit, from)
    ensures var s := Run(START, steps, limit);
            && s.total == CostFrom(steps, limit, from)
            && s.resetAt == if from == 0 then 0.0 else steps[from - 1].now
  {
    if steps != [] {
      var n, front := |steps| - 1, steps[..|steps| - 1];
      StepTotal(Run(START, front, limit), steps[n], limit);
      if from <= n {
        if from > 0 { ResetsEarlier(steps, limit, from - 1); }
        forall k | from <= k < n ensures !ResetsAt(front, limit, k) { ResetsEarlier(steps, limit, k); }
        assert !ResetsAt(steps, limit, n);
        TotalIsSpendOfTheDay(front, limit, from);
      } else {
        assert ResetsAt(steps, limit, n);
      }
    }
  }

  /**
    When a run is admitted, exactly: its estimate and what the day has cost so far stay within 90
    percent of the limit, where the day has cost nothing if more than a day has passed.
  */
  lemma AdmittedExactly(steps: seq<Step>, limit: real, from: nat, now: real, estimate: real)
    requires DayFrom(steps, limit, from)
    ensures var started := if from == 0 then 0.0 else steps[from - 1].now;
            var spent := if now - started > 86400.0 then 0.0 else CostFrom(steps, limit, from);
            var before, after := Run(START, steps, limit), Run(START, steps + [Admit(now, estimate)], limit);
            && (after.active == before.active + 1 <==> spent + estimate <= 0.9 * limit)
            && (after.active == before.active <==> spent + estimate > 0.9 * limit)
  {
    TotalIsSpendOfTheDay(steps, limit, from);
    assert (steps + [Admit(now, estimate)])[..|steps|] == steps;
  }

  // How many runs the first n steps admit, and how many they end, with a cost or without.
  function Counts(steps: seq<Step>, limit: real, n: nat): (nat, nat)
    requires n <= |steps|
  {
    if n == 0 then (0, 0)
    else
      var before, s, t := Counts(steps, limit, n - 1), Run(START, steps[..n - 1], limit), Run(START, steps[..n], limit);
      if steps[n - 1].Admit? then (before.0 + (if t.active > s.active then 1 else 0), before.1)
      else (before.0, before.1 + (if s.active > 0 then 1 else 0))
  }

  /** A run is active from its admission until it completes or is aborted. */
  lemma {:induction false} ActiveExactly(steps: seq<Step>, limit: real, n: nat)
    requires n <= |steps|
    ensures Run(START, steps[..n], limit).active + Counts(steps, limit, n).1 == Counts(steps, limit, n).0
  {
    if n > 0 {
      ActiveExactly(steps, limit, n - 1);
      assert steps[..n][..n - 1] == steps[..n - 1];
    }
  }

  // ---------- How far it can be overshot ----------

  // Estimates are not negative, every run costs between 0 and cost, and at most n are active at once.
  ghost predicate Regular(s: Spend, steps: seq<Step>, limit: real, n: nat, cost: real) {
    && (forall i | 0 <= i < |steps| && steps[i].Admit? :: steps[i].estimate >= 0.0)
    && (forall i | 0 <= i < |steps| && steps[i].Complete? :: 0.0 <= steps[i].cost <= cost)
    && (forall i | 0 <= i <= |steps| :: Run(s, steps[..i], limit).active <= n)
  }

  /** What n runs cost at most: n times cost. */
  function Exposure(n: nat, cost: real): real {
    if n == 0 then 0.0 else Exposure(n - 1, cost) + cost
  }

  lemma {:induction false} ExposureIsProduct(n: nat, cost: real)
    ensures Exposure(n, cost) == n as real * cost
  {
    if n > 0 {
      ExposureIsProduct(n - 1, cost);
      assert n as real == (n - 1) as real + 1.0;
      assert ((n - 1) as real + 1.0) * cost == (n - 1) as real * cost + cost;
    }
  }

  lemma {:induction false} ExposureMonotone(m: nat, n: nat, cost: real)
    requires m <= n && cost >= 0.0
    ensures 0.0 <= Exposure(m, cost) <= Exposure(n, cost)
    decreases n
  {
    if m < n {
      ExposureMonotone(m, n - 1, cost);
    } else if m > 0 {
      ExposureMonotone(m - 1, m - 1, cost);
    }
  }

  // The spend together with what the active runs may still add.
  ghost predicate Covered(s: Spend, limit: real, n: nat, cost: real) {
    s.total + Exposure(s.active, cost) <= Ceiling(limit) + Exposure(n, cost)
  }

  lemma StepCovered(s: Spend, step: Step, limit: real, n: nat, cost: real)
    requires Covered(s, limit, n, cost) && limit >= 0.0 && cost >= 0.0
    requires step.Admit? ==> step.estimate >= 0.0
    requires step.Complete? ==> 0.0 <= step.cost <= cost
    requires s.active <= n && After(s, step, limit).active <= n
    ensures Covered(After(s, step, limit), limit, n, cost)
  {
    ExposureMonotone(s.active, n, cost);
    ExposureMonotone(After(s, step, limit).active, n, cost);
  }

  lemma {:induction false} RunCovered(steps: seq<Step>, limit: real, n: nat, cost: real)
    requires Regular(START, steps, limit, n, cost) && limit >= 0.0 && cost >= 0.0
    ensures Covered(Run(START, steps, limit), limit, n, cost)
  {
    if steps == [] {
      ExposureMonotone(0, n, cost);
    } else {
      var front := steps[..|steps| - 1];
      assert forall i | 0 <= i <= |front| :: front[..i] == steps[..i];
      RunCovered(front, limit, n, cost);
      assert steps[..|steps|] == steps && steps[..|front|] == front;
      StepCovered(Run(START, front, limit), steps[|steps| - 1], limit, n, cost);
    }
  }

  /**
    The overshoot bound: whatever the interleaving and however often the day is reset, the recorded
    spend never exceeds 90 percent of the limit plus the cost of the runs that were active at once.
  */
  lemma OvershootBound(steps: seq<Step>, limit: real, n: nat, cost: real)
    requires Regular(START, steps, limit, n, cost) && limit >= 0.0 && cost >= 0.0
    ensures Run(START, steps, limit).total <= limit * 0.9 + Exposure(n, cost)
  {
    RunCovered(steps, limit, n, cost);
    var active := Run(START, steps, limit).active;
    ExposureMonotone(active, active, cost);
  }

  // ---------- The bound is reached ----------

  // A regular run that ends in the state s.
  ghost predicate Reaches(steps: seq<Step>, limit: real, n: nat, cost: real, s: Spend) {
    Regular(START, steps, limit, n, cost) && Run(START, steps, limit) == s
  }

  lemma ReachesNext(steps: seq<Step>, limit: real, n: nat, cost: real, s: Spend, step: Step)
    requires Reaches(steps, limit, n, cost, s) && After(s, step, limit).active <= n
    requires step.Admit? ==> step.estimate >= 0.0
    requires step.Complete? ==> 0.0 <= step.cost <= cost
    ensures Reaches(steps + [step], limit, n, cost, After(s, step, limit))
  {
    var more := steps + [step];
    assert more[..|steps|] == steps && more[..|more|] == more;
    forall i | 0 <= i <= |more| ensures Run(START, more[..i], limit).active <= n {
      if i <= |steps| { assert more[..i] == steps[..i]; }
    }
  }

  // One run after the other, each at most `cost`, until they have spent `amount`,
  lemma {:induction false} OneByOne(limit: real, amount: real, n: nat, cost: real, m: nat) returns (steps: seq<Step>)
    requires 0.0 <= amount <= Ceiling(limit) && amount <= Exposure(m, cost) && n >= 1 && cost > 0.0
    ensures Reaches(steps, limit, n, cost, Spend(amount, 0.0, 0))
    decreases m
  {
    if m == 0 {
      steps := [];
      assert Run(START, [], limit) == START;
    } else {
      var last := if amount <= cost then amount else cost;
      ExposureMonotone(0, m - 1, cost);
      var before := OneByOne(limit, amount - last, n, cost, m - 1);
      steps := OneRun(before, limit, n, cost, amount - last, last);
    }
  }

  lemma OneRun(before: seq<Step>, limit: real, n: nat, cost: real, total: real, last: real) returns (steps: seq<Step>)
    requires Reaches(before, limit, n, cost, Spend(total, 0.0, 0)) && n >= 1
    requires 0.0 <= last <= cost && total <= Ceiling(limit)
    ensures Reaches(steps, limit, n, cost, Spend(total + last, 0.0, 0))
  {
    ReachesNext(before, limit, n, cost, Spend(total, 0.0, 0), Admit(0.0, 0.0));
    steps := before + [Admit(0.0, 0.0)];
    ReachesNext(steps, limit, n, cost, Spend(total, 0.0, 1), Complete(last));
    steps := steps + [Complete(last)];
  }

  // then up to n runs admitted at once,
  lemma {:induction false} AllAdmitted(before: seq<Step>, limit: real, n: nat, cost: real, j: nat)
    returns (steps: seq<Step>)
    requires limit >= 0.0 && Reaches(before, limit, n, cost, Spend(Ceiling(limit), 0.0, 0)) && j <= n
    ensures Reaches(steps, limit, n, cost, Spend(Ceiling(limit), 0.0, j))
  {
    steps := before;
    if j > 0 {
      steps := AllAdmitted(before, limit, n, cost, j - 1);
      ReachesNext(steps, limit, n, cost, Spend(Ceiling(limit), 0.0, j - 1), Admit(0.0, 0.0));
      steps := steps + [Admit(0.0, 0.0)];
    }
  }

  // which all complete at full cost.
  lemma {:induction false} AllComplete(before: seq<Step>, limit: real, n: nat, cost: real, k: nat)
    returns (steps: seq<Step>)
    requires cost >= 0.0 && Reaches(before, limit, n, cost, Spend(Ceiling(limit), 0.0, n)) && k <= n
    ensures Reaches(steps, limit, n, cost, Spend(Ceiling(limit) + Exposure(k, cost), 0.0, n - k))
  {
    steps := before;
    if k > 0 {
      steps := AllComplete(before, limit, n, cost, k - 1);
      var s := Spend(Ceiling(limit) + Exposure(k - 1, cost), 0.0, n - k + 1);
      ReachesNext(steps, limit, n, cost, s, Complete(cost));
      steps := steps + [Complete(cost)];
    }
  }

  lemma EnoughRuns(amount: real, cost: real) returns (m: nat)
    requires amount >= 0.0 && cost > 0.0
    ensures amount <= Exposure(m, cost)
  {
    var share := amount / cost;
    assert share >= 0.0 by { assert share * cost == amount; }
    m := share.Floor + 1;
    ExposureIsProduct(m, cost);
    assert amount == share * cost <= m as real * cost;
  }

  /**
    The bound is sharp: for every limit, every n of at least one and every positive cost there is a
    regular run, with no more than n runs active at once and none dearer than cost, that reaches it.
  */
  lemma OvershootIsReached(limit: real, n: nat, cost: real) returns (steps: seq<Step>)
    requires limit >= 0.0 && n >= 1 && cost > 0.0
    ensures Regular(START, steps, limit, n, cost)
    ensures Run(START, steps, limit).total == limit * 0.9 + Exposure(n, cost)
  {
    var m := EnoughRuns(Ceiling(limit), cost);
    steps := OneByOne(limit, Ceiling(limit), n, cost, m);
    steps := AllAdmitted(steps, limit, n, cost, n);
    steps := AllComplete(steps, limit, n, cost, n);
  }
}
