/** The optimizer loop of the foundation trainer and the truth it reports when it fails.

    The attempt state is what a failure report is built from. An execution is a sequence of actions, `Plan`,
    any of which may raise. `budget` is the number of actions that succeed, so a statement for every budget is
    a statement for every interruption point; what really happened then is `FactsAfter`, a function of the
    inputs and that number. */
module FoundationTraining {
  import opened Common

  datatype Change = NOT_OBSERVED | CHANGED | UNCHANGED

  datatype EffectState =
    | PRE_EXECUTION_NO_EFFECT
    | OPTIMIZER_ATTEMPT_EFFECT_UNKNOWN
    | POST_OPTIMIZER_CHANGED
    | POST_OPTIMIZER_UNCHANGED
    | POST_OPTIMIZER_CHANGE_UNKNOWN

  /** None stands for an answer that is not known. */
  datatype Truth = Truth(effect: EffectState, executed: Option<bool>, weightsChanged: Option<bool>, steps: nat)

  /** What is reported after a failure, from the attempt state alone. */
  function FailureTruth(attempted: bool, steps: nat, change: Change): Truth {
    if !attempted && steps == 0 then Truth(PRE_EXECUTION_NO_EFFECT, Some(false), Some(false), 0)
    else if steps == 0 then Truth(OPTIMIZER_ATTEMPT_EFFECT_UNKNOWN, None, None, 0)
    else if change == CHANGED then Truth(POST_OPTIMIZER_CHANGED, Some(true), Some(true), steps)
    else if change == UNCHANGED then Truth(POST_OPTIMIZER_UNCHANGED, Some(true), Some(false), steps)
    else Truth(POST_OPTIMIZER_CHANGE_UNKNOWN, Some(true), None, steps)
  }

  /** What really happened: optimizer steps begun and completed, and the answer of the hash comparison. */
  datatype Facts = Facts(begun: nat, completed: nat, compared: Option<bool>)

  /** The attempt state is in line with the facts. */
  predicate InLine(attempted: bool, steps: nat, change: Change, f: Facts) {
    && (attempted <==> f.begun > 0)
    && steps <= f.completed <= steps + 1
    && f.completed <= f.begun <= f.completed + 1
    && (f.completed == steps + 1 ==> f.begun == f.completed)
    && (change == CHANGED <==> f.compared == Some(true))
    && (change == UNCHANGED <==> f.compared == Some(false))
    && (f.compared.Some? ==> steps > 0)
  }

  /** A report built from an attempt state in line with the facts is sound: "no effect" is reported exactly
      when no optimizer step was begun, "changed" and "unchanged" exactly when the comparison gave that
      answer, nothing is claimed while it is not known, and no step is reported that did not complete. */
  lemma TruthSound(attempted: bool, steps: nat, change: Change, f: Facts)
    requires InLine(attempted, steps, change, f)
    ensures var t := FailureTruth(attempted, steps, change);
            && (t.effect == PRE_EXECUTION_NO_EFFECT <==> f.begun == 0)
            && (t.effect == POST_OPTIMIZER_CHANGED <==> f.compared == Some(true))
            && (t.effect == POST_OPTIMIZER_UNCHANGED <==> f.compared == Some(false))
            && (t.weightsChanged == Some(true) <==> f.compared == Some(true))
            && (t.weightsChanged == Some(false) <==> f.begun == 0 || f.compared == Some(false))
            && (t.executed == Some(true) ==> f.completed > 0)
            && (t.executed == Some(false) <==> f.begun == 0)
            && (t.executed == Some(true) <==> t.steps > 0)
            && (t.effect == OPTIMIZER_ATTEMPT_EFFECT_UNKNOWN <==> f.begun > 0 && t.steps == 0)
            && (t.effect == POST_OPTIMIZER_CHANGE_UNKNOWN <==> t.steps > 0 && f.compared.None?)
            && t.steps == steps && t.steps <= f.completed <= t.steps + 1
  {
    if f.compared.Some? {
      assert f.compared == if f.compared.value then Some(true) else Some(false);
    }
  }

  // ----- accounting -----

  function Min(a: int, b: int): int { if a <= b then a else b }

  function Max(a: int, b: int): int { if a >= b then a else b }

  lemma DivStep(m: nat, k: nat)
    requires k > 0
    ensures (m + 1) / k == m / k + if (m + 1) % k == 0 then 1 else 0
  {
    var q, r := m / k, m % k;
    assert m == q * k + r;
    if r + 1 == k {
      assert m + 1 == (q + 1) * k;
      DivUnique(m + 1, k, q + 1, 0);
    } else {
      DivUnique(m + 1, k, q, r + 1);
    }
  }

  /** Multiples of `k` keep the order of their factors, a whole `k` apart. */
  lemma Multiples(a: int, b: int, k: nat)
    requires a < b
    ensures b * k >= a * k + k
  {
    assert (b - a - 1) * k >= 0;
    assert (b - a - 1) * k == b * k - a * k - k;
  }

  lemma DivUnique(m: nat, k: nat, q: nat, r: nat)
    requires k > 0 && m == q * k + r && r < k
    ensures m / k == q && m % k == r
  {
    var d, e := m / k, m % k;
    assert m == d * k + e;
    if d < q {
      Multiples(d, q, k);
    } else if d > q {
      Multiples(q, d, k);
    }
  }

  lemma DivOrder(n: nat, k: nat, limit: nat)
    requires k > 0
    ensures n / k >= limit <==> n >= limit * k
  {
    var d, e := n / k, n % k;
    assert n == d * k + e;
    if d < limit {
      Multiples(d, limit, k);
    } else if d > limit {
      Multiples(limit, d, k);
    }
  }

  /** Optimizer steps and micro steps of a complete run over `n` batches. */
  ghost predicate Accounted(n: nat, accumulation: nat, maxSteps: nat, steps: nat, micro: nat)
    requires accumulation > 0
  {
    && steps == Max(1, Min(maxSteps, n / accumulation))
    && micro == Min(n, maxSteps * accumulation)
  }

  /** The counters with which the two loops end account for the whole run. */
  lemma LoopsAccount(n: nat, accumulation: nat, maxSteps: nat, micro: nat, steps: nat)
    requires accumulation > 0 && maxSteps > 0 && n > 0
    requires steps == micro / accumulation && micro <= n
    requires (micro == n && steps < maxSteps) || (steps == maxSteps && micro % accumulation == 0)
    ensures Accounted(n, accumulation, maxSteps, Max(1, steps), micro)
  {
    DivOrder(n, accumulation, maxSteps);
    if steps == maxSteps {
      assert micro == maxSteps * accumulation;
      DivOrder(n, accumulation, maxSteps);
    }
  }

  lemma LoopsEnd(n: nat, accumulation: nat, maxSteps: nat, micro: nat, steps: nat)
    requires accumulation > 0 && maxSteps > 0
    requires steps == micro / accumulation && micro <= n
    requires (micro == n && steps < maxSteps) || (steps == maxSteps && micro % accumulation == 0)
    ensures micro == Min(n, maxSteps * accumulation)
    ensures n > 0 ==> micro > 0 && Accounted(n, accumulation, maxSteps, Max(1, steps), micro)
  {
    Multiples(0, maxSteps, accumulation);
    if n > 0 {
      LoopsAccount(n, accumulation, maxSteps, micro, steps);
    } else {
      assert 0 / accumulation == 0;
    }
  }

  // ----- the actions of an execution -----

  /** PREPARE stands for everything up to the optimizer loops, MICRO for forward and backward, HASH for the hashes
      after training, SAVE for the output directory, checkpoint and receipt. */
  datatype Action = PREPARE | MICRO | CLIP | STEP | ZERO_GRAD | HASH | SAVE

  function Stepping(): seq<Action> { [CLIP, STEP, ZERO_GRAD] }

  /** `m` micro steps, with an optimizer step whenever `accumulation` of them are gathered. */
  function Gathering(m: nat, accumulation: nat): seq<Action>
    requires accumulation > 0
  {
    if m == 0 then []
    else Gathering(m - 1, accumulation) + [MICRO] + if m % accumulation == 0 then Stepping() else []
  }

  /** What the loops over `n` batches do: the batches the step limit leaves, and one step at least. */
  function Optimizing(n: nat, accumulation: nat, maxSteps: nat): seq<Action>
    requires accumulation > 0
  {
    var m := Min(n, maxSteps * accumulation);
    Gathering(m, accumulation) + if m > 0 && m / accumulation == 0 then Stepping() else []
  }

  /** An execution in which nothing raises. Without batches it ends for want of a step; when nothing changed it
      ends with the comparison. */
  function Plan(n: nat, accumulation: nat, maxSteps: nat, differs: bool): seq<Action>
    requires accumulation > 0
  {
    [PREPARE] + Optimizing(n, accumulation, maxSteps) + Ending(n, differs)
  }

  function Ending(n: nat, differs: bool): seq<Action> {
    if n == 0 then [] else if differs then [HASH, SAVE] else [HASH]
  }

  function Count(actions: seq<Action>, action: Action): nat {
    if actions == [] then 0
    else Count(actions[..|actions|-1], action) + if actions[|actions|-1] == action then 1 else 0
  }

  lemma CountSnoc(actions: seq<Action>, last: Action, action: Action)
    ensures Count(actions + [last], action) == Count(actions, action) + if last == action then 1 else 0
  {
    assert (actions + [last])[..|actions|] == actions;
  }

  lemma {:induction false} CountAppend(a: seq<Action>, b: seq<Action>, action: Action)
    ensures Count(a + b, action) == Count(a, action) + Count(b, action)
  {
    if b == [] {
      assert a + b == a;
    } else {
      var init := b[..|b|-1];
      CountAppend(a, init, action);
      assert a + b == a + init + [b[|b|-1]];
      CountSnoc(a + init, b[|b|-1], action);
    }
  }

  lemma CountThree(a: Action, b: Action, c: Action, action: Action)
    ensures Count([a, b, c], action) ==
              (if a == action then 1 else 0) + (if b == action then 1 else 0) + if c == action then 1 else 0
  {
    CountSnoc([], a, action);
    CountSnoc([a], b, action);
    CountSnoc([a] + [b], c, action);
    assert [] + [a] == [a] && [a] + [b] + [c] == [a, b, c];
  }

  function Compared(performed: seq<Action>, differs: bool): Option<bool> {
    if Count(performed, HASH) > 0 then Some(differs) else None
  }

  /** What the actions performed, and the ones begun, amount to. */
  function FactsOf(performed: seq<Action>, tried: seq<Action>, differs: bool): Facts {
    Facts(Count(tried, STEP), Count(performed, STEP), Compared(performed, differs))
  }

  /** What really happened when the first `budget` actions of a plan succeed and the next one raises. */
  function FactsAfter(plan: seq<Action>, budget: nat, differs: bool): Facts {
    FactsOf(plan[..Min(budget, |plan|)], plan[..Min(budget + 1, |plan|)], differs)
  }

  lemma {:induction false} GatheringGrows(m: nat, to: nat, accumulation: nat)
    requires accumulation > 0 && m <= to
    ensures Gathering(m, accumulation) <= Gathering(to, accumulation)
    ensures m < to ==> Gathering(m + 1, accumulation) <= Gathering(to, accumulation)
  {
    if m < to {
      GatheringGrows(m, to - 1, accumulation);
    }
  }

  lemma GatheringSnoc(m: nat, accumulation: nat, action: Action)
    requires accumulation > 0 && m > 0
    ensures Count(Gathering(m, accumulation), action) ==
              Count(Gathering(m - 1, accumulation), action) + (if action == MICRO then 1 else 0)
              + if m % accumulation == 0 && action in {CLIP, STEP, ZERO_GRAD} then 1 else 0
  {
    var g := Gathering(m - 1, accumulation);
    CountSnoc(g, MICRO, action);
    CountAppend(g + [MICRO], Stepping(), action);
    CountThree(CLIP, STEP, ZERO_GRAD, action);
    assert m % accumulation != 0 ==> Gathering(m, accumulation) == g + [MICRO];
  }

  /** Micro steps and optimizer steps of a gathering. */
  lemma {:induction false} GatheringCounts(m: nat, accumulation: nat)
    requires accumulation > 0
    ensures var g := Gathering(m, accumulation);
            Count(g, MICRO) == m && Count(g, STEP) == m / accumulation
  {
    if m == 0 {
      assert 0 / accumulation == 0;
    } else {
      GatheringCounts(m - 1, accumulation);
      GatheringSnoc(m, accumulation, MICRO);
      GatheringSnoc(m, accumulation, STEP);
      DivStep(m - 1, accumulation);
    }
  }

  lemma {:induction false} GatheringLength(m: nat, accumulation: nat)
    requires accumulation > 0
    ensures |Gathering(m, accumulation)| == m + 3 * (m / accumulation)
  {
    if m == 0 {
      assert 0 / accumulation == 0;
    } else {
      GatheringLength(m - 1, accumulation);
      DivStep(m - 1, accumulation);
    }
  }

  lemma StepLimit(n: nat, accumulation: nat, maxSteps: nat)
    requires accumulation > 0 && maxSteps > 0 && n > 0
    ensures var m := Min(n, maxSteps * accumulation);
            m > 0 && m / accumulation == Min(maxSteps, n / accumulation)
  {
    Multiples(0, maxSteps, accumulation);
    DivOrder(n, accumulation, maxSteps);
    DivUnique(maxSteps * accumulation, accumulation, maxSteps, 0);
  }

  lemma OptimizingCounts(n: nat, accumulation: nat, maxSteps: nat)
    requires accumulation > 0 && maxSteps > 0 && n > 0
    ensures var o := Optimizing(n, accumulation, maxSteps);
            && Accounted(n, accumulation, maxSteps, Count(o, STEP), Count(o, MICRO))
            && |o| == Count(o, MICRO) + 3 * Count(o, STEP)
  {
    var m := Min(n, maxSteps * accumulation);
    var g := Gathering(m, accumulation);
    GatheringCounts(m, accumulation);
    GatheringLength(m, accumulation);
    StepLimit(n, accumulation, maxSteps);
    CountAppend(g, Stepping(), STEP);
    CountAppend(g, Stepping(), MICRO);
    CountThree(CLIP, STEP, ZERO_GRAD, STEP);
    CountThree(CLIP, STEP, ZERO_GRAD, MICRO);
    assert m / accumulation > 0 ==> Optimizing(n, accumulation, maxSteps) == g;
  }

  lemma PlanCount(n: nat, accumulation: nat, maxSteps: nat, differs: bool, action: Action)
    requires accumulation > 0 && action in {MICRO, STEP}
    ensures Count(Plan(n, accumulation, maxSteps, differs), action) ==
              Count(Optimizing(n, accumulation, maxSteps), action)
  {
    var o, e := Optimizing(n, accumulation, maxSteps), Ending(n, differs);
    CountAppend([PREPARE] + o, e, action);
    CountAppend([PREPARE], o, action);
    CountSnoc([], PREPARE, action);
    assert [] + [PREPARE] == [PREPARE];
    CountSnoc([], HASH, action);
    assert [] + [HASH] == [HASH];
    CountSnoc([HASH], SAVE, action);
    assert [HASH] + [SAVE] == [HASH, SAVE];
  }

  /** The plan accounts for the whole run: its optimizer steps, its micro steps, and so its length. */
  lemma PlanAccounts(n: nat, accumulation: nat, maxSteps: nat, differs: bool)
    requires accumulation > 0 && maxSteps > 0 && n > 0
    ensures var plan := Plan(n, accumulation, maxSteps, differs);
            && Accounted(n, accumulation, maxSteps, Count(plan, STEP), Count(plan, MICRO))
            && |plan| == 2 + Count(plan, MICRO) + 3 * Count(plan, STEP) + if differs then 1 else 0
  {
    OptimizingCounts(n, accumulation, maxSteps);
    PlanCount(n, accumulation, maxSteps, differs, STEP);
    PlanCount(n, accumulation, maxSteps, differs, MICRO);
  }

  // ----- the order of the actions -----

  /** Clip, step and clear come one right after the other, and a batch is only begun when a step was made for every
      `accumulation` batches before it. */
  ghost predicate Placed(s: seq<Action>, k: int, accumulation: nat)
    requires accumulation > 0 && 0 <= k < |s|
  {
    && (s[k] == CLIP ==> k + 2 < |s| && s[k+1] == STEP && s[k+2] == ZERO_GRAD)
    && (s[k] == STEP ==> k > 0 && s[k-1] == CLIP)
    && (s[k] == ZERO_GRAD ==> k > 0 && s[k-1] == STEP)
    && (s[k] == MICRO ==> Count(s[..k], STEP) == Count(s[..k], MICRO) / accumulation)
  }

  ghost predicate InOrder(s: seq<Action>, accumulation: nat)
    requires accumulation > 0
  {
    forall k :: 0 <= k < |s| ==> Placed(s, k, accumulation)
  }

  lemma PlacedStill(s: seq<Action>, more: seq<Action>, k: nat, accumulation: nat)
    requires accumulation > 0 && k < |s| && Placed(s, k, accumulation)
    ensures Placed(s + more, k, accumulation)
  {
    assert (s + more)[..k] == s[..k];
  }

  lemma OrderMicro(s: seq<Action>, accumulation: nat)
    requires accumulation > 0 && InOrder(s, accumulation) && Count(s, STEP) == Count(s, MICRO) / accumulation
    ensures InOrder(s + [MICRO], accumulation)
  {
    forall k | 0 <= k < |s + [MICRO]| ensures Placed(s + [MICRO], k, accumulation) {
      if k < |s| {
        PlacedStill(s, [MICRO], k, accumulation);
      } else {
        assert (s + [MICRO])[..k] == s;
      }
    }
  }

  lemma OrderStep(s: seq<Action>, accumulation: nat)
    requires accumulation > 0 && InOrder(s, accumulation)
    ensures InOrder(s + Stepping(), accumulation)
  {
    var all := s + Stepping();
    assert all[|s|] == CLIP && all[|s|+1] == STEP && all[|s|+2] == ZERO_GRAD && |all| == |s| + 3;
    forall k | 0 <= k < |all| ensures Placed(all, k, accumulation) {
      if k < |s| {
        PlacedStill(s, Stepping(), k, accumulation);
      }
    }
  }

  lemma OrderLast(s: seq<Action>, last: Action, accumulation: nat)
    requires accumulation > 0 && InOrder(s, accumulation) && (last == HASH || last == SAVE)
    ensures InOrder(s + [last], accumulation)
  {
    forall k | 0 <= k < |s + [last]| ensures Placed(s + [last], k, accumulation) {
      if k < |s| {
        PlacedStill(s, [last], k, accumulation);
      }
    }
  }

  lemma OrderBatch(g: seq<Action>, accumulation: nat)
    requires accumulation > 0 && InOrder([PREPARE] + g, accumulation)
    requires Count(g, STEP) == Count(g, MICRO) / accumulation
    ensures InOrder([PREPARE] + (g + [MICRO]), accumulation)
    ensures InOrder([PREPARE] + (g + [MICRO] + Stepping()), accumulation)
  {
    PreparedCount(g, STEP);
    PreparedCount(g, MICRO);
    OrderMicro([PREPARE] + g, accumulation);
    OrderStep([PREPARE] + g + [MICRO], accumulation);
    assert [PREPARE] + (g + [MICRO]) == [PREPARE] + g + [MICRO];
    assert [PREPARE] + (g + [MICRO] + Stepping()) == [PREPARE] + g + [MICRO] + Stepping();
  }

  lemma {:induction false} OrderGathering(m: nat, accumulation: nat)
    requires accumulation > 0
    ensures InOrder([PREPARE] + Gathering(m, accumulation), accumulation)
  {
    if m == 0 {
      assert [PREPARE] + [] == [PREPARE];
    } else {
      var g := Gathering(m - 1, accumulation);
      OrderGathering(m - 1, accumulation);
      GatheringCounts(m - 1, accumulation);
      OrderBatch(g, accumulation);
      assert g + [MICRO] + [] == g + [MICRO];
    }
  }

  lemma PreparedCount(s: seq<Action>, action: Action)
    requires action != PREPARE
    ensures Count([PREPARE] + s, action) == Count(s, action)
  {
    CountAppend([PREPARE], s, action);
    CountSnoc([], PREPARE, action);
    assert [] + [PREPARE] == [PREPARE];
  }

  lemma OrderPlan(n: nat, accumulation: nat, maxSteps: nat, differs: bool)
    requires accumulation > 0
    ensures InOrder(Plan(n, accumulation, maxSteps, differs), accumulation)
  {
    var o, m := Optimizing(n, accumulation, maxSteps), Min(n, maxSteps * accumulation);
    var gathered := [PREPARE] + Gathering(m, accumulation);
    OrderGathering(m, accumulation);
    OrderStep(gathered, accumulation);
    assert [PREPARE] + o == gathered + if m > 0 && m / accumulation == 0 then Stepping() else [];
    assert gathered + [] == gathered && [PREPARE] + o + [] == [PREPARE] + o;
    OrderLast([PREPARE] + o, HASH, accumulation);
    OrderLast([PREPARE] + o + [HASH], SAVE, accumulation);
    assert [PREPARE] + o + [HASH] + [SAVE] == [PREPARE] + o + [HASH, SAVE];
  }

  /** The order of an execution in which nothing raises: preparation comes first, the comparison after the last
      batch and step, saving last of all and only if something changed; and a step is made at once when its
      batches are gathered. With PlanAccounts this leaves one sequence of actions. */
  lemma PlanOrder(n: nat, accumulation: nat, maxSteps: nat, differs: bool, k: nat)
    requires accumulation > 0 && k < |Plan(n, accumulation, maxSteps, differs)|
    ensures var plan := Plan(n, accumulation, maxSteps, differs);
            && Placed(plan, k, accumulation)
            && (plan[k] == PREPARE <==> k == 0)
            && (plan[k] == SAVE <==> n > 0 && differs && k == |plan| - 1)
            && (plan[k] == HASH <==> n > 0 && k == |plan| - if differs then 2 else 1)
  {
    OrderPlan(n, accumulation, maxSteps, differs);
    OptimizingActions(n, accumulation, maxSteps);
    PlanAt(Plan(n, accumulation, maxSteps, differs), Optimizing(n, accumulation, maxSteps), n, differs, k);
  }

  lemma PlanAt(plan: seq<Action>, o: seq<Action>, n: nat, differs: bool, k: nat)
    requires plan == [PREPARE] + o + Ending(n, differs) && k < |plan|
    requires forall a | a in o :: a != PREPARE && a != HASH && a != SAVE
    ensures plan[k] == PREPARE <==> k == 0
    ensures plan[k] == SAVE <==> n > 0 && differs && k == |plan| - 1
    ensures plan[k] == HASH <==> n > 0 && k == |plan| - if differs then 2 else 1
  {
    if k == 0 {
      assert plan[0] == PREPARE;
    } else if k < 1 + |o| {
      assert plan[k] == o[k-1] && o[k-1] in o;
    } else {
      assert plan[k] == Ending(n, differs)[k - 1 - |o|];
    }
  }

  lemma {:induction false} GatheringActions(m: nat, accumulation: nat)
    requires accumulation > 0
    ensures forall a | a in Gathering(m, accumulation) :: a == MICRO || a in Stepping()
  {
    if m > 0 {
      GatheringActions(m - 1, accumulation);
    }
  }

  lemma OptimizingActions(n: nat, accumulation: nat, maxSteps: nat)
    requires accumulation > 0
    ensures forall a | a in Optimizing(n, accumulation, maxSteps) :: a != PREPARE && a != HASH && a != SAVE
  {
    GatheringActions(Min(n, maxSteps * accumulation), accumulation);
  }

  datatype Outcome = Done(optimizerSteps: nat, microSteps: nat) | Interrupted | NoStep | NothingChanged

  lemma StepFits(before: seq<Action>, plan: seq<Action>)
    requires before + Stepping() <= plan
    ensures |plan| >= |before| + 3
    ensures plan[|before|] == CLIP && plan[|before| + 1] == STEP && plan[|before| + 2] == ZERO_GRAD
    ensures before + [CLIP] + [STEP] + [ZERO_GRAD] == before + Stepping()
  {
    assert forall k :: 0 <= k < 3 ==> (before + Stepping())[|before| + k] == Stepping()[k];
  }

  lemma BatchFits(before: seq<Action>, micro: nat, accumulation: nat, plan: seq<Action>)
    requires accumulation > 0 && before + Gathering(micro + 1, accumulation) <= plan
    ensures var done := before + Gathering(micro, accumulation);
            && |plan| > |done| && plan[|done|] == MICRO
            && if (micro + 1) % accumulation == 0
               then done + [MICRO] + Stepping() == before + Gathering(micro + 1, accumulation)
               else done + [MICRO] == before + Gathering(micro + 1, accumulation)
  {
    var g := Gathering(micro, accumulation);
    var rest := if (micro + 1) % accumulation == 0 then Stepping() else [];
    assert before + Gathering(micro + 1, accumulation) == before + g + [MICRO] + rest;
  }

  lemma EndFits(before: seq<Action>, differs: bool, plan: seq<Action>)
    requires plan == before + if differs then [HASH, SAVE] else [HASH]
    ensures |plan| == |before| + (if differs then 2 else 1) && plan[|before|] == HASH
    ensures if differs then plan == before + [HASH] + [SAVE] && plan[|before| + 1] == SAVE else plan == before + [HASH]
  {
  }

  class Attempt {
    const differs: bool
    var optimizerAttempted: bool
    var optimizerSteps: nat
    var selectedParameterChangeState: Change
    var budget: nat
    /** The actions to perform, and the budget at the start. */
    ghost const plan: seq<Action>
    ghost const start: nat
    /** The actions performed, and those begun: the same, or one more that raised. */
    ghost var performed: seq<Action>
    ghost var tried: seq<Action>
    /** How often each action was performed, and how often begun. */
    ghost var done: Action -> nat
    ghost var begun: Action -> nat

    constructor (budget: nat, differs: bool, ghost plan: seq<Action>)
      ensures Recorded(0) && performed == [] && this.differs == differs && this.plan == plan
      ensures this.budget == start == budget
    {
      optimizerAttempted, optimizerSteps, selectedParameterChangeState := false, 0, NOT_OBSERVED;
      this.budget, this.differs, this.plan, start := budget, differs, plan, budget;
      performed, tried := [], [];
      done, begun := (_ => 0), (_ => 0);
    }

    ghost function Observed(): Facts
      reads this
    {
      Facts(begun(STEP), done(STEP), if done(HASH) > 0 then Some(differs) else None)
    }

    ghost predicate Tallied()
      reads this
    {
      && (forall a {:trigger Count(performed, a)} :: done(a) == Count(performed, a))
      && (forall a {:trigger Count(tried, a)} :: begun(a) == Count(tried, a))
    }

    lemma ObservedFacts()
      requires Tallied()
      ensures Observed() == FactsOf(performed, tried, differs)
      ensures done(ZERO_GRAD) == Count(performed, ZERO_GRAD)
    {
      assert begun(STEP) == Count(tried, STEP) && done(STEP) == Count(performed, STEP);
      assert done(HASH) == Count(performed, HASH) && done(ZERO_GRAD) == Count(performed, ZERO_GRAD);
    }

    /** The attempt state says what was performed, and is in line with the facts. */
    ghost predicate Sound()
      reads this
    {
      && (optimizerAttempted <==> done(CLIP) > 0)
      && optimizerSteps == done(ZERO_GRAD)
      && InLine(optimizerAttempted, optimizerSteps, selectedParameterChangeState, Observed())
    }

    /** What was performed and begun follows the plan, one budget unit for each action performed. */
    ghost predicate Along()
      reads this
    {
      performed <= plan && tried <= plan && start == budget + |performed| && Tallied()
    }

    /** Between actions: every step begun was completed and recorded. */
    ghost predicate Recorded(steps: nat)
      reads this
    {
      && Along() && Sound() && tried == performed && done == begun
      && optimizerSteps == steps && Observed() == Facts(steps, steps, None)
    }

    /** An action of the plan was begun and raised. */
    ghost predicate Raised()
      reads this
    {
      Along() && budget == 0 && |tried| == |performed| + 1
    }

    /** The next action of the plan, which may raise; false when it did. */
    method Act(action: Action) returns (ok: bool)
      requires Along() && tried == performed && done == begun && |performed| < |plan| && plan[|performed|] == action
      modifies this`budget, this`performed, this`tried, this`done, this`begun
      ensures ok <==> old(budget) > 0
      ensures ok ==> Along() && performed == tried == old(performed) + [action] && done == begun
      ensures !ok ==> Raised() && performed == old(performed) && done == old(done)
      ensures forall a :: begun(a) == old(done)(a) + if a == action then 1 else 0
    {
      tried := performed + [action];
      ghost var before := done;
      begun := a => before(a) + if a == action then 1 else 0;
      forall a ensures begun(a) == Count(tried, a) {
        CountSnoc(performed, action, a);
        assert done(a) == Count(performed, a);
      }
      ok := budget > 0;
      if ok {
        budget := budget - 1;
        performed, done := tried, begun;
      }
    }

    /** Clip, mark the attempt, step, clear the gradients, and record the step. */
    method OptimizerStep(ghost done: nat) returns (ok: bool)
      requires Recorded(done) && performed + Stepping() <= plan
      modifies this
      ensures Sound() && Along() && Observed().compared.None?
      ensures ok <==> old(budget) >= 3
      ensures ok ==> Recorded(done + 1) && performed == old(performed) + Stepping()
      ensures !ok ==> Raised() && |tried| <= |old(performed)| + 3
    {
      StepFits(performed, plan);
      ok := Act(CLIP);
      if !ok { return; }
      optimizerAttempted := true;
      ok := Act(STEP);
      if !ok { return; }
      ok := Act(ZERO_GRAD);
      if !ok { return; }
      optimizerSteps := optimizerSteps + 1;
    }

    /** `micro` batches were gathered after `before`. */
    ghost predicate Gathered(before: seq<Action>, micro: nat, accumulation: nat)
      requires accumulation > 0
      reads this
    {
      performed == before + Gathering(micro, accumulation)
    }

    /** One batch: forward and backward, and an optimizer step when enough are gathered. */
    method TakeBatch(ghost before: seq<Action>, micro: nat, accumulation: nat, ghost steps: nat) returns (ok: bool)
      requires accumulation > 0 && Recorded(steps) && Gathered(before, micro, accumulation)
      requires before + Gathering(micro + 1, accumulation) <= plan
      modifies this
      ensures Sound() && Along() && Observed().compared.None?
      ensures ok ==> Recorded(if (micro + 1) % accumulation == 0 then steps + 1 else steps)
      ensures ok ==> Gathered(before, micro + 1, accumulation)
      ensures !ok ==> Raised() && |tried| <= |before + Gathering(micro + 1, accumulation)|
    {
      BatchFits(before, micro, accumulation, plan);
      ok := Act(MICRO);
      if !ok { return; }
      if (micro + 1) % accumulation == 0 {
        ok := OptimizerStep(steps);
      }
    }

    /** The fallback step for too few batches, and the check that a step was made. */
    method Conclude(ghost before: seq<Action>, ghost n: nat, accumulation: nat, ghost maxSteps: nat,
                    steps: nat, micro: nat)
      returns (o: Outcome)
      requires accumulation > 0 && Recorded(steps) && Gathered(before, micro, accumulation)
      requires micro == Min(n, maxSteps * accumulation) && steps == micro / accumulation
      requires before + Optimizing(n, accumulation, maxSteps) <= plan
      modifies this
      ensures Sound() && Along() && Observed().compared.None?
      ensures o.Interrupted? ==> Raised() && |tried| <= |before + Optimizing(n, accumulation, maxSteps)|
      ensures !o.Interrupted? ==> performed == tried == before + Optimizing(n, accumulation, maxSteps)
      ensures !o.Interrupted? ==> o == if micro == 0 then NoStep else Done(Max(1, steps), micro)
      ensures o.Done? ==> Recorded(o.optimizerSteps)
    {
      ghost var g := Gathering(micro, accumulation);
      ghost var rest := if micro > 0 && steps == 0 then Stepping() else [];
      assert before + Optimizing(n, accumulation, maxSteps) == before + g + rest;
      assert 0 / accumulation == 0;
      var final := steps;
      if steps == 0 && micro > 0 {
        var ok := OptimizerStep(0);
        if !ok { return Interrupted; }
        final := 1;
      }
      if final == 0 {
        return NoStep;
      }
      return Done(final, micro);
    }

    /** The inner loop: the batches of one epoch, until the step limit. `n` batches are to come in all. */
    method TakeEpoch(batches: nat, accumulation: nat, maxSteps: nat, steps0: nat, micro0: nat,
                     ghost before: seq<Action>, ghost n: nat)
      returns (ok: bool, steps: nat, micro: nat)
      requires accumulation > 0 && Recorded(steps0) && Gathered(before, micro0, accumulation)
      requires steps0 == micro0 / accumulation < maxSteps && micro0 + batches <= n
      requires before + Optimizing(n, accumulation, maxSteps) <= plan
      modifies this
      ensures Sound() && Along() && Observed().compared.None?
      ensures ok ==> Recorded(steps) && Gathered(before, micro, accumulation) && steps == micro / accumulation
      ensures ok ==> if steps < maxSteps then micro == micro0 + batches
                     else steps == maxSteps && micro % accumulation == 0 && micro <= micro0 + batches
      ensures !ok ==> Raised() && |tried| <= |before + Optimizing(n, accumulation, maxSteps)|
    {
      steps, micro, ok := steps0, micro0, true;
      var batch := 0;
      while batch < batches
        invariant 0 <= batch <= batches && Recorded(steps) && Gathered(before, micro, accumulation)
        invariant steps == micro / accumulation < maxSteps && micro == micro0 + batch && ok
      {
        NextBatch(before, n, accumulation, maxSteps, micro, plan);
        ok := TakeBatch(before, micro, accumulation, steps);
        if !ok { return; }
        DivStep(micro, accumulation);
        micro := micro + 1;
        batch := batch + 1;
        if micro % accumulation == 0 {
          steps := steps + 1;
        }
        if steps >= maxSteps {
          return;
        }
      }
    }

    /** The outer loop over the epochs, until the step limit. */
    method TakeEpochs(epochs: nat, batches: nat, accumulation: nat, maxSteps: nat, ghost before: seq<Action>,
                      ghost n: nat)
      returns (ok: bool, steps: nat, micro: nat)
      requires accumulation > 0 && maxSteps > 0 && n == epochs * batches
      requires Recorded(0) && performed == before
      requires before + Optimizing(n, accumulation, maxSteps) <= plan
      modifies this
      ensures Sound() && Along() && Observed().compared.None?
      ensures ok ==> Recorded(steps) && Gathered(before, micro, accumulation) && steps == micro / accumulation
      ensures ok ==> micro <= n
      ensures ok ==> (micro == n && steps < maxSteps) || (steps == maxSteps && micro % accumulation == 0)
      ensures !ok ==> Raised() && |tried| <= |before + Optimizing(n, accumulation, maxSteps)|
    {
      ok, steps, micro := true, 0, 0;
      assert 0 * batches == 0 && 0 / accumulation == 0;
      assert before + Gathering(0, accumulation) == before;
      var epoch := 0;
      while epoch < epochs
        invariant 0 <= epoch <= epochs && Recorded(steps) && Gathered(before, micro, accumulation)
        invariant steps == micro / accumulation < maxSteps && micro == epoch * batches && ok
      {
        EpochFits(epoch, epochs, batches);
        ok, steps, micro := TakeEpoch(batches, accumulation, maxSteps, steps, micro, before, n);
        if !ok || steps >= maxSteps {
          return;
        }
        epoch := epoch + 1;
      }
    }

    /** The loops with their early exits, and the fallback step. Interrupted exactly when the actions are more than
        the budget. */
    method Optimize(epochs: nat, batches: nat, accumulation: nat, maxSteps: nat) returns (o: Outcome)
      requires epochs > 0 && accumulation > 0 && maxSteps > 0
      requires Recorded(0) && performed + Optimizing(epochs * batches, accumulation, maxSteps) <= plan
      modifies this
      ensures Sound() && Along() && Observed().compared.None?
      ensures o.Interrupted? <==> old(budget) < |Optimizing(epochs * batches, accumulation, maxSteps)|
      ensures o.Interrupted? ==> Raised()
      ensures !o.Interrupted? ==>
                performed == tried == old(performed) + Optimizing(epochs * batches, accumulation, maxSteps)
      ensures !o.Interrupted? ==> (o.NoStep? <==> batches == 0) && !o.NothingChanged?
      ensures o.Done? ==> Accounted(epochs * batches, accumulation, maxSteps, o.optimizerSteps, o.microSteps)
                          && Recorded(o.optimizerSteps)
    {
      ghost var n, before := epochs * batches, performed;
      NoBatches(epochs, batches);
      var ok, steps, micro := TakeEpochs(epochs, batches, accumulation, maxSteps, before, n);
      if !ok { return Interrupted; }
      LoopsEnd(n, accumulation, maxSteps, micro, steps);
      o := Conclude(before, n, accumulation, maxSteps, steps, micro);
    }

    /** The hash comparison, and saving the candidate. */
    method Finish(changedNames: nat, optimized: Outcome) returns (o: Outcome)
      requires optimized.Done? && Recorded(optimized.optimizerSteps) && optimized.optimizerSteps > 0
      requires differs == (changedNames > 0) && plan == performed + if differs then [HASH, SAVE] else [HASH]
      modifies this
      ensures Sound() && Along()
      ensures o.Interrupted? ==> Raised()
      ensures !o.Interrupted? ==> performed == tried == plan && optimizerSteps == optimized.optimizerSteps
      ensures !o.Interrupted? ==> o == if differs then optimized else NothingChanged
    {
      o := optimized;
      EndFits(performed, differs, plan);
      var ok := Act(HASH);
      if !ok { return Interrupted; }
      if changedNames == 0 {
        selectedParameterChangeState := UNCHANGED;
        return NothingChanged;
      }
      selectedParameterChangeState := CHANGED;
      ok := Act(SAVE);
      if !ok { return Interrupted; }
    }

    /** execute(): preparation, optimization, the hash comparison, and saving the candidate. `changedNames`
        is the number of selected parameters whose hash differs afterwards. */
    method Execute(epochs: nat, batches: nat, accumulation: nat, maxSteps: nat, changedNames: nat) returns (o: Outcome)
      requires epochs > 0 && accumulation > 0 && maxSteps > 0
      requires Recorded(0) && performed == [] && differs == (changedNames > 0)
      requires plan == Plan(epochs * batches, accumulation, maxSteps, differs)
      modifies this
      ensures Sound() && Along()
      ensures o.Interrupted? ==> Raised()
      ensures !o.Interrupted? ==> performed == tried == plan
      ensures o.Done? ==> Accounted(epochs * batches, accumulation, maxSteps, o.optimizerSteps, o.microSteps)
                          && optimizerSteps == o.optimizerSteps
      ensures !o.Interrupted? ==> (o.NoStep? <==> batches == 0) && (o.NothingChanged? <==> batches > 0 && !differs)
    {
      ghost var actions := Optimizing(epochs * batches, accumulation, maxSteps);
      ghost var ending := Ending(epochs * batches, differs);
      NoBatches(epochs, batches);
      assert plan == [PREPARE] + actions + ending;
      var ok := Act(PREPARE);
      if !ok { return Interrupted; }
      assert performed == [PREPARE];
      o := Optimize(epochs, batches, accumulation, maxSteps);
      if o.Done? {
        o := Finish(changedNames, o);
      } else if o.NoStep? {
        NothingToDo(accumulation, maxSteps);
      }
    }
  }

  lemma NothingToDo(accumulation: nat, maxSteps: nat)
    requires accumulation > 0
    ensures Optimizing(0, accumulation, maxSteps) == []
  {
    assert maxSteps * accumulation >= 0;
  }

  /** An execution that follows its plan leaves the facts of its budget. */
  lemma FactsAre(plan: seq<Action>, budget: nat, performed: seq<Action>, tried: seq<Action>, differs: bool)
    requires performed <= plan && tried <= plan
    requires if budget < |plan| then |performed| == budget && |tried| == budget + 1 else performed == tried == plan
    ensures FactsOf(performed, tried, differs) == FactsAfter(plan, budget, differs)
    ensures performed == plan[..Min(budget, |plan|)]
  {
    assert plan[..|plan|] == plan;
    assert performed == plan[..|performed|] && tried == plan[..|tried|];
  }

  /** While batches and steps are left, the next batch belongs to the plan. */
  lemma NextBatch(before: seq<Action>, n: nat, accumulation: nat, maxSteps: nat, micro: nat, plan: seq<Action>)
    requires accumulation > 0 && micro < n && micro / accumulation < maxSteps
    requires before + Optimizing(n, accumulation, maxSteps) <= plan
    ensures before + Gathering(micro + 1, accumulation) <= plan
    ensures |Gathering(micro + 1, accumulation)| <= |Optimizing(n, accumulation, maxSteps)|
  {
    DivOrder(micro, accumulation, maxSteps);
    GatheringGrows(micro, Min(n, maxSteps * accumulation), accumulation);
    var o, g := Optimizing(n, accumulation, maxSteps), Gathering(micro + 1, accumulation);
    assert g <= o;
    assert before + o == before + g + o[|g|..];
  }

  lemma NoBatches(epochs: nat, batches: nat)
    requires epochs > 0
    ensures epochs * batches == 0 <==> batches == 0
  {
    if batches > 0 {
      Multiples(0, epochs, batches);
    }
  }

  lemma EpochFits(epoch: nat, epochs: nat, batches: nat)
    requires epoch < epochs
    ensures (epoch + 1) * batches == epoch * batches + batches
    ensures epoch * batches + batches <= epochs * batches
  {
    assert (epochs - epoch - 1) * batches >= 0;
    assert epochs * batches == (epoch + 1) * batches + (epochs - epoch - 1) * batches;
  }

  /** main(): the report is true of what the first `budget` actions of the plan and the one begun after them did,
      and the execution is interrupted exactly when the plan is longer than that. */
  method ExecuteAndReport(budget: nat, epochs: nat, batches: nat, accumulation: nat, maxSteps: nat, changedNames: nat)
    returns (o: Outcome, report: Truth)
    requires epochs > 0 && accumulation > 0 && maxSteps > 0
    ensures var plan := Plan(epochs * batches, accumulation, maxSteps, changedNames > 0);
            var f := FactsAfter(plan, budget, changedNames > 0);
            && (o.Interrupted? <==> budget < |plan|)
            && (report.effect == PRE_EXECUTION_NO_EFFECT <==> f.begun == 0)
            && (report.effect == POST_OPTIMIZER_CHANGED <==> f.compared == Some(true))
            && (report.effect == POST_OPTIMIZER_UNCHANGED <==> f.compared == Some(false))
            && (report.weightsChanged == Some(true) <==> f.compared == Some(true))
            && (report.weightsChanged == Some(false) <==> f.begun == 0 || f.compared == Some(false))
            && (report.executed == Some(true) ==> f.completed > 0)
            && (report.executed == Some(false) <==> f.begun == 0)
            && (report.executed == Some(true) <==> report.steps > 0)
            && (report.effect == OPTIMIZER_ATTEMPT_EFFECT_UNKNOWN <==> f.begun > 0 && report.steps == 0)
            && (report.effect == POST_OPTIMIZER_CHANGE_UNKNOWN <==> report.steps > 0 && f.compared.None?)
            && report.steps == Count(plan[..Min(budget, |plan|)], ZERO_GRAD)
            && report.steps <= f.completed <= report.steps + 1
    ensures o.Done? ==> report.steps == o.optimizerSteps
                        && Accounted(epochs * batches, accumulation, maxSteps, o.optimizerSteps, o.microSteps)
    ensures !o.Interrupted? ==>
              (o.NoStep? <==> batches == 0) && (o.NothingChanged? <==> batches > 0 && changedNames == 0)
  {
    ghost var plan := Plan(epochs * batches, accumulation, maxSteps, changedNames > 0);
    var attempt := new Attempt(budget, changedNames > 0, plan);
    o := attempt.Execute(epochs, batches, accumulation, maxSteps, changedNames);
    attempt.ObservedFacts();
    FactsAre(plan, budget, attempt.performed, attempt.tried, changedNames > 0);
    TruthSound(attempt.optimizerAttempted, attempt.optimizerSteps, attempt.selectedParameterChangeState,
               attempt.Observed());
    report := FailureTruth(attempt.optimizerAttempted, attempt.optimizerSteps, attempt.selectedParameterChangeState);
  }
}
