/**
 * The summary figures of the dashboard page: income, expense and goal totals,
 * net savings and its cash-flow label, overall goal progress, the goal closest
 * to completion, the completed-goal count, the average progress and the
 * greeting's display name.
 *
 * Each list arrives as the `data` of a fetch, so it may be absent (`null`);
 * an absent list counts as empty, as `?.reduce(...) || 0` does.
 */
module Dashboard {
  import opened Wrappers
  import opened JsText
  import opened JsNumber
  import opened Records
  import Backend

  /** `s.reduce((sum, x) => sum + f(x), 0)`. */
  function SumOf<T>(s: seq<T>, f: T -> real): real {
    if s == [] then 0.0 else f(s[0]) + SumOf(s[1..], f)
  }

  lemma {:induction false} SumOfAppend<T>(a: seq<T>, b: seq<T>, f: T -> real)
    ensures SumOf(a + b, f) == SumOf(a, f) + SumOf(b, f)
  {
    if a != [] {
      assert (a + b)[1..] == a[1..] + b;
      SumOfAppend(a[1..], b, f);
    } else {
      assert a + b == b;
    }
  }

  lemma {:induction false} SumOfNonNegative<T>(s: seq<T>, f: T -> real)
    requires forall k :: 0 <= k < |s| ==> f(s[k]) >= 0.0
    ensures SumOf(s, f) >= 0.0
  {
    if s != [] {
      SumOfNonNegative(s[1..], f);
    }
  }

  function AmountOfIncome(i: Income): real { i.amount }
  function AmountOfExpense(e: Expense): real { e.amount }
  function TargetOf(g: SavingsGoal): real { g.targetAmount }
  function CurrentOf(g: SavingsGoal): real { g.currentAmount }

  /** Total income: the sum of the amounts, 0 when the list is absent. */
  function TotalIncome(incomes: Option<seq<Income>>): real {
    SumOf(incomes.GetOr([]), AmountOfIncome)
  }

  /** Total expenses: the sum of the amounts, 0 when the list is absent. */
  function TotalExpenses(expenses: Option<seq<Expense>>): real {
    SumOf(expenses.GetOr([]), AmountOfExpense)
  }

  /** Net savings: total income minus total expenses. */
  function NetSavings(incomes: Option<seq<Income>>, expenses: Option<seq<Expense>>): real {
    TotalIncome(incomes) - TotalExpenses(expenses)
  }

  /**
   * The totals are 0 for an absent list, the amount itself for a single
   * entry, additive over concatenation, and non-negative for non-negative
   * amounts.
   */
  lemma TotalsAreSums(a: seq<Income>, b: seq<Income>, x: seq<Expense>, y: seq<Expense>, i: Income, e: Expense)
    ensures TotalIncome(None) == 0.0 && TotalExpenses(None) == 0.0
    ensures TotalIncome(Some([i])) == i.amount && TotalExpenses(Some([e])) == e.amount
    ensures TotalIncome(Some(a + b)) == TotalIncome(Some(a)) + TotalIncome(Some(b))
    ensures TotalExpenses(Some(x + y)) == TotalExpenses(Some(x)) + TotalExpenses(Some(y))
    ensures (forall k :: 0 <= k < |a| ==> a[k].amount >= 0.0) ==> TotalIncome(Some(a)) >= 0.0
    ensures (forall k :: 0 <= k < |x| ==> x[k].amount >= 0.0) ==> TotalExpenses(Some(x)) >= 0.0
    ensures NetSavings(Some(a + b), Some(x + y)) == NetSavings(Some(a), Some(x)) + NetSavings(Some(b), Some(y))
  {
    assert [i][1..] == [] && [e][1..] == [];
    SumOfAppend(a, b, AmountOfIncome);
    SumOfAppend(x, y, AmountOfExpense);
    if forall k :: 0 <= k < |a| ==> a[k].amount >= 0.0 {
      SumOfNonNegative(a, AmountOfIncome);
    }
    if forall k :: 0 <= k < |x| ==> x[k].amount >= 0.0 {
      SumOfNonNegative(x, AmountOfExpense);
    }
  }

  /** The label under net savings: "Positive" only for a strictly positive amount. */
  function CashFlowLabel(savings: real): (caption: string)
    ensures caption == "Positive" <==> savings > 0.0
    ensures caption == "Negative" <==> savings <= 0.0
  {
    if savings > 0.0 then "Positive" else "Negative"
  }

  function TotalTarget(goals: Option<seq<SavingsGoal>>): real {
    SumOf(goals.GetOr([]), TargetOf)
  }

  function TotalCurrent(goals: Option<seq<SavingsGoal>>): real {
    SumOf(goals.GetOr([]), CurrentOf)
  }

  /**
   * The overall progress bar: 0 unless the summed target is positive,
   * otherwise `Math.min(100, current / target * 100)`.
   */
  method OverallProgress(goals: Option<seq<SavingsGoal>>) returns (progress: real)
    ensures TotalTarget(goals) <= 0.0 ==> progress == 0.0
    ensures progress <= 100.0
    ensures TotalCurrent(goals) >= 0.0 ==> progress >= 0.0
    ensures TotalTarget(goals) > 0.0 ==>
              (progress == 100.0 <==> TotalCurrent(goals) >= TotalTarget(goals))
    ensures TotalTarget(goals) > 0.0 && TotalCurrent(goals) < TotalTarget(goals) ==>
              progress * TotalTarget(goals) == TotalCurrent(goals) * 100.0
  {
    var totalSavingsGoal := TotalTarget(goals);
    var currentSavings := TotalCurrent(goals);
    progress := 0.0;
    if totalSavingsGoal > 0.0 {
      var ratio := currentSavings / totalSavingsGoal * 100.0;
      RatioVersusHundred(currentSavings, totalSavingsGoal);
      progress := if ratio <= 100.0 then ratio else 100.0;
    }
  }

  /** For a positive total, `c / t * 100` reaches 100 exactly when `c` reaches `t`. */
  lemma RatioVersusHundred(c: real, t: real)
    requires t > 0.0
    ensures c / t * 100.0 >= 100.0 <==> c >= t
    ensures c / t * 100.0 * t == c * 100.0
    ensures c >= 0.0 ==> c / t * 100.0 >= 0.0
  {
    assert c / t * t == c;
  }

  predicate IsComplete(g: SavingsGoal) {
    g.currentAmount >= g.targetAmount
  }

  /** `savingsGoals?.filter(goal => goal.current_amount < goal.target_amount) || []`. */
  function Incomplete(goals: seq<SavingsGoal>): (r: seq<SavingsGoal>)
    ensures forall k :: 0 <= k < |r| ==> !IsComplete(r[k])
    ensures forall g :: g in goals && !IsComplete(g) ==> g in r
    ensures forall g :: g in r ==> g in goals
  {
    if goals == [] then []
    else (if IsComplete(goals[0]) then [] else [goals[0]]) + Incomplete(goals[1..])
  }

  /** `savingsGoals?.filter(g => g.current_amount >= g.target_amount)`. */
  function Completed(goals: seq<SavingsGoal>): (r: seq<SavingsGoal>)
    ensures forall k :: 0 <= k < |r| ==> IsComplete(r[k])
    ensures forall g :: g in goals && IsComplete(g) ==> g in r
    ensures forall g :: g in r ==> g in goals
  {
    if goals == [] then []
    else (if IsComplete(goals[0]) then [goals[0]] else []) + Completed(goals[1..])
  }

  /**
   * Both lists are filters of the goals: each goal occurs in the completed
   * list as often as in the input when it is complete and never otherwise,
   * and the other way round for the candidates.
   */
  lemma {:induction false} FiltersKeepMultiplicity(goals: seq<SavingsGoal>, g: SavingsGoal)
    ensures multiset(Completed(goals))[g] == if IsComplete(g) then multiset(goals)[g] else 0
    ensures multiset(Incomplete(goals))[g] == if IsComplete(g) then 0 else multiset(goals)[g]
  {
    if goals != [] {
      assert goals == [goals[0]] + goals[1..];
      FiltersKeepMultiplicity(goals[1..], g);
    }
  }

  /** The "Completed Goals" figure: the count of goals whose current amount reached the target. */
  function CompletedCount(goals: Option<seq<SavingsGoal>>): nat {
    |Completed(goals.GetOr([]))|
  }

  /** Every goal is either completed or a candidate for "closest", never both. */
  lemma {:induction false} CompletedPlusIncomplete(goals: seq<SavingsGoal>)
    ensures |Completed(goals)| + |Incomplete(goals)| == |goals|
    ensures CompletedCount(Some(goals)) + |Incomplete(goals)| == |goals|
  {
    if goals != [] {
      CompletedPlusIncomplete(goals[1..]);
    }
  }

  /** `(goal.current_amount / goal.target_amount) * 100`, with IEEE division. */
  function GoalPercent(g: SavingsGoal): Num {
    Percent(g.currentAmount, g.targetAmount)
  }

  /** An incomplete goal's percentage is a number or -Infinity, never NaN or +Infinity. */
  lemma IncompletePercentIsOrdered(g: SavingsGoal)
    requires !IsComplete(g)
    ensures GoalPercent(g).Finite? || GoalPercent(g) == NegInf
  {
  }

  /**
   * Candidate `k` is the goal the loop settles on: its percentage is above 0,
   * strictly above every earlier candidate's, and no later one exceeds it.
   */
  ghost predicate IsClosest(candidates: seq<SavingsGoal>, k: int) {
    && 0 <= k < |candidates|
    && Greater(GoalPercent(candidates[k]), Finite(0.0))
    && (forall j :: 0 <= j < k ==> Greater(GoalPercent(candidates[k]), GoalPercent(candidates[j])))
    && (forall j :: k < j < |candidates| ==> !Greater(GoalPercent(candidates[j]), GoalPercent(candidates[k])))
  }

  /**
   * The goal closest to completion: among the incomplete goals, the first one
   * with the highest percentage, provided that percentage is above 0.
   */
  method FindClosestGoal(goals: Option<seq<SavingsGoal>>) returns (closest: Option<SavingsGoal>)
    ensures closest.None? ==>
              forall j :: 0 <= j < |Incomplete(goals.GetOr([]))| ==>
                !Greater(GoalPercent(Incomplete(goals.GetOr([]))[j]), Finite(0.0))
    ensures closest.Some? ==>
              exists j :: 0 <= j < |Incomplete(goals.GetOr([]))| &&
                Greater(GoalPercent(Incomplete(goals.GetOr([]))[j]), Finite(0.0))
    ensures closest.Some? ==>
              exists k :: IsClosest(Incomplete(goals.GetOr([])), k) && Incomplete(goals.GetOr([]))[k] == closest.value
    ensures closest.Some? ==> !IsComplete(closest.value) && closest.value in goals.GetOr([])
  {
    var candidates := Incomplete(goals.GetOr([]));
    closest := None;
    var highest := Finite(0.0);
    ghost var at := -1;
    for i := 0 to |candidates|
      invariant highest.Finite? && highest.value >= 0.0
      invariant -1 <= at < i
      invariant at == -1 <==> closest.None?
      invariant at == -1 ==> highest == Finite(0.0)
      invariant at >= 0 ==> closest == Some(candidates[at]) && highest == GoalPercent(candidates[at])
      invariant at >= 0 ==> Greater(highest, Finite(0.0))
      invariant at >= 0 ==> forall j :: 0 <= j < at ==> Greater(highest, GoalPercent(candidates[j]))
      invariant forall j :: 0 <= j < i ==> !Greater(GoalPercent(candidates[j]), highest)
    {
      var percentage := GoalPercent(candidates[i]);
      IncompletePercentIsOrdered(candidates[i]);
      if Greater(percentage, highest) {
        forall j | 0 <= j < i ensures Greater(percentage, GoalPercent(candidates[j])) {
          IncompletePercentIsOrdered(candidates[j]);
        }
        highest := percentage;
        closest := Some(candidates[i]);
        at := i;
      }
    }
    if at >= 0 {
      assert IsClosest(candidates, at);
      assert !(0 <= at < |candidates| ==> !Greater(GoalPercent(candidates[at]), Finite(0.0)));
    } else {
      assert forall j :: 0 <= j < |candidates| ==> !Greater(GoalPercent(candidates[j]), Finite(0.0));
    }
  }

  /** A goal's share of the average: `Math.min(100, (current / target) * 100)`. */
  function CappedPercent(g: SavingsGoal): Num {
    MinWith(100.0, GoalPercent(g))
  }

  /** `goals.reduce((sum, g) => sum + CappedPercent(g), acc)`, folding from the left. */
  function FoldCapped(acc: Num, goals: seq<SavingsGoal>): Num
    decreases |goals|
  {
    if goals == [] then acc else FoldCapped(Plus(acc, CappedPercent(goals[0])), goals[1..])
  }

  /** The "Average Progress" figure: 0 with no goals, else the mean of the capped percentages. */
  function AverageProgress(goals: Option<seq<SavingsGoal>>): Num {
    if goals.None? || |goals.value| == 0 then Finite(0.0)
    else DivByCount(FoldCapped(Finite(0.0), goals.value), |goals.value|)
  }

  predicate Proper(g: SavingsGoal) {
    g.targetAmount > 0.0 && g.currentAmount >= 0.0
  }

  lemma {:induction false} FoldCappedBounds(acc: real, goals: seq<SavingsGoal>)
    requires forall k :: 0 <= k < |goals| ==> Proper(goals[k])
    ensures FoldCapped(Finite(acc), goals).Finite?
    ensures acc <= FoldCapped(Finite(acc), goals).value <= acc + 100.0 * |goals| as real
    decreases |goals|
  {
    if goals != [] {
      var g := goals[0];
      RatioVersusHundred(g.currentAmount, g.targetAmount);
      var c := CappedPercent(g);
      assert c.Finite? && 0.0 <= c.value <= 100.0;
      FoldCappedBounds(acc + c.value, goals[1..]);
    }
  }

  /** A total of at most 100 per goal, shared out over the goals, is at most 100. */
  lemma MeanOfBounded(total: real, n: nat)
    requires n > 0 && 0.0 <= total <= 100.0 * n as real
    ensures 0.0 <= total / n as real <= 100.0
  {
    var q := total / n as real;
    assert q * n as real == total;
    if q > 100.0 {
      assert q * n as real > 100.0 * n as real;
    }
  }

  /** With non-negative amounts and positive targets the average lies in [0, 100]. */
  lemma AverageWithinBounds(goals: seq<SavingsGoal>)
    requires forall k :: 0 <= k < |goals| ==> Proper(goals[k])
    ensures AverageProgress(Some(goals)).Finite?
    ensures 0.0 <= AverageProgress(Some(goals)).value <= 100.0
  {
    if |goals| > 0 {
      FoldCappedBounds(0.0, goals);
      MeanOfBounded(FoldCapped(Finite(0.0), goals).value, |goals|);
    }
  }

  lemma {:induction false} FoldKeepsNaN(goals: seq<SavingsGoal>)
    ensures FoldCapped(NaN, goals) == NaN
  {
    if goals != [] {
      FoldKeepsNaN(goals[1..]);
    }
  }

  lemma {:induction false} FoldMeetsNaN(acc: Num, goals: seq<SavingsGoal>, k: int)
    requires 0 <= k < |goals| && CappedPercent(goals[k]) == NaN
    ensures FoldCapped(acc, goals) == NaN
    decreases |goals|
  {
    if k == 0 {
      FoldKeepsNaN(goals[1..]);
    } else {
      FoldMeetsNaN(Plus(acc, CappedPercent(goals[0])), goals[1..], k - 1);
    }
  }

  /** A goal with target 0 and nothing saved (0 / 0) turns the average into NaN. */
  lemma ZeroOverZeroMakesAverageNaN(goals: seq<SavingsGoal>, k: int)
    requires 0 <= k < |goals| && goals[k].targetAmount == 0.0 && goals[k].currentAmount == 0.0
    ensures AverageProgress(Some(goals)) == NaN
  {
    FoldMeetsNaN(Finite(0.0), goals, k);
  }

  /**
   * The greeting: `full_name` when it is non-empty, else the email's text
   * before its first '@' when that is non-empty, else "User".
   */
  function DisplayName(user: Option<Backend.User>): (name: string)
    ensures name != ""
    ensures user.None? ==> name == "User"
    ensures user.Some? && Backend.Truthy(user.value.fullName) ==> name == user.value.fullName.value
    ensures user.Some? && !Backend.Truthy(user.value.fullName) && name != "User" ==>
              user.value.email.Some? && StartsWith(user.value.email.value, name) && '@' !in name
              && (|name| == |user.value.email.value| || user.value.email.value[|name|] == '@')
    ensures user.Some? && !Backend.Truthy(user.value.fullName) && user.value.email.Some?
            && BeforeFirst(user.value.email.value, '@') != "" ==>
              name == BeforeFirst(user.value.email.value, '@')
    ensures user.Some? && !Backend.Truthy(user.value.fullName)
            && (user.value.email.None? || BeforeFirst(user.value.email.value, '@') == "") ==>
              name == "User"
  {
    if user.None? then "User"
    else if Backend.Truthy(user.value.fullName) then user.value.fullName.value
    else if user.value.email.Some? && BeforeFirst(user.value.email.value, '@') != "" then
      BeforeFirst(user.value.email.value, '@')
    else "User"
  }
}
