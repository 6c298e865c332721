/**
 * The savings page's goal list: one card per goal with a progress bar capped
 * at 100%, a green "completed" band and a yellow "close to target" band, an
 * edit dialog for the goal being edited, and a delete button that disables the
 * card's buttons while the delete is under way.
 */
module SavingsGoalsList {
  import opened Wrappers
  import opened JsNumber
  import opened Records
  import opened Backend
  import Dashboard
  import SavingsGoalActions

  /**
   * `Math.min(100, (current / target) * 100)`: the same capped share the
   * dashboard averages.
   */
  function Progress(g: SavingsGoal): Num {
    Dashboard.CappedPercent(g)
  }

  /** `progressPercentage >= 100`. */
  predicate IsCompleted(g: SavingsGoal) {
    AtLeast(Progress(g), Finite(100.0))
  }

  /** `progressPercentage >= 80 && progressPercentage < 100`. */
  predicate IsCloseToTarget(g: SavingsGoal) {
    AtLeast(Progress(g), Finite(80.0)) && Greater(Finite(100.0), Progress(g))
  }

  /**
   * The bar never goes past 100: the progress is never +Infinity, and when it
   * is a number it is at most 100. With a positive target it is always a
   * number, the smaller of 100 and the percentage saved.
   */
  lemma ProgressIsCapped(g: SavingsGoal)
    ensures Progress(g) != PosInf
    ensures Progress(g).Finite? ==> Progress(g).value <= 100.0
    ensures g.targetAmount > 0.0 ==>
              var p := g.currentAmount / g.targetAmount * 100.0;
              Progress(g) == Finite(if p <= 100.0 then p else 100.0)
  {
  }

  /** For a non-zero target, `c / t * 100 >= 100` holds exactly when `c` is on the far side of `t`. */
  lemma {:induction false} ReachesHundred(c: real, t: real)
    requires t != 0.0
    ensures c / t * 100.0 >= 100.0 <==> (t > 0.0 && c >= t) || (t < 0.0 && c <= t)
  {
    var q := c / t;
    assert q * t == c;
    if t > 0.0 {
      if q >= 1.0 { assert q * t >= 1.0 * t; }
      if c >= t { assert q * t >= t; assert q >= 1.0; }
    } else {
      if q >= 1.0 { assert q * t <= 1.0 * t; }
      if c <= t { assert q * t <= t; assert q >= 1.0; }
    }
  }

  /** For a non-zero target, `c / t * 100 >= 80` holds exactly when `c` is at least 80% of the way to `t`. */
  lemma {:induction false} ReachesEighty(c: real, t: real)
    requires t != 0.0
    ensures c / t * 100.0 >= 80.0 <==> (t > 0.0 && c >= 0.8 * t) || (t < 0.0 && c <= 0.8 * t)
  {
    var q := c / t;
    assert q * t == c;
    if t > 0.0 {
      if q >= 0.8 { assert q * t >= 0.8 * t; }
      if c >= 0.8 * t { assert q * t >= 0.8 * t; assert q >= 0.8; }
    } else {
      if q >= 0.8 { assert q * t <= 0.8 * t; }
      if c <= 0.8 * t { assert q * t <= 0.8 * t; assert q >= 0.8; }
    }
  }

  /**
   * When a goal is completed. For a positive target: exactly when the current
   * amount has reached it. A zero target counts as completed when anything is
   * saved (the percentage is +Infinity, capped to 100), and not when nothing
   * is (0 / 0 is NaN); a negative target when the current amount is at or
   * below it.
   */
  lemma CompletedIff(g: SavingsGoal)
    ensures IsCompleted(g) <==>
              || (g.targetAmount > 0.0 && g.currentAmount >= g.targetAmount)
              || (g.targetAmount < 0.0 && g.currentAmount <= g.targetAmount)
              || (g.targetAmount == 0.0 && g.currentAmount > 0.0)
  {
    if g.targetAmount != 0.0 {
      ReachesHundred(g.currentAmount, g.targetAmount);
    }
  }

  /**
   * When a goal is close to its target. For a positive target: exactly when
   * the current amount is at least 80% of the target and still below it. A
   * zero target is never close; a negative one mirrors the positive case.
   */
  lemma CloseIff(g: SavingsGoal)
    ensures IsCloseToTarget(g) <==>
              || (g.targetAmount > 0.0 && 0.8 * g.targetAmount <= g.currentAmount < g.targetAmount)
              || (g.targetAmount < 0.0 && g.targetAmount < g.currentAmount <= 0.8 * g.targetAmount)
  {
    if g.targetAmount != 0.0 {
      ReachesHundred(g.currentAmount, g.targetAmount);
      ReachesEighty(g.currentAmount, g.targetAmount);
    }
  }

  /** No card is both green and yellow. */
  lemma BandsAreExclusive(g: SavingsGoal)
    ensures !(IsCompleted(g) && IsCloseToTarget(g))
  {
  }

  /**
   * The list and the dashboard disagree on a goal with nothing to save and
   * nothing saved: the dashboard's `current >= target` filter counts it as
   * completed, while the list's NaN progress does not.
   */
  lemma EmptyGoalDisagrees(g: SavingsGoal)
    requires g.targetAmount == 0.0 && g.currentAmount == 0.0
    ensures Dashboard.IsComplete(g)
    ensures !IsCompleted(g) && !IsCloseToTarget(g)
    ensures Progress(g) == NaN
  {
  }

  /** A positive-target goal is completed on the list exactly when the dashboard counts it as completed. */
  lemma ListAgreesWithDashboard(g: SavingsGoal)
    requires g.targetAmount > 0.0
    ensures IsCompleted(g) <==> Dashboard.IsComplete(g)
  {
    CompletedIff(g);
  }

  /** `formatDate`'s result; the locale's long date text is not modelled. */
  datatype DateCaption = NoTargetDate | LongDate(day: Day)

  /** The caption `"No target date"`, for a missing date. */
  const NoTargetDateText: string := "No target date"

  /** `formatDate`: a missing date is "No target date", any other is its long form. */
  function FormatDate(date: Option<Day>): (c: DateCaption)
    ensures c == NoTargetDate <==> date.None?
    ensures date.Some? ==> c == LongDate(date.value)
  {
    if date.None? then NoTargetDate else LongDate(date.value)
  }

  /**
   * The date line of a card: shown only when the goal has a target date, so
   * the "No target date" caption never appears on a card.
   */
  function DateLine(g: SavingsGoal): (line: Option<DateCaption>)
    ensures line.Some? <==> g.targetDate.Some?
    ensures line.Some? ==> line.value == LongDate(g.targetDate.value)
  {
    if g.targetDate.Some? then Some(FormatDate(g.targetDate)) else None
  }

  /** One goal card as rendered. */
  datatype Card = Card(
    goal: SavingsGoal,
    progress: Num,
    completed: bool,
    closeToTarget: bool,
    dateLine: Option<DateCaption>)

  function CardOf(g: SavingsGoal): Card {
    Card(g, Progress(g), IsCompleted(g), IsCloseToTarget(g), DateLine(g))
  }

  /** The list as rendered: the empty-state message, or the cards with an optional edit dialog above them. */
  datatype Screen = EmptyState | Cards(editor: Option<SavingsGoal>, cards: seq<Card>, buttonsEnabled: bool)

  const EmptyMessage: string :=
    "You don't have any savings goals yet. Use the \"Add Savings Goal\" button to create your first goal."

  /** The outcome of the `deleteSavingsGoal` call as the list sees it: a reply, or an exception. */
  datatype DeleteOutcome = Replied(reply: Reply) | Threw

  class SavingsGoalsListView {
    const goals: seq<SavingsGoal>
    var loading: bool
    var editingGoal: Option<SavingsGoal>
    /** The forms sent to `deleteSavingsGoal`, in order. */
    var deletions: seq<FormData>
    /** How many times the page was refreshed. */
    var refreshes: nat

    constructor(goals: seq<SavingsGoal>)
      ensures this.goals == goals
      ensures !loading && editingGoal.None? && deletions == [] && refreshes == 0
    {
      this.goals := goals;
      loading := false;
      editingGoal := None;
      deletions := [];
      refreshes := 0;
    }

    /**
     * What the list shows: with no goals the empty-state message whatever
     * else holds; otherwise one card per goal, in order, the edit dialog when
     * a goal is being edited, and the buttons disabled while loading.
     */
    function Render(): (s: Screen)
      reads this
      ensures s == EmptyState <==> goals == []
      ensures s.Cards? ==>
                && |s.cards| == |goals|
                && s.editor == editingGoal
                && s.buttonsEnabled == !loading
                && forall k :: 0 <= k < |goals| ==>
                     s.cards[k].goal == goals[k]
                     && s.cards[k].completed == IsCompleted(goals[k])
                     && s.cards[k].closeToTarget == IsCloseToTarget(goals[k])
                     && s.cards[k].progress == Progress(goals[k])
                     && s.cards[k].dateLine == DateLine(goals[k])
                     && !(s.cards[k].completed && s.cards[k].closeToTarget)
    {
      if goals == [] then EmptyState
      else Cards(editingGoal, seq(|goals|, k requires 0 <= k < |goals| => CardOf(goals[k])), !loading)
    }

    /** The first half of `handleDelete`: disable the buttons and send a form holding just the id. */
    method BeginDelete(id: string)
      modifies this
      ensures loading
      ensures deletions == old(deletions) + [map["id" := id]]
      ensures editingGoal == old(editingGoal) && refreshes == old(refreshes)
    {
      loading := true;
      deletions := deletions + [map["id" := id]];
    }

    /**
     * The second half: refresh after any reply, success or not, but not
     * after an exception; then re-enable the buttons in every case.
     */
    method FinishDelete(outcome: DeleteOutcome)
      modifies this
      ensures !loading
      ensures refreshes == old(refreshes) + (if outcome.Replied? then 1 else 0)
      ensures editingGoal == old(editingGoal) && deletions == old(deletions)
    {
      if outcome.Replied? {
        refreshes := refreshes + 1;
      }
      loading := false;
    }

    /**
     * `handleDelete` from start to end, with the server action's reply for
     * the given user and backend outcome, or an exception when `threw`.
     */
    method HandleDelete(id: string, user: Option<User>, deleteFailure: Option<Thrown>, threw: bool)
      modifies this
      ensures !loading
      ensures deletions == old(deletions) + [map["id" := id]]
      ensures refreshes == old(refreshes) + (if threw then 0 else 1)
      ensures editingGoal == old(editingGoal)
    {
      BeginDelete(id);
      var result := SavingsGoalActions.DeleteSavingsGoal(map["id" := id], user, deleteFailure);
      FinishDelete(if threw then Threw else Replied(result.reply));
    }

    /** The edit button: it does nothing while disabled, and otherwise opens the dialog on that goal. */
    method StartEditing(g: SavingsGoal)
      modifies this
      ensures editingGoal == (if old(loading) then old(editingGoal) else Some(g))
      ensures loading == old(loading) && deletions == old(deletions) && refreshes == old(refreshes)
    {
      if !loading {
        editingGoal := Some(g);
      }
    }

    /** The dialog's `onOpenChange`: closing it forgets the goal; opening changes nothing. */
    method EditorOpenChange(open: bool)
      modifies this
      ensures editingGoal == (if open then old(editingGoal) else None)
      ensures loading == old(loading) && deletions == old(deletions) && refreshes == old(refreshes)
    {
      if !open {
        editingGoal := None;
      }
    }
  }

  /**
   * The form the list sends passes the server's id check whenever the goal
   * has an id, so for a signed-in user the delete is the caller's own row
   * with that id.
   */
  lemma DeleteFormReachesServer(id: string, user: User, failure: Option<Thrown>)
    requires id != ""
    ensures var r := SavingsGoalActions.DeleteSavingsGoal(map["id" := id], Some(user), failure);
            |r.calls| >= 2 && r.calls[1] == Delete(SavingsGoalActions.GoalsTable, [Eq("id", id), Eq("user_id", user.id)])
    ensures SavingsGoalActions.DeleteSavingsGoal(map["id" := id], Some(user), failure).reply.Success? <==> failure.None?
  {
  }
}
