/**
 * The dashboard's "recent transactions" card. Its state is the list it shows
 * and a loading flag; one fetch replaces the list with the six newest entries
 * of the merged income and expense lists, and the card renders a skeleton, an
 * empty state or the list from that state.
 */
module RecentTransactions {
  import opened Wrappers
  import opened Records
  import opened Ledger
  import Backend

  /** How many entries the card keeps. */
  const RecentCount: nat := 6

  function Min(a: nat, b: nat): nat {
    if a <= b then a else b
  }

  /**
   * `[...incomes, ...expenses].sort(newest first).slice(0, 6)`: the first six
   * entries of the sorted ledger (all of them when there are fewer).
   */
  function Recent(incomes: seq<Income>, expenses: seq<Expense>): (r: seq<Transaction>)
    ensures |r| == Min(RecentCount, |incomes| + |expenses|)
    ensures r <= AllTransactions(incomes, expenses)
  {
    var all := AllTransactions(incomes, expenses);
    if |all| <= RecentCount then all else all[..RecentCount]
  }

  /**
   * The card keeps the newest entries: its list is newest first, and no entry
   * it drops is newer than an entry it keeps.
   */
  lemma RecentAreNewest(incomes: seq<Income>, expenses: seq<Expense>)
    ensures NewestFirst(Recent(incomes, expenses))
    ensures var all := AllTransactions(incomes, expenses);
            var r := Recent(incomes, expenses);
            forall i, j :: 0 <= i < |r| <= j < |all| ==> r[i].date >= all[j].date
  {
    var all := AllTransactions(incomes, expenses);
    var r := Recent(incomes, expenses);
    assert forall i :: 0 <= i < |r| ==> r[i] == all[i];
  }

  /** Every entry the card shows comes from one of the fetched rows. */
  lemma RecentComeFromRows(incomes: seq<Income>, expenses: seq<Expense>)
    ensures forall t :: t in Recent(incomes, expenses) ==>
              (exists i :: i in incomes && t == FromIncome(i))
              || (exists e :: e in expenses && t == FromExpense(e))
  {
    var all := AllTransactions(incomes, expenses);
    var m := Merge(incomes, expenses);
    forall t | t in Recent(incomes, expenses)
      ensures (exists i :: i in incomes && t == FromIncome(i))
              || (exists e :: e in expenses && t == FromExpense(e))
    {
      assert t in all;
      assert t in multiset(all);
      assert t in m;
      var k :| 0 <= k < |m| && m[k] == t;
      if k < |incomes| {
        assert incomes[k] in incomes && t == FromIncome(incomes[k]);
      } else {
        assert expenses[k - |incomes|] in expenses && t == FromExpense(expenses[k - |incomes|]);
      }
    }
  }

  /** What the card renders. */
  datatype Screen = Skeleton | NoTransactions | Listing(items: seq<Transaction>)

  /** The caption under an entry: 'Today', 'Yesterday', or the month and day of its date. */
  datatype DateCaption = Today | Yesterday | MonthDay(day: Day)

  /** `formatDate`, with `now` passed in as the current day. */
  function DateLabel(date: Day, today: Day): (c: DateCaption)
    ensures c == Today <==> date == today
    ensures c == Yesterday <==> date == today - 1
    ensures c.MonthDay? ==> c.day == date && date != today && date != today - 1
  {
    if date == today then Today
    else if date == today - 1 then Yesterday
    else MonthDay(date)
  }

  /** The amount as shown: a sign by kind, then the magnitude (`Math.abs`). */
  datatype ShownAmount = ShownAmount(sign: char, magnitude: real)

  function ShowAmount(t: Transaction): (s: ShownAmount)
    ensures s.sign == '+' <==> t.kind == IncomeKind
    ensures s.sign == '-' <==> t.kind == ExpenseKind
    ensures s.magnitude >= 0.0
    ensures s.magnitude == t.amount || s.magnitude == -t.amount
  {
    ShownAmount(if t.kind == IncomeKind then '+' else '-', if t.amount < 0.0 then -t.amount else t.amount)
  }

  /** The signed value a reader takes from the shown amount. */
  function ReadBack(s: ShownAmount): real {
    if s.sign == '+' then s.magnitude else -s.magnitude
  }

  /** For a non-negative amount the shown text reads back as the entry's signed contribution. */
  lemma ShownAmountIsSigned(t: Transaction)
    requires t.amount >= 0.0
    ensures ReadBack(ShowAmount(t)) == Signed(t)
  {
  }

  /**
   * A negative amount is shown with the sign of its kind regardless: a
   * negative income reads back as a positive one.
   */
  lemma NegativeIncomeReadsPositive(t: Transaction)
    requires t.kind == IncomeKind && t.amount < 0.0
    ensures ReadBack(ShowAmount(t)) == -Signed(t) > 0.0
  {
  }

  /** 'View All Transactions': the income page when the first entry shown is income, else the expenses page. */
  function ViewAllRoute(items: seq<Transaction>): (route: string)
    ensures route == "/dashboard/income" <==> |items| > 0 && items[0].kind == IncomeKind
    ensures route == "/dashboard/expenses" <==> !(|items| > 0 && items[0].kind == IncomeKind)
  {
    if |items| > 0 && items[0].kind == IncomeKind then "/dashboard/income" else "/dashboard/expenses"
  }

  /** 'View All' leads to the list holding the newest entry of the whole ledger. */
  lemma ViewAllFollowsNewest(incomes: seq<Income>, expenses: seq<Expense>)
    requires |incomes| + |expenses| > 0
    ensures var all := AllTransactions(incomes, expenses);
            ViewAllRoute(Recent(incomes, expenses)) ==
              (if all[0].kind == IncomeKind then "/dashboard/income" else "/dashboard/expenses")
  {
    var r := Recent(incomes, expenses);
    assert r[0] == AllTransactions(incomes, expenses)[0];
  }

  class RecentTransactionsView {
    var transactions: seq<Transaction>
    var loading: bool

    /** The card mounts loading, with no entries. */
    constructor()
      ensures transactions == [] && loading
    {
      transactions := [];
      loading := true;
    }

    /**
     * `fetchTransactions`: without a user only the loading flag is cleared;
     * when a read throws, the error is caught and likewise only the flag is
     * cleared; otherwise the list becomes the six newest entries of the
     * fetched rows, where a list the backend did not return counts as empty.
     */
    method FetchTransactions(
      user: Option<Backend.User>,
      readsThrew: bool,
      incomeData: Option<seq<Income>>,
      expenseData: Option<seq<Expense>>)
      modifies this
      ensures !loading
      ensures user.None? || readsThrew ==> transactions == old(transactions)
      ensures user.Some? && !readsThrew ==> transactions == Recent(incomeData.GetOr([]), expenseData.GetOr([]))
      ensures |transactions| <= RecentCount || transactions == old(transactions)
    {
      loading := true;
      if user.None? {
        loading := false;
        return;
      }
      if !readsThrew {
        transactions := Recent(incomeData.GetOr([]), expenseData.GetOr([]));
      }
      loading := false;
    }

    /** The render: skeleton while loading, the empty state, or the list. */
    function Render(): (s: Screen)
      reads this
      ensures s == Skeleton <==> loading
      ensures s == NoTransactions <==> !loading && transactions == []
      ensures s.Listing? ==> s.items == transactions && |s.items| > 0
    {
      if loading then Skeleton
      else if transactions == [] then NoTransactions
      else Listing(transactions)
    }
  }
}
