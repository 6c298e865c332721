/**
 * The unified transaction ledger: income and expense rows mapped into one
 * `Transaction` shape, concatenated (incomes first) and sorted newest first
 * with JavaScript's stable `Array.prototype.sort` and the comparator
 * `(a, b) => date(b) - date(a)`; and `getTransactions`, which returns that list
 * or an error, never a partial list.
 */
module Ledger {
  import opened Wrappers
  import opened Records
  import Backend
  import Dashboard

  datatype Kind = IncomeKind | ExpenseKind

  datatype Transaction = Transaction(
    id: string,
    kind: Kind,
    amount: real,
    description: string,
    date: Day,
    createdAt: string)

  /** An income row as a transaction: its source becomes the description. */
  function FromIncome(i: Income): Transaction {
    Transaction(i.id, IncomeKind, i.amount, i.source, i.date, i.createdAt)
  }

  /** An expense row as a transaction. */
  function FromExpense(e: Expense): Transaction {
    Transaction(e.id, ExpenseKind, e.amount, e.description, e.date, e.createdAt)
  }

  function MapIncomes(s: seq<Income>): (r: seq<Transaction>)
    ensures |r| == |s|
    ensures forall k :: 0 <= k < |s| ==> r[k] == FromIncome(s[k])
  {
    seq(|s|, k requires 0 <= k < |s| => FromIncome(s[k]))
  }

  function MapExpenses(s: seq<Expense>): (r: seq<Transaction>)
    ensures |r| == |s|
    ensures forall k :: 0 <= k < |s| ==> r[k] == FromExpense(s[k])
  {
    seq(|s|, k requires 0 <= k < |s| => FromExpense(s[k]))
  }

  /** `[...incomeTransactions, ...expenseTransactions]`. */
  function Merge(incomes: seq<Income>, expenses: seq<Expense>): seq<Transaction> {
    MapIncomes(incomes) + MapExpenses(expenses)
  }

  /**
   * The merged list holds one income transaction per income row (same id,
   * amount, date and created_at; description = source) followed by one
   * expense transaction per expense row.
   */
  lemma MergeShape(incomes: seq<Income>, expenses: seq<Expense>)
    ensures |Merge(incomes, expenses)| == |incomes| + |expenses|
    ensures forall k :: 0 <= k < |incomes| ==>
              var t := Merge(incomes, expenses)[k];
              t.kind == IncomeKind && t.id == incomes[k].id && t.amount == incomes[k].amount
              && t.description == incomes[k].source && t.date == incomes[k].date
              && t.createdAt == incomes[k].createdAt
    ensures forall k :: 0 <= k < |expenses| ==>
              var t := Merge(incomes, expenses)[|incomes| + k];
              t.kind == ExpenseKind && t.id == expenses[k].id && t.amount == expenses[k].amount
              && t.description == expenses[k].description && t.date == expenses[k].date
              && t.createdAt == expenses[k].createdAt
  {
    var m := Merge(incomes, expenses);
    assert forall k :: 0 <= k < |incomes| ==> m[k] == FromIncome(incomes[k]);
    assert forall k :: 0 <= k < |expenses| ==> m[|incomes| + k] == FromExpense(expenses[k]);
  }
  /** Dates never increase from one element to the next. */
  ghost predicate NewestFirst(s: seq<Transaction>) {
    forall i, j :: 0 <= i < j < |s| ==> s[i].date >= s[j].date
  }

  /** `t` placed into the newest-first list `s` ahead of the first element not newer than it. */
  function InsertNewestFirst(t: Transaction, s: seq<Transaction>): (r: seq<Transaction>)
    requires NewestFirst(s)
    ensures |r| == |s| + 1
    ensures r[0] == t || (s != [] && r[0] == s[0])
    ensures NewestFirst(r)
    ensures multiset(r) == multiset(s) + multiset{t}
  {
    if s == [] || t.date >= s[0].date then [t] + s
    else
      var tail := s[1..];
      var rest := InsertNewestFirst(t, tail);
      assert s == [s[0]] + tail;
      assert s[0].date >= rest[0].date;
      var r := [s[0]] + rest;
      assert forall j :: 0 < j < |r| ==> r[j] == rest[j - 1];
      r
  }

  /**
   * `.sort((a, b) => date(b) - date(a))`: a stable sort, newest first. The
   * result is ordered and a permutation of the input.
   */
  function SortNewestFirst(s: seq<Transaction>): (r: seq<Transaction>)
    ensures NewestFirst(r)
    ensures multiset(r) == multiset(s)
    ensures |r| == |s|
  {
    if s == [] then []
    else
      assert s == [s[0]] + s[1..];
      InsertNewestFirst(s[0], SortNewestFirst(s[1..]))
  }

  /** The transactions of `s` dated `d`, in their order in `s`. */
  function OnDay(s: seq<Transaction>, d: Day): seq<Transaction> {
    if s == [] then [] else (if s[0].date == d then [s[0]] else []) + OnDay(s[1..], d)
  }

  lemma {:induction false} OnDayAppend(a: seq<Transaction>, b: seq<Transaction>, d: Day)
    ensures OnDay(a + b, d) == OnDay(a, d) + OnDay(b, d)
  {
    if a == [] {
      assert a + b == b;
    } else {
      assert (a + b)[1..] == a[1..] + b;
      OnDayAppend(a[1..], b, d);
    }
  }

  lemma {:induction false} OnDayNone(s: seq<Transaction>, d: Day)
    requires forall k :: 0 <= k < |s| ==> s[k].date != d
    ensures OnDay(s, d) == []
  {
    if s != [] {
      OnDayNone(s[1..], d);
    }
  }

  lemma {:induction false} InsertKeepsDayOrder(t: Transaction, s: seq<Transaction>, d: Day)
    requires NewestFirst(s)
    ensures OnDay(InsertNewestFirst(t, s), d) == OnDay([t] + s, d)
  {
    if s == [] || t.date >= s[0].date {
    } else {
      var rest := InsertNewestFirst(t, s[1..]);
      InsertKeepsDayOrder(t, s[1..], d);
      OnDayAppend([s[0]], rest, d);
      OnDayAppend([t], s[1..], d);
      OnDayAppend([s[0]], s[1..], d);
      assert s == [s[0]] + s[1..];
      OnDayAppend([t], s, d);
      if s[0].date == d {
        // s[0] is strictly newer than t, so t is not dated d
        assert OnDay([t], d) == [];
      }
    }
  }

  /**
   * The sort is stable: the transactions sharing a date keep the order they
   * had in the input.
   */
  lemma {:induction false} SortIsStable(s: seq<Transaction>, d: Day)
    ensures OnDay(SortNewestFirst(s), d) == OnDay(s, d)
  {
    if s != [] {
      SortIsStable(s[1..], d);
      InsertKeepsDayOrder(s[0], SortNewestFirst(s[1..]), d);
      OnDayAppend([s[0]], SortNewestFirst(s[1..]), d);
      OnDayAppend([s[0]], s[1..], d);
      assert s == [s[0]] + s[1..];
    }
  }

  /** The ledger as the transactions page shows it: merged and sorted newest first. */
  function AllTransactions(incomes: seq<Income>, expenses: seq<Expense>): (r: seq<Transaction>)
    ensures |r| == |incomes| + |expenses|
    ensures NewestFirst(r)
    ensures multiset(r) == multiset(MapIncomes(incomes)) + multiset(MapExpenses(expenses))
  {
    SortNewestFirst(Merge(incomes, expenses))
  }

  /**
   * `getTransactions`: no user gives 'Unauthorized'; an error from the income
   * query, then from the expense query, is returned as the error; otherwise the
   * sorted ledger (an absent `data` counting as no rows).
   */
  function GetTransactions(
    user: Option<Backend.User>,
    incomeQuery: Backend.Answer<seq<Income>>,
    expenseQuery: Backend.Answer<seq<Expense>>): (r: Backend.Fetched<seq<Transaction>>)
    ensures r.data.Some? <==> r.error.None?
    ensures user.None? ==> r == Backend.Fetched(None, Some(Backend.Unauthorized))
    ensures user.Some? && incomeQuery.failure.Some? ==>
              r == Backend.Fetched(None, Some(Backend.CaughtMessage(incomeQuery.failure.value)))
    ensures user.Some? && incomeQuery.failure.None? && expenseQuery.failure.Some? ==>
              r == Backend.Fetched(None, Some(Backend.CaughtMessage(expenseQuery.failure.value)))
    ensures r.data.Some? ==>
              user.Some? && incomeQuery.failure.None? && expenseQuery.failure.None?
              && r.data.value == AllTransactions(incomeQuery.data.GetOr([]), expenseQuery.data.GetOr([]))
  {
    if user.None? then Backend.Fetched(None, Some(Backend.Unauthorized))
    else if incomeQuery.failure.Some? then Backend.Fetched(None, Some(Backend.CaughtMessage(incomeQuery.failure.value)))
    else if expenseQuery.failure.Some? then Backend.Fetched(None, Some(Backend.CaughtMessage(expenseQuery.failure.value)))
    else Backend.Fetched(Some(AllTransactions(incomeQuery.data.GetOr([]), expenseQuery.data.GetOr([]))), None)
  }

  /** With a user and no query error the ledger holds every row once: nothing added, nothing dropped. */
  lemma GetTransactionsIsComplete(
    user: Backend.User,
    incomes: seq<Income>,
    expenses: seq<Expense>)
    ensures var r := GetTransactions(Some(user), Backend.Answer(Some(incomes), None), Backend.Answer(Some(expenses), None));
            r.data.Some? && |r.data.value| == |incomes| + |expenses|
            && (forall i :: i in incomes ==> FromIncome(i) in r.data.value)
            && (forall e :: e in expenses ==> FromExpense(e) in r.data.value)
            && (forall t :: t in r.data.value ==> t in Merge(incomes, expenses))
  {
    var r := AllTransactions(incomes, expenses);
    var m := Merge(incomes, expenses);
    assert multiset(r) == multiset(m);
    forall i | i in incomes ensures FromIncome(i) in r {
      var k :| 0 <= k < |incomes| && incomes[k] == i;
      assert m[k] == FromIncome(i);
      assert FromIncome(i) in multiset(m);
    }
    forall e | e in expenses ensures FromExpense(e) in r {
      var k :| 0 <= k < |expenses| && expenses[k] == e;
      assert m[|incomes| + k] == FromExpense(e);
      assert FromExpense(e) in multiset(m);
    }
    forall t | t in r ensures t in m {
      assert t in multiset(r);
    }
  }

  /** `+amount` for income, `-amount` for an expense. */
  function Signed(t: Transaction): real {
    if t.kind == IncomeKind then t.amount else -t.amount
  }

  function SignedSum(s: seq<Transaction>): real {
    if s == [] then 0.0 else Signed(s[0]) + SignedSum(s[1..])
  }

  lemma {:induction false} SignedSumAppend(a: seq<Transaction>, b: seq<Transaction>)
    ensures SignedSum(a + b) == SignedSum(a) + SignedSum(b)
  {
    if a == [] {
      assert a + b == b;
    } else {
      assert (a + b)[1..] == a[1..] + b;
      SignedSumAppend(a[1..], b);
    }
  }

  lemma {:induction false} SignedSumInsert(t: Transaction, s: seq<Transaction>)
    requires NewestFirst(s)
    ensures SignedSum(InsertNewestFirst(t, s)) == Signed(t) + SignedSum(s)
  {
    if s != [] && t.date < s[0].date {
      SignedSumInsert(t, s[1..]);
    }
  }

  /** Sorting does not change the signed total. */
  lemma {:induction false} SignedSumSort(s: seq<Transaction>)
    ensures SignedSum(SortNewestFirst(s)) == SignedSum(s)
  {
    if s != [] {
      SignedSumSort(s[1..]);
      SignedSumInsert(s[0], SortNewestFirst(s[1..]));
    }
  }

  lemma {:induction false} SignedSumIncomes(s: seq<Income>)
    ensures SignedSum(MapIncomes(s)) == Dashboard.SumOf(s, Dashboard.AmountOfIncome)
  {
    if s != [] {
      assert MapIncomes(s)[1..] == MapIncomes(s[1..]);
      SignedSumIncomes(s[1..]);
    }
  }

  lemma {:induction false} SignedSumExpenses(s: seq<Expense>)
    ensures SignedSum(MapExpenses(s)) == -Dashboard.SumOf(s, Dashboard.AmountOfExpense)
  {
    if s != [] {
      assert MapExpenses(s)[1..] == MapExpenses(s[1..]);
      SignedSumExpenses(s[1..]);
    }
  }

  /** The ledger's signed total is the dashboard's net savings for the same rows. */
  lemma LedgerBalance(incomes: seq<Income>, expenses: seq<Expense>)
    ensures SignedSum(AllTransactions(incomes, expenses)) == Dashboard.NetSavings(Some(incomes), Some(expenses))
  {
    SignedSumSort(Merge(incomes, expenses));
    SignedSumAppend(MapIncomes(incomes), MapExpenses(expenses));
    SignedSumIncomes(incomes);
    SignedSumExpenses(expenses);
  }
}
