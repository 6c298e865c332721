/**
 * The transactions page's table: a type filter and a case-insensitive search
 * over the ledger it is given, rows that expand on small screens, and the
 * edit link of each row.
 */
module TransactionsList {
  import opened JsText
  import opened Ledger

  /** The three filter buttons. */
  datatype FilterType = All | OnlyIncome | OnlyExpense

  /** `filter(p)`: the elements of `s` satisfying `p`, in their order. */
  function Keep(s: seq<Transaction>, p: Transaction -> bool): (r: seq<Transaction>)
    ensures |r| <= |s|
    ensures forall t :: t in r <==> t in s && p(t)
  {
    if s == [] then []
    else
      assert s == [s[0]] + s[1..];
      (if p(s[0]) then [s[0]] else []) + Keep(s[1..], p)
  }

  /** `idx` embeds `r` into `s`: strictly increasing positions of `s` that spell `r`. */
  ghost predicate Embeds(idx: seq<int>, r: seq<Transaction>, s: seq<Transaction>) {
    && |idx| == |r|
    && (forall k :: 0 <= k < |idx| ==> 0 <= idx[k] < |s| && s[idx[k]] == r[k])
    && (forall k, l :: 0 <= k < l < |idx| ==> idx[k] < idx[l])
  }

  /** `r` is an order-preserving subsequence of `s`. */
  ghost predicate SubsequenceOf(r: seq<Transaction>, s: seq<Transaction>) {
    exists idx :: Embeds(idx, r, s)
  }

  /** Positions one further along. */
  function Shift(idx: seq<int>): (r: seq<int>)
    ensures |r| == |idx| && forall k :: 0 <= k < |idx| ==> r[k] == idx[k] + 1
  {
    seq(|idx|, k requires 0 <= k < |idx| => idx[k] + 1)
  }

  /** An embedding into the tail of `s` is, shifted, an embedding into `s` that avoids position 0. */
  lemma ShiftEmbeds(idx: seq<int>, r: seq<Transaction>, s: seq<Transaction>)
    requires s != [] && Embeds(idx, r, s[1..])
    ensures Embeds(Shift(idx), r, s)
    ensures forall k :: 0 <= k < |idx| ==> Shift(idx)[k] > 0
  {
    var sh := Shift(idx);
    forall k | 0 <= k < |sh| ensures 0 <= sh[k] < |s| && s[sh[k]] == r[k] {
      assert s[1..][idx[k]] == s[idx[k] + 1];
    }
  }

  /** Position 0 put in front of an embedding that avoids it embeds `[s[0]] + r`. */
  lemma ConsEmbeds(idx: seq<int>, r: seq<Transaction>, s: seq<Transaction>)
    requires s != [] && Embeds(idx, r, s)
    requires forall k :: 0 <= k < |idx| ==> idx[k] > 0
    ensures Embeds([0] + idx, [s[0]] + r, s)
  {
    var full := [0] + idx;
    var rr := [s[0]] + r;
    assert forall k :: 0 < k < |full| ==> full[k] == idx[k - 1] && rr[k] == r[k - 1];
  }

  /** Filtering keeps order: its result is a subsequence of its input. */
  lemma {:induction false} KeepEmbeds(s: seq<Transaction>, p: Transaction -> bool) returns (idx: seq<int>)
    ensures Embeds(idx, Keep(s, p), s)
  {
    if s == [] {
      idx := [];
    } else {
      var tail := KeepEmbeds(s[1..], p);
      var rest := Keep(s[1..], p);
      ShiftEmbeds(tail, rest, s);
      if p(s[0]) {
        assert Keep(s, p) == [s[0]] + rest;
        ConsEmbeds(Shift(tail), rest, s);
        idx := [0] + Shift(tail);
      } else {
        assert Keep(s, p) == [] + rest == rest;
        idx := Shift(tail);
      }
    }
  }

  /** Two filters in a row are one filter on the conjunction. */
  lemma {:induction false} KeepKeep(s: seq<Transaction>, p: Transaction -> bool, q: Transaction -> bool)
    ensures Keep(Keep(s, p), q) == Keep(s, t => p(t) && q(t))
  {
    if s != [] {
      KeepKeep(s[1..], p, q);
      var head := if p(s[0]) then [s[0]] else [];
      var kept := Keep(s[1..], p);
      assert Keep(s, p) == head + kept;
      if p(s[0]) {
        assert (head + kept)[1..] == kept;
      } else {
        assert head + kept == kept;
      }
    }
  }

  /** Filters by pointwise-equal predicates agree. */
  lemma {:induction false} KeepSame(s: seq<Transaction>, p: Transaction -> bool, q: Transaction -> bool)
    requires forall t :: p(t) == q(t)
    ensures Keep(s, p) == Keep(s, q)
  {
    if s != [] {
      KeepSame(s[1..], p, q);
    }
  }

  /** The type filter: 'all' passes everything, otherwise the type must match. */
  predicate KindPasses(filter: FilterType, t: Transaction) {
    match filter
    case All => true
    case OnlyIncome => t.kind == IncomeKind
    case OnlyExpense => t.kind == ExpenseKind
  }

  /**
   * The search: a blank term (after trimming) passes everything; otherwise the
   * lower-cased description must contain the lower-cased, untrimmed term.
   */
  predicate TextPasses(term: string, t: Transaction) {
    Trim(term) == "" || Includes(ToLower(t.description), ToLower(term))
  }

  /** The rows the table shows for a filter and a search term. */
  function Visible(input: seq<Transaction>, filter: FilterType, term: string): seq<Transaction> {
    Keep(input, t => KindPasses(filter, t) && TextPasses(term, t))
  }

  /** 'All' with a blank search shows the input unchanged. */
  lemma {:induction false} AllAndBlankShowEverything(input: seq<Transaction>, term: string)
    requires IsBlank(term)
    ensures Visible(input, All, term) == input
  {
    TrimEmptyIffBlank(term);
    if input != [] {
      AllAndBlankShowEverything(input[1..], term);
    }
  }

  /**
   * A type filter is sound and complete: every shown row has the type, and
   * every row of the type that passes the search is shown.
   */
  lemma KindFilterIsExact(input: seq<Transaction>, filter: FilterType, term: string)
    ensures forall t :: t in Visible(input, filter, term) ==> KindPasses(filter, t) && t in input
    ensures forall t :: t in input && KindPasses(filter, t) && TextPasses(term, t) ==> t in Visible(input, filter, term)
  {
  }

  /** The table shows an order-preserving subsequence of its input. */
  lemma VisibleIsSubsequence(input: seq<Transaction>, filter: FilterType, term: string)
    ensures SubsequenceOf(Visible(input, filter, term), input)
  {
    var idx := KeepEmbeds(input, t => KindPasses(filter, t) && TextPasses(term, t));
  }

  /** A term made only of whitespace filters nothing by text. */
  lemma WhitespaceTermIsNoSearch(input: seq<Transaction>, filter: FilterType, term: string)
    requires IsBlank(term)
    ensures Visible(input, filter, term) == Keep(input, t => KindPasses(filter, t))
  {
    TrimEmptyIffBlank(term);
    KeepSame(input, t => KindPasses(filter, t) && TextPasses(term, t), t => KindPasses(filter, t));
  }

  lemma LowerCharIdempotent(c: char)
    ensures LowerChar(LowerChar(c)) == LowerChar(c)
    ensures IsWhitespace(LowerChar(c)) == IsWhitespace(c)
  {
  }

  /** The search ignores the case of the term. */
  lemma SearchIgnoresTermCase(input: seq<Transaction>, filter: FilterType, term: string)
    ensures Visible(input, filter, term) == Visible(input, filter, ToLower(term))
  {
    var lowered := ToLower(term);
    forall i | 0 <= i < |term| ensures LowerChar(lowered[i]) == lowered[i] && (IsWhitespace(lowered[i]) == IsWhitespace(term[i])) {
      LowerCharIdempotent(term[i]);
    }
    assert ToLower(lowered) == lowered;
    TrimEmptyIffBlank(term);
    TrimEmptyIffBlank(lowered);
    assert IsBlank(term) == IsBlank(lowered);
    KeepSame(input, t => KindPasses(filter, t) && TextPasses(term, t), t => KindPasses(filter, t) && TextPasses(lowered, t));
  }

  /** The term is not trimmed: " rent" does not find a row described "rent". */
  lemma SearchTermIsUntrimmed(t: Transaction)
    requires t.description == "rent"
    ensures Visible([t], All, " rent") == []
  {
    assert Trim(" rent") != "" by {
      TrimEmptyIffBlank(" rent");
      assert !IsWhitespace(" rent"[1]);
    }
    assert !Includes(ToLower(t.description), ToLower(" rent"));
  }

  /** `navigateToEdit`: the entry's own page with `?edit=<id>`. */
  function EditRoute(t: Transaction): (route: string)
    ensures t.kind == IncomeKind ==> route == "/dashboard/income?edit=" + t.id
    ensures t.kind == ExpenseKind ==> route == "/dashboard/expenses?edit=" + t.id
  {
    if t.kind == IncomeKind then "/dashboard/income?edit=" + t.id else "/dashboard/expenses?edit=" + t.id
  }

  function KindName(k: Kind): string {
    if k == IncomeKind then "income" else "expense"
  }

  /** The row key `${type}-${id}`. */
  function RowKey(t: Transaction): string {
    KindName(t.kind) + "-" + t.id
  }

  /** Distinct (type, id) pairs get distinct row keys, so an income and an expense sharing an id expand separately. */
  lemma RowKeyInjective(a: Transaction, b: Transaction)
    requires RowKey(a) == RowKey(b)
    ensures a.kind == b.kind && a.id == b.id
  {
    assert RowKey(a)[0] == KindName(a.kind)[0];
    assert RowKey(b)[0] == KindName(b.kind)[0];
    var n := |KindName(a.kind) + "-"|;
    assert a.id == RowKey(a)[n..];
    assert b.id == RowKey(b)[n..];
  }

  /** Whether a row is expanded: `expandedRows[key]`, an absent key reading as false. */
  predicate IsExpanded(rows: map<string, bool>, key: string) {
    key in rows && rows[key]
  }

  /** `{...prev, [key]: !prev[key]}`. */
  function Toggled(rows: map<string, bool>, key: string): (r: map<string, bool>)
    ensures IsExpanded(r, key) == !IsExpanded(rows, key)
    ensures forall k :: k != key ==> (k in r <==> k in rows) && (k in rows ==> r[k] == rows[k])
    ensures r.Keys == rows.Keys + {key}
  {
    rows[key := !IsExpanded(rows, key)]
  }

  /** Toggling twice restores what every row reads as. */
  lemma ToggleTwice(rows: map<string, bool>, key: string)
    ensures forall k :: IsExpanded(Toggled(Toggled(rows, key), key), k) == IsExpanded(rows, k)
  {
  }

  class TransactionsListView {
    const initialTransactions: seq<Transaction>
    var transactions: seq<Transaction>
    var expandedRows: map<string, bool>
    var searchTerm: string
    var filterType: FilterType

    /** The table shows what the filter and the search select from its input. */
    ghost predicate Valid()
      reads this
    {
      transactions == Visible(initialTransactions, filterType, searchTerm)
    }

    constructor(initial: seq<Transaction>)
      ensures initialTransactions == initial && transactions == initial
      ensures expandedRows == map[] && searchTerm == "" && filterType == All
      ensures Valid()
    {
      initialTransactions := initial;
      transactions := initial;
      expandedRows := map[];
      searchTerm := "";
      filterType := All;
      new;
      AllAndBlankShowEverything(initial, "");
    }

    /** The filter effect: narrow by type, then by the search term when it is not blank. */
    method ApplyFilters()
      modifies this
      ensures transactions == Visible(initialTransactions, filterType, searchTerm)
      ensures expandedRows == old(expandedRows) && searchTerm == old(searchTerm) && filterType == old(filterType)
    {
      var ft, st := filterType, searchTerm;
      var kindTest := (t: Transaction) => KindPasses(ft, t);
      var filtered := initialTransactions;
      if ft != All {
        filtered := Keep(filtered, kindTest);
      } else {
        KeepSame(filtered, kindTest, t => true);
        AllKeep(filtered);
      }
      if Trim(st) != "" {
        var term := ToLower(st);
        var textTest := (t: Transaction) => Includes(ToLower(t.description), term);
        filtered := Keep(filtered, textTest);
        KeepKeep(initialTransactions, kindTest, textTest);
        KeepSame(initialTransactions, t => kindTest(t) && textTest(t), t => KindPasses(ft, t) && TextPasses(st, t));
      } else {
        KeepSame(initialTransactions, kindTest, t => KindPasses(ft, t) && TextPasses(st, t));
      }
      transactions := filtered;
    }

    /** Typing in the search box re-runs the filter. */
    method SetSearchTerm(term: string)
      modifies this
      ensures searchTerm == term && filterType == old(filterType) && expandedRows == old(expandedRows)
      ensures transactions == Visible(initialTransactions, filterType, searchTerm)
      ensures Valid()
    {
      searchTerm := term;
      ApplyFilters();
    }

    /** Pressing a filter button re-runs the filter. */
    method SetFilterType(filter: FilterType)
      modifies this
      ensures filterType == filter && searchTerm == old(searchTerm) && expandedRows == old(expandedRows)
      ensures transactions == Visible(initialTransactions, filterType, searchTerm)
      ensures Valid()
    {
      filterType := filter;
      ApplyFilters();
    }

    /** `toggleRow`: flips one row key and leaves the rest. */
    method ToggleRow(key: string)
      modifies this
      ensures expandedRows == Toggled(old(expandedRows), key)
      ensures transactions == old(transactions) && searchTerm == old(searchTerm) && filterType == old(filterType)
      ensures old(Valid()) ==> Valid()
    {
      expandedRows := Toggled(expandedRows, key);
    }
  }

  /** A filter that passes everything keeps the list. */
  lemma {:induction false} AllKeep(s: seq<Transaction>)
    ensures Keep(s, t => true) == s
  {
    if s != [] {
      AllKeep(s[1..]);
    }
  }
}
