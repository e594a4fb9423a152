/**
 * The ledger of the finance tracker: an append-only table of rows, and the
 * aggregates that the summary, the transaction listing and the spreadsheet
 * export compute from it.
 */
module Ledger {
  import opened Wrappers
  import opened Lex
  import opened Dates
  import opened Grouping

  /** One row of the table; the columns are Date, Category, Amount, Type and Description. */
  datatype Row = Row(date: string, category: string, amount: real, kind: string, description: string)

  const Income: string := "Income"
  const Expense: string := "Expense"

  // ------------------------------------------------------------------ totals

  /** `rows[rows['Type'] == kind]['Amount'].sum()`: 0 when no row has that type. */
  function TotalByType(rows: seq<Row>, kind: string): real
  {
    if rows == [] then 0.0
    else (if rows[0].kind == kind then rows[0].amount else 0.0) + TotalByType(rows[1..], kind)
  }

  /** Total income minus total expenses. */
  function Balance(rows: seq<Row>): real
  {
    TotalByType(rows, Income) - TotalByType(rows, Expense)
  }

  /** The types that some row carries. */
  function Kinds(rows: seq<Row>): set<string>
  {
    set r | r in rows :: r.kind
  }

  predicate HasKind(rows: seq<Row>, kind: string)
  {
    kind in Kinds(rows)
  }

  /** Appending a row adds its amount to the total of its own type and to no other. */
  lemma {:induction false} TotalAfterAppend(rows: seq<Row>, r: Row, kind: string)
    ensures TotalByType(rows + [r], kind) == TotalByType(rows, kind) + (if r.kind == kind then r.amount else 0.0)
  {
    if rows == [] {
      assert rows + [r] == [r];
    } else {
      TotalAfterAppend(rows[1..], r, kind);
      assert (rows + [r])[1..] == rows[1..] + [r];
    }
  }

  /**
   * An Income row raises the balance by its amount, an Expense row lowers it,
   * and a row of any other type leaves it as it was.
   */
  lemma BalanceAfterAppend(rows: seq<Row>, r: Row)
    ensures Balance(rows + [r]) == Balance(rows)
      + (if r.kind == Income then r.amount else if r.kind == Expense then -r.amount else 0.0)
  {
    TotalAfterAppend(rows, r, Income);
    TotalAfterAppend(rows, r, Expense);
  }

  /** A type that no row carries totals 0. */
  lemma {:induction false} TotalOfAbsentKind(rows: seq<Row>, kind: string)
    requires !HasKind(rows, kind)
    ensures TotalByType(rows, kind) == 0.0
  {
    if rows != [] {
      assert rows[0] in rows;
      TotalOfAbsentKind(rows[1..], kind);
    }
  }

  // ----------------------------------------------------------------- listing

  /** Dates non-increasing in string order, which is newest first for `YYYY-MM-DD` stamps. */
  predicate NewestFirst(s: seq<Row>)
  {
    forall i, j :: 0 <= i < j < |s| ==> LexLe(s[j].date, s[i].date)
  }

  function InsertNewestFirst(r: Row, s: seq<Row>): seq<Row>
  {
    if s == [] then [r]
    else if LexLe(s[0].date, r.date) then [r] + s
    else [s[0]] + InsertNewestFirst(r, s[1..])
  }

  /**
   * `sort_values('Date', ascending=False)`. Rows with equal dates come out in
   * one particular order here; the source's sort promises none.
   */
  function SortNewestFirst(rows: seq<Row>): seq<Row>
  {
    if rows == [] then [] else InsertNewestFirst(rows[0], SortNewestFirst(rows[1..]))
  }

  lemma {:induction false} InsertPermutes(r: Row, s: seq<Row>)
    ensures multiset(InsertNewestFirst(r, s)) == multiset(s) + multiset{r}
  {
    if s != [] && !LexLe(s[0].date, r.date) {
      InsertPermutes(r, s[1..]);
      assert s == [s[0]] + s[1..];
    }
  }

  /** Putting a row no older than any other in front keeps a sequence newest-first. */
  lemma ConsNewestFirst(h: Row, t: seq<Row>)
    requires NewestFirst(t)
    requires forall k :: 0 <= k < |t| ==> LexLe(t[k].date, h.date)
    ensures NewestFirst([h] + t)
  {
    var c := [h] + t;
    forall i, j | 0 <= i < j < |c|
      ensures LexLe(c[j].date, c[i].date)
    {
      assert c[j] == t[j - 1];
      if i > 0 {
        assert c[i] == t[i - 1];
      }
    }
  }

  lemma {:induction false} InsertOrdered(r: Row, s: seq<Row>)
    requires NewestFirst(s)
    ensures NewestFirst(InsertNewestFirst(r, s))
  {
    if s == [] {
    } else if LexLe(s[0].date, r.date) {
      forall k | 0 <= k < |s|
        ensures LexLe(s[k].date, r.date)
      {
        if k > 0 {
          LeTransitive(s[k].date, s[0].date, r.date);
        }
      }
      ConsNewestFirst(r, s);
    } else {
      var rest := InsertNewestFirst(r, s[1..]);
      InsertOrdered(r, s[1..]);
      InsertPermutes(r, s[1..]);
      LeTotal(s[0].date, r.date);
      forall k | 0 <= k < |rest|
        ensures LexLe(rest[k].date, s[0].date)
      {
        var x := rest[k];
        assert x in multiset(rest);
        if x != r {
          assert x in multiset(s[1..]);
          var m :| 0 <= m < |s[1..]| && s[1..][m] == x;
          assert s[m + 1] == x;
        }
      }
      ConsNewestFirst(s[0], rest);
    }
  }

  /** The listing holds every row exactly as often as the table does, newest first. */
  lemma {:induction false} SortCorrect(rows: seq<Row>)
    ensures multiset(SortNewestFirst(rows)) == multiset(rows)
    ensures NewestFirst(SortNewestFirst(rows))
  {
    if rows != [] {
      SortCorrect(rows[1..]);
      InsertPermutes(rows[0], SortNewestFirst(rows[1..]));
      InsertOrdered(rows[0], SortNewestFirst(rows[1..]));
      assert rows == [rows[0]] + rows[1..];
    }
  }

  /**
   * For rows stamped by the tracker, an earlier position in the listing is a
   * day no older than a later one.
   */
  lemma ListingChronological(rows: seq<Row>, i: int, j: int, di: Day, dj: Day)
    requires 0 <= i < j < |SortNewestFirst(rows)|
    requires ValidDay(di) && ValidDay(dj)
    requires SortNewestFirst(rows)[i].date == FormatDate(di)
    requires SortNewestFirst(rows)[j].date == FormatDate(dj)
    ensures DayLe(dj, di)
  {
    SortCorrect(rows);
    FormatOrder(dj, di);
  }

  lemma {:induction false} InsertTotal(r: Row, s: seq<Row>, kind: string)
    ensures TotalByType(InsertNewestFirst(r, s), kind) == TotalByType([r] + s, kind)
  {
    if s != [] && !LexLe(s[0].date, r.date) {
      InsertTotal(r, s[1..], kind);
      assert ([r] + s)[1..] == s;
      assert ([r] + s[1..])[1..] == s[1..];
      assert ([s[0]] + InsertNewestFirst(r, s[1..]))[1..] == InsertNewestFirst(r, s[1..]);
    }
  }

  /** Sorting the listing does not change any type's total. */
  lemma {:induction false} SortTotal(rows: seq<Row>, kind: string)
    ensures TotalByType(SortNewestFirst(rows), kind) == TotalByType(rows, kind)
  {
    if rows != [] {
      SortTotal(rows[1..], kind);
      InsertTotal(rows[0], SortNewestFirst(rows[1..]), kind);
      assert ([rows[0]] + SortNewestFirst(rows[1..]))[1..] == SortNewestFirst(rows[1..]);
    }
  }

  // ------------------------------------------------------ category summaries

  /** (Category, Amount) of the rows of one type, in table order. */
  function CategoryEntries(rows: seq<Row>, kind: string): seq<Entry>
  {
    if rows == [] then []
    else (if rows[0].kind == kind then [Entry(rows[0].category, rows[0].amount)] else [])
         + CategoryEntries(rows[1..], kind)
  }

  /** `rows[rows['Type'] == kind].groupby('Category')['Amount'].sum()`. */
  function ByCategory(rows: seq<Row>, kind: string): seq<Entry>
  {
    Group(CategoryEntries(rows, kind))
  }

  /** The distinct categories among rows of one type. */
  function Categories(rows: seq<Row>, kind: string): set<string>
  {
    set r | r in rows && r.kind == kind :: r.category
  }

  /** Sum of the amounts of the rows with this type and this category. */
  function CategoryTotal(rows: seq<Row>, kind: string, category: string): real
  {
    if rows == [] then 0.0
    else (if rows[0].kind == kind && rows[0].category == category then rows[0].amount else 0.0)
         + CategoryTotal(rows[1..], kind, category)
  }

  /**
   * What a per-category summary of one type is: the categories of that type
   * in ascending order, each with its own sum, the sums adding up to the
   * type's total.
   */
  predicate IsCategoryBreakdown(g: seq<Entry>, rows: seq<Row>, kind: string)
  {
    && Ascending(g)
    && KeySet(g) == Categories(rows, kind)
    && (forall i :: 0 <= i < |g| ==> g[i].amount == CategoryTotal(rows, kind, g[i].key))
    && Sum(g) == TotalByType(rows, kind)
  }

  lemma {:induction false} CategoryEntriesFacts(rows: seq<Row>, kind: string)
    ensures Sum(CategoryEntries(rows, kind)) == TotalByType(rows, kind)
    ensures KeySet(CategoryEntries(rows, kind)) == Categories(rows, kind)
    ensures forall c :: KeyTotal(CategoryEntries(rows, kind), c) == CategoryTotal(rows, kind, c)
    ensures CategoryEntries(rows, kind) == [] <==> !HasKind(rows, kind)
  {
    if rows != [] {
      CategoryEntriesFacts(rows[1..], kind);
      var head := if rows[0].kind == kind then [Entry(rows[0].category, rows[0].amount)] else [];
      var es := CategoryEntries(rows, kind);
      assert es == head + CategoryEntries(rows[1..], kind);
      if rows[0].kind == kind {
        assert es[0] == head[0] && es[1..] == CategoryEntries(rows[1..], kind);
      } else {
        assert es == CategoryEntries(rows[1..], kind);
      }
      assert rows == [rows[0]] + rows[1..];
      assert Categories(rows, kind) == (if rows[0].kind == kind then {rows[0].category} else {}) + Categories(rows[1..], kind);
      if HasKind(rows[1..], kind) {
        var r :| r in rows[1..] && r.kind == kind;
        assert r in rows;
      }
    }
  }

  /**
   * The per-category summary of a type is that type's category breakdown,
   * and it is empty exactly when no row has that type.
   */
  lemma ByCategoryCorrect(rows: seq<Row>, kind: string)
    ensures IsCategoryBreakdown(ByCategory(rows, kind), rows, kind)
    ensures ByCategory(rows, kind) == [] <==> !HasKind(rows, kind)
  {
    var es := CategoryEntries(rows, kind);
    CategoryEntriesFacts(rows, kind);
    GroupKeys(es);
    GroupSum(es);
    GroupEntries(es);
  }

  lemma {:induction false} CategoryTotalAfterAppend(rows: seq<Row>, r: Row, kind: string, category: string)
    ensures CategoryTotal(rows + [r], kind, category)
            == CategoryTotal(rows, kind, category) + (if r.kind == kind && r.category == category then r.amount else 0.0)
  {
    if rows == [] {
      assert rows + [r] == [r];
    } else {
      CategoryTotalAfterAppend(rows[1..], r, kind, category);
      assert (rows + [r])[1..] == rows[1..] + [r];
    }
  }

  /**
   * Appending a row changes one type's per-category summary only at the new
   * row's category, by the new row's amount.
   */
  lemma ByCategoryAfterAppend(rows: seq<Row>, r: Row, kind: string, category: string)
    ensures ValueOf(ByCategory(rows + [r], kind), category)
            == ValueOf(ByCategory(rows, kind), category) + (if r.kind == kind && r.category == category then r.amount else 0.0)
  {
    CategoryEntriesFacts(rows, kind);
    CategoryEntriesFacts(rows + [r], kind);
    GroupValue(CategoryEntries(rows, kind), category);
    GroupValue(CategoryEntries(rows + [r], kind), category);
    CategoryTotalAfterAppend(rows, r, kind, category);
  }

  /** A newly appended row shows up in the listing. */
  lemma AppendedIsListed(rows: seq<Row>, r: Row)
    ensures r in SortNewestFirst(rows + [r])
  {
    SortCorrect(rows + [r]);
    assert r in multiset(rows + [r]);
  }

  // ----------------------------------------------------------------- reports

  /** What `show_summary` reports. */
  datatype Summary = NoTransactions | Totals(income: real, expenses: real, balance: real)

  function ShowSummary(rows: seq<Row>): (s: Summary)
    ensures s.NoTransactions? <==> rows == []
    ensures s.Totals? ==> s.income == TotalByType(rows, Income) && s.expenses == TotalByType(rows, Expense)
    ensures s.Totals? ==> s.balance == s.income - s.expenses
  {
    if rows == [] then NoTransactions
    else Totals(TotalByType(rows, Income), TotalByType(rows, Expense), Balance(rows))
  }

  /** What `view_transactions` lists: nothing on an empty table, else every row newest first. */
  function ViewTransactions(rows: seq<Row>): (l: Option<seq<Row>>)
    ensures l.None? <==> rows == []
    ensures l.Some? ==> multiset(l.value) == multiset(rows) && NewestFirst(l.value)
  {
    if rows == [] then None
    else
      SortCorrect(rows);
      Some(SortNewestFirst(rows))
  }

  /** What `export_to_excel` writes: all rows, and a summary sheet per type that occurs. */
  datatype Workbook =
    | NothingToExport
    | Workbook(allTransactions: seq<Row>, incomeSummary: Option<seq<Entry>>, expenseSummary: Option<seq<Entry>>)

  function ExportToExcel(rows: seq<Row>): (w: Workbook)
    ensures w.NothingToExport? <==> rows == []
    ensures w.Workbook? ==> w.allTransactions == rows
    ensures w.Workbook? ==> (w.incomeSummary.Some? <==> HasKind(rows, Income))
    ensures w.Workbook? ==> (w.expenseSummary.Some? <==> HasKind(rows, Expense))
    ensures w.Workbook? && w.incomeSummary.Some? ==> IsCategoryBreakdown(w.incomeSummary.value, rows, Income)
    ensures w.Workbook? && w.expenseSummary.Some? ==> IsCategoryBreakdown(w.expenseSummary.value, rows, Expense)
  {
    if rows == [] then NothingToExport
    else
      var income := ByCategory(rows, Income);
      var expense := ByCategory(rows, Expense);
      ByCategoryCorrect(rows, Income);
      ByCategoryCorrect(rows, Expense);
      Workbook(rows, if income == [] then None else Some(income), if expense == [] then None else Some(expense))
  }

  // ----------------------------------------------------------------- tracker

  /** The tracker object, owning the table it appends to. */
  class FinanceTracker {
    var transactions: seq<Row>

    /** Starts from the table as `load_data` returned it; reading storage is not modelled. */
    constructor (stored: seq<Row>)
      ensures transactions == stored
    {
      transactions := stored;
    }

    /**
     * `add_transaction`: appends one row stamped with today's date, whatever
     * the amount and the type; the description defaults to the empty string.
     */
    method AddTransaction(today: Day, category: string, amount: real, kind: string, description: string := "")
      requires ValidDay(today)
      modifies this
      ensures transactions == old(transactions) + [Row(FormatDate(today), category, amount, kind, description)]
      ensures |transactions| == |old(transactions)| + 1
      ensures transactions[..|old(transactions)|] == old(transactions)
      ensures IsCalendarDate(transactions[|transactions| - 1].date)
    {
      FormatThenParse(today);
      transactions := transactions + [Row(FormatDate(today), category, amount, kind, description)];
    }

    /** Menu choices '1' and '2': add an Income or an Expense row respectively. */
    method AddFromMenu(choice: string, today: Day, category: string, amount: real, description: string)
      requires ValidDay(today)
      requires choice == "1" || choice == "2"
      modifies this
      ensures transactions == old(transactions)
        + [Row(FormatDate(today), category, amount, if choice == "1" then Income else Expense, description)]
    {
      var kind := if choice == "1" then Income else Expense;
      AddTransaction(today, category, amount, kind, description);
    }
  }
}
