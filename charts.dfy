/**
 * The aggregates the chart code computes before drawing: the expense
 * breakdown of the pie chart, the month-by-type table of the trend chart and
 * the three bars of the overview chart.
 */
module Charts {
  import opened Wrappers
  import opened Lex
  import opened Dates
  import opened Grouping
  import opened Ledger

  // --------------------------------------------------------------- pie chart

  /**
   * The breakdown `create_expense_pie_chart` draws its pie from, or why it
   * stops before drawing.
   */
  datatype PieChart = NoData | NoExpenseData | Pie(slices: seq<Entry>)

  function ExpensePieChart(rows: seq<Row>): (c: PieChart)
    ensures c.NoData? <==> rows == []
    ensures c.NoExpenseData? <==> rows != [] && !HasKind(rows, Expense)
    ensures c.Pie? ==> c.slices != [] && IsCategoryBreakdown(c.slices, rows, Expense)
  {
    if rows == [] then NoData
    else
      ByCategoryCorrect(rows, Expense);
      if !HasKind(rows, Expense) then NoExpenseData
      else Pie(ByCategory(rows, Expense))
  }

  // -------------------------------------------------------------- trend chart

  /**
   * Every `Date` is a `YYYY-MM-DD` string naming a real day, as the tracker
   * stamps them; only then does `pd.to_datetime` accept the column.
   */
  predicate AllCalendarDates(rows: seq<Row>)
  {
    forall r :: r in rows ==> IsCalendarDate(r.date)
  }

  /** The months in which some row falls. */
  function Months(rows: seq<Row>): set<string>
    requires AllCalendarDates(rows)
  {
    set r | r in rows :: MonthKey(r.date)
  }

  /** Sum of the amounts of the rows of this month and this type; 0 when there are none. */
  function MonthTypeTotal(rows: seq<Row>, month: string, kind: string): real
    requires AllCalendarDates(rows)
  {
    if rows == [] then 0.0
    else (if MonthKey(rows[0].date) == month && rows[0].kind == kind then rows[0].amount else 0.0)
         + MonthTypeTotal(rows[1..], month, kind)
  }

  /** (Month, Amount) of the rows of one type. */
  function MonthEntries(rows: seq<Row>, kind: string): seq<Entry>
    requires AllCalendarDates(rows)
  {
    if rows == [] then []
    else (if rows[0].kind == kind then [Entry(MonthKey(rows[0].date), rows[0].amount)] else [])
         + MonthEntries(rows[1..], kind)
  }

  /** (Month, Amount) of every row. */
  function AllMonthEntries(rows: seq<Row>): seq<Entry>
    requires AllCalendarDates(rows)
  {
    if rows == [] then [] else [Entry(MonthKey(rows[0].date), rows[0].amount)] + AllMonthEntries(rows[1..])
  }

  /** (Type, Amount) of every row. */
  function KindEntries(rows: seq<Row>): seq<Entry>
  {
    if rows == [] then [] else [Entry(rows[0].kind, rows[0].amount)] + KindEntries(rows[1..])
  }

  /**
   * `groupby(['Month', 'Type'])['Amount'].sum().unstack(fill_value=0)`:
   * `columns[j][i]` is the cell of month `months[i]` and type `kinds[j]`.
   */
  datatype MonthlyTable = MonthlyTable(months: seq<string>, kinds: seq<string>, columns: seq<seq<real>>)

  function Columns(rows: seq<Row>, months: seq<string>, kinds: seq<string>): seq<seq<real>>
    requires AllCalendarDates(rows)
  {
    if kinds == [] then []
    else [Lookups(Group(MonthEntries(rows, kinds[0])), months)] + Columns(rows, months, kinds[1..])
  }

  function ByMonthType(rows: seq<Row>): MonthlyTable
    requires AllCalendarDates(rows)
  {
    var months := Keys(Group(AllMonthEntries(rows)));
    var kinds := Keys(Group(KindEntries(rows)));
    MonthlyTable(months, kinds, Columns(rows, months, kinds))
  }

  /**
   * What the monthly table is: every month present and every type present,
   * both ascending; one cell per (month, type) holding that pair's sum, 0
   * where there is no such row; each type's column adding up to its total.
   */
  ghost predicate IsMonthlyTable(t: MonthlyTable, rows: seq<Row>)
    requires AllCalendarDates(rows)
  {
    && StrictlyAscending(t.months) && (forall m :: m in t.months <==> m in Months(rows))
    && StrictlyAscending(t.kinds) && (forall k :: k in t.kinds <==> k in Kinds(rows))
    && |t.columns| == |t.kinds|
    && (forall j :: 0 <= j < |t.kinds| ==> |t.columns[j]| == |t.months|)
    && (forall j, i :: 0 <= j < |t.kinds| && 0 <= i < |t.months| ==>
          t.columns[j][i] == MonthTypeTotal(rows, t.months[i], t.kinds[j]))
    && (forall j :: 0 <= j < |t.kinds| ==> SumReals(t.columns[j]) == TotalByType(rows, t.kinds[j]))
  }

  lemma {:induction false} MonthEntriesFacts(rows: seq<Row>, kind: string)
    requires AllCalendarDates(rows)
    ensures forall m :: KeyTotal(MonthEntries(rows, kind), m) == MonthTypeTotal(rows, m, kind)
    ensures KeySet(MonthEntries(rows, kind)) <= Months(rows)
    ensures Sum(MonthEntries(rows, kind)) == TotalByType(rows, kind)
  {
    if rows != [] {
      MonthEntriesFacts(rows[1..], kind);
      var es := MonthEntries(rows, kind);
      if rows[0].kind == kind {
        assert es[0] == Entry(MonthKey(rows[0].date), rows[0].amount);
        assert es[1..] == MonthEntries(rows[1..], kind);
      } else {
        assert es == MonthEntries(rows[1..], kind);
      }
      assert rows == [rows[0]] + rows[1..];
      assert Months(rows) == {MonthKey(rows[0].date)} + Months(rows[1..]);
    }
  }

  lemma {:induction false} IndexEntriesFacts(rows: seq<Row>)
    requires AllCalendarDates(rows)
    ensures KeySet(AllMonthEntries(rows)) == Months(rows)
    ensures KeySet(KindEntries(rows)) == Kinds(rows)
  {
    if rows != [] {
      IndexEntriesFacts(rows[1..]);
      assert rows == [rows[0]] + rows[1..];
      assert Months(rows) == {MonthKey(rows[0].date)} + Months(rows[1..]);
      assert Kinds(rows) == {rows[0].kind} + Kinds(rows[1..]);
    }
  }

  lemma {:induction false} ColumnsAt(rows: seq<Row>, months: seq<string>, kinds: seq<string>)
    requires AllCalendarDates(rows)
    ensures |Columns(rows, months, kinds)| == |kinds|
    ensures forall j :: 0 <= j < |kinds| ==>
              Columns(rows, months, kinds)[j] == Lookups(Group(MonthEntries(rows, kinds[j])), months)
  {
    if kinds != [] {
      ColumnsAt(rows, months, kinds[1..]);
    }
  }

  /**
   * One type's column, read off at every month of the table: each cell is
   * that (month, type) sum, and the column adds up to the type's total.
   */
  lemma ColumnCorrect(rows: seq<Row>, kind: string)
    requires AllCalendarDates(rows)
    ensures var months := Keys(Group(AllMonthEntries(rows)));
            var column := Lookups(Group(MonthEntries(rows, kind)), months);
            && |column| == |months|
            && (forall i :: 0 <= i < |months| ==> column[i] == MonthTypeTotal(rows, months[i], kind))
            && SumReals(column) == TotalByType(rows, kind)
  {
    var monthIndex := Group(AllMonthEntries(rows));
    var months := Keys(monthIndex);
    var es := MonthEntries(rows, kind);
    var g := Group(es);
    IndexEntriesFacts(rows);
    GroupKeys(AllMonthEntries(rows));
    MonthEntriesFacts(rows, kind);
    GroupKeys(es);
    GroupSum(es);
    LookupsAt(g, months);
    forall i | 0 <= i < |months|
      ensures Lookups(g, months)[i] == MonthTypeTotal(rows, months[i], kind)
    {
      GroupValue(es, months[i]);
    }
    FilledColumnSum(g, monthIndex);
  }

  /** The month-by-type table meets its description. */
  lemma ByMonthTypeCorrect(rows: seq<Row>)
    requires AllCalendarDates(rows)
    ensures IsMonthlyTable(ByMonthType(rows), rows)
  {
    var t := ByMonthType(rows);
    var monthIndex := Group(AllMonthEntries(rows));
    var kindIndex := Group(KindEntries(rows));
    IndexEntriesFacts(rows);
    GroupKeys(AllMonthEntries(rows));
    GroupKeys(KindEntries(rows));
    AscendingAt(monthIndex);
    AscendingAt(kindIndex);
    KeysMatchKeySet(monthIndex);
    KeysMatchKeySet(kindIndex);
    ColumnsAt(rows, t.months, t.kinds);
    forall j | 0 <= j < |t.kinds|
      ensures |t.columns[j]| == |t.months|
      ensures forall i :: 0 <= i < |t.months| ==> t.columns[j][i] == MonthTypeTotal(rows, t.months[i], t.kinds[j])
      ensures SumReals(t.columns[j]) == TotalByType(rows, t.kinds[j])
    {
      ColumnCorrect(rows, t.kinds[j]);
    }
  }

  /** The column of one type, when that type has a column. */
  function ColumnOf(kinds: seq<string>, columns: seq<seq<real>>, kind: string): (c: Option<seq<real>>)
    requires |columns| == |kinds|
    ensures c.Some? <==> kind in kinds
    ensures c.Some? ==> exists j :: 0 <= j < |kinds| && kinds[j] == kind && columns[j] == c.value
  {
    if kinds == [] then None
    else if kinds[0] == kind then Some(columns[0])
    else
      var c := ColumnOf(kinds[1..], columns[1..], kind);
      assert c.Some? ==> exists j :: 0 <= j < |kinds| && kinds[j] == kind && columns[j] == c.value by {
        if c.Some? {
          var j :| 0 <= j < |kinds[1..]| && kinds[1..][j] == kind && columns[1..][j] == c.value;
          assert kinds[j + 1] == kind && columns[j + 1] == c.value;
        }
      }
      c
  }

  /** What `create_monthly_trend` draws: the table, and the Income and Expense lines that exist. */
  datatype TrendChart =
    | NoTrendData
    | Trend(table: MonthlyTable, incomeLine: Option<seq<real>>, expenseLine: Option<seq<real>>)

  /** A line of one type: one point per month of the table, that month's sum for the type. */
  predicate IsLineOf(line: seq<real>, t: MonthlyTable, rows: seq<Row>, kind: string)
    requires AllCalendarDates(rows)
  {
    |line| == |t.months| && forall i :: 0 <= i < |line| ==> line[i] == MonthTypeTotal(rows, t.months[i], kind)
  }

  function MonthlyTrend(rows: seq<Row>): (c: TrendChart)
    requires AllCalendarDates(rows)
    ensures c.NoTrendData? <==> rows == []
    ensures c.Trend? ==> IsMonthlyTable(c.table, rows) && c.table.months != []
    ensures c.Trend? ==> (c.incomeLine.Some? <==> HasKind(rows, Income))
    ensures c.Trend? ==> (c.expenseLine.Some? <==> HasKind(rows, Expense))
    ensures c.Trend? && c.incomeLine.Some? ==> IsLineOf(c.incomeLine.value, c.table, rows, Income)
    ensures c.Trend? && c.expenseLine.Some? ==> IsLineOf(c.expenseLine.value, c.table, rows, Expense)
  {
    if rows == [] then NoTrendData
    else
      var t := ByMonthType(rows);
      ByMonthTypeCorrect(rows);
      assert MonthKey(rows[0].date) in Months(rows) by { assert rows[0] in rows; }
      Trend(t, ColumnOf(t.kinds, t.columns, Income), ColumnOf(t.kinds, t.columns, Expense))
  }

  // ------------------------------------------------------------ overview bars

  const IncomeBarColour: string := "#2ecc71"
  const ExpenseBarColour: string := "#e74c3c"
  const SurplusColour: string := "#3498db"
  const DeficitColour: string := "#e74c3c"

  /** What `create_balance_chart` draws: income, expenses and balance bars with their colours. */
  datatype BarChart = NoBarData | Bars(amounts: seq<real>, colours: seq<string>)

  function BalanceChart(rows: seq<Row>): (c: BarChart)
    ensures c.NoBarData? <==> rows == []
    ensures c.Bars? ==> |c.amounts| == 3 && |c.colours| == 3
    ensures c.Bars? ==> c.amounts == [TotalByType(rows, Income), TotalByType(rows, Expense), Balance(rows)]
    ensures c.Bars? ==> c.amounts[2] == c.amounts[0] - c.amounts[1]
    ensures c.Bars? ==> c.colours[0] == IncomeBarColour && c.colours[1] == ExpenseBarColour
    ensures c.Bars? ==> (c.colours[2] == SurplusColour <==> c.amounts[2] >= 0.0)
    ensures c.Bars? ==> (c.colours[2] == DeficitColour <==> c.amounts[2] < 0.0)
  {
    if rows == [] then NoBarData
    else
      var income := TotalByType(rows, Income);
      var expenses := TotalByType(rows, Expense);
      var balance := income - expenses;
      Bars([income, expenses, balance], [IncomeBarColour, ExpenseBarColour, if balance >= 0.0 then SurplusColour else DeficitColour])
  }

  /** The overview chart shows the same three figures as the textual summary. */
  lemma BalanceChartMatchesSummary(rows: seq<Row>)
    requires rows != []
    ensures BalanceChart(rows).Bars? && ShowSummary(rows).Totals?
    ensures BalanceChart(rows).amounts
            == [ShowSummary(rows).income, ShowSummary(rows).expenses, ShowSummary(rows).balance]
  {
  }
}
