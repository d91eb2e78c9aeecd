/** Reports over one merchant's transactions: the statement of account, the profit and loss
    statement, the monthly cashflow and the opening balance. Amounts are in kobo; a date is
    written yyyymmdd as one number. */
module Statements {
  import opened Common
  import opened LedgerBooks

  datatype Row = Row(date: int, created: int, flow: Flow, action: TxAction, amount: int, currency: string, category: string)

  function Cash(r: Row): int {
    if r.flow == Income then r.amount else -r.amount
  }

  function CashOf(): Row -> int {
    Cash
  }

  /** Net cash of the rows that satisfy a condition. */
  function NetOf(p: Row -> bool, rows: seq<Row>): int {
    Sum(CashOf(), Where(p, rows))
  }

  /* ---------- queries ---------- */

  datatype Period = Period(start: Option<int>, end: Option<int>)

  function Within(period: Period): Row -> bool {
    (r: Row) => (period.start.Some? ==> period.start.value <= r.date) && (period.end.Some? ==> r.date <= period.end.value)
  }

  /** The statement query without its limit: the rows of a period, oldest first. */
  ghost predicate Ordered(all: seq<Row>, period: Period, result: seq<Row>) {
    && multiset(result) == multiset(Where(Within(period), all))
    && forall i, j :: 0 <= i < j < |result| ==>
         result[i].date < result[j].date || (result[i].date == result[j].date && result[i].created <= result[j].created)
  }

  /** With a limit, 5000 in the code, only the oldest rows come back. */
  function Limited<T>(rows: seq<T>, limit: nat): seq<T> {
    if |rows| <= limit then rows else rows[..limit]
  }

  /** A currency as the database keeps it, and as the statements show it: a blank one as naira. */
  function InCurrency(currency: string): Row -> bool {
    (r: Row) => r.currency == currency
  }

  function Shown(r: Row): string {
    if r.currency == "" then "NGN" else r.currency
  }

  function ShownAs(currency: string): Row -> bool {
    (r: Row) => Shown(r) == currency
  }

  function CurrencyBefore(currency: string, date: int): Row -> bool {
    (r: Row) => r.currency == currency && r.date < date
  }

  /** The net position per currency before a date, as grouped by the database. */
  function OpeningBalance(all: seq<Row>, before: Option<int>, currency: string): int {
    match before
    case None => 0
    case Some(date) => NetOf(CurrencyBefore(currency, date), all)
  }

  /** A line of the monthly query: a month is yyyymm. */
  datatype Month = Month(currency: string, month: int, inflow: int, outflow: int)

  function InMonth(currency: string, month: int): Row -> bool {
    (r: Row) => r.currency == currency && r.date / 100 == month
  }

  function IncomeIn(currency: string, month: int): Row -> bool {
    (r: Row) => r.currency == currency && r.date / 100 == month && r.flow == Income
  }

  function ExpenseIn(currency: string, month: int): Row -> bool {
    (r: Row) => r.currency == currency && r.date / 100 == month && r.flow == Expense
  }

  function AmountOf(): Row -> int {
    (r: Row) => r.amount
  }

  /** GROUP BY currency and month, ordered by both: each pair that occurs has one line with its
      sums, and the lines of a currency come in ascending months. */
  ghost predicate IsMonthly(lines: seq<Month>, rows: seq<Row>) {
    && (forall i :: 0 <= i < |lines| ==>
          && lines[i].inflow == Sum(AmountOf(), Where(IncomeIn(lines[i].currency, lines[i].month), rows))
          && lines[i].outflow == Sum(AmountOf(), Where(ExpenseIn(lines[i].currency, lines[i].month), rows)))
    && (forall i, j :: 0 <= i < j < |lines| && lines[i].currency == lines[j].currency ==> lines[i].month < lines[j].month)
    && (forall r :: r in rows ==> exists i :: 0 <= i < |lines| && lines[i].currency == r.currency && lines[i].month == r.date / 100)
  }

  /** The query makes no line for a pair that does not occur. */
  ghost predicate NoIdleLine(lines: seq<Month>, rows: seq<Row>) {
    forall m :: m in lines ==> Occurs(m, rows)
  }

  ghost predicate Occurs(m: Month, rows: seq<Row>) {
    exists r :: r in rows && r.currency == m.currency && r.date / 100 == m.month
  }

  /* ---------- statement of account ---------- */

  function HasFlow(flow: Flow): Row -> bool {
    (r: Row) => r.flow == flow
  }

  /** The total of one side, added up row by row. */
  function SideTotal(flow: Flow, rows: seq<Row>): int {
    if rows == [] then 0
    else SideTotal(flow, rows[..|rows| - 1]) + if rows[|rows| - 1].flow == flow then rows[|rows| - 1].amount else 0
  }

  lemma {:induction false} SideTotalIsSum(flow: Flow, rows: seq<Row>)
    ensures SideTotal(flow, rows) == Sum(AmountOf(), Where(HasFlow(flow), rows))
  {
    if rows != [] {
      var front, r := rows[..|rows| - 1], rows[|rows| - 1];
      SideTotalIsSum(flow, front);
      SumPush(AmountOf(), Where(HasFlow(flow), front), r);
    }
  }

  lemma OneMoreRow(rows: seq<Row>, i: nat)
    requires i < |rows|
    ensures Sum(CashOf(), rows[..i + 1]) == Sum(CashOf(), rows[..i]) + Cash(rows[i])
    ensures forall flow :: SideTotal(flow, rows[..i + 1]) == SideTotal(flow, rows[..i]) + if rows[i].flow == flow then rows[i].amount else 0
  {
    assert rows[..i + 1][..i] == rows[..i];
  }

  /** The lines of one currency under the opening balance, and the totals that are printed: money in
      and out are the sums of the income and of the expense rows. */
  method AccountLines(rows: seq<Row>, opening: int) returns (balances: seq<int>, moneyIn: int, moneyOut: int, closing: int)
    ensures moneyIn == Sum(AmountOf(), Where(HasFlow(Income), rows)) && moneyOut == Sum(AmountOf(), Where(HasFlow(Expense), rows))
    ensures |balances| == |rows|
    ensures forall i :: 0 <= i < |rows| ==> balances[i] == opening + Sum(CashOf(), rows[..i + 1])
    ensures closing == opening + Sum(CashOf(), rows) == opening + moneyIn - moneyOut
    ensures |rows| > 0 ==> closing == balances[|rows| - 1]
  {
    balances, moneyIn, moneyOut, closing := [], 0, 0, opening;
    for i := 0 to |rows|
      invariant |balances| == i
      invariant moneyIn == SideTotal(Income, rows[..i]) && moneyOut == SideTotal(Expense, rows[..i])
      invariant forall j :: 0 <= j < i ==> balances[j] == opening + Sum(CashOf(), rows[..j + 1])
      invariant closing == opening + Sum(CashOf(), rows[..i]) == opening + moneyIn - moneyOut
      invariant i > 0 ==> closing == balances[i - 1]
    {
      OneMoreRow(rows, i);
      if rows[i].flow == Income {
        moneyIn := moneyIn + rows[i].amount;
        closing := closing + rows[i].amount;
      } else {
        moneyOut := moneyOut + rows[i].amount;
        closing := closing - rows[i].amount;
      }
      balances := balances + [closing];
    }
    SideTotalIsSum(Income, rows);
    SideTotalIsSum(Expense, rows);
    assert rows[..|rows|] == rows;
  }

  /** The entry of one currency in a grouping: its rows in order, or no entry when there are none. */
  predicate Grouped(groups: map<string, seq<Row>>, rows: seq<Row>, currency: string) {
    var group := Where(ShownAs(currency), rows);
    if currency in groups then groups[currency] == group && group != [] else group == []
  }

  /** Rows by shown currency. */
  method GroupRowsByCurrency(rows: seq<Row>) returns (groups: map<string, seq<Row>>)
    ensures forall currency :: Grouped(groups, rows, currency)
  {
    groups := map[];
    for i := 0 to |rows|
      invariant forall currency :: Grouped(groups, rows[..i], currency)
    {
      ghost var before := groups;
      if Shown(rows[i]) !in groups {
        groups := groups[Shown(rows[i]) := []];
      }
      groups := groups[Shown(rows[i]) := groups[Shown(rows[i])] + [rows[i]]];
      assert rows[..i + 1] == rows[..i] + [rows[i]];
      ghost var next := rows[..i + 1];
      forall currency ensures Grouped(groups, next, currency) {
        assert Grouped(before, rows[..i], currency);
        WherePush(ShownAs(currency), rows[..i], rows[i]);
      }
    }
    assert rows[..|rows|] == rows;
  }

  /* ---------- profit and loss ---------- */

  /** A Python dict of running totals, in insertion order. */
  datatype Total = Total(name: string, amount: int)

  function AmountOfTotal(): Total -> int {
    (t: Total) => t.amount
  }

  function Added(totals: seq<Total>, name: string, amount: int): (r: seq<Total>)
    ensures |totals| <= |r|
  {
    if totals == [] then [Total(name, amount)]
    else if totals[0].name == name then [Total(name, totals[0].amount + amount)] + totals[1..]
    else [totals[0]] + Added(totals[1..], name, amount)
  }

  function Lookup(totals: seq<Total>, name: string): int {
    if totals == [] then 0 else if totals[0].name == name then totals[0].amount else Lookup(totals[1..], name)
  }

  datatype Figures = Figures(revenue: seq<Total>, purchases: int, expenses: seq<Total>)

  const NO_FIGURES := Figures([], 0, [])

  function Category(r: Row): string {
    if r.category == "" then "Miscellaneous" else r.category
  }

  function Entered(f: Figures, r: Row): Figures {
    if r.flow == Income then f.(revenue := Added(f.revenue, Category(r), r.amount))
    else if r.action == Purchase then f.(purchases := f.purchases + r.amount)
    else f.(expenses := Added(f.expenses, Category(r), r.amount))
  }

  function Tally(rows: seq<Row>): Figures {
    if rows == [] then NO_FIGURES else Entered(Tally(rows[..|rows| - 1]), rows[|rows| - 1])
  }

  datatype IncomeStatement = IncomeStatement(figures: Figures, totalRevenue: int, cogs: int, gross: int, totalExpenses: int, netProfit: int)

  /** sum(d.values()). */
  method SumTotals(totals: seq<Total>) returns (sum: int)
    ensures sum == Sum(AmountOfTotal(), totals)
  {
    sum := 0;
    for i := 0 to |totals|
      invariant sum == Sum(AmountOfTotal(), totals[..i])
    {
      assert totals[..i + 1] == totals[..i] + [totals[i]];
      SumPush(AmountOfTotal(), totals[..i], totals[i]);
      sum := sum + totals[i].amount;
    }
    assert totals[..|totals|] == totals;
  }

  /** What a profit and loss statement reports for one currency. */
  predicate Reports(p: IncomeStatement, rows: seq<Row>) {
    && p.figures == Tally(rows)
    && p.totalRevenue == Sum(AmountOfTotal(), p.figures.revenue)
    && p.cogs == p.figures.purchases
    && p.gross == p.totalRevenue - p.cogs
    && p.totalExpenses == Sum(AmountOfTotal(), p.figures.expenses)
    && p.netProfit == p.gross - p.totalExpenses
  }

  method Report(f: Figures, ghost rows: seq<Row>) returns (p: IncomeStatement)
    requires f == Tally(rows)
    ensures Reports(p, rows)
  {
    var totalRevenue := SumTotals(f.revenue);
    var gross := totalRevenue - f.purchases;
    var totalExpenses := SumTotals(f.expenses);
    p := IncomeStatement(f, totalRevenue, f.purchases, gross, totalExpenses, gross - totalExpenses);
  }

  /** The entry of one currency among the figures: all its rows, or no entry when there are none. */
  predicate Tallied(figures: map<string, Figures>, rows: seq<Row>, currency: string) {
    var group := Where(ShownAs(currency), rows);
    if currency in figures then figures[currency] == Tally(group) && group != [] else group == []
  }

  /** The first loop of the computation: every row is entered under its currency. */
  method TallyByCurrency(rows: seq<Row>) returns (figures: map<string, Figures>)
    ensures forall currency :: Tallied(figures, rows, currency)
  {
    figures := map[];
    for i := 0 to |rows|
      invariant forall currency :: Tallied(figures, rows[..i], currency)
    {
      ghost var before := figures;
      if Shown(rows[i]) !in figures {
        figures := figures[Shown(rows[i]) := NO_FIGURES];
      }
      figures := figures[Shown(rows[i]) := Entered(figures[Shown(rows[i])], rows[i])];
      assert rows[..i + 1] == rows[..i] + [rows[i]];
      ghost var next := rows[..i + 1];
      forall currency ensures Tallied(figures, next, currency) {
        assert Tallied(before, rows[..i], currency);
        TallyOneMore(before, rows[..i], rows[i], currency);
      }
    }
    assert rows[..|rows|] == rows;
  }

  lemma TallyOneMore(figures: map<string, Figures>, rows: seq<Row>, r: Row, currency: string)
    requires Tallied(figures, rows, currency)
    ensures Tallied(figures[Shown(r) := Entered(if Shown(r) in figures then figures[Shown(r)] else NO_FIGURES, r)], rows + [r], currency)
  {
    WherePush(ShownAs(currency), rows, r);
    TallyPush(Where(ShownAs(currency), rows), r);
  }

  /** The profit and loss statement of every currency that occurs. */
  method ComputeIncomeStatement(rows: seq<Row>) returns (out: map<string, IncomeStatement>)
    ensures forall currency :: currency in out <==> Where(ShownAs(currency), rows) != []
    ensures forall currency :: currency in out ==> Reports(out[currency], Where(ShownAs(currency), rows))
  {
    var figures := TallyByCurrency(rows);
    var currencies := figures.Keys;
    out := map[];
    while currencies != {}
      invariant currencies <= figures.Keys && out.Keys == figures.Keys - currencies
      invariant forall currency :: currency in out ==> Reports(out[currency], Where(ShownAs(currency), rows))
      decreases |currencies|
    {
      var currency :| currency in currencies;
      assert Tallied(figures, rows, currency);
      var p := Report(figures[currency], Where(ShownAs(currency), rows));
      out := out[currency := p];
      currencies := currencies - {currency};
    }
    forall currency ensures currency in out <==> Where(ShownAs(currency), rows) != [] {
      assert Tallied(figures, rows, currency);
    }
  }

  lemma TallyPush(rows: seq<Row>, r: Row)
    ensures Tally(rows + [r]) == Entered(Tally(rows), r)
  {
    assert (rows + [r])[..|rows|] == rows;
  }

  /* ---------- cashflow ---------- */

  datatype Bucket = Bucket(month: int, inflow: int, outflow: int, net: int, cumulative: int)

  function MonthIn(currency: string): Month -> bool {
    (m: Month) => m.currency == currency
  }

  function NetOfMonth(): Month -> int {
    (m: Month) => m.inflow - m.outflow
  }

  /** A currency's lines with the running total beside them. */
  predicate RunsOver(buckets: seq<Bucket>, lines: seq<Month>) {
    && |buckets| == |lines|
    && forall i :: 0 <= i < |lines| ==>
         buckets[i] == Bucket(lines[i].month, lines[i].inflow, lines[i].outflow, lines[i].inflow - lines[i].outflow,
                              Sum(NetOfMonth(), lines[..i + 1]))
  }

  /** The entry of one currency in the cashflow, and its running total. */
  predicate Cumulated(buckets: map<string, seq<Bucket>>, cumulative: map<string, int>, lines: seq<Month>, currency: string) {
    var months := Where(MonthIn(currency), lines);
    && (currency in buckets <==> currency in cumulative)
    && if currency in buckets
       then months != [] && RunsOver(buckets[currency], months) && cumulative[currency] == Sum(NetOfMonth(), months)
       else months == []
  }

  /** The body of the loop: the running total of the line's currency, and its new bucket. */
  method AddMonth(buckets: map<string, seq<Bucket>>, cumulative: map<string, int>, m: Month)
    returns (buckets': map<string, seq<Bucket>>, cumulative': map<string, int>)
    ensures cumulative' == WithTotal(cumulative, m) && buckets' == WithBucket(buckets, cumulative, m)
  {
    cumulative' := cumulative[m.currency := (if m.currency in cumulative then cumulative[m.currency] else 0) + (m.inflow - m.outflow)];
    buckets' := buckets;
    if m.currency !in buckets {
      buckets' := buckets'[m.currency := []];
    }
    buckets' := buckets'[m.currency := buckets'[m.currency] + [Bucket(m.month, m.inflow, m.outflow, m.inflow - m.outflow, cumulative'[m.currency])]];
  }

  function WithTotal(cumulative: map<string, int>, m: Month): (r: map<string, int>)
    ensures m.currency in r
  {
    cumulative[m.currency := (if m.currency in cumulative then cumulative[m.currency] else 0) + (m.inflow - m.outflow)]
  }

  function WithBucket(buckets: map<string, seq<Bucket>>, cumulative: map<string, int>, m: Month): (r: map<string, seq<Bucket>>)
    ensures m.currency in r
  {
    buckets[m.currency := (if m.currency in buckets then buckets[m.currency] else [])
                          + [Bucket(m.month, m.inflow, m.outflow, m.inflow - m.outflow, WithTotal(cumulative, m)[m.currency])]]
  }

  ghost predicate AllCumulate(buckets: map<string, seq<Bucket>>, cumulative: map<string, int>, lines: seq<Month>) {
    forall currency :: Cumulated(buckets, cumulative, lines, currency)
  }

  /** The loop over the monthly lines: one list of months per currency, with running totals. */
  method QueryCashflow(lines: seq<Month>) returns (buckets: map<string, seq<Bucket>>)
    ensures forall currency :: currency in buckets <==> Where(MonthIn(currency), lines) != []
    ensures forall currency :: currency in buckets ==> RunsOver(buckets[currency], Where(MonthIn(currency), lines))
  {
    buckets := map[];
    var cumulative: map<string, int> := map[];
    for i := 0 to |lines|
      invariant AllCumulate(buckets, cumulative, lines[..i])
    {
      CumulateOneMore(buckets, cumulative, lines[..i], lines[i]);
      assert lines[..i + 1] == lines[..i] + [lines[i]];
      buckets, cumulative := AddMonth(buckets, cumulative, lines[i]);
    }
    assert lines[..|lines|] == lines;
    AllCumulated(buckets, cumulative, lines);
  }

  lemma AllCumulated(buckets: map<string, seq<Bucket>>, cumulative: map<string, int>, lines: seq<Month>)
    requires AllCumulate(buckets, cumulative, lines)
    ensures forall currency :: currency in buckets <==> Where(MonthIn(currency), lines) != []
    ensures forall currency :: currency in buckets ==> RunsOver(buckets[currency], Where(MonthIn(currency), lines))
  {
    forall currency
      ensures currency in buckets <==> Where(MonthIn(currency), lines) != []
      ensures currency in buckets ==> RunsOver(buckets[currency], Where(MonthIn(currency), lines))
    {
      assert Cumulated(buckets, cumulative, lines, currency);
    }
  }

  lemma CumulateOneMore(buckets: map<string, seq<Bucket>>, cumulative: map<string, int>, lines: seq<Month>, m: Month)
    requires AllCumulate(buckets, cumulative, lines)
    ensures AllCumulate(WithBucket(buckets, cumulative, m), WithTotal(cumulative, m), lines + [m])
  {
    var buckets', cumulative', next := WithBucket(buckets, cumulative, m), WithTotal(cumulative, m), lines + [m];
    forall currency ensures Cumulated(buckets', cumulative', next, currency) {
      assert Cumulated(buckets, cumulative, lines, currency);
      CumulateFor(buckets, cumulative, lines, m, currency);
    }
  }

  lemma CumulateFor(buckets: map<string, seq<Bucket>>, cumulative: map<string, int>, lines: seq<Month>, m: Month, currency: string)
    requires Cumulated(buckets, cumulative, lines, currency)
    ensures Cumulated(WithBucket(buckets, cumulative, m), WithTotal(cumulative, m), lines + [m], currency)
  {
    WherePush(MonthIn(currency), lines, m);
    if currency == m.currency {
      SumPush(NetOfMonth(), Where(MonthIn(currency), lines), m);
      CumulateOwn(buckets, cumulative, Where(MonthIn(currency), lines), m);
    }
  }

  lemma CumulateOwn(buckets: map<string, seq<Bucket>>, cumulative: map<string, int>, months: seq<Month>, m: Month)
    requires m.currency in buckets ==> RunsOver(buckets[m.currency], months)
    requires m.currency !in buckets ==> months == []
    requires WithTotal(cumulative, m)[m.currency] == Sum(NetOfMonth(), months + [m])
    ensures RunsOver(WithBucket(buckets, cumulative, m)[m.currency], months + [m])
  {
    RunsOneFurther(if m.currency in buckets then buckets[m.currency] else [], months, m);
  }

  lemma RunsOneFurther(buckets: seq<Bucket>, lines: seq<Month>, m: Month)
    requires RunsOver(buckets, lines)
    ensures RunsOver(buckets + [Bucket(m.month, m.inflow, m.outflow, m.inflow - m.outflow, Sum(NetOfMonth(), lines + [m]))], lines + [m])
  {
    assert (lines + [m])[..|lines| + 1] == lines + [m];
    assert forall n :: 0 <= n <= |lines| ==> (lines + [m])[..n] == lines[..n];
  }

  function InflowOf(): Bucket -> int {
    (b: Bucket) => b.inflow
  }

  function OutflowOf(): Bucket -> int {
    (b: Bucket) => b.outflow
  }

  /** The totals of the buckets net to the sum of their lines. */
  lemma {:induction false} BucketsNet(buckets: seq<Bucket>, lines: seq<Month>)
    requires RunsOver(buckets, lines)
    ensures Sum(InflowOf(), buckets) - Sum(OutflowOf(), buckets) == Sum(NetOfMonth(), lines)
  {
    if buckets != [] {
      var n := |buckets| - 1;
      assert forall k :: 0 <= k <= n ==> lines[..n][..k] == lines[..k];
      BucketsNet(buckets[..n], lines[..n]);
    }
  }

  /** The totals under the cashflow table and its closing balance. */
  method CashflowClosing(buckets: seq<Bucket>, opening: int) returns (moneyIn: int, moneyOut: int, closing: int)
    ensures closing == if buckets == [] then opening else opening + buckets[|buckets| - 1].cumulative
    ensures moneyIn == Sum(InflowOf(), buckets) && moneyOut == Sum(OutflowOf(), buckets)
    ensures forall lines :: RunsOver(buckets, lines) ==> moneyIn - moneyOut == Sum(NetOfMonth(), lines)
  {
    moneyIn, moneyOut, closing := 0, 0, opening;
    for i := 0 to |buckets|
      invariant closing == if i == 0 then opening else opening + buckets[i - 1].cumulative
      invariant moneyIn == Sum(InflowOf(), buckets[..i]) && moneyOut == Sum(OutflowOf(), buckets[..i])
    {
      assert buckets[..i + 1][..i] == buckets[..i];
      moneyIn := moneyIn + buckets[i].inflow;
      moneyOut := moneyOut + buckets[i].outflow;
      closing := opening + buckets[i].cumulative;
    }
    assert buckets[..|buckets|] == buckets;
    forall lines | RunsOver(buckets, lines) ensures moneyIn - moneyOut == Sum(NetOfMonth(), lines) {
      BucketsNet(buckets, lines);
    }
  }
}
