/** The statement of account, the profit and loss statement, the monthly cashflow and the opening
    balance are four aggregations of the same rows: when their balances agree, and when not. */
module StatementLaws {
  import opened Common
  import opened LedgerBooks
  import opened Statements

  /* ---------- sums ---------- */

  lemma {:induction false} SumConcat<T>(f: T -> int, s: seq<T>, t: seq<T>)
    ensures Sum(f, s + t) == Sum(f, s) + Sum(f, t)
  {
    if t == [] {
      assert s + t == s;
    } else {
      var front := t[..|t| - 1];
      assert s + t == (s + front) + [t[|t| - 1]];
      SumConcat(f, s, front);
      SumPush(f, s + front, t[|t| - 1]);
    }
  }

  /** Taking one occurrence out of each of two permutations leaves permutations. */
  lemma DropBoth<T>(front: seq<T>, x: T, left: seq<T>, right: seq<T>)
    requires multiset(front + [x]) == multiset(left + [x] + right)
    ensures multiset(front) == multiset(left + right)
  {
    assert multiset(front + [x]) - multiset{x} == multiset(front);
    assert multiset(left + [x] + right) - multiset{x} == multiset(left + right);
  }

  lemma SumAround<T>(f: T -> int, left: seq<T>, x: T, right: seq<T>)
    ensures Sum(f, left + [x] + right) == Sum(f, left + right) + f(x)
  {
    SumConcat(f, left, right);
    SumConcat(f, left + [x], right);
    SumPush(f, left, x);
  }

  lemma TakeOut<T>(front: seq<T>, x: T, t: seq<T>) returns (left: seq<T>, right: seq<T>)
    requires multiset(front + [x]) == multiset(t)
    ensures t == left + [x] + right && multiset(front) == multiset(left + right)
  {
    assert x in front + [x];
    assert x in multiset(t);
    var i :| 0 <= i < |t| && t[i] == x;
    left, right := t[..i], t[i + 1..];
    assert t == left + [x] + right;
    DropBoth(front, x, left, right);
  }

  /** A sum does not depend on the order of the rows. */
  lemma {:induction false} SumPermuted<T>(f: T -> int, s: seq<T>, t: seq<T>)
    requires multiset(s) == multiset(t)
    ensures Sum(f, s) == Sum(f, t)
  {
    if s == [] {
      assert |multiset(t)| == |multiset(s)| == 0;
    } else {
      var front, x := s[..|s| - 1], s[|s| - 1];
      assert s == front + [x];
      var left, right := TakeOut(front, x, t);
      SumPermuted(f, front, left + right);
      SumAround(f, left, x, right);
    }
  }

  lemma NetPermuted(p: Row -> bool, s: seq<Row>, t: seq<Row>)
    requires multiset(s) == multiset(t)
    ensures NetOf(p, s) == NetOf(p, t)
  {
    WherePermutation(p, s, t);
    SumPermuted(CashOf(), Where(p, s), Where(p, t));
  }

  /** Rows that satisfy one of two exclusive conditions. */
  lemma {:induction false} NetSplit(p: Row -> bool, q: Row -> bool, either: Row -> bool, rows: seq<Row>)
    requires forall r :: r in rows ==> (either(r) <==> p(r) || q(r)) && !(p(r) && q(r))
    ensures NetOf(either, rows) == NetOf(p, rows) + NetOf(q, rows)
  {
    if rows != [] {
      var front, r := rows[..|rows| - 1], rows[|rows| - 1];
      assert r in rows && forall x :: x in front ==> x in rows;
      NetSplit(p, q, either, front);
      NetPush(p, front, r);
      NetPush(q, front, r);
      NetPush(either, front, r);
      assert rows == front + [r];
    }
  }

  lemma NetPush(p: Row -> bool, rows: seq<Row>, r: Row)
    ensures NetOf(p, rows + [r]) == NetOf(p, rows) + if p(r) then Cash(r) else 0
  {
    WherePush(p, rows, r);
    SumPush(CashOf(), Where(p, rows), r);
  }

  /** A filter on a filtered list. */
  lemma {:induction false} NetWhere(p: Row -> bool, q: Row -> bool, both: Row -> bool, rows: seq<Row>)
    requires forall r :: r in rows ==> (both(r) <==> p(r) && q(r))
    ensures NetOf(p, Where(q, rows)) == NetOf(both, rows)
  {
    if rows != [] {
      var front, r := rows[..|rows| - 1], rows[|rows| - 1];
      assert r in rows && forall x :: x in front ==> x in rows;
      NetWhere(p, q, both, front);
      NetPush(both, front, r);
      NetPush(p, Where(q, front), r);
      assert rows == front + [r];
    }
  }

  /* ---------- profit and loss ---------- */

  lemma {:induction false} AddedTotal(totals: seq<Total>, name: string, amount: int)
    ensures Sum(AmountOfTotal(), Added(totals, name, amount)) == Sum(AmountOfTotal(), totals) + amount
  {
    if totals == [] {
      SumPush(AmountOfTotal(), [], Total(name, amount));
      assert [] + [Total(name, amount)] == [Total(name, amount)];
    } else {
      var head, rest := [totals[0]], totals[1..];
      assert totals == head + rest;
      SumConcat(AmountOfTotal(), head, rest);
      if totals[0].name == name {
        SumConcat(AmountOfTotal(), [Total(name, totals[0].amount + amount)], rest);
      } else {
        AddedTotal(rest, name, amount);
        SumConcat(AmountOfTotal(), head, Added(rest, name, amount));
      }
    }
  }

  lemma {:induction false} AddedLookup(totals: seq<Total>, name: string, amount: int, other: string)
    ensures Lookup(Added(totals, name, amount), other) == Lookup(totals, other) + if other == name then amount else 0
  {
    if totals != [] && totals[0].name != name {
      AddedLookup(totals[1..], name, amount, other);
      assert ([totals[0]] + Added(totals[1..], name, amount))[1..] == Added(totals[1..], name, amount);
    }
  }

  /** What the figures of one currency add up to. */
  lemma {:induction false} TallyTotals(rows: seq<Row>)
    ensures var f := Tally(rows);
            Sum(AmountOfTotal(), f.revenue) - f.purchases - Sum(AmountOfTotal(), f.expenses) == Sum(CashOf(), rows)
  {
    if rows != [] {
      var f, r := Tally(rows[..|rows| - 1]), rows[|rows| - 1];
      TallyTotals(rows[..|rows| - 1]);
      AddedTotal(f.revenue, Category(r), r.amount);
      AddedTotal(f.expenses, Category(r), r.amount);
    }
  }

  function IncomeUnder(category: string): Row -> bool {
    (r: Row) => r.flow == Income && (if r.category == "" then "Miscellaneous" else r.category) == category
  }

  function ExpenseUnder(category: string): Row -> bool {
    (r: Row) => r.flow == Expense && r.action != Purchase && (if r.category == "" then "Miscellaneous" else r.category) == category
  }

  lemma AmountPush(p: Row -> bool, rows: seq<Row>, r: Row)
    ensures Sum(AmountOf(), Where(p, rows + [r])) == Sum(AmountOf(), Where(p, rows)) + if p(r) then r.amount else 0
  {
    WherePush(p, rows, r);
    SumPush(AmountOf(), Where(p, rows), r);
  }

  /** Each line of the statement is the sum of its own category. */
  lemma {:induction false} RevenueLines(rows: seq<Row>, category: string)
    ensures Lookup(Tally(rows).revenue, category) == Sum(AmountOf(), Where(IncomeUnder(category), rows))
  {
    if rows != [] {
      var front, r := rows[..|rows| - 1], rows[|rows| - 1];
      assert rows == front + [r];
      RevenueLines(front, category);
      AddedLookup(Tally(front).revenue, Category(r), r.amount, category);
      AmountPush(IncomeUnder(category), front, r);
    }
  }

  lemma {:induction false} ExpenseLines(rows: seq<Row>, category: string)
    ensures Lookup(Tally(rows).expenses, category) == Sum(AmountOf(), Where(ExpenseUnder(category), rows))
  {
    if rows != [] {
      var front, r := rows[..|rows| - 1], rows[|rows| - 1];
      assert rows == front + [r];
      ExpenseLines(front, category);
      AddedLookup(Tally(front).expenses, Category(r), r.amount, category);
      AmountPush(ExpenseUnder(category), front, r);
    }
  }

  function PurchaseRow(): Row -> bool {
    (r: Row) => r.flow == Expense && r.action == Purchase
  }

  function OtherExpenseRow(): Row -> bool {
    (r: Row) => r.flow == Expense && r.action != Purchase
  }

  lemma {:induction false} TallySums(rows: seq<Row>)
    ensures var f := Tally(rows);
            && Sum(AmountOfTotal(), f.revenue) == Sum(AmountOf(), Where(HasFlow(Income), rows))
            && f.purchases == Sum(AmountOf(), Where(PurchaseRow(), rows))
            && Sum(AmountOfTotal(), f.expenses) == Sum(AmountOf(), Where(OtherExpenseRow(), rows))
  {
    if rows != [] {
      var front, r := rows[..|rows| - 1], rows[|rows| - 1];
      assert rows == front + [r];
      TallySums(front);
      AddedTotal(Tally(front).revenue, Category(r), r.amount);
      AddedTotal(Tally(front).expenses, Category(r), r.amount);
      AmountPush(HasFlow(Income), front, r);
      AmountPush(PurchaseRow(), front, r);
      AmountPush(OtherExpenseRow(), front, r);
    }
  }

  /** The five totals of a profit and loss statement, from the rows it is made of: the cost of goods
      sold is what was spent on purchases, and every other expense is an operating one. */
  lemma ProfitAndLossTotals(p: IncomeStatement, rows: seq<Row>)
    requires Reports(p, rows)
    ensures p.totalRevenue == Sum(AmountOf(), Where(HasFlow(Income), rows))
    ensures p.cogs == Sum(AmountOf(), Where(PurchaseRow(), rows))
    ensures p.totalExpenses == Sum(AmountOf(), Where(OtherExpenseRow(), rows))
    ensures p.gross == p.totalRevenue - p.cogs && p.netProfit == p.gross - p.totalExpenses
  {
    TallySums(rows);
  }

  /** The net profit of a currency is the net cash of the rows shown under it. */
  lemma NetProfitIsNetCash(p: IncomeStatement, rows: seq<Row>, currency: string)
    requires Reports(p, Where(ShownAs(currency), rows))
    ensures p.netProfit == NetOf(ShownAs(currency), rows)
  {
    TallyTotals(Where(ShownAs(currency), rows));
  }

  /* ---------- cashflow ---------- */

  lemma {:induction false} MonthNet(rows: seq<Row>, currency: string, month: int)
    ensures Sum(AmountOf(), Where(IncomeIn(currency, month), rows)) - Sum(AmountOf(), Where(ExpenseIn(currency, month), rows))
            == NetOf(InMonth(currency, month), rows)
  {
    if rows != [] {
      var front, r := rows[..|rows| - 1], rows[|rows| - 1];
      assert rows == front + [r];
      MonthNet(front, currency, month);
      AmountPush(IncomeIn(currency, month), front, r);
      AmountPush(ExpenseIn(currency, month), front, r);
      NetPush(InMonth(currency, month), front, r);
    }
  }

  /** The rows of a currency whose month is among some lines. */
  function InMonths(currency: string, lines: seq<Month>): Row -> bool {
    (r: Row) => r.currency == currency && exists i :: 0 <= i < |lines| && lines[i].month == r.date / 100
  }

  /** The lines of one currency: its months strictly ascending, each with its sums. */
  ghost predicate MonthsOf(lines: seq<Month>, rows: seq<Row>, currency: string) {
    && (forall i :: 0 <= i < |lines| ==> NetOfMonth()(lines[i]) == NetOf(InMonth(currency, lines[i].month), rows))
    && (forall i, j :: 0 <= i < j < |lines| ==> lines[i].month < lines[j].month)
    && (forall r :: r in rows && r.currency == currency ==> exists i :: 0 <= i < |lines| && lines[i].month == r.date / 100)
  }

  lemma {:induction false} NothingIn(p: Row -> bool, rows: seq<Row>)
    requires forall r :: r in rows ==> !p(r)
    ensures NetOf(p, rows) == 0
  {
    if rows != [] {
      assert rows[|rows| - 1] in rows;
      NothingIn(p, rows[..|rows| - 1]);
    }
  }

  /** Summing the monthly lines is summing the rows of their months. */
  lemma {:induction false} MonthsAddUp(lines: seq<Month>, k: nat, rows: seq<Row>, currency: string)
    requires MonthsOf(lines, rows, currency) && k <= |lines|
    ensures Sum(NetOfMonth(), lines[..k]) == NetOf(InMonths(currency, lines[..k]), rows)
  {
    if k == 0 {
      NothingIn(InMonths(currency, lines[..0]), rows);
    } else {
      var m := lines[k - 1];
      MonthsAddUp(lines, k - 1, rows, currency);
      assert lines[..k] == lines[..k - 1] + [m];
      SumPush(NetOfMonth(), lines[..k - 1], m);
      forall r | r in rows
        ensures InMonths(currency, lines[..k])(r) <==> InMonths(currency, lines[..k - 1])(r) || InMonth(currency, m.month)(r)
        ensures !(InMonths(currency, lines[..k - 1])(r) && InMonth(currency, m.month)(r))
      {
        OneMoreMonth(lines, k, rows, currency, r);
      }
      NetSplit(InMonths(currency, lines[..k - 1]), InMonth(currency, m.month), InMonths(currency, lines[..k]), rows);
    }
  }

  lemma OneMoreMonth(lines: seq<Month>, k: nat, rows: seq<Row>, currency: string, r: Row)
    requires MonthsOf(lines, rows, currency) && 0 < k <= |lines|
    ensures InMonths(currency, lines[..k])(r) <==> InMonths(currency, lines[..k - 1])(r) || InMonth(currency, lines[k - 1].month)(r)
    ensures !(InMonths(currency, lines[..k - 1])(r) && InMonth(currency, lines[k - 1].month)(r))
  {
    if i :| 0 <= i < k && r.currency == currency && lines[i].month == r.date / 100 {
      assert lines[..k][i] == lines[i];
      if i < k - 1 {
        assert lines[..k - 1][i] == lines[i];
      }
    }
  }

  function UpTo(currency: string, month: int): Row -> bool {
    (r: Row) => r.currency == currency && r.date / 100 <= month
  }

  lemma {:induction false} NetSame(p: Row -> bool, q: Row -> bool, rows: seq<Row>)
    requires forall r :: r in rows ==> (p(r) <==> q(r))
    ensures NetOf(p, rows) == NetOf(q, rows)
  {
    if rows != [] {
      var front, r := rows[..|rows| - 1], rows[|rows| - 1];
      assert rows == front + [r];
      NetSame(p, q, front);
      NetPush(p, front, r);
      NetPush(q, front, r);
    }
  }

  lemma EarlierMonths(lines: seq<Month>, k: nat, rows: seq<Row>, currency: string, r: Row)
    requires MonthsOf(lines, rows, currency) && k < |lines| && r in rows
    ensures InMonths(currency, lines[..k + 1])(r) <==> UpTo(currency, lines[k].month)(r)
  {
    if r.currency == currency {
      var i :| 0 <= i < |lines| && lines[i].month == r.date / 100;
      assert i <= k ==> lines[..k + 1][i] == lines[i];
    }
  }

  /** The cumulative figure beside a month is the net cash of all rows up to that month. */
  lemma CumulativeIsNetToDate(buckets: seq<Bucket>, lines: seq<Month>, k: nat, rows: seq<Row>, currency: string)
    requires MonthsOf(lines, rows, currency) && RunsOver(buckets, lines) && k < |lines|
    ensures buckets[k].cumulative == NetOf(UpTo(currency, lines[k].month), rows)
  {
    MonthsAddUp(lines, k + 1, rows, currency);
    forall r | r in rows ensures InMonths(currency, lines[..k + 1])(r) <==> UpTo(currency, lines[k].month)(r) {
      EarlierMonths(lines, k, rows, currency, r);
    }
    NetSame(InMonths(currency, lines[..k + 1]), UpTo(currency, lines[k].month), rows);
  }

  predicate Ascends(months: seq<Month>) {
    forall i, j :: 0 <= i < j < |months| ==> months[i].month < months[j].month
  }

  lemma {:induction false} WhereAscends(lines: seq<Month>, currency: string)
    requires forall i, j :: 0 <= i < j < |lines| && lines[i].currency == lines[j].currency ==>
             lines[i].month < lines[j].month
    ensures Ascends(Where(MonthIn(currency), lines))
  {
    if lines != [] {
      var front, m := lines[..|lines| - 1], lines[|lines| - 1];
      WhereAscends(front, currency);
      WhereMembers(MonthIn(currency), front);
      var months := Where(MonthIn(currency), front);
      forall i | 0 <= i < |months| && m.currency == currency ensures months[i].month < m.month {
        assert months[i] in months && MonthIn(currency)(months[i]);
        var k :| 0 <= k < |front| && front[k] == months[i];
        assert lines[k] == front[k];
      }
      assert Where(MonthIn(currency), lines) == if m.currency == currency then months + [m] else months;
      assert m.currency == currency ==> Ascends(months + [m]);
    }
  }

  lemma QueriedMonthNet(lines: seq<Month>, rows: seq<Row>, currency: string, m: Month)
    requires IsMonthly(lines, rows) && m in Where(MonthIn(currency), lines)
    ensures NetOfMonth()(m) == NetOf(InMonth(currency, m.month), rows)
  {
    WhereMembers(MonthIn(currency), lines);
    assert MonthIn(currency)(m);
    var i :| 0 <= i < |lines| && lines[i] == m;
    MonthNet(rows, currency, m.month);
  }

  lemma QueriedMonthsCover(lines: seq<Month>, rows: seq<Row>, currency: string, r: Row)
    requires IsMonthly(lines, rows) && r in rows && r.currency == currency
    ensures exists m :: m in Where(MonthIn(currency), lines) && m.month == r.date / 100
  {
    var i :| 0 <= i < |lines| && lines[i].currency == currency && lines[i].month == r.date / 100;
    WhereMembers(MonthIn(currency), lines);
    assert MonthIn(currency)(lines[i]) && lines[i] in lines;
  }

  /** The lines that the monthly query returns for one currency. */
  lemma QueriedMonths(lines: seq<Month>, rows: seq<Row>, currency: string)
    requires IsMonthly(lines, rows)
    ensures MonthsOf(Where(MonthIn(currency), lines), rows, currency)
  {
    var months := Where(MonthIn(currency), lines);
    WhereAscends(lines, currency);
    forall i | 0 <= i < |months| ensures NetOfMonth()(months[i]) == NetOf(InMonth(currency, months[i].month), rows) {
      QueriedMonthNet(lines, rows, currency, months[i]);
    }
    forall r | r in rows && r.currency == currency
      ensures exists i :: 0 <= i < |months| && months[i].month == r.date / 100
    {
      QueriedMonthsCover(lines, rows, currency, r);
      var m :| m in months && m.month == r.date / 100;
      var i :| 0 <= i < |months| && months[i] == m;
    }
  }

  /** All the lines of a currency sum all of its rows. */
  lemma CurrencyNet(lines: seq<Month>, rows: seq<Row>, currency: string)
    requires MonthsOf(lines, rows, currency)
    ensures Sum(NetOfMonth(), lines) == NetOf(InCurrency(currency), rows)
  {
    assert lines[..|lines|] == lines;
    MonthsAddUp(lines, |lines|, rows, currency);
    NetSame(InMonths(currency, lines), InCurrency(currency), rows);
  }

  /* ---------- opening and closing balances ---------- */

  function WithinAndIn(period: Period, currency: string): Row -> bool {
    (r: Row) => r.currency == currency && Within(period)(r)
  }

  /** The first day after a period, as far as the rows can tell. */
  ghost predicate DayAfter(all: seq<Row>, period: Period, next: int) {
    && (period.start.Some? ==> period.start.value <= next)
    && forall r :: r in all ==> (r.date < next <==> period.end.Some? ==> r.date <= period.end.value)
  }

  /** The opening balance moves by exactly what the period nets. */
  lemma OpeningBalanceMoves(all: seq<Row>, period: Period, next: int, currency: string)
    requires DayAfter(all, period, next)
    ensures OpeningBalance(all, period.start, currency) + NetOf(InCurrency(currency), Where(Within(period), all))
            == OpeningBalance(all, Some(next), currency)
  {
    NetWhere(InCurrency(currency), Within(period), WithinAndIn(period, currency), all);
    match period.start
    case None =>
      NetSame(WithinAndIn(period, currency), CurrencyBefore(currency, next), all);
    case Some(start) =>
      NetSplit(CurrencyBefore(currency, start), WithinAndIn(period, currency), CurrencyBefore(currency, next), all);
  }

  /** Rows shown as naira are those kept as naira and those kept without a currency. */
  lemma ShownNet(rows: seq<Row>, currency: string)
    requires currency != ""
    ensures NetOf(ShownAs(currency), rows) == NetOf(InCurrency(currency), rows) + if currency == "NGN" then NetOf(InCurrency(""), rows) else 0
  {
    if currency == "NGN" {
      NetSplit(InCurrency("NGN"), InCurrency(""), ShownAs("NGN"), rows);
    } else {
      NetSame(InCurrency(currency), ShownAs(currency), rows);
    }
  }

  /** Over one period without other filters and within the row limit, for a currency that occurs:
      the cashflow closes at the opening balance of the day after; the statement of account closes
      at opening balance plus net profit; and the two closings are equal exactly when, for naira,
      the rows kept without a currency net to nothing. */
  lemma ClosingBalancesAgree(all: seq<Row>, period: Period, next: int, selected: seq<Row>, lines: seq<Month>,
                             buckets: seq<Bucket>, pl: IncomeStatement, currency: string)
    requires Ordered(all, period, selected) && IsMonthly(lines, Where(Within(period), all)) && DayAfter(all, period, next)
    requires currency != "" && buckets != [] && RunsOver(buckets, Where(MonthIn(currency), lines))
    requires Reports(pl, Where(ShownAs(currency), selected))
    ensures var opening := OpeningBalance(all, period.start, currency);
            var statement := opening + Sum(CashOf(), Where(ShownAs(currency), selected));
            var cashflow := opening + buckets[|buckets| - 1].cumulative;
            && cashflow == OpeningBalance(all, Some(next), currency)
            && statement == opening + pl.netProfit
            && (statement == cashflow <==> (currency == "NGN" ==> NetOf(InCurrency(""), Where(Within(period), all)) == 0))
  {
    CashflowCloses(Where(Within(period), all), lines, buckets, currency);
    OpeningBalanceMoves(all, period, next, currency);
    StatementNets(all, period, selected, currency);
    NetProfitIsNetCash(pl, selected, currency);
  }

  lemma CashflowCloses(rows: seq<Row>, lines: seq<Month>, buckets: seq<Bucket>, currency: string)
    requires IsMonthly(lines, rows) && buckets != [] && RunsOver(buckets, Where(MonthIn(currency), lines))
    ensures buckets[|buckets| - 1].cumulative == NetOf(InCurrency(currency), rows)
  {
    var months := Where(MonthIn(currency), lines);
    QueriedMonths(lines, rows, currency);
    CurrencyNet(months, rows, currency);
    assert months[..|months|] == months;
  }

  lemma StatementNets(all: seq<Row>, period: Period, selected: seq<Row>, currency: string)
    requires Ordered(all, period, selected) && currency != ""
    ensures NetOf(ShownAs(currency), selected)
            == NetOf(InCurrency(currency), Where(Within(period), all))
               + if currency == "NGN" then NetOf(InCurrency(""), Where(Within(period), all)) else 0
  {
    NetPermuted(ShownAs(currency), selected, Where(Within(period), all));
    ShownNet(Where(Within(period), all), currency);
  }

  /** Beyond the row limit the statement leaves out the newest rows, and its closing balance is
      right exactly when those of the currency net to nothing. */
  lemma TruncatedStatement(ordered: seq<Row>, limit: nat, currency: string)
    ensures var dropped := ordered[|Limited(ordered, limit)|..];
            NetOf(ShownAs(currency), Limited(ordered, limit)) == NetOf(ShownAs(currency), ordered) <==> NetOf(ShownAs(currency), dropped) == 0
  {
    var kept := Limited(ordered, limit);
    var dropped := ordered[|kept|..];
    assert ordered == kept + dropped;
    WhereConcat(ShownAs(currency), kept, dropped);
    SumConcat(CashOf(), Where(ShownAs(currency), kept), Where(ShownAs(currency), dropped));
  }

  /* ---------- one currency at a time ---------- */

  /** Two tables that show the same rows under a currency, whatever else they hold. */
  ghost predicate SameShown(all: seq<Row>, all': seq<Row>, currency: string) {
    currency != "" && Where(ShownAs(currency), all) == Where(ShownAs(currency), all')
  }

  lemma SameWhere(p: Row -> bool, all: seq<Row>, all': seq<Row>, currency: string)
    requires SameShown(all, all', currency) && forall r :: p(r) ==> Shown(r) == currency
    ensures Where(p, all) == Where(p, all')
  {
    WhereWider(p, ShownAs(currency), all);
    WhereWider(p, ShownAs(currency), all');
  }

  lemma SameWithin(all: seq<Row>, all': seq<Row>, period: Period, currency: string)
    requires SameShown(all, all', currency)
    ensures SameShown(Where(Within(period), all), Where(Within(period), all'), currency)
  {
    WhereCommutes(ShownAs(currency), Within(period), all);
    WhereCommutes(ShownAs(currency), Within(period), all');
  }

  lemma SameOpening(all: seq<Row>, all': seq<Row>, before: Option<int>, currency: string)
    requires SameShown(all, all', currency)
    ensures OpeningBalance(all, before, currency) == OpeningBalance(all', before, currency)
  {
    if before.Some? {
      SameWhere(CurrencyBefore(currency, before.value), all, all', currency);
    }
  }

  /** The only line of a currency's month that occurs is the one with its sums. */
  lemma LineOf(lines: seq<Month>, rows: seq<Row>, m: Month)
    requires IsMonthly(lines, rows) && Occurs(m, rows)
    requires m.inflow == Sum(AmountOf(), Where(IncomeIn(m.currency, m.month), rows))
    requires m.outflow == Sum(AmountOf(), Where(ExpenseIn(m.currency, m.month), rows))
    ensures m in Where(MonthIn(m.currency), lines)
  {
    var r :| r in rows && r.currency == m.currency && r.date / 100 == m.month;
    var i :| 0 <= i < |lines| && lines[i].currency == m.currency && lines[i].month == m.month;
    assert lines[i] == m;
    WhereMembers(MonthIn(m.currency), lines);
    assert MonthIn(m.currency)(m);
  }

  lemma LineSums(lines: seq<Month>, rows: seq<Row>, currency: string, m: Month)
    requires IsMonthly(lines, rows) && m in Where(MonthIn(currency), lines)
    ensures m in lines && m.currency == currency
    ensures m.inflow == Sum(AmountOf(), Where(IncomeIn(currency, m.month), rows))
    ensures m.outflow == Sum(AmountOf(), Where(ExpenseIn(currency, m.month), rows))
  {
    WhereMembers(MonthIn(currency), lines);
    assert MonthIn(currency)(m);
    var i :| 0 <= i < |lines| && lines[i] == m;
  }

  lemma SameOccurs(all: seq<Row>, all': seq<Row>, m: Month)
    requires SameShown(all, all', m.currency) && Occurs(m, all)
    ensures Occurs(m, all')
  {
    var r :| r in all && r.currency == m.currency && r.date / 100 == m.month;
    WhereMembers(ShownAs(m.currency), all);
    WhereMembers(ShownAs(m.currency), all');
    assert ShownAs(m.currency)(r);
    assert r in all';
  }

  lemma SameLine(all: seq<Row>, all': seq<Row>, lines: seq<Month>, lines': seq<Month>, currency: string, m: Month)
    requires SameShown(all, all', currency) && IsMonthly(lines, all) && IsMonthly(lines', all') && NoIdleLine(lines, all)
    requires m in Where(MonthIn(currency), lines)
    ensures m in Where(MonthIn(currency), lines')
  {
    LineSums(lines, all, currency, m);
    SameOccurs(all, all', m);
    SameWhere(IncomeIn(currency, m.month), all, all', currency);
    SameWhere(ExpenseIn(currency, m.month), all, all', currency);
    LineOf(lines', all', m);
  }

  lemma FrontAscends(s: seq<Month>, m: Month)
    requires s != [] && Ascends(s)
    ensures Ascends(s[..|s| - 1])
    ensures m in s[..|s| - 1] <==> m in s && m.month < s[|s| - 1].month
  {
    assert s == s[..|s| - 1] + [s[|s| - 1]];
  }

  /** Ascending lists with the same elements are the same list. */
  lemma {:induction false} SameAscending(s: seq<Month>, t: seq<Month>)
    requires Ascends(s) && Ascends(t) && (forall m :: m in s ==> m in t) && forall m :: m in t ==> m in s
    ensures s == t
  {
    assert (s != [] ==> s[|s| - 1] in t) && (t != [] ==> t[|t| - 1] in s);
    if s != [] {
      var front, front' := s[..|s| - 1], t[..|t| - 1];
      forall m | m in front ensures m in front' {
        FrontAscends(s, m);
        FrontAscends(t, m);
      }
      forall m | m in front' ensures m in front {
        FrontAscends(s, m);
        FrontAscends(t, m);
      }
      FrontAscends(s, s[|s| - 1]);
      FrontAscends(t, t[|t| - 1]);
      SameAscending(front, front');
      assert s == front + [s[|s| - 1]] && t == front' + [t[|t| - 1]];
    }
  }

  lemma SameLines(all: seq<Row>, all': seq<Row>, lines: seq<Month>, lines': seq<Month>, currency: string)
    requires SameShown(all, all', currency) && IsMonthly(lines, all) && IsMonthly(lines', all')
    requires NoIdleLine(lines, all) && NoIdleLine(lines', all')
    ensures Where(MonthIn(currency), lines) == Where(MonthIn(currency), lines')
  {
    WhereAscends(lines, currency);
    WhereAscends(lines', currency);
    forall m | m in Where(MonthIn(currency), lines) ensures m in Where(MonthIn(currency), lines') {
      SameLine(all, all', lines, lines', currency, m);
    }
    forall m | m in Where(MonthIn(currency), lines') ensures m in Where(MonthIn(currency), lines) {
      SameLine(all', all, lines', lines, currency, m);
    }
    SameAscending(Where(MonthIn(currency), lines), Where(MonthIn(currency), lines'));
  }

  /** The statement and the profit and loss of a currency, from the rows that one period selects. */
  lemma SameStatement(all: seq<Row>, all': seq<Row>, period: Period, selected: seq<Row>, selected': seq<Row>, currency: string)
    requires SameShown(all, all', currency) && Ordered(all, period, selected) && Ordered(all', period, selected')
    ensures var own, own' := Where(ShownAs(currency), selected), Where(ShownAs(currency), selected');
            multiset(own) == multiset(own')
  {
    SameWithin(all, all', period, currency);
    WherePermutation(ShownAs(currency), selected, Where(Within(period), all));
    WherePermutation(ShownAs(currency), selected', Where(Within(period), all'));
  }

  lemma SameAmounts(p: Row -> bool, own: seq<Row>, own': seq<Row>)
    requires multiset(own) == multiset(own')
    ensures Sum(AmountOf(), Where(p, own)) == Sum(AmountOf(), Where(p, own'))
  {
    WherePermutation(p, own, own');
    SumPermuted(AmountOf(), Where(p, own), Where(p, own'));
  }

  lemma SameFigures(own: seq<Row>, own': seq<Row>, category: string)
    requires multiset(own) == multiset(own')
    ensures Lookup(Tally(own).revenue, category) == Lookup(Tally(own').revenue, category)
    ensures Lookup(Tally(own).expenses, category) == Lookup(Tally(own').expenses, category)
    ensures Sum(CashOf(), own) == Sum(CashOf(), own')
  {
    RevenueLines(own, category);
    RevenueLines(own', category);
    SameAmounts(IncomeUnder(category), own, own');
    ExpenseLines(own, category);
    ExpenseLines(own', category);
    SameAmounts(ExpenseUnder(category), own, own');
    SumPermuted(CashOf(), own, own');
  }

  /** Every figure of a currency depends on the rows shown under it only. From two tables that show
      the same rows under it, the opening balance, the monthly cashflow table, the net of the
      statement, and each line and the net profit of the profit and loss come out the same. */
  lemma OtherCurrenciesDoNotMatter(all: seq<Row>, all': seq<Row>, period: Period, currency: string,
                                   lines: seq<Month>, lines': seq<Month>, selected: seq<Row>, selected': seq<Row>,
                                   pl: IncomeStatement, pl': IncomeStatement, category: string)
    requires SameShown(all, all', currency)
    requires IsMonthly(lines, Where(Within(period), all)) && IsMonthly(lines', Where(Within(period), all'))
    requires NoIdleLine(lines, Where(Within(period), all)) && NoIdleLine(lines', Where(Within(period), all'))
    requires Ordered(all, period, selected) && Ordered(all', period, selected')
    requires Reports(pl, Where(ShownAs(currency), selected)) && Reports(pl', Where(ShownAs(currency), selected'))
    ensures OpeningBalance(all, period.start, currency) == OpeningBalance(all', period.start, currency)
    ensures Where(MonthIn(currency), lines) == Where(MonthIn(currency), lines')
    ensures NetOf(ShownAs(currency), selected) == NetOf(ShownAs(currency), selected')
    ensures Lookup(pl.figures.revenue, category) == Lookup(pl'.figures.revenue, category)
    ensures Lookup(pl.figures.expenses, category) == Lookup(pl'.figures.expenses, category)
    ensures pl.netProfit == pl'.netProfit
  {
    SameOpening(all, all', period.start, currency);
    SameWithin(all, all', period, currency);
    SameLines(Where(Within(period), all), Where(Within(period), all'), lines, lines', currency);
    SameStatement(all, all', period, selected, selected', currency);
    SameFigures(Where(ShownAs(currency), selected), Where(ShownAs(currency), selected'), category);
    NetProfitIsNetCash(pl, selected, currency);
    NetProfitIsNetCash(pl', selected', currency);
  }
}
