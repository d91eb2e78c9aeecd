/** What validated messages bring to the tables. No stored currency is blank or too long for its
    column, and with that the closing balances of all reports agree; and validation does not keep
    large amounts of compound messages from being recorded. */
module CurrencyLaws {
  import opened Common
  import opened Text
  import opened EventKeys
  import opened LedgerBooks
  import opened LedgerRunLaws
  import opened Statements
  import opened StatementLaws
  import opened LedgerAgent
  import Validators
  import ValidatorLaws

  /** The width of the currency columns. */
  const CURRENCY_WIDTH: nat := 10

  predicate Storable(currency: string) {
    1 <= |currency| <= CURRENCY_WIDTH
  }

  /** The validation never lets a blank currency through. */
  lemma CleanedIsStorable(s: string)
    ensures Storable(Validators.CleanCurrency(s))
  {
    assert Strip(s) != "" ==> |Validators.Upper(Strip(s))| >= 1;
  }

  /* ---------- what the ledger is given ---------- */

  /** A transaction entry as a validation leaves it. */
  ghost predicate ValidTx(e: Entry) {
    e.TxEntry? && exists raw: Validators.RawTx, today: int ::
      var checked := Validators.ValidateTx(raw, today);
      checked.Ok? && var t := checked.value; e == TxEntry(t.flow, t.action, t.amount, t.currency, t.day)
  }

  /** A debt entry as a validation leaves it; its amount is that of the message in kobo. */
  ghost predicate ValidDebt(e: Entry) {
    e.DebtEntry? && exists raw: Validators.RawDebt ::
      var checked := Validators.ValidateDebt(raw);
      checked.Ok? && var d := checked.value; e == DebtEntry(d.party, d.action, d.name, e.debtAmount, d.currency)
  }

  /** The ledger validates each event it receives before it reads it. */
  ghost predicate ValidInput(r: LedgerRequest) {
    match r
    case Shorthand(Some(tx)) => ValidTx(tx)
    case Compound(Some(p)) =>
      && (forall i :: 0 <= i < |p.txs| ==> ValidTx(p.txs[i]))
      && (forall i :: 0 <= i < |p.debts| ==> ValidDebt(p.debts[i]))
    case _ => true
  }

  predicate NamesStorable(e: Entry) {
    match e
    case TxEntry(_, _, _, currency, _) => Storable(currency)
    case StockEntry(_, _, _) => true
    case DebtEntry(_, _, _, _, currency) => Storable(currency)
  }

  lemma ValidNamesStorable(e: Entry)
    requires ValidTx(e) || e.StockEntry? || ValidDebt(e)
    ensures NamesStorable(e)
  {
    if ValidTx(e) {
      var raw: Validators.RawTx, today: int :|
        var checked := Validators.ValidateTx(raw, today);
        checked.Ok? && var t := checked.value; e == TxEntry(t.flow, t.action, t.amount, t.currency, t.day);
      CleanedIsStorable(raw.currency);
    } else if ValidDebt(e) {
      var raw: Validators.RawDebt :|
        var checked := Validators.ValidateDebt(raw);
        checked.Ok? && var d := checked.value; e == DebtEntry(d.party, d.action, d.name, e.debtAmount, d.currency);
      CleanedIsStorable(raw.currency);
    }
  }

  /** Entries are the items of the message, list after list. */
  function ItemAt(p: Message, i: nat): Entry
    requires i < |p.txs| + |p.stock| + |p.debts|
  {
    if i < |p.txs| then p.txs[i]
    else if i < |p.txs| + |p.stock| then p.stock[i - |p.txs|]
    else p.debts[i - |p.txs| - |p.stock|]
  }

  lemma EntryIsItem(e: EventId, p: Message, i: nat)
    requires i < |Entries(e, Compound(Some(p)))|
    ensures i < |p.txs| + |p.stock| + |p.debts| && Entries(e, Compound(Some(p)))[i].entry == ItemAt(p, i)
  {
    var txs, stock, debts := KeyedList(e, Tx, p.txs), KeyedList(e, Inv, p.stock), KeyedList(e, Debt, p.debts);
    assert Entries(e, Compound(Some(p))) == txs + stock + debts;
  }

  lemma InputNamesStorable(e: EventId, r: LedgerRequest, i: nat)
    requires ValidInput(r) && i < |Entries(e, r)|
    ensures NamesStorable(Entries(e, r)[i].entry)
  {
    match r
    case Shorthand(Some(tx)) => ValidNamesStorable(tx);
    case Compound(Some(p)) =>
      EntryIsItem(e, p, i);
      assert i < |p.txs| || i < |p.txs| + |p.stock| || ValidDebt(ItemAt(p, i));
      ValidNamesStorable(ItemAt(p, i));
  }

  /** The largest amount that a transaction may have. */
  const MAX_AMOUNT: int := 99999999999

  function SaleText(amount: real): Validators.RawTx {
    Validators.RawTx("income", "sale", Some(amount), "NGN", None, "Sales", "", Validators.Day(0))
  }

  lemma NairaIsClean()
    ensures Validators.CleanCurrency("NGN") == "NGN"
  {
    StripFacts("NGN");
    assert Validators.Upper("NGN") == "NGN";
  }

  lemma SaleIsAccepted(amount: int)
    requires 1 <= amount <= MAX_AMOUNT
    ensures var checked := Validators.ValidateTx(SaleText(amount as real / 100.0), 0);
            checked.Ok? && var t := checked.value;
            t.flow == Income && t.action == Sale && t.amount == Some(amount) && t.currency == "NGN" && t.day == 0
  {
    ValidatorLaws.NamesAreUnderstood(Income, Sale);
    ValidatorLaws.CentsOfCents(amount);
    NairaIsClean();
  }

  lemma SaleIsValid(amount: int)
    requires 1 <= amount <= MAX_AMOUNT
    ensures ValidInput(CompoundSale(amount))
  {
    SaleIsAccepted(amount);
    assert ValidTx(TxEntry(Income, Sale, Some(amount), "NGN", 0));
  }

  /** For every threshold that a transaction can reach, a validated compound message with that amount
      passes the threshold rule and is recorded. */
  lemma LargeValidAmountsAreRecorded(threshold: int, e: EventId)
    requires 1 <= threshold <= MAX_AMOUNT
    ensures exists c: Call ::
              c.reviewer == Rule(threshold) && c.event == e && |c.faults| == MAX_ATTEMPTS
              && c.request.Compound? && ValidInput(c.request)
              && exists t :: t in AfterCall(EMPTY, c).transactions && t.amount >= threshold
  {
    LargeCompoundAmountsAreRecorded(threshold, e);
    SaleIsValid(threshold);
  }

  /* ---------- what the tables hold ---------- */

  ghost predicate CurrenciesStorable(b: Books) {
    && (forall t :: t in b.transactions ==> Storable(t.currency))
    && (forall a :: a in b.balances ==> Storable(a.currency))
  }

  lemma EntryKeepsCurrencies(resolve: Resolver, b: Books, k: KeyedEntry, today: int)
    requires CurrenciesStorable(b) && NamesStorable(k.entry) && ApplyEntry(resolve, b, k, today).Applied?
    ensures CurrenciesStorable(ApplyEntry(resolve, b, k, today).books)
  {
    var b' := ApplyEntry(resolve, b, k, today).books;
    if k.entry.StockEntry? {
      assert b'.transactions == b.transactions && b'.balances == b.balances;
    }
  }

  lemma {:induction false} EntriesKeepCurrencies(resolve: Resolver, b: Books, ks: seq<KeyedEntry>, today: int)
    requires CurrenciesStorable(b) && forall i :: 0 <= i < |ks| ==> NamesStorable(ks[i].entry)
    requires ApplyAll(resolve, b, ks, today).Applied?
    ensures CurrenciesStorable(ApplyAll(resolve, b, ks, today).books)
  {
    if ks != [] {
      var front := ks[..|ks| - 1];
      EntriesKeepCurrencies(resolve, b, front, today);
      EntryKeepsCurrencies(resolve, ApplyAll(resolve, b, front, today).books, ks[|ks| - 1], today);
    }
  }

  /** After any series of messages, each validated as the ledger validates it, no stored currency
      is blank and none is too long for its column. */
  lemma {:induction false} StoredCurrencies(calls: seq<Call>)
    requires forall i :: 0 <= i < |calls| ==> ValidInput(calls[i].request)
    ensures CurrenciesStorable(AfterCalls(EMPTY, calls))
  {
    if calls != [] {
      var b, c := AfterCalls(EMPTY, calls[..|calls| - 1]), calls[|calls| - 1];
      StoredCurrencies(calls[..|calls| - 1]);
      if AfterCall(b, c) != b {
        var ks := Entries(c.event, c.request);
        forall i | 0 <= i < |ks| ensures NamesStorable(ks[i].entry) {
          InputNamesStorable(c.event, c.request, i);
        }
        EntriesKeepCurrencies(ResolverOf(b), b, ks, c.today);
      }
    }
  }

  /* ---------- the reports over those tables ---------- */

  /** The rows that the reports read, one for each stored transaction. */
  ghost predicate Shows(all: seq<Row>, stored: seq<TxRow>) {
    && |all| == |stored|
    && forall i :: 0 <= i < |all| ==>
         && all[i].flow == stored[i].flow && all[i].action == stored[i].action && all[i].amount == stored[i].amount
         && all[i].currency == stored[i].currency && all[i].date == stored[i].date
  }

  lemma NoBlankRows(all: seq<Row>, b: Books, period: Period)
    requires CurrenciesStorable(b) && Shows(all, b.transactions)
    ensures NetOf(InCurrency(""), Where(Within(period), all)) == 0
  {
    var rows := Where(Within(period), all);
    WhereMembers(Within(period), all);
    forall r | r in rows ensures !InCurrency("")(r) {
      var i :| 0 <= i < |all| && all[i] == r;
      assert b.transactions[i] in b.transactions;
    }
    NothingIn(InCurrency(""), rows);
  }

  /** Over the tables that any series of validated messages leaves, for one period and every
      currency of the cashflow: the statement of account and the cashflow close at the same
      balance, which is the opening balance of the day after, and the opening balance plus the net
      profit. */
  lemma ReportsCloseAlike(calls: seq<Call>, all: seq<Row>, period: Period, next: int, selected: seq<Row>,
                          lines: seq<Month>, buckets: seq<Bucket>, pl: IncomeStatement, currency: string)
    requires forall i :: 0 <= i < |calls| ==> ValidInput(calls[i].request)
    requires Shows(all, AfterCalls(EMPTY, calls).transactions)
    requires Ordered(all, period, selected) && IsMonthly(lines, Where(Within(period), all)) && DayAfter(all, period, next)
    requires currency != "" && buckets != [] && RunsOver(buckets, Where(MonthIn(currency), lines))
    requires Reports(pl, Where(ShownAs(currency), selected))
    ensures var opening := OpeningBalance(all, period.start, currency);
            opening + Sum(CashOf(), Where(ShownAs(currency), selected))
            == opening + buckets[|buckets| - 1].cumulative
            == opening + pl.netProfit
            == OpeningBalance(all, Some(next), currency)
  {
    StoredCurrencies(calls);
    NoBlankRows(all, AfterCalls(EMPTY, calls), period);
    ClosingBalancesAgree(all, period, next, selected, lines, buckets, pl, currency);
  }
}
