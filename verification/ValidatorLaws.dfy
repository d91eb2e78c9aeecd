/** What the three validations of one message make of each other's results. */
module ValidatorLaws {
  import opened Common
  import opened Text
  import opened LedgerBooks
  import opened Validators

  /* ---------- texts ---------- */

  /** Trimming a text that was trimmed and cut: stable from then on, and a change only if the cut
      left whitespace at the end. */
  lemma CutThenTrimmed(s: string, n: nat)
    requires Trimmed(s) && s != "" && n > 0
    ensures var cut := Cut(s, n);
            && cut != "" && !IsSpace(cut[0]) && |cut| <= n
            && Strip(cut) != "" && Trimmed(Strip(cut)) && Cut(Strip(cut), n) == Strip(cut)
            && Strip(Strip(cut)) == Strip(cut)
            && (Strip(cut) == cut <==> !IsSpace(cut[|cut| - 1]))
  {
    var cut := Cut(s, n);
    StripFacts(cut);
    StripRightFacts(cut);
    StripFacts(Strip(cut));
  }

  /** A text that the next validation leaves alone. */
  predicate Ends(s: string) {
    s == "" || !IsSpace(s[|s| - 1])
  }

  lemma UpperKeepsTrimmed(s: string)
    ensures Trimmed(Upper(s)) <==> Trimmed(s)
    ensures Upper(Upper(s)) == Upper(s)
  {
  }

  lemma UpperStrip(s: string)
    requires Upper(s) == s
    ensures Upper(Strip(s)) == Strip(s)
  {
    StripLeftIsSuffix(s);
    StripRightFacts(StripLeft(s));
    var t := Strip(s);
    var k := |s| - |StripLeft(s)|;
    forall i | 0 <= i < |t| ensures UpperChar(t[i]) == t[i] {
      assert t[i] == StripLeft(s)[i] == s[k + i];
      assert Upper(s)[k + i] == UpperChar(s[k + i]);
    }
  }

  lemma {:induction false} StripLeftIsSuffix(s: string)
    ensures |StripLeft(s)| <= |s| && s[|s| - |StripLeft(s)|..] == StripLeft(s)
  {
    if s != "" && IsSpace(s[0]) {
      StripLeftIsSuffix(s[1..]);
    }
  }

  lemma CurrencySettles(s: string)
    ensures var c := CleanCurrency(s);
            && CleanCurrency(CleanCurrency(c)) == CleanCurrency(c)
            && (CleanCurrency(c) == c <==> Ends(c))
  {
    StripFacts(s);
    var c := CleanCurrency(s);
    if Strip(s) == "" {
      assert c == "NGN" && Trimmed(c);
      StripFacts(c);
      assert Upper(c) == c;
    } else {
      UpperKeepsTrimmed(Strip(s));
      CutThenTrimmed(Upper(Strip(s)), 10);
      assert Upper(c) == c by {
        assert Upper(Upper(Strip(s))) == Upper(Strip(s));
        assert forall i :: 0 <= i < |c| ==> c[i] == Upper(Strip(s))[i] && UpperChar(c[i]) == Upper(Upper(Strip(s)))[i];
      }
      UpperStrip(c);
    }
  }

  lemma ItemSettles(item: Option<string>)
    ensures var c := CleanItem(item);
            && CleanItem(CleanItem(c)) == CleanItem(c)
            && (CleanItem(c) == c <==> c != Some("") && (c.Some? ==> Ends(c.value)))
  {
    if item.Some? && item.value != "" {
      StripFacts(item.value);
      if Strip(item.value) != "" {
        CutThenTrimmed(Strip(item.value), 255);
      }
    }
  }

  lemma DescriptionSettles(s: string)
    ensures var c := CleanDescription(s);
            && CleanDescription(CleanDescription(c)) == CleanDescription(c)
            && (CleanDescription(c) == c <==> Ends(c))
  {
    StripFacts(s);
    if Strip(s) != "" {
      CutThenTrimmed(Strip(s), 255);
    }
  }

  lemma CategoryIsSettled(s: string)
    ensures CleanCategory(CleanCategory(s)) == CleanCategory(s)
  {
    StripFacts(s);
    StripFacts(CleanCategory(s));
  }

  lemma LowerStripIsSettled(s: string)
    requires Strip(s) != ""
    ensures var c := Lower(Strip(s)); Strip(c) == c && Lower(c) == c
  {
    StripFacts(s);
    var c := Lower(Strip(s));
    assert Trimmed(c);
    StripFacts(c);
    LowerIdempotent(Strip(s));
  }

  /* ---------- names ---------- */

  predicate IsLowerWord(s: string) {
    s != "" && forall i :: 0 <= i < |s| ==> 'a' <= s[i] <= 'z'
  }

  lemma LowerWord(s: string)
    requires IsLowerWord(s)
    ensures Strip(Lower(s)) == s
  {
    assert Lower(s) == s;
    StripFacts(s);
  }

  lemma FlowNamesAreWords(f: Flow)
    ensures IsLowerWord(FlowName(f))
  {
  }

  lemma ActionNamesAreWords(a: TxAction)
    ensures IsLowerWord(ActionName(a))
  {
    match a
    case Sale =>
    case Purchase =>
    case Spending =>
    case Earning =>
    case Payment =>
    case Transfer =>
    case Other =>
  }

  lemma NamesAreUnderstood(f: Flow, a: TxAction)
    ensures FlowOf(FlowName(f)) == Some(f) && ActionOf(ActionName(a)) == a
  {
    FlowNamesAreWords(f);
    LowerWord(FlowName(f));
    ActionNamesAreWords(a);
    LowerWord(ActionName(a));
  }

  /* ---------- amounts ---------- */

  lemma CentsOfCents(c: int)
    ensures Cents(c as real / 100.0) == c
  {
    assert c as real / 100.0 * 100.0 == c as real;
  }

  lemma RoundedStaysAllowed(v: real)
    requires AmountAllowed(v)
    ensures AmountAllowed(Cents(v) as real / 100.0)
  {
    assert 1.0 <= v * 100.0 <= 99999999999.0;
    assert 1 <= Cents(v) <= 99999999999;
  }

  /* ---------- items ---------- */

  /** An item with its texts cleaned once more, and nothing else touched. */
  function SettledTx(t: Tx): Tx {
    t.(currency := CleanCurrency(t.currency), item := CleanItem(t.item), description := CleanDescription(t.description))
  }

  /** The texts of a validated transaction that another validation leaves alone: no cut left
      whitespace at an end, and the optional text is not blank. */
  predicate TxKept(t: Tx) {
    Ends(t.currency) && t.item != Some("") && (t.item.Some? ==> Ends(t.item.value)) && Ends(t.description)
  }

  lemma TxSettles(r: RawTx, today: int)
    requires ValidateTx(r, today).Ok?
    ensures var t := ValidateTx(r, today).value;
            SettledTx(SettledTx(t)) == SettledTx(t) && (SettledTx(t) == t <==> TxKept(t))
  {
    CurrencySettles(r.currency);
    ItemSettles(r.item);
    DescriptionSettles(r.description);
  }

  lemma TxAgain(r: RawTx, today: int)
    requires ValidateTx(r, today).Ok?
    ensures var t := ValidateTx(r, today).value; ValidateTx(DumpTx(t), today) == Ok(SettledTx(t))
  {
    var t := ValidateTx(r, today).value;
    NamesAreUnderstood(t.flow, t.action);
    CategoryIsSettled(r.category);
    if r.amount.Some? {
      RoundedStaysAllowed(r.amount.value);
      CentsOfCents(t.amount.value);
    }
  }

  lemma StockAgain(r: RawStock)
    requires ValidateStock(r).Ok?
    ensures ValidateStock(DumpStock(ValidateStock(r).value)) == ValidateStock(r)
  {
    LowerStripIsSettled(r.product);
    StripFacts(r.product);
  }

  function SettledDebt(d: Debt): Debt {
    d.(currency := CleanCurrency(d.currency))
  }

  lemma DebtNamesAreUnderstood(a: DebtAction, p: Party)
    ensures DebtActionOf(DebtActionName(a)) == Some(a) && PartyOf(PartyName(p)) == Some(p)
  {
  }

  lemma DebtAgain(r: RawDebt)
    requires ValidateDebt(r).Ok?
    ensures var d := ValidateDebt(r).value;
            && ValidateDebt(DumpDebt(d)) == Ok(SettledDebt(d))
            && SettledDebt(SettledDebt(d)) == SettledDebt(d)
            && (SettledDebt(d) == d <==> Ends(d.currency))
  {
    var d := ValidateDebt(r).value;
    LowerStripIsSettled(r.name);
    StripFacts(r.name);
    CurrencySettles(r.currency);
    DebtNamesAreUnderstood(d.action, d.party);
  }

  function SettledQuery(q: Query): Query {
    q.(currency := CleanQueryCurrency(q.currency))
  }

  lemma QueryCurrencySettles(currency: Option<string>)
    ensures var c := CleanQueryCurrency(currency);
            && CleanQueryCurrency(CleanQueryCurrency(c)) == CleanQueryCurrency(c)
            && (CleanQueryCurrency(c) == c <==> c != Some("") && (c.Some? ==> Ends(c.value)))
  {
    if currency.Some? && currency.value != "" {
      StripFacts(currency.value);
      if Strip(currency.value) != "" {
        CurrencySettles(currency.value);
        var c := CleanCurrency(currency.value);
        UpperKeepsTrimmed(Strip(currency.value));
        CutThenTrimmed(Upper(Strip(currency.value)), 10);
        StripFacts(CleanCurrency(c));
      }
    }
  }

  lemma KindNamesAreWords(k: QueryKind)
    ensures IsLowerWord(KindName(k))
  {
    match k
    case Total =>
    case List =>
    case Balance =>
    case Count =>
    case StockLevel =>
  }

  lemma KindsAreUnderstood(k: QueryKind)
    ensures KindOf(KindName(k)) == k
  {
    KindNamesAreWords(k);
    LowerWord(KindName(k));
  }

  lemma QueryAgain(r: RawQuery)
    requires ValidateQuery(r).Ok?
    ensures var q := ValidateQuery(r).value;
            && ValidateQuery(DumpQuery(q)) == Ok(SettledQuery(q))
            && SettledQuery(SettledQuery(q)) == SettledQuery(q)
            && (SettledQuery(q) == q <==> q.currency != Some("") && (q.currency.Some? ==> Ends(q.currency.value)))
  {
    KindsAreUnderstood(ValidateQuery(r).value.kind);
    QueryCurrencySettles(r.currency);
  }

  /* ---------- lists ---------- */

  lemma {:induction false} AllFacts<R, T>(validate: R -> Checked<T>, items: seq<R>)
    ensures All(validate, items).Ok? <==> forall i :: 0 <= i < |items| ==> validate(items[i]).Ok?
    ensures All(validate, items).Ok? ==>
              && |All(validate, items).value| == |items|
              && forall i :: 0 <= i < |items| ==> validate(items[i]) == Ok(All(validate, items).value[i])
  {
    if items != [] {
      var n := |items| - 1;
      AllFacts(validate, items[..n]);
      assert forall i :: 0 <= i < n ==> items[..n][i] == items[i];
    }
  }

  /** A list whose items, once dumped, all validate to given results. */
  lemma AllOf<R, T>(validate: R -> Checked<T>, items: seq<R>, results: seq<T>)
    requires |items| == |results| && forall i :: 0 <= i < |items| ==> validate(items[i]) == Ok(results[i])
    ensures All(validate, items) == Ok(results)
  {
    AllFacts(validate, items);
    assert All(validate, items).value == results;
  }

  /* ---------- messages ---------- */

  /** A message with the texts of its items cleaned once more: every list keeps its length, and
      every item its action, amount, quantity, product, person and date. */
  function Settled(v: Validated): Validated {
    Validated(Each(SettledTx, v.txs), v.stock, Each(SettledDebt, v.debts),
              match v.query case Some(q) => Some(SettledQuery(q)) case None => None, Each(SettledQuery, v.queries))
  }

  /** A message is folded only once. */
  ghost predicate QueriesFolded(v: Validated) {
    v.query == None <==> v.queries == []
  }

  lemma DumpIsFolded(v: Validated)
    requires QueriesFolded(v)
    ensures Folded(Dump(v)) == Dump(v)
  {
  }

  lemma ValidatedIsFolded(m: RawMessage, today: int)
    requires Validate(m, today).Ok?
    ensures QueriesFolded(Validate(m, today).value)
  {
    AllFacts(ValidateQuery, Folded(m).queries);
  }

  /** The lists of a validated message come item by item from the folded lists. */
  ghost predicate Sources(v: Validated, f: RawMessage, today: int)
    requires f.inventory.Many?
  {
    && |v.txs| == |f.transactions| && (forall i :: 0 <= i < |v.txs| ==> ValidateTx(f.transactions[i], today) == Ok(v.txs[i]))
    && |v.stock| == |f.inventory.values| && (forall i :: 0 <= i < |v.stock| ==> ValidateStock(f.inventory.values[i]) == Ok(v.stock[i]))
    && |v.debts| == |f.debts| && (forall i :: 0 <= i < |v.debts| ==> ValidateDebt(f.debts[i]) == Ok(v.debts[i]))
    && |v.queries| == |f.queries| && (forall i :: 0 <= i < |v.queries| ==> ValidateQuery(f.queries[i]) == Ok(v.queries[i]))
    && (v.query.Some? ==> f.query.Some? && f.query.value.One? && ValidateQuery(f.query.value.value) == Ok(v.query.value))
  }

  lemma ValidatedHasSources(m: RawMessage, today: int)
    requires Validate(m, today).Ok?
    ensures Sources(Validate(m, today).value, Folded(m), today)
  {
    var f := Folded(m);
    AllFacts(TxCheck(today), f.transactions);
    AllFacts(ValidateStock, f.inventory.values);
    AllFacts(ValidateDebt, f.debts);
    AllFacts(ValidateQuery, f.queries);
  }

  lemma TxsAgain(v: Validated, f: RawMessage, today: int)
    requires f.inventory.Many? && Sources(v, f, today)
    ensures All(TxCheck(today), Dump(v).transactions) == Ok(Settled(v).txs)
  {
    forall i | 0 <= i < |v.txs| ensures ValidateTx(Dump(v).transactions[i], today) == Ok(Settled(v).txs[i]) {
      TxAgain(f.transactions[i], today);
    }
    AllOf(TxCheck(today), Dump(v).transactions, Settled(v).txs);
  }

  lemma StocksAgain(v: Validated, f: RawMessage, today: int)
    requires f.inventory.Many? && Sources(v, f, today)
    ensures All(ValidateStock, Dump(v).inventory.values) == Ok(Settled(v).stock)
  {
    forall i | 0 <= i < |v.stock| ensures ValidateStock(Dump(v).inventory.values[i]) == Ok(v.stock[i]) {
      StockAgain(f.inventory.values[i]);
    }
    AllOf(ValidateStock, Dump(v).inventory.values, v.stock);
  }

  lemma DebtsAgain(v: Validated, f: RawMessage, today: int)
    requires f.inventory.Many? && Sources(v, f, today)
    ensures All(ValidateDebt, Dump(v).debts) == Ok(Settled(v).debts)
  {
    forall i | 0 <= i < |v.debts| ensures ValidateDebt(Dump(v).debts[i]) == Ok(Settled(v).debts[i]) {
      DebtAgain(f.debts[i]);
    }
    AllOf(ValidateDebt, Dump(v).debts, Settled(v).debts);
  }

  lemma QueriesAgain(v: Validated, f: RawMessage, today: int)
    requires f.inventory.Many? && Sources(v, f, today)
    ensures All(ValidateQuery, Dump(v).queries) == Ok(Settled(v).queries)
    ensures ValidateOne(Dump(v).query) == Ok(Settled(v).query)
  {
    forall i | 0 <= i < |v.queries| ensures ValidateQuery(Dump(v).queries[i]) == Ok(Settled(v).queries[i]) {
      QueryAgain(f.queries[i]);
    }
    AllOf(ValidateQuery, Dump(v).queries, Settled(v).queries);
    if v.query.Some? {
      QueryAgain(f.query.value.value);
    }
  }

  lemma DumpValidates(v: Validated, f: RawMessage, today: int)
    requires f.inventory.Many? && Sources(v, f, today) && QueriesFolded(v)
    ensures Validate(Dump(v), today) == Ok(Settled(v))
  {
    DumpIsFolded(v);
    TxsAgain(v, f, today);
    StocksAgain(v, f, today);
    DebtsAgain(v, f, today);
    QueriesAgain(v, f, today);
  }

  predicate QueryKept(q: Query) {
    q.currency != Some("") && (q.currency.Some? ==> Ends(q.currency.value))
  }

  predicate DebtKept(d: Debt) {
    Ends(d.currency)
  }

  predicate TextsKept(v: Validated) {
    && (forall i :: 0 <= i < |v.txs| ==> TxKept(v.txs[i]))
    && (forall i :: 0 <= i < |v.debts| ==> DebtKept(v.debts[i]))
    && (forall i :: 0 <= i < |v.queries| ==> QueryKept(v.queries[i]))
    && (v.query.Some? ==> QueryKept(v.query.value))
  }

  /** A change that, made twice, is made once, on each item of a list. */
  lemma EachSettles<A>(f: A -> A, kept: A -> bool, items: seq<A>)
    requires forall i :: 0 <= i < |items| ==> f(f(items[i])) == f(items[i]) && (f(items[i]) == items[i] <==> kept(items[i]))
    ensures Each(f, Each(f, items)) == Each(f, items)
    ensures Each(f, items) == items <==> forall i :: 0 <= i < |items| ==> kept(items[i])
  {
    if forall i :: 0 <= i < |items| ==> kept(items[i]) {
      assert Each(f, items) == items;
    } else {
      var i :| 0 <= i < |items| && !kept(items[i]);
      assert Each(f, items)[i] != items[i];
    }
  }

  lemma SettledFacts(v: Validated, f: RawMessage, today: int)
    requires f.inventory.Many? && Sources(v, f, today)
    ensures Settled(Settled(v)) == Settled(v)
    ensures Settled(v) == v <==> TextsKept(v)
  {
    forall i | 0 <= i < |v.txs|
      ensures SettledTx(SettledTx(v.txs[i])) == SettledTx(v.txs[i]) && (SettledTx(v.txs[i]) == v.txs[i] <==> TxKept(v.txs[i]))
    {
      TxSettles(f.transactions[i], today);
    }
    EachSettles(SettledTx, TxKept, v.txs);
    forall i | 0 <= i < |v.debts|
      ensures SettledDebt(SettledDebt(v.debts[i])) == SettledDebt(v.debts[i]) && (SettledDebt(v.debts[i]) == v.debts[i] <==> DebtKept(v.debts[i]))
    {
      DebtAgain(f.debts[i]);
    }
    EachSettles(SettledDebt, DebtKept, v.debts);
    forall i | 0 <= i < |v.queries|
      ensures SettledQuery(SettledQuery(v.queries[i])) == SettledQuery(v.queries[i]) && (SettledQuery(v.queries[i]) == v.queries[i] <==> QueryKept(v.queries[i]))
    {
      QueryAgain(f.queries[i]);
    }
    EachSettles(SettledQuery, QueryKept, v.queries);
    if v.query.Some? {
      QueryAgain(f.query.value.value);
    }
  }

  /** What was confirmed is what is published and what the ledger receives: on the day of the
      parse, the second validation of a message changes nothing but texts, and it changes none
      exactly when no cut left whitespace at an end and no optional text is blank; and whatever
      the second validation gives, the third gives again. */
  lemma ValidationsAgree(m: RawMessage, today: int)
    requires Validate(m, today).Ok?
    ensures var v := Validate(m, today).value;
            && Validate(Dump(v), today) == Ok(Settled(v))
            && Validate(Dump(Settled(v)), today) == Ok(Settled(v))
            && (Settled(v) == v <==> TextsKept(v))
  {
    var v := Validate(m, today).value;
    ValidatedHasSources(m, today);
    ValidatedIsFolded(m, today);
    DumpValidates(v, Folded(m), today);
    SettledFacts(v, Folded(m), today);
    ValidatedHasSources(Dump(v), today);
    ValidatedIsFolded(Dump(v), today);
    DumpValidates(Settled(v), Folded(Dump(v)), today);
  }

  /** A currency of eleven characters with a space as the tenth is confirmed with the space and
      committed without it. */
  lemma CutCurrencyChanges()
    ensures exists s :: CleanCurrency(CleanCurrency(s)) != CleanCurrency(s)
  {
    var s := "ABCDEFGHI J";
    StripFacts(s);
    assert Upper(s) == s;
    assert CleanCurrency(s) == "ABCDEFGHI ";
    CurrencySettles(s);
  }
}
