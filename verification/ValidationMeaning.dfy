/** What a validated item tells of the text it comes from: which texts are accepted, and what each
    field then holds. */
module ValidationMeaning {
  import opened Common
  import opened Text
  import opened LedgerBooks
  import opened Validators

  /* ---------- numbers and texts ---------- */

  /** An amount in hundredths is the nearest one, and from the middle between two the even one. */
  lemma CentsAreNearest(v: real)
    ensures -0.5 <= 100.0 * v - Cents(v) as real <= 0.5
    ensures 100.0 * v - Cents(v) as real == 0.5 || 100.0 * v - Cents(v) as real == -0.5 ==> Cents(v) % 2 == 0
  {
    var low := (v * 100.0).Floor;
    assert low as real <= v * 100.0 < low as real + 1.0;
  }

  /** A text that is a given word, but for case and surrounding whitespace. */
  predicate IsWordFor(text: string, word: string) {
    SameLetters(Strip(text), word)
  }

  lemma LowerIsWord(text: string, word: string)
    requires Lower(word) == word
    ensures Strip(Lower(text)) == word <==> IsWordFor(text, word)
  {
    StripOfLower(text);
    LowerForgetsCase(Strip(text), word);
  }

  predicate NoCapitals(s: string) {
    forall i :: 0 <= i < |s| ==> !('A' <= s[i] <= 'Z')
  }

  predicate NoSmallLetters(s: string) {
    forall i :: 0 <= i < |s| ==> !('a' <= s[i] <= 'z')
  }

  /** A name as it is kept: trimmed, in small letters. */
  predicate IsName(name: string, text: string) {
    IsWordFor(text, name) && NoCapitals(name)
  }

  lemma LowerIsName(text: string)
    ensures IsName(Lower(Strip(text)), text)
  {
    LetterCases(Strip(text));
  }

  lemma LetterCases(s: string)
    ensures SameLetters(s, Lower(s)) && NoCapitals(Lower(s)) && SameLetters(s, Upper(s)) && NoSmallLetters(Upper(s))
  {
  }

  /** A text cut to its maximum length. */
  predicate IsCut(cut: string, text: string, n: nat) {
    cut <= text && |cut| == if |text| < n then |text| else n
  }

  /** A currency as it is kept: the first ten letters of the trimmed text in capitals, or naira for
      a blank one. */
  predicate IsCurrency(c: string, text: string) {
    if Strip(text) == "" then c == "NGN"
    else NoSmallLetters(c) && |c| <= |Strip(text)| && IsCut(Strip(text)[..|c|], Strip(text), 10) && SameLetters(c, Strip(text)[..|c|])
  }

  lemma CleanIsCurrency(text: string)
    ensures IsCurrency(CleanCurrency(text), text)
  {
    LetterCases(Strip(text));
  }

  /* ---------- transactions ---------- */

  predicate InTime(d: RawDate, today: int) {
    d.NoDate? || (d.Day? && today - 365 <= d.day <= today)
  }

  predicate InRange(amount: Option<real>) {
    amount.Some? ==> 0.01 <= amount.value <= 999999999.99
  }

  lemma FlowIsWord(text: string)
    ensures FlowOf(text) == Some(Income) <==> IsWordFor(text, "income")
    ensures FlowOf(text) == Some(Expense) <==> IsWordFor(text, "expense")
  {
    LowerIsWord(text, "income");
    LowerIsWord(text, "expense");
  }

  lemma ActionIsWord(text: string)
    ensures ActionOf(text) == Sale <==> IsWordFor(text, "sale")
    ensures ActionOf(text) == Purchase <==> IsWordFor(text, "purchase")
    ensures ActionOf(text) == Spending <==> IsWordFor(text, "expense")
    ensures ActionOf(text) == Earning <==> IsWordFor(text, "income")
  {
    LowerIsWord(text, "sale");
    LowerIsWord(text, "purchase");
    LowerIsWord(text, "expense");
    LowerIsWord(text, "income");
  }

  lemma OtherActionIsWord(text: string)
    ensures ActionOf(text) == Payment <==> IsWordFor(text, "payment")
    ensures ActionOf(text) == Transfer <==> IsWordFor(text, "transfer")
  {
    LowerIsWord(text, "payment");
    LowerIsWord(text, "transfer");
  }

  /** A transaction is accepted exactly when it says income or expense, its date is in the last year
      or absent, and its amount is absent or in range. */
  lemma TxAcceptedIff(r: RawTx, today: int)
    ensures ValidateTx(r, today).Ok?
            <==> (IsWordFor(r.flow, "income") || IsWordFor(r.flow, "expense")) && InTime(r.date, today) && InRange(r.amount)
  {
    FlowIsWord(r.flow);
  }

  /** What an accepted transaction holds. */
  lemma TxTells(r: RawTx, today: int)
    requires ValidateTx(r, today).Ok?
    ensures var t := ValidateTx(r, today).value;
            && (t.flow == Income <==> IsWordFor(r.flow, "income"))
            && (t.action == Sale <==> IsWordFor(r.action, "sale")) && (t.action == Purchase <==> IsWordFor(r.action, "purchase"))
            && (t.action == Spending <==> IsWordFor(r.action, "expense")) && (t.action == Earning <==> IsWordFor(r.action, "income"))
            && (t.action == Payment <==> IsWordFor(r.action, "payment")) && (t.action == Transfer <==> IsWordFor(r.action, "transfer"))
            && t.day == (if r.date.Day? then r.date.day else today)
            && (t.amount.Some? <==> r.amount.Some?)
            && (t.amount.Some? ==> -0.5 <= 100.0 * r.amount.value - t.amount.value as real <= 0.5)
            && IsCurrency(t.currency, r.currency)
  {
    FlowIsWord(r.flow);
    ActionIsWord(r.action);
    OtherActionIsWord(r.action);
    CleanIsCurrency(r.currency);
    if r.amount.Some? {
      CentsAreNearest(r.amount.value);
    }
  }

  lemma TxTextsTell(r: RawTx, today: int)
    requires ValidateTx(r, today).Ok?
    ensures var t := ValidateTx(r, today).value;
            && (t.item.Some? <==> r.item.Some? && r.item.value != "")
            && (t.item.Some? ==> IsCut(t.item.value, Strip(r.item.value), 255))
            && t.category == (if Strip(r.category) == "" then "Miscellaneous" else Strip(r.category))
            && IsCut(t.description, Strip(r.description), 255)
  {
    StripFacts(r.description);
  }

  /* ---------- stock and debts ---------- */

  /** A stock entry is accepted exactly when its action is one of three words in capitals, it names a
      product, and its quantity is not negative; it then holds just these. */
  lemma StockTells(r: RawStock)
    ensures ValidateStock(r).Ok? <==> r.action in {"ADD", "REMOVE", "SET"} && Strip(r.product) != "" && 0.0 <= r.quantity
    ensures ValidateStock(r).Ok? ==>
              var s := ValidateStock(r).value;
              && (s.action == Add <==> r.action == "ADD") && (s.action == Remove <==> r.action == "REMOVE")
              && IsName(s.product, r.product) && s.quantity == r.quantity && s.unit == r.unit
  {
    LowerIsName(r.product);
  }

  /** A debt is accepted exactly when action and party are known words, it names a person, and its
      amount is absent or positive; it then holds just these. */
  lemma DebtTells(r: RawDebt)
    ensures ValidateDebt(r).Ok?
            <==> r.action in {"add_debt", "repayment", "full_payment"} && r.party in {"customer_debt", "supplier_debt"}
                 && Strip(r.name) != "" && (r.amount.Some? ==> 0.0 < r.amount.value)
    ensures ValidateDebt(r).Ok? ==>
              var d := ValidateDebt(r).value;
              && (d.action == AddDebt <==> r.action == "add_debt") && (d.action == Repayment <==> r.action == "repayment")
              && (d.party == Customer <==> r.party == "customer_debt")
              && IsName(d.name, r.name) && d.amount == r.amount && IsCurrency(d.currency, r.currency)
  {
    LowerIsName(r.name);
    CleanIsCurrency(r.currency);
  }

  /* ---------- queries ---------- */

  lemma KindIsWord(text: string)
    ensures KindOf(text) == List <==> IsWordFor(text, "list")
    ensures KindOf(text) == Balance <==> IsWordFor(text, "balance")
    ensures KindOf(text) == Count <==> IsWordFor(text, "count")
    ensures KindOf(text) == StockLevel <==> IsWordFor(text, "stock")
  {
    LowerIsWord(text, "list");
    LowerIsWord(text, "balance");
    LowerIsWord(text, "count");
    LowerIsWord(text, "stock");
  }

  /** A query is refused exactly when it names a type that is neither income nor expense; bounds that
      are no dates are dropped. */
  lemma QueryTells(r: RawQuery)
    ensures ValidateQuery(r).Ok? <==> r.flow.None? || r.flow.value in {"income", "expense"}
    ensures ValidateQuery(r).Ok? ==>
              var q := ValidateQuery(r).value;
              && (q.kind == List <==> IsWordFor(r.kind, "list")) && (q.kind == Balance <==> IsWordFor(r.kind, "balance"))
              && (q.kind == Count <==> IsWordFor(r.kind, "count")) && (q.kind == StockLevel <==> IsWordFor(r.kind, "stock"))
              && (q.flow == Some(Income) <==> r.flow == Some("income")) && (q.flow == Some(Expense) <==> r.flow == Some("expense"))
              && q.category == r.category
              && q.start == (if r.start.Day? then Some(r.start.day) else None) && q.end == (if r.end.Day? then Some(r.end.day) else None)
  {
    KindIsWord(r.kind);
  }

  /* ---------- messages ---------- */

  /** Folding loses nothing: a single transaction, debt or query stands when the list has none, and
      otherwise the list stands as it is. */
  lemma FoldedHolds(m: RawMessage)
    ensures Folded(m).transactions == (if m.transactions == [] && m.transaction.Some? then [m.transaction.value] else m.transactions)
    ensures Folded(m).debts == (if m.debts == [] && m.debt.Some? then [m.debt.value] else m.debts)
    ensures Folded(m).inventory == Many(match m.inventory case One(v) => [v] case Many(vs) => vs)
    ensures m.queries != [] || m.query.None? ==> Folded(m).queries == m.queries
    ensures m.queries == [] && m.query.Some? ==> Folded(m).queries == match m.query.value case One(q) => [q] case Many(qs) => qs
  {
  }
}
