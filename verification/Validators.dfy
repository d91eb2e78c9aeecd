/** The validation of a parsed message. It is applied three times: to what the parser returns,
    to the stored row when it is published, and to the event when the ledger receives it. */
module Validators {
  import opened Common
  import opened Text
  import opened LedgerBooks

  datatype Checked<T> = Ok(value: T) | Invalid

  /* ---------- texts ---------- */

  function UpperChar(c: char): char {
    if 'a' <= c <= 'z' then c - 'a' + 'A' else c
  }

  function Upper(s: string): (r: string)
    ensures |r| == |s|
    ensures forall i :: 0 <= i < |s| ==> r[i] == UpperChar(s[i])
  {
    seq(|s|, i requires 0 <= i < |s| => UpperChar(s[i]))
  }

  function Cut(s: string, n: nat): string {
    if |s| <= n then s else s[..n]
  }

  function CleanCurrency(s: string): string {
    if Strip(s) == "" then "NGN" else Cut(Upper(Strip(s)), 10)
  }

  function CleanItem(item: Option<string>): Option<string> {
    match item
    case Some(s) => if s == "" then None else Some(Cut(Strip(s), 255))
    case None => None
  }

  function CleanDescription(s: string): string {
    if s == "" then "" else Cut(Strip(s), 255)
  }

  function CleanCategory(s: string): string {
    if Strip(s) == "" then "Miscellaneous" else Strip(s)
  }

  /* ---------- numbers ---------- */

  /** round(v, 2) in hundredths: to the nearest, and from the middle to the even one. */
  function Cents(v: real): int {
    var low := (v * 100.0).Floor;
    var rest := v * 100.0 - low as real;
    if rest < 0.5 || (rest == 0.5 && low % 2 == 0) then low else low + 1
  }

  predicate AmountAllowed(v: real) {
    0.01 <= v <= 999999999.99
  }

  /* ---------- items ---------- */

  /** A date as text: absent, in the wrong format, or a day. */
  datatype RawDate = NoDate | BadDate | Day(day: int)

  datatype RawTx = RawTx(flow: string, action: string, amount: Option<real>, currency: string,
                         item: Option<string>, category: string, description: string, date: RawDate)
  datatype Tx = Tx(flow: Flow, action: TxAction, amount: Option<int>, currency: string,
                   item: Option<string>, category: string, description: string, day: int)

  datatype RawStock = RawStock(action: string, product: string, quantity: real, unit: Option<string>)
  datatype Stock = Stock(action: StockAction, product: string, quantity: real, unit: Option<string>)

  datatype RawDebt = RawDebt(action: string, name: string, party: string, amount: Option<real>, currency: string)
  datatype Debt = Debt(action: DebtAction, name: string, party: Party, amount: Option<real>, currency: string)

  function FlowName(f: Flow): string {
    match f case Income => "income" case Expense => "expense"
  }

  function FlowOf(s: string): Option<Flow> {
    var t := Strip(Lower(s));
    if t == "income" then Some(Income) else if t == "expense" then Some(Expense) else None
  }

  function ActionName(a: TxAction): string {
    match a
    case Sale => "sale" case Purchase => "purchase" case Spending => "expense" case Earning => "income"
    case Payment => "payment" case Transfer => "transfer" case Other => "other"
  }

  /** Unknown actions become the default. */
  function ActionOf(s: string): TxAction {
    var t := Strip(Lower(s));
    if t == "sale" then Sale else if t == "purchase" then Purchase else if t == "expense" then Spending
    else if t == "income" then Earning else if t == "payment" then Payment else if t == "transfer" then Transfer
    else Other
  }

  /** The date in place: today when absent; a year back at the most, and not in the future. */
  function DayOf(d: RawDate, today: int): Option<int> {
    match d
    case NoDate => Some(today)
    case BadDate => None
    case Day(day) => if today - 365 <= day <= today then Some(day) else None
  }

  function ValidateTx(r: RawTx, today: int): Checked<Tx> {
    var flow, day := FlowOf(r.flow), DayOf(r.date, today);
    if flow.None? || day.None? || (r.amount.Some? && !AmountAllowed(r.amount.value)) then Invalid
    else
      var amount := match r.amount case Some(v) => Some(Cents(v)) case None => None;
      Ok(Tx(flow.value, ActionOf(r.action), amount, CleanCurrency(r.currency), CleanItem(r.item),
            CleanCategory(r.category), CleanDescription(r.description), day.value))
  }

  function DumpTx(t: Tx): RawTx {
    var amount := match t.amount case Some(c) => Some(c as real / 100.0) case None => None;
    RawTx(FlowName(t.flow), ActionName(t.action), amount, t.currency, t.item, t.category, t.description, Day(t.day))
  }

  function StockActionName(a: StockAction): string {
    match a case Add => "ADD" case Remove => "REMOVE" case Set => "SET"
  }

  function StockActionOf(s: string): Option<StockAction> {
    if s == "ADD" then Some(Add) else if s == "REMOVE" then Some(Remove) else if s == "SET" then Some(Set) else None
  }

  function ValidateStock(r: RawStock): Checked<Stock> {
    var action := StockActionOf(r.action);
    if action.None? || Strip(r.product) == "" || r.quantity < 0.0 then Invalid
    else Ok(Stock(action.value, Lower(Strip(r.product)), r.quantity, r.unit))
  }

  function DumpStock(s: Stock): RawStock {
    RawStock(StockActionName(s.action), s.product, s.quantity, s.unit)
  }

  function DebtActionName(a: DebtAction): string {
    match a case AddDebt => "add_debt" case Repayment => "repayment" case FullPayment => "full_payment"
  }

  function DebtActionOf(s: string): Option<DebtAction> {
    if s == "add_debt" then Some(AddDebt) else if s == "repayment" then Some(Repayment)
    else if s == "full_payment" then Some(FullPayment) else None
  }

  function PartyName(p: Party): string {
    match p case Customer => "customer_debt" case Supplier => "supplier_debt"
  }

  function PartyOf(s: string): Option<Party> {
    if s == "customer_debt" then Some(Customer) else if s == "supplier_debt" then Some(Supplier) else None
  }

  function ValidateDebt(r: RawDebt): Checked<Debt> {
    var action, party := DebtActionOf(r.action), PartyOf(r.party);
    if action.None? || party.None? || Strip(r.name) == "" || (r.amount.Some? && r.amount.value <= 0.0) then Invalid
    else Ok(Debt(action.value, Lower(Strip(r.name)), party.value, r.amount, CleanCurrency(r.currency)))
  }

  function DumpDebt(d: Debt): RawDebt {
    RawDebt(DebtActionName(d.action), d.name, PartyName(d.party), d.amount, d.currency)
  }

  datatype QueryKind = Total | List | Balance | Count | StockLevel

  datatype RawQuery = RawQuery(kind: string, flow: Option<string>, category: Option<string>, currency: Option<string>,
                               start: RawDate, end: RawDate)
  datatype Query = Query(kind: QueryKind, flow: Option<Flow>, category: Option<string>, currency: Option<string>,
                         start: Option<int>, end: Option<int>)

  function KindName(k: QueryKind): string {
    match k case Total => "sum" case List => "list" case Balance => "balance" case Count => "count" case StockLevel => "stock"
  }

  /** Unknown kinds become the default. */
  function KindOf(s: string): QueryKind {
    var t := Strip(Lower(s));
    if t == "list" then List else if t == "balance" then Balance else if t == "count" then Count
    else if t == "stock" then StockLevel else Total
  }

  function CleanQueryCurrency(currency: Option<string>): Option<string> {
    match currency
    case Some(s) => if s == "" then None else Some(Cut(Upper(Strip(s)), 10))
    case None => None
  }

  /** A bound of the period; one that is not a date is dropped. */
  function Bound(d: RawDate): Option<int> {
    match d case Day(day) => Some(day) case NoDate => None case BadDate => None
  }

  function ValidateQuery(r: RawQuery): Checked<Query> {
    if r.flow.Some? && r.flow.value != "income" && r.flow.value != "expense" then Invalid
    else
      var flow := match r.flow case Some(f) => Some(if f == "income" then Income else Expense) case None => None;
      Ok(Query(KindOf(r.kind), flow, r.category, CleanQueryCurrency(r.currency), Bound(r.start), Bound(r.end)))
  }

  function DumpBound(b: Option<int>): RawDate {
    match b case Some(day) => Day(day) case None => NoDate
  }

  function DumpQuery(q: Query): RawQuery {
    RawQuery(KindName(q.kind), match q.flow case Some(f) => Some(FlowName(f)) case None => None, q.category, q.currency,
             DumpBound(q.start), DumpBound(q.end))
  }

  /* ---------- messages ---------- */

  datatype OneOrMany<T> = One(value: T) | Many(values: seq<T>)

  /** A message as parsed: the older keys hold one transaction, one debt, one movement or one
      query. */
  datatype RawMessage = RawMessage(transaction: Option<RawTx>, transactions: seq<RawTx>, debt: Option<RawDebt>, debts: seq<RawDebt>,
                                   inventory: OneOrMany<RawStock>, query: Option<OneOrMany<RawQuery>>, queries: seq<RawQuery>)

  /** A validated message: the first query is kept beside the list of all. */
  datatype Validated = Validated(txs: seq<Tx>, stock: seq<Stock>, debts: seq<Debt>, query: Option<Query>, queries: seq<Query>)

  /** A single transaction, debt, movement or query becomes a list of one; a list that is there
      already wins. */
  function Folded(m: RawMessage): (f: RawMessage)
    ensures f.transaction == None && f.debt == None && f.inventory.Many?
  {
    var queries := if m.queries != [] || m.query == None then m.queries
                   else match m.query.value case One(q) => [q] case Many(qs) => qs;
    var query := if m.queries == [] then (if queries == [] then None else Some(One(queries[0])))
                 else if m.query == None || m.query == Some(Many([])) then Some(One(m.queries[0]))
                 else m.query;
    RawMessage(None,
               if m.transaction.Some? && m.transactions == [] then [m.transaction.value] else m.transactions,
               None,
               if m.debt.Some? && m.debts == [] then [m.debt.value] else m.debts,
               Many(match m.inventory case One(v) => [v] case Many(vs) => vs),
               query, queries)
  }

  /** All the items of a list, or nothing if one of them is invalid. */
  function All<R, T>(validate: R -> Checked<T>, items: seq<R>): Checked<seq<T>> {
    if items == [] then Ok([])
    else
      var front, last := All(validate, items[..|items| - 1]), validate(items[|items| - 1]);
      if front.Ok? && last.Ok? then Ok(front.value + [last.value]) else Invalid
  }

  function TxCheck(today: int): RawTx -> Checked<Tx> {
    (r: RawTx) => ValidateTx(r, today)
  }

  function ValidateOne(query: Option<OneOrMany<RawQuery>>): Checked<Option<Query>> {
    match query
    case None => Ok(None)
    case Some(Many(_)) => Invalid
    case Some(One(r)) => var q := ValidateQuery(r); if q.Ok? then Ok(Some(q.value)) else Invalid
  }

  function Validate(m: RawMessage, today: int): Checked<Validated> {
    var f := Folded(m);
    var txs, stock, debts := All(TxCheck(today), f.transactions), All(ValidateStock, f.inventory.values), All(ValidateDebt, f.debts);
    var query, queries := ValidateOne(f.query), All(ValidateQuery, f.queries);
    if txs.Ok? && stock.Ok? && debts.Ok? && query.Ok? && queries.Ok?
    then Ok(Validated(txs.value, stock.value, debts.value, query.value, queries.value)) else Invalid
  }

  function Dump(v: Validated): RawMessage {
    RawMessage(None, Each(DumpTx, v.txs), None, Each(DumpDebt, v.debts), Many(Each(DumpStock, v.stock)),
               match v.query case Some(q) => Some(One(DumpQuery(q))) case None => None, Each(DumpQuery, v.queries))
  }
}
