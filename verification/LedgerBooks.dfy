/** The tables the ledger agent writes for one merchant, and the effect of one entry on them.
    Money is in kobo and stock in hundredths of a unit. */
module LedgerBooks {
  import opened Common
  import opened EventKeys
  import Text
  import ItemResolver

  /* ---------- entries, as validated ---------- */

  datatype Flow = Income | Expense
  datatype TxAction = Sale | Purchase | Spending | Earning | Payment | Transfer | Other
  datatype StockAction = Add | Remove | Set
  datatype Party = Customer | Supplier
  datatype DebtAction = AddDebt | Repayment | FullPayment

  datatype Entry =
    | TxEntry(flow: Flow, action: TxAction, amount: Option<int>, currency: string, date: int)
    | StockEntry(stockAction: StockAction, product: string, quantity: int)
    | DebtEntry(party: Party, debtAction: DebtAction, person: string, debtAmount: Option<int>, debtCurrency: string)

  /* ---------- table rows ---------- */

  datatype TxRow = TxRow(key: string, flow: Flow, action: TxAction, amount: int, currency: string, date: int)

  datatype MovementKind = StockIn | StockOut | Adjustment
  datatype MovementRow = MovementRow(key: string, item: nat, kind: MovementKind, quantity: int)

  datatype ProductRow = ProductRow(name: string, quantity: int)

  datatype LegacyKind = In | Out | SetTo
  datatype StockMoveRow = StockMoveRow(key: string, product: nat, kind: LegacyKind, quantity: int)

  datatype Book = Receivable | Payable
  datatype Account = Account(person: string, currency: string)
  datatype BalanceRow = BalanceRow(book: Book, outstanding: int)
  datatype DebtLogRow = DebtLogRow(key: string, account: Account, book: Book, action: DebtAction,
                                   amount: int, previous: int, next: int)
  datatype DebtEntryRow = DebtEntryRow(key: string, account: Account, book: Book, amount: int)

  /** All tables. An inventory item or a product is identified by its position in its table. */
  datatype Books = Books(
    transactions: seq<TxRow>, records: seq<int>,
    items: seq<string>, movements: seq<MovementRow>,
    products: seq<ProductRow>, stockMoves: seq<StockMoveRow>,
    balances: map<Account, BalanceRow>, debtLogs: seq<DebtLogRow>, debtEntries: seq<DebtEntryRow>,
    processed: set<EventId>)

  const EMPTY := Books([], [], [], [], [], [], map[], [], [], {})

  datatype Table = Transactions | Movements | StockMoves | DebtEntries | DebtLogs

  /** The keys present in one table's UNIQUE event_id column. */
  function Keys(b: Books, table: Table): seq<string> {
    match table
    case Transactions => seq(|b.transactions|, i requires 0 <= i < |b.transactions| => b.transactions[i].key)
    case Movements => seq(|b.movements|, i requires 0 <= i < |b.movements| => b.movements[i].key)
    case StockMoves => seq(|b.stockMoves|, i requires 0 <= i < |b.stockMoves| => b.stockMoves[i].key)
    case DebtEntries => seq(|b.debtEntries|, i requires 0 <= i < |b.debtEntries| => b.debtEntries[i].key)
    case DebtLogs => seq(|b.debtLogs|, i requires 0 <= i < |b.debtLogs| => b.debtLogs[i].key)
  }

  /* ---------- reading ---------- */

  function Signed(m: MovementRow): int {
    if m.kind == StockOut then -m.quantity else m.quantity
  }

  /** The stock level of an item: the signed sum over its movements. */
  function Level(movements: seq<MovementRow>, item: nat): int {
    if movements == [] then 0
    else
      var m := movements[|movements| - 1];
      Level(movements[..|movements| - 1], item) + if m.item == item then Signed(m) else 0
  }

  /** The position of the first row with a given name, as SELECT ... LIMIT 1. */
  function Find(names: seq<string>, name: string): (r: Option<nat>)
    ensures r.Some? ==> r.value < |names| && names[r.value] == name
    ensures r.None? ==> name !in names
  {
    if names == [] then None
    else if names[0] == name then Some(0)
    else match Find(names[1..], name) case Some(i) => Some(i + 1) case None => None
  }

  function ProductNames(b: Books): (r: seq<string>)
    ensures |r| == |b.products|
    ensures forall i :: 0 <= i < |r| ==> r[i] == b.products[i].name
  {
    seq(|b.products|, i requires 0 <= i < |b.products| => b.products[i].name)
  }

  function Outstanding(b: Books, a: Account): int {
    if a in b.balances then b.balances[a].outstanding else 0
  }

  /* ---------- writing ---------- */

  datatype Outcome = Applied(books: Books) | Clarify | Failed

  /** int(amount): whole naira, truncated towards zero. */
  function WholeNaira(kobo: int): int {
    if kobo >= 0 then kobo / 100 else -((-kobo) / 100)
  }

  function ApplyTx(b: Books, key: string, e: Entry): Outcome
    requires e.TxEntry?
  {
    if e.amount.None? || key in Keys(b, Transactions) then Failed
    else
      var amount := e.amount.value;
      Applied(b.(transactions := b.transactions + [TxRow(key, e.flow, e.action, amount, e.currency, e.date)],
                 records := b.records + [WholeNaira(amount)]))
  }

  /** The new level and the movement row of a stock entry. */
  function NewLevel(current: int, action: StockAction, quantity: int): int {
    match action
    case Add => current + quantity
    case Remove => current - quantity
    case Set => quantity
  }

  function MovementFor(key: string, item: nat, current: int, action: StockAction, quantity: int): MovementRow {
    match action
    case Add => MovementRow(key, item, StockIn, quantity)
    case Remove => MovementRow(key, item, StockOut, quantity)
    case Set => MovementRow(key, item, Adjustment, quantity - current)
  }

  function LegacyAction(action: StockAction): LegacyKind {
    match action case Add => In case Remove => Out case Set => SetTo
  }

  /** The item's row, created when missing. */
  function EnsureItem(b: Books, name: string): (Books, nat) {
    match Find(b.items, name)
    case Some(i) => (b, i)
    case None => (b.(items := b.items + [name]), |b.items|)
  }

  /** The product's row with its new quantity, created when missing. */
  function SetProduct(b: Books, name: string, quantity: int): (Books, nat) {
    match Find(ProductNames(b), name)
    case Some(i) => (b.(products := b.products[i := ProductRow(name, quantity)]), i)
    case None => (b.(products := b.products + [ProductRow(name, quantity)]), |b.products|)
  }

  /** How a typed product name is matched to a stored one. */
  type Resolver = string -> ItemResolver.Resolution

  /** The resolver of a transaction: it reads the committed tables, not those of the open
      transaction. */
  function ResolverOf(committed: Books): Resolver {
    product => ItemResolver.ResolveItem(ItemResolver.Gathered(committed.items, ProductNames(committed)), product)
  }

  function ApplyStock(resolve: Resolver, b: Books, key: string, e: Entry): Outcome
    requires e.StockEntry?
  {
    if e.product == "" then Failed
    else
      match resolve(e.product)
      case ClarificationNeeded(_) => Clarify
      case Matched(c) => MoveStock(b, key, c.name, e)
      case NoMatch => MoveStock(b, key, e.product, e)
  }

  function MoveStock(b: Books, key: string, name: string, e: Entry): Outcome
    requires e.StockEntry?
  {
    if key in Keys(b, Movements) || key in Keys(b, StockMoves) then Failed
    else
      var (b1, item) := EnsureItem(b, name);
      var current := Level(b1.movements, item);
      var b2 := b1.(movements := b1.movements + [MovementFor(key, item, current, e.stockAction, e.quantity)]);
      var (b3, product) := SetProduct(b2, name, NewLevel(current, e.stockAction, e.quantity));
      Applied(b3.(stockMoves := b3.stockMoves + [StockMoveRow(key, product, LegacyAction(e.stockAction), e.quantity)]))
  }

  function BookOf(party: Party): Book {
    if party == Customer then Receivable else Payable
  }

  /** The side a debt entry is written on: additions on the party's own side, payments on the
      opposite side. */
  function EntryBook(party: Party, action: DebtAction): Book {
    if party == Customer then (if action == AddDebt then Receivable else Payable)
    else (if action == AddDebt then Payable else Receivable)
  }

  function AccountOf(e: Entry): Account
    requires e.DebtEntry?
  {
    Account(Text.Strip(Text.Lower(e.person)), if e.debtCurrency == "" then "NGN" else e.debtCurrency)
  }

  function DebtAmount(e: Entry, previous: int): int
    requires e.DebtEntry?
  {
    if e.debtAction == FullPayment then previous
    else match e.debtAmount case Some(a) => a case None => 0
  }

  function NewBalance(action: DebtAction, previous: int, amount: int): int {
    match action
    case AddDebt => previous + amount
    case Repayment => previous - amount
    case FullPayment => 0
  }

  function ApplyDebt(b: Books, key: string, e: Entry, today: int): Outcome
    requires e.DebtEntry?
  {
    if e.person == "" then Failed
    else if key in Keys(b, DebtEntries) || key in Keys(b, Transactions) || key in Keys(b, DebtLogs) then Failed
    else
      var a := AccountOf(e);
      var previous := Outstanding(b, a);
      var book := if a in b.balances then b.balances[a].book else BookOf(e.party);
      var amount := DebtAmount(e, previous);
      var next := NewBalance(e.debtAction, previous, amount);
      var flow := if e.party == Customer then Income else Expense;
      var action := if e.debtAction == AddDebt then Sale else Payment;
      Applied(b.(debtEntries := b.debtEntries + [DebtEntryRow(key, a, EntryBook(e.party, e.debtAction), amount)],
                 transactions := b.transactions + [TxRow(key, flow, action, amount, a.currency, today)],
                 balances := b.balances[a := BalanceRow(book, next)],
                 debtLogs := b.debtLogs + [DebtLogRow(key, a, book, e.debtAction, amount, previous, next)]))
  }

  /* ---------- a whole message ---------- */

  datatype KeyedEntry = KeyedEntry(key: string, entry: Entry)

  function ApplyEntry(resolve: Resolver, b: Books, k: KeyedEntry, today: int): Outcome {
    match k.entry
    case TxEntry(_, _, _, _, _) => ApplyTx(b, k.key, k.entry)
    case StockEntry(_, _, _) => ApplyStock(resolve, b, k.key, k.entry)
    case DebtEntry(_, _, _, _, _) => ApplyDebt(b, k.key, k.entry, today)
  }

  /** Entries in order, stopping at the first that fails or needs clarification. */
  function ApplyAll(resolve: Resolver, b: Books, ks: seq<KeyedEntry>, today: int): Outcome {
    if ks == [] then Applied(b)
    else
      match ApplyAll(resolve, b, ks[..|ks| - 1], today)
      case Applied(b') => ApplyEntry(resolve, b', ks[|ks| - 1], today)
      case Clarify => Clarify
      case Failed => Failed
  }

  /** A parsed message: three lists of entries. */
  datatype Parsed = Parsed(txs: seq<Entry>, stock: seq<Entry>, debts: seq<Entry>, readOnly: bool)

  predicate WellSorted(p: Parsed) {
    && (forall i :: 0 <= i < |p.txs| ==> p.txs[i].TxEntry?)
    && (forall i :: 0 <= i < |p.stock| ==> p.stock[i].StockEntry?)
    && (forall i :: 0 <= i < |p.debts| ==> p.debts[i].DebtEntry?)
  }

  type Message = p: Parsed | WellSorted(p) witness Parsed([], [], [], true)

  /** A message to the ledger: a shorthand amount, or a parsed compound message. */
  datatype Request = Shorthand(tx: Option<Entry>) | Compound(parsed: Option<Message>)

  predicate ValidRequest(r: Request) {
    r.Shorthand? && r.tx.Some? ==> r.tx.value.TxEntry?
  }

  type LedgerRequest = r: Request | ValidRequest(r) witness Shorthand(None)

  function KeyedList(e: EventId, kind: Kind, entries: seq<Entry>): (r: seq<KeyedEntry>)
    ensures |r| == |entries|
    ensures forall i :: 0 <= i < |r| ==> r[i] == KeyedEntry(ItemKey(e, kind, i), entries[i])
  {
    seq(|entries|, i requires 0 <= i < |entries| => KeyedEntry(ItemKey(e, kind, i), entries[i]))
  }

  /** Every entry of a request with the key its rows carry, in processing order. */
  function Entries(e: EventId, r: LedgerRequest): seq<KeyedEntry> {
    match r
    case Shorthand(Some(tx)) => [KeyedEntry(e, tx)]
    case Compound(Some(p)) => KeyedList(e, Tx, p.txs) + KeyedList(e, Inv, p.stock) + KeyedList(e, Debt, p.debts)
    case _ => []
  }

  predicate Mutating(r: LedgerRequest) {
    match r
    case Shorthand(tx) => tx.Some?
    case Compound(Some(p)) => p.txs != [] || p.stock != [] || p.debts != []
    case Compound(None) => false
  }

  /** The whole effect of a request, marker included. */
  function ApplyRequest(b: Books, e: EventId, r: LedgerRequest, today: int): Outcome {
    match ApplyAll(ResolverOf(b), b, Entries(e, r), today)
    case Applied(b') => Applied(b'.(processed := b'.processed + {e}))
    case Clarify => Clarify
    case Failed => Failed
  }
}
