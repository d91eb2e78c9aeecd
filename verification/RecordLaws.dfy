/** What a message leaves in the tables, told from the message: the rows its entries become, the
    items and accounts they move, and by how much. */
module RecordLaws {
  import opened Common
  import opened EventKeys
  import opened Text
  import opened LedgerBooks
  import opened KeyLaws
  import opened LedgerAgent
  import opened StockLaws
  import opened DebtLaws
  import opened LedgerRunLaws
  import opened ItemResolver
  import opened ItemResolverLaws

  /* ---------- rows of the transactions table ---------- */

  /** Transactions and debts have a row in the transactions table. */
  function InCash(): KeyedEntry -> bool {
    (k: KeyedEntry) => !k.entry.StockEntry?
  }

  /** The row tells the entry. A full payment has the amount that was outstanding, whatever the
      message says. */
  predicate Tells(t: TxRow, k: KeyedEntry, today: int) {
    t.key == k.key
    && match k.entry
       case TxEntry(flow, action, amount, currency, date) =>
         amount == Some(t.amount) && t.flow == flow && t.action == action && t.currency == currency && t.date == date
       case DebtEntry(party, action, person, amount, currency) =>
         && (t.flow == Income <==> party == Customer)
         && (t.action == Sale <==> action == AddDebt) && (t.action == Payment <==> action != AddDebt)
         && (action != FullPayment ==> t.amount == match amount case Some(x) => x case None => 0)
         && t.currency == (if currency == "" then "NGN" else currency) && t.date == today
       case StockEntry(_, _, _) => false
  }

  /** The legacy record of a transaction: whole naira, the rest dropped. */
  predicate Truncates(naira: int, kobo: int) {
    if kobo >= 0 then 100 * naira <= kobo < 100 * naira + 100 else 100 * naira - 100 < kobo <= 100 * naira
  }

  lemma KeyOfRow(b: Books, key: string)
    ensures key in Keys(b, Transactions) <==> exists t :: t in b.transactions && t.key == key
  {
    if key in Keys(b, Transactions) {
      var i :| 0 <= i < |b.transactions| && Keys(b, Transactions)[i] == key;
      assert b.transactions[i] in b.transactions;
    }
    if t :| t in b.transactions && t.key == key {
      var i :| 0 <= i < |b.transactions| && b.transactions[i] == t;
      assert Keys(b, Transactions)[i] == key;
    }
  }

  /** A transaction entry applies exactly when it has an amount and a new key. Then it adds one row
      that tells it, and one legacy record, and nothing else. */
  lemma TxIsTold(b: Books, key: string, e: Entry, today: int)
    requires e.TxEntry?
    ensures ApplyTx(b, key, e).Applied? <==> e.amount.Some? && forall t :: t in b.transactions ==> t.key != key
    ensures ApplyTx(b, key, e).Applied? ==>
              var b' := ApplyTx(b, key, e).books;
              && |b'.transactions| == |b.transactions| + 1 && b.transactions <= b'.transactions
              && Tells(b'.transactions[|b.transactions|], KeyedEntry(key, e), today)
              && |b'.records| == |b.records| + 1 && b.records <= b'.records
              && Truncates(b'.records[|b.records|], e.amount.value)
              && b' == b.(transactions := b'.transactions, records := b'.records)
  {
    KeyOfRow(b, key);
  }

  lemma DebtIsTold(b: Books, key: string, e: Entry, today: int)
    requires e.DebtEntry? && ApplyDebt(b, key, e, today).Applied?
    ensures var b' := ApplyDebt(b, key, e, today).books;
            && |b'.transactions| == |b.transactions| + 1 && b.transactions <= b'.transactions
            && Tells(b'.transactions[|b.transactions|], KeyedEntry(key, e), today)
            && (e.debtAction == FullPayment ==> b'.transactions[|b.transactions|].amount == Outstanding(b, AccountOf(e)))
            && b'.records == b.records
  {
  }

  lemma StockTellsNothing(resolve: Resolver, b: Books, key: string, e: Entry)
    requires e.StockEntry? && ApplyStock(resolve, b, key, e).Applied?
    ensures ApplyStock(resolve, b, key, e).books.transactions == b.transactions
  {
  }

  /** The rows that a list of entries adds, one for each transaction and debt, in order. */
  ghost predicate AllTold(added: seq<TxRow>, ks: seq<KeyedEntry>, today: int) {
    var cash := Where(InCash(), ks);
    |added| == |cash| && forall i :: 0 <= i < |added| ==> Tells(added[i], cash[i], today)
  }

  lemma EntryIsTold(resolve: Resolver, b: Books, k: KeyedEntry, today: int)
    requires ApplyEntry(resolve, b, k, today).Applied?
    ensures var b' := ApplyEntry(resolve, b, k, today).books;
            if k.entry.StockEntry? then b'.transactions == b.transactions
            else |b'.transactions| == |b.transactions| + 1 && b.transactions <= b'.transactions
                 && Tells(b'.transactions[|b.transactions|], k, today)
  {
    match k.entry
    case TxEntry(_, _, _, _, _) => TxIsTold(b, k.key, k.entry, today);
    case StockEntry(_, _, _) => StockTellsNothing(resolve, b, k.key, k.entry);
    case DebtEntry(_, _, _, _, _) => DebtIsTold(b, k.key, k.entry, today);
  }

  lemma {:induction false} EntriesAreTold(resolve: Resolver, b: Books, ks: seq<KeyedEntry>, today: int)
    requires ApplyAll(resolve, b, ks, today).Applied?
    ensures var b' := ApplyAll(resolve, b, ks, today).books;
            b.transactions <= b'.transactions && AllTold(b'.transactions[|b.transactions|..], ks, today)
  {
    if ks != [] {
      var front, k := ks[..|ks| - 1], ks[|ks| - 1];
      EntriesAreTold(resolve, b, front, today);
      var mid := ApplyAll(resolve, b, front, today).books;
      EntryIsTold(resolve, mid, k, today);
    }
  }

  /** After a request, the new rows of the transactions table tell its transactions and debts, one
      row each and in order. */
  lemma RequestIsTold(b: Books, e: EventId, r: LedgerRequest, today: int)
    requires ApplyRequest(b, e, r, today).Applied?
    ensures var b' := ApplyRequest(b, e, r, today).books;
            b.transactions <= b'.transactions && AllTold(b'.transactions[|b.transactions|..], Entries(e, r), today)
  {
    EntriesAreTold(ResolverOf(b), b, Entries(e, r), today);
  }

  /** The one row among some rows that tells an entry. */
  ghost predicate OneRowTells(added: seq<TxRow>, k: KeyedEntry, today: int) {
    exists j :: 0 <= j < |added| && Tells(added[j], k, today)
                && forall n :: 0 <= n < |added| && added[n].key == k.key ==> n == j
  }

  lemma ToldOnce(added: seq<TxRow>, ks: seq<KeyedEntry>, today: int, k: KeyedEntry)
    requires AllTold(added, ks, today) && KeysApart(ks) && k in ks && InCash()(k)
    ensures OneRowTells(added, k, today)
  {
    var cash := Where(InCash(), ks);
    WhereMembers(InCash(), ks);
    WhereKeysApart(ks);
    var j :| 0 <= j < |cash| && cash[j] == k;
    assert Tells(added[j], cash[j], today);
    forall n | 0 <= n < |added| && added[n].key == k.key ensures n == j {
      assert Tells(added[n], cash[n], today) && cash[n].key == cash[j].key;
    }
  }

  /** For each transaction or debt of the message there is exactly one new row under its key, and
      that row tells it. */
  lemma EntryHasOneRow(b: Books, e: EventId, r: LedgerRequest, today: int, i: nat)
    requires ApplyRequest(b, e, r, today).Applied?
    requires i < |Entries(e, r)| && !Entries(e, r)[i].entry.StockEntry?
    ensures var b' := ApplyRequest(b, e, r, today).books;
            b.transactions <= b'.transactions && OneRowTells(b'.transactions[|b.transactions|..], Entries(e, r)[i], today)
  {
    var ks := Entries(e, r);
    RequestIsTold(b, e, r, today);
    forall i, j | 0 <= i < j < |ks| ensures ks[i].key != ks[j].key {
      EntryKeysDistinct(e, r, i, j);
    }
    ToldOnce(ApplyRequest(b, e, r, today).books.transactions[|b.transactions|..], ks, today, ks[i]);
  }

  predicate KeysApart(ks: seq<KeyedEntry>) {
    forall i, j :: 0 <= i < j < |ks| ==> ks[i].key != ks[j].key
  }

  lemma {:induction false} WhereKeysApart(ks: seq<KeyedEntry>)
    requires KeysApart(ks)
    ensures KeysApart(Where(InCash(), ks))
  {
    if ks != [] {
      var front, last := ks[..|ks| - 1], ks[|ks| - 1];
      var cash := Where(InCash(), front);
      WhereKeysApart(front);
      WhereMembers(InCash(), front);
      forall j | 0 <= j < |cash| ensures cash[j].key != last.key {
        assert cash[j] in cash;
        var i :| 0 <= i < |front| && front[i] == cash[j];
        assert ks[i] == front[i];
      }
      assert KeysApart(cash + [last]);
    }
  }

  /* ---------- net cash ---------- */

  function RowCash(currency: string): TxRow -> int {
    (t: TxRow) => if t.currency != currency then 0 else if t.flow == Income then t.amount else -t.amount
  }

  /** What an entry brings in or takes out in one currency: its own amount, or for a full payment
      what was outstanding. */
  function EntryCash(e: Entry, outstanding: int, currency: string): int {
    match e
    case TxEntry(flow, _, amount, own, _) =>
      var x := match amount case Some(x) => x case None => 0;
      if own != currency then 0 else if flow == Income then x else -x
    case StockEntry(_, _, _) => 0
    case DebtEntry(party, action, _, amount, own) =>
      var x := if action == FullPayment then outstanding else match amount case Some(x) => x case None => 0;
      if (if own == "" then "NGN" else own) != currency then 0 else if party == Customer then x else -x
  }

  function Due(b: Books, e: Entry): int {
    if e.DebtEntry? then Outstanding(b, AccountOf(e)) else 0
  }

  /** The net of a message in one currency, entry after entry. */
  function MessageCash(resolve: Resolver, b: Books, ks: seq<KeyedEntry>, today: int, currency: string): int
    requires ApplyAll(resolve, b, ks, today).Applied?
  {
    if ks == [] then 0
    else
      var front, k := ks[..|ks| - 1], ks[|ks| - 1];
      MessageCash(resolve, b, front, today, currency) + EntryCash(k.entry, Due(ApplyAll(resolve, b, front, today).books, k.entry), currency)
  }

  lemma EntryMovesCash(resolve: Resolver, b: Books, k: KeyedEntry, today: int, currency: string)
    requires ApplyEntry(resolve, b, k, today).Applied?
    ensures Sum(RowCash(currency), ApplyEntry(resolve, b, k, today).books.transactions)
            == Sum(RowCash(currency), b.transactions) + EntryCash(k.entry, Due(b, k.entry), currency)
  {
    EntryIsTold(resolve, b, k, today);
    var b' := ApplyEntry(resolve, b, k, today).books;
    if !k.entry.StockEntry? {
      if k.entry.DebtEntry? {
        DebtIsTold(b, k.key, k.entry, today);
      }
      var t := b'.transactions[|b.transactions|];
      assert b'.transactions == b.transactions + [t];
      SumPush(RowCash(currency), b.transactions, t);
    }
  }

  /** The rows that a message adds net to what its entries bring in and take out. */
  lemma {:induction false} MessageMovesCash(resolve: Resolver, b: Books, ks: seq<KeyedEntry>, today: int, currency: string)
    requires ApplyAll(resolve, b, ks, today).Applied?
    ensures Sum(RowCash(currency), ApplyAll(resolve, b, ks, today).books.transactions)
            == Sum(RowCash(currency), b.transactions) + MessageCash(resolve, b, ks, today, currency)
  {
    if ks != [] {
      var front := ks[..|ks| - 1];
      MessageMovesCash(resolve, b, front, today, currency);
      EntryMovesCash(resolve, ApplyAll(resolve, b, front, today).books, ks[|ks| - 1], today, currency);
    }
  }

  /** What a call brings in: the net of its message if it takes effect. */
  function CallCash(b: Books, c: Call, currency: string): int {
    var ks := Entries(c.event, c.request);
    if AfterCall(b, c) != b && ApplyAll(ResolverOf(b), b, ks, c.today).Applied?
    then MessageCash(ResolverOf(b), b, ks, c.today, currency) else 0
  }

  function CallsCash(calls: seq<Call>, currency: string): int {
    if calls == [] then 0
    else
      var front := calls[..|calls| - 1];
      CallsCash(front, currency) + CallCash(AfterCalls(EMPTY, front), calls[|calls| - 1], currency)
  }

  /** After any series of requests, the transactions of a currency net to what the messages that
      took effect brought in and took out. */
  lemma {:induction false} CallsMoveCash(calls: seq<Call>, currency: string)
    ensures Sum(RowCash(currency), AfterCalls(EMPTY, calls).transactions) == CallsCash(calls, currency)
  {
    if calls != [] {
      var b, c := AfterCalls(EMPTY, calls[..|calls| - 1]), calls[|calls| - 1];
      CallsMoveCash(calls[..|calls| - 1], currency);
      if AfterCall(b, c) != b {
        MessageMovesCash(ResolverOf(b), b, Entries(c.event, c.request), c.today, currency);
      }
    }
  }

  /* ---------- stock ---------- */

  /** The item that a typed product moves: the one it is matched to, or a new one of that name. */
  function Target(resolve: Resolver, product: string): string {
    match resolve(product) case Matched(c) => c.name case NoMatch => product case ClarificationNeeded(_) => product
  }

  /** A stock entry applies exactly when it names a product, raises no question, and its key is
      new; a question applies nothing. */
  lemma StockAppliesIff(resolve: Resolver, b: Books, key: string, e: Entry)
    requires e.StockEntry?
    ensures ApplyStock(resolve, b, key, e).Applied?
            <==> e.product != "" && !resolve(e.product).ClarificationNeeded?
                 && key !in Keys(b, Movements) && key !in Keys(b, StockMoves)
    ensures ApplyStock(resolve, b, key, e).Clarify? <==> e.product != "" && resolve(e.product).ClarificationNeeded?
  {
  }

  /** A stock entry moves the item its product is matched to, as its action says, and no other. */
  lemma StockMovesTarget(resolve: Resolver, b: Books, key: string, e: Entry, other: string)
    requires StockAgrees(b) && e.StockEntry? && ApplyStock(resolve, b, key, e).Applied?
    ensures var b', name := ApplyStock(resolve, b, key, e).books, Target(resolve, e.product);
            && LevelOf(b', other) == (if other == name then LevelAfter(LevelOf(b, name), e) else LevelOf(b, other))
            && b'.items == (if name in b.items then b.items else b.items + [name])
  {
    var name := Target(resolve, e.product);
    MoveStockLevels(b, key, name, e, other);
    var found := Find(b.items, name);
    MovedBooks(b, key, name, e, if found.Some? then found.value else |b.items|);
  }

  predicate Moves(resolve: Resolver, k: KeyedEntry, item: string) {
    k.entry.StockEntry? && Target(resolve, k.entry.product) == item
  }

  /** The level of an item after a list of entries: those that move it, in turn. */
  function LevelAfterAll(resolve: Resolver, before: int, ks: seq<KeyedEntry>, item: string): int {
    if ks == [] then before
    else
      var k := ks[|ks| - 1];
      var level := LevelAfterAll(resolve, before, ks[..|ks| - 1], item);
      if Moves(resolve, k, item) then LevelAfter(level, k.entry) else level
  }

  lemma OtherEntriesKeepStock(resolve: Resolver, b: Books, k: KeyedEntry, today: int)
    requires !k.entry.StockEntry? && ApplyEntry(resolve, b, k, today).Applied?
    ensures var b' := ApplyEntry(resolve, b, k, today).books;
            b'.movements == b.movements && b'.items == b.items
  {
  }

  /** One entry, as far as stock is concerned. */
  lemma EntryMovesStock(resolve: Resolver, b: Books, k: KeyedEntry, today: int, item: string)
    requires StockAgrees(b) && ApplyEntry(resolve, b, k, today).Applied?
    ensures var b' := ApplyEntry(resolve, b, k, today).books;
            && LevelOf(b', item) == (if Moves(resolve, k, item) then LevelAfter(LevelOf(b, item), k.entry) else LevelOf(b, item))
            && (item in b'.items <==> item in b.items || Moves(resolve, k, item))
  {
    if k.entry.StockEntry? {
      StockMovesTarget(resolve, b, k.key, k.entry, item);
    } else {
      OtherEntriesKeepStock(resolve, b, k, today);
    }
  }

  /** After a message each item stands where the entries that move it take it, and items are added
      only for products that match none. */
  lemma {:induction false} MessageMovesStock(resolve: Resolver, b: Books, ks: seq<KeyedEntry>, today: int, item: string)
    requires StockAgrees(b) && ApplyAll(resolve, b, ks, today).Applied?
    ensures var b' := ApplyAll(resolve, b, ks, today).books;
            && LevelOf(b', item) == LevelAfterAll(resolve, LevelOf(b, item), ks, item)
            && (item in b'.items <==> item in b.items || exists k :: k in ks && Moves(resolve, k, item))
  {
    if ks != [] {
      var front, k := ks[..|ks| - 1], ks[|ks| - 1];
      assert ks == front + [k];
      MessageMovesStock(resolve, b, front, today, item);
      EntriesKeepStockAgreement(resolve, b, front, today);
      EntryMovesStock(resolve, ApplyAll(resolve, b, front, today).books, k, today, item);
    }
  }

  /** A name that the resolver of a transaction gives is one of an item that was committed before,
      and a question is about such items. */
  lemma MatchesAreItems(committed: Books, product: string)
    requires StockAgrees(committed)
    ensures var r := ResolverOf(committed)(product);
            && (r.Matched? ==> r.item.name in committed.items)
            && (r.ClarificationNeeded? ==> forall c :: c in r.matches ==> c.name in committed.items)
  {
    var candidates := Gathered(committed.items, ProductNames(committed));
    GatheredAreStored(committed.items, ProductNames(committed));
    var r := ResolveItem(candidates, product);
    if r.Matched? {
      ResultIsCandidate(candidates, product);
    } else if r.ClarificationNeeded? {
      QuestionsOfferCandidates(candidates, product);
    }
  }

  /** So over agreeing books a message adds an item only for a product that resolves to nothing, and
      under the name that was typed. */
  lemma NewItemsWereTyped(b: Books, e: EventId, r: LedgerRequest, today: int, item: string)
    requires StockAgrees(b) && ApplyRequest(b, e, r, today).Applied?
    requires item in ApplyRequest(b, e, r, today).books.items && item !in b.items
    ensures exists k :: k in Entries(e, r) && k.entry.StockEntry? && k.entry.product == item && ResolverOf(b)(item).NoMatch?
  {
    var resolve, ks := ResolverOf(b), Entries(e, r);
    MessageMovesStock(resolve, b, ks, today, item);
    var k :| k in ks && Moves(resolve, k, item);
    MatchesAreItems(b, k.entry.product);
    EachWasApplied(resolve, b, ks, today, k);
  }

  /** No entry of a message that applied raised a question. */
  lemma {:induction false} EachWasApplied(resolve: Resolver, b: Books, ks: seq<KeyedEntry>, today: int, k: KeyedEntry)
    requires ApplyAll(resolve, b, ks, today).Applied? && k in ks && k.entry.StockEntry?
    ensures !resolve(k.entry.product).ClarificationNeeded?
  {
    var front, last := ks[..|ks| - 1], ks[|ks| - 1];
    assert ks == front + [last];
    if k == last {
      StockAppliesIff(resolve, ApplyAll(resolve, b, front, today).books, k.key, k.entry);
    } else {
      EachWasApplied(resolve, b, front, today, k);
    }
  }

  /* ---------- debts ---------- */

  /** The amount that a message states; none is nothing. */
  function Stated(e: Entry): int
    requires e.DebtEntry?
  {
    match e.debtAmount case Some(x) => x case None => 0
  }

  /** What an account owes after an entry: more by the amount that is stated, less by it, or
      nothing. */
  function OwedAfter(before: int, e: Entry): int
    requires e.DebtEntry?
  {
    match e.debtAction
    case AddDebt => before + Stated(e)
    case Repayment => before - Stated(e)
    case FullPayment => 0
  }

  /** A debt entry applies exactly when it names a person and its key is new. It moves what its own
      account owes, as its action says, and no other account. */
  lemma DebtMovesBalance(b: Books, key: string, e: Entry, today: int, other: Account)
    requires e.DebtEntry?
    ensures ApplyDebt(b, key, e, today).Applied?
            <==> e.person != "" && key !in Keys(b, DebtEntries) && key !in Keys(b, Transactions) && key !in Keys(b, DebtLogs)
    ensures ApplyDebt(b, key, e, today).Applied? ==>
              Outstanding(ApplyDebt(b, key, e, today).books, other)
              == if other == AccountOf(e) then OwedAfter(Outstanding(b, other), e) else Outstanding(b, other)
  {
  }

  /** The rows that a debt entry writes carry the stated amount, or for a full payment what was
      owed; a new account is a receivable of a customer or a payable to a supplier, and payments
      are entered on the opposite side. */
  lemma DebtRowsCarryAmount(b: Books, key: string, e: Entry, today: int)
    requires e.DebtEntry? && ApplyDebt(b, key, e, today).Applied?
    ensures var b', a := ApplyDebt(b, key, e, today).books, AccountOf(e);
            var owed := Outstanding(b, a);
            var amount := if e.debtAction == FullPayment then owed else Stated(e);
            && |b'.debtEntries| == |b.debtEntries| + 1 && b.debtEntries <= b'.debtEntries
            && |b'.debtLogs| == |b.debtLogs| + 1 && b.debtLogs <= b'.debtLogs
            && var entry, log := b'.debtEntries[|b.debtEntries|], b'.debtLogs[|b.debtLogs|];
            && entry.key == log.key == key && entry.account == log.account == a && entry.amount == log.amount == amount
            && log.action == e.debtAction && log.previous == owed && log.next == OwedAfter(owed, e)
            && (entry.book == Receivable <==> (e.party == Customer <==> e.debtAction == AddDebt))
            && (a !in b.balances ==> (log.book == Receivable <==> e.party == Customer))
            && a in b'.balances && b'.balances[a].book == log.book
  {
  }

  /** Two entries are about one account exactly when their persons are written alike up to case
      and surrounding whitespace, and their currencies are the same, none being naira. */
  lemma AccountsAreAlike(e: Entry, e': Entry)
    requires e.DebtEntry? && e'.DebtEntry?
    ensures AccountOf(e) == AccountOf(e')
            <==> SameLetters(Strip(e.person), Strip(e'.person))
                 && (if e.debtCurrency == "" then "NGN" else e.debtCurrency) == (if e'.debtCurrency == "" then "NGN" else e'.debtCurrency)
  {
    StripOfLower(e.person);
    StripOfLower(e'.person);
    LowerForgetsCase(Strip(e.person), Strip(e'.person));
  }

  predicate IsAbout(k: KeyedEntry, a: Account) {
    k.entry.DebtEntry? && AccountOf(k.entry) == a
  }

  /** What an account owes after a list of entries. */
  function OwedAfterAll(before: int, ks: seq<KeyedEntry>, a: Account): int {
    if ks == [] then before
    else
      var k, owed := ks[|ks| - 1], OwedAfterAll(before, ks[..|ks| - 1], a);
      if IsAbout(k, a) then OwedAfter(owed, k.entry) else owed
  }

  /** After a message each account owes what the entries about it say. */
  lemma {:induction false} MessageMovesDebts(resolve: Resolver, b: Books, ks: seq<KeyedEntry>, today: int, a: Account)
    requires ApplyAll(resolve, b, ks, today).Applied?
    ensures Outstanding(ApplyAll(resolve, b, ks, today).books, a) == OwedAfterAll(Outstanding(b, a), ks, a)
  {
    if ks != [] {
      var front, k := ks[..|ks| - 1], ks[|ks| - 1];
      var mid := ApplyAll(resolve, b, front, today).books;
      MessageMovesDebts(resolve, b, front, today, a);
      if k.entry.DebtEntry? {
        DebtMovesBalance(mid, k.key, k.entry, today, a);
      } else {
        OtherEntriesKeepDebtTables(resolve, mid, k, today);
      }
    }
  }

  /* ---------- what takes effect ---------- */

  /** A request has something to write exactly when it has entries. */
  lemma MutatingHasEntries(e: EventId, r: LedgerRequest)
    ensures Mutating(r) <==> Entries(e, r) != []
  {
  }

  /** Exactly the requests that write are put up for review, with the amount of a shorthand and the
      numbers of entries of a compound message; others pass. Without a verdict the default
      decides. */
  lemma WritesAreReviewed(r: LedgerRequest)
    ensures ReviewProposal(r).Some? <==> Mutating(r)
    ensures Mutating(r) ==>
              match ReviewProposal(r).value
              case ShorthandWrite(amount) => r.Shorthand? && amount == (match r.tx.value.amount case Some(x) => x case None => 0)
              case CompoundWrite(txs, stock, debts) =>
                r.Compound? && txs == |r.parsed.value.txs| && stock == |r.parsed.value.stock| && debts == |r.parsed.value.debts|
    ensures forall ok :: PassesReview(Says(ok), r) <==> ok || !Mutating(r)
    ensures forall ok :: PassesReview(Silent(ok), r) <==> ok || !Mutating(r)
  {
  }

  /** An unauthorised or rejected call changes nothing, and neither does one whose event was
      processed, that has nothing to write, or whose entries do not all apply. */
  lemma RefusedCallsChangeNothing(b: Books, c: Call)
    requires !c.authorised || !PassesReview(c.reviewer, c.request) || c.event in b.processed || !Mutating(c.request)
             || !ApplyAll(ResolverOf(b), b, Entries(c.event, c.request), c.today).Applied?
    ensures AfterCall(b, c) == b
  {
  }

  /** A transient error outside the entries of a message: it is met before the writes, at the marker,
      at the commit, or after it. */
  predicate Passing(f: Fault) {
    match f
    case BeforeWrites(transient) => transient
    case AtMarker(transient) => transient
    case AtCommit(transient, _) => transient
    case AfterCommit(transient) => transient
    case _ => false
  }

  /** Any other call writes its whole request if one of the attempts meets no fault and those before
      it meet transient errors only. */
  lemma AcceptedCallsWrite(b: Books, c: Call, k: nat)
    requires c.authorised && PassesReview(c.reviewer, c.request) && c.event !in b.processed && Mutating(c.request)
    requires ApplyAll(ResolverOf(b), b, Entries(c.event, c.request), c.today).Applied?
    requires k < |c.faults| && c.faults[k] == NoFault && forall j :: 0 <= j < k ==> Passing(c.faults[j])
    ensures AfterCall(b, c) == ApplyRequest(b, c.event, c.request, c.today).books
    ensures c.event in AfterCall(b, c).processed
  {
    assert ReachesCommit(|Entries(c.event, c.request)|, c.faults[k]);
    assert forall j :: 0 <= j < k ==> Retries(c.request, |Entries(c.event, c.request)|, c.faults[j]);
  }

  /** An error that ends the call before anything is durable. */
  predicate Ends(f: Fault) {
    match f
    case ConnectionRefused => true
    case BeforeWrites(transient) => !transient
    case AtMarker(transient) => !transient
    case AtCommit(transient, durable) => !transient && !durable
    case _ => false
  }

  /** A call whose first attempt meets such an error changes nothing. */
  lemma EndedCallsChangeNothing(b: Books, c: Call)
    requires |c.faults| > 0 && Ends(c.faults[0])
    ensures AfterCall(b, c) == b
  {
  }
}
