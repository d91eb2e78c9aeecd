/** Debt is kept as a running balance, a chained log and offsetting entries. */
module DebtLaws {
  import opened LedgerBooks

  function SignedLog(l: DebtLogRow): int {
    if l.action == AddDebt then l.amount else -l.amount
  }

  /** The signed sum of one account's log rows. */
  function LogTotal(logs: seq<DebtLogRow>, a: Account): int {
    if logs == [] then 0
    else
      var l := logs[|logs| - 1];
      LogTotal(logs[..|logs| - 1], a) + if l.account == a then SignedLog(l) else 0
  }

  /** The net of one account's entries: receivable less payable. */
  function EntryNet(entries: seq<DebtEntryRow>, a: Account): int {
    if entries == [] then 0
    else
      var e := entries[|entries| - 1];
      EntryNet(entries[..|entries| - 1], a) + if e.account != a then 0 else if e.book == Receivable then e.amount else -e.amount
  }

  function Sign(book: Book): int {
    if book == Receivable then 1 else -1
  }

  /** The book an entry is written on when the message's party is the account's own. */
  function ExpectedBook(l: DebtLogRow): Book {
    if l.action == AddDebt then l.book else if l.book == Receivable then Payable else Receivable
  }

  /** The signed sum of an account's log rows whose entry was written for the other party. */
  function SwitchedTotal(logs: seq<DebtLogRow>, entries: seq<DebtEntryRow>, a: Account): int
    requires |logs| == |entries|
  {
    if logs == [] then 0
    else
      var n := |logs| - 1;
      SwitchedTotal(logs[..n], entries[..n], a)
      + if logs[n].account == a && entries[n].book != ExpectedBook(logs[n]) then SignedLog(logs[n]) else 0
  }

  /** The balance of every account is the signed sum of its log; each log row starts where the
      account stood and ends where it then stands; entries run parallel to the log. */
  ghost predicate DebtAgrees(b: Books) {
    && |b.debtLogs| == |b.debtEntries|
    && (forall a :: Outstanding(b, a) == LogTotal(b.debtLogs, a))
    && (forall i :: 0 <= i < |b.debtLogs| ==> LogRowAgrees(b, i))
  }

  ghost predicate LogRowAgrees(b: Books, i: nat)
    requires i < |b.debtLogs| == |b.debtEntries|
  {
    var l, e := b.debtLogs[i], b.debtEntries[i];
    && l.previous == LogTotal(b.debtLogs[..i], l.account)
    && l.next == l.previous + SignedLog(l)
    && l.account in b.balances && l.book == b.balances[l.account].book
    && e.account == l.account && e.amount == l.amount && e.key == l.key
  }

  lemma LogTotalPush(logs: seq<DebtLogRow>, l: DebtLogRow, a: Account)
    ensures LogTotal(logs + [l], a) == LogTotal(logs, a) + if l.account == a then SignedLog(l) else 0
  {
    assert (logs + [l])[..|logs|] == logs;
  }

  lemma NewBalanceIsSigned(action: DebtAction, previous: int, amount: int)
    requires action == FullPayment ==> amount == previous
    ensures NewBalance(action, previous, amount) == previous + if action == AddDebt then amount else -amount
  {
  }

  /** A debt entry keeps balance, log chain and entries in agreement. */
  lemma ApplyDebtKeepsAgreement(b: Books, key: string, e: Entry, today: int)
    requires DebtAgrees(b) && e.DebtEntry? && ApplyDebt(b, key, e, today).Applied?
    ensures DebtAgrees(ApplyDebt(b, key, e, today).books)
  {
    var b' := ApplyDebt(b, key, e, today).books;
    var n := |b.debtLogs|;
    var l := b'.debtLogs[n];
    NewBalanceIsSigned(e.debtAction, l.previous, l.amount);
    forall a ensures Outstanding(b', a) == LogTotal(b'.debtLogs, a) {
      LogTotalPush(b.debtLogs, l, a);
    }
    forall i | 0 <= i < |b'.debtLogs| ensures LogRowAgrees(b', i) {
      if i < n {
        assert LogRowAgrees(b, i);
        assert b'.debtLogs[..i] == b.debtLogs[..i];
      } else {
        assert b'.debtLogs[..i] == b.debtLogs;
      }
    }
  }

  lemma StockKeepsDebtTables(b: Books, key: string, name: string, e: Entry)
    requires e.StockEntry? && MoveStock(b, key, name, e).Applied?
    ensures var b' := MoveStock(b, key, name, e).books;
            b'.debtLogs == b.debtLogs && b'.debtEntries == b.debtEntries && b'.balances == b.balances
  {
  }

  lemma OtherEntriesKeepDebtTables(resolve: Resolver, b: Books, k: KeyedEntry, today: int)
    requires !k.entry.DebtEntry? && ApplyEntry(resolve, b, k, today).Applied?
    ensures var b' := ApplyEntry(resolve, b, k, today).books;
            b'.debtLogs == b.debtLogs && b'.debtEntries == b.debtEntries && b'.balances == b.balances
  {
    if k.entry.StockEntry? {
      match resolve(k.entry.product)
      case Matched(c) => StockKeepsDebtTables(b, k.key, c.name, k.entry);
      case NoMatch => StockKeepsDebtTables(b, k.key, k.entry.product, k.entry);
      case ClarificationNeeded(_) =>
    }
  }

  lemma EntryKeepsDebtAgreement(resolve: Resolver, b: Books, k: KeyedEntry, today: int)
    requires DebtAgrees(b) && ApplyEntry(resolve, b, k, today).Applied?
    ensures DebtAgrees(ApplyEntry(resolve, b, k, today).books)
  {
    if k.entry.DebtEntry? {
      ApplyDebtKeepsAgreement(b, k.key, k.entry, today);
    } else {
      OtherEntriesKeepDebtTables(resolve, b, k, today);
      SameDebtTables(b, ApplyEntry(resolve, b, k, today).books);
    }
  }

  lemma SameDebtTables(b: Books, b': Books)
    requires DebtAgrees(b)
    requires b'.debtLogs == b.debtLogs && b'.debtEntries == b.debtEntries && b'.balances == b.balances
    ensures DebtAgrees(b')
  {
    forall a ensures Outstanding(b', a) == LogTotal(b'.debtLogs, a) {
      assert Outstanding(b, a) == LogTotal(b.debtLogs, a);
    }
    forall i | 0 <= i < |b'.debtLogs| ensures LogRowAgrees(b', i) {
      assert LogRowAgrees(b, i);
    }
  }

  lemma {:induction false} EntriesKeepDebtAgreement(resolve: Resolver, b: Books, ks: seq<KeyedEntry>, today: int)
    requires DebtAgrees(b) && ApplyAll(resolve, b, ks, today).Applied?
    ensures DebtAgrees(ApplyAll(resolve, b, ks, today).books)
  {
    if ks != [] {
      var front := ks[..|ks| - 1];
      EntriesKeepDebtAgreement(resolve, b, front, today);
      EntryKeepsDebtAgreement(resolve, ApplyAll(resolve, b, front, today).books, ks[|ks| - 1], today);
    }
  }

  /* ---------- consequences ---------- */

  lemma {:induction false} LogTotalWithout(logs: seq<DebtLogRow>, i: nat, j: nat, a: Account)
    requires i <= j <= |logs|
    requires forall k :: i <= k < j ==> logs[k].account != a
    ensures LogTotal(logs[..j], a) == LogTotal(logs[..i], a)
  {
    if i < j {
      LogTotalWithout(logs, i, j - 1, a);
      assert logs[..j][..j - 1] == logs[..j - 1];
    }
  }

  /** Every log row's previous balance is the new balance of the same account's preceding log
      row, and zero on its first. */
  lemma LogIsChained(b: Books, j: nat)
    requires DebtAgrees(b) && j < |b.debtLogs|
    ensures forall i :: 0 <= i < j && b.debtLogs[i].account == b.debtLogs[j].account
                        && (forall k :: i < k < j ==> b.debtLogs[k].account != b.debtLogs[j].account)
                        ==> b.debtLogs[j].previous == b.debtLogs[i].next
    ensures (forall i :: 0 <= i < j ==> b.debtLogs[i].account != b.debtLogs[j].account) ==> b.debtLogs[j].previous == 0
  {
    var logs, a := b.debtLogs, b.debtLogs[j].account;
    assert LogRowAgrees(b, j);
    forall i | 0 <= i < j && logs[i].account == a && (forall k :: i < k < j ==> logs[k].account != a)
      ensures logs[j].previous == logs[i].next
    {
      assert LogRowAgrees(b, i);
      LogTotalWithout(logs, i + 1, j, a);
      assert logs[..i + 1][..i] == logs[..i];
    }
    if forall i :: 0 <= i < j ==> logs[i].account != a {
      LogTotalWithout(logs, 0, j, a);
    }
  }

  /** An account's entries net to its balance, with the sign of its book, less twice whatever
      was logged for the other party. */
  lemma EntriesNetToBalance(b: Books, a: Account)
    requires DebtAgrees(b) && a in b.balances
    ensures EntryNet(b.debtEntries, a)
            == Sign(b.balances[a].book) * (Outstanding(b, a) - 2 * SwitchedTotal(b.debtLogs, b.debtEntries, a))
  {
    EntryNetUpTo(b, a, |b.debtLogs|);
    assert b.debtLogs[..|b.debtLogs|] == b.debtLogs && b.debtEntries[..|b.debtEntries|] == b.debtEntries;
  }

  lemma {:induction false} EntryNetUpTo(b: Books, a: Account, n: nat)
    requires DebtAgrees(b) && a in b.balances && n <= |b.debtLogs|
    ensures EntryNet(b.debtEntries[..n], a)
            == Sign(b.balances[a].book) * (LogTotal(b.debtLogs[..n], a) - 2 * SwitchedTotal(b.debtLogs[..n], b.debtEntries[..n], a))
  {
    if n > 0 {
      EntryNetUpTo(b, a, n - 1);
      assert LogRowAgrees(b, n - 1);
      assert b.debtLogs[..n][..n - 1] == b.debtLogs[..n - 1];
      assert b.debtEntries[..n][..n - 1] == b.debtEntries[..n - 1];
    }
  }

  /** A log row's entry is on the expected book exactly when the message named the account's
      own kind of party. */
  lemma SwitchIsOtherParty(b: Books, key: string, e: Entry, today: int)
    requires e.DebtEntry? && ApplyDebt(b, key, e, today).Applied?
    ensures var b' := ApplyDebt(b, key, e, today).books;
            var l, entry := b'.debtLogs[|b.debtLogs|], b'.debtEntries[|b.debtEntries|];
            entry.book == ExpectedBook(l) <==> (AccountOf(e) in b.balances ==> b.balances[AccountOf(e)].book == BookOf(e.party))
  {
  }

  /* ---------- people with one debt type ---------- */

  /** An account's entries net to its balance, with the sign of one party. */
  predicate NetsToBalance(b: Books, a: Account, p: Party) {
    EntryNet(b.debtEntries, a) == Sign(BookOf(p)) * Outstanding(b, a)
  }

  /** The party an account stands for: the one it was opened for, or the one it will be. */
  function PartyOf(b: Books, a: Account, otherwise: Party): Party {
    if a !in b.balances then otherwise else if b.balances[a].book == Receivable then Customer else Supplier
  }

  lemma EntryNetPush(entries: seq<DebtEntryRow>, e: DebtEntryRow, a: Account)
    ensures EntryNet(entries + [e], a)
            == EntryNet(entries, a) + if e.account != a then 0 else if e.book == Receivable then e.amount else -e.amount
  {
    assert (entries + [e])[..|entries|] == entries;
  }

  /** What a debt entry leaves of its account. */
  lemma DebtEntryEffect(b: Books, key: string, e: Entry, today: int)
    requires e.DebtEntry? && ApplyDebt(b, key, e, today).Applied?
    ensures var b', a := ApplyDebt(b, key, e, today).books, AccountOf(e);
            var previous := Outstanding(b, a);
            var amount := DebtAmount(e, previous);
            && b'.debtEntries == b.debtEntries + [DebtEntryRow(key, a, EntryBook(e.party, e.debtAction), amount)]
            && Outstanding(b', a) == NewBalance(e.debtAction, previous, amount)
            && PartyOf(b', a, e.party) == PartyOf(b, a, e.party)
  {
  }

  /** The entry and the balance move alike exactly when the entry is written for the account's own
      party, or for nothing. */
  lemma EntryMovesWithBalance(action: DebtAction, own: Party, named: Party, previous: int, amount: int)
    requires action == FullPayment ==> amount == previous
    ensures Sign(BookOf(own)) * previous + (if EntryBook(named, action) == Receivable then amount else -amount)
            == Sign(BookOf(own)) * NewBalance(action, previous, amount)
            <==> own == named || amount == 0
  {
    match own
    case Customer =>
    case Supplier =>
  }

  /** A debt entry on an account whose entries net to its balance keeps it so exactly when the
      account is new, is of the party that the message names, or the amount is nothing. */
  lemma DebtEntryKeepsNet(b: Books, key: string, e: Entry, today: int)
    requires e.DebtEntry? && ApplyDebt(b, key, e, today).Applied?
    requires NetsToBalance(b, AccountOf(e), PartyOf(b, AccountOf(e), e.party))
    ensures var b', a := ApplyDebt(b, key, e, today).books, AccountOf(e);
            && PartyOf(b', a, e.party) == PartyOf(b, a, e.party)
            && (NetsToBalance(b', a, PartyOf(b', a, e.party))
                <==> (a in b.balances ==> b.balances[a].book == BookOf(e.party) || DebtAmount(e, Outstanding(b, a)) == 0))
  {
    var a := AccountOf(e);
    var previous := Outstanding(b, a);
    var amount := DebtAmount(e, previous);
    DebtEntryEffect(b, key, e, today);
    EntryNetPush(b.debtEntries, DebtEntryRow(key, a, EntryBook(e.party, e.debtAction), amount), a);
    EntryMovesWithBalance(e.debtAction, PartyOf(b, a, e.party), e.party, previous, amount);
  }

  /** Every debt entry on an account names one party. */
  predicate NamesOnly(ks: seq<KeyedEntry>, a: Account, p: Party) {
    forall i :: 0 <= i < |ks| && ks[i].entry.DebtEntry? && AccountOf(ks[i].entry) == a ==> ks[i].entry.party == p
  }

  /** An account that is of one party, if it exists, and nets to its balance. */
  predicate OneParty(b: Books, a: Account, p: Party) {
    NetsToBalance(b, a, p) && (a in b.balances ==> b.balances[a].book == BookOf(p))
  }

  lemma EntryKeepsOneParty(resolve: Resolver, b: Books, k: KeyedEntry, today: int, a: Account, p: Party)
    requires OneParty(b, a, p) && ApplyEntry(resolve, b, k, today).Applied? && NamesOnly([k], a, p)
    ensures OneParty(ApplyEntry(resolve, b, k, today).books, a, p)
  {
    var b' := ApplyEntry(resolve, b, k, today).books;
    if k.entry.DebtEntry? {
      assert [k][0] == k;
      EntryNetPush(b.debtEntries, b'.debtEntries[|b.debtEntries|], a);
      if AccountOf(k.entry) == a {
        DebtEntryKeepsNet(b, k.key, k.entry, today);
      }
    } else {
      OtherEntriesKeepDebtTables(resolve, b, k, today);
    }
  }

  /** A message whose entries on an account name one party keeps its entries netting to its
      balance, with that party's sign. */
  lemma {:induction false} EntriesKeepOneParty(resolve: Resolver, b: Books, ks: seq<KeyedEntry>, today: int, a: Account, p: Party)
    requires OneParty(b, a, p) && ApplyAll(resolve, b, ks, today).Applied? && NamesOnly(ks, a, p)
    ensures OneParty(ApplyAll(resolve, b, ks, today).books, a, p)
  {
    if ks != [] {
      var front, last := ks[..|ks| - 1], ks[|ks| - 1];
      EntriesKeepOneParty(resolve, b, front, today, a, p);
      assert NamesOnly([last], a, p);
      EntryKeepsOneParty(resolve, ApplyAll(resolve, b, front, today).books, last, today, a, p);
    }
  }

  /** A person entered again as the other kind of party: the balance adds the two debts while
      the entries offset them. */
  lemma SwitchingPartyBreaksEntries(b: Books, key: string, e: Entry, today: int)
    requires DebtAgrees(b) && e.DebtEntry? && e.debtAction == AddDebt && ApplyDebt(b, key, e, today).Applied?
    requires AccountOf(e) in b.balances && b.balances[AccountOf(e)].book != BookOf(e.party)
    requires EntryNet(b.debtEntries, AccountOf(e)) == Sign(b.balances[AccountOf(e)].book) * Outstanding(b, AccountOf(e))
    requires e.debtAmount.Some? && e.debtAmount.value > 0
    ensures var b', a := ApplyDebt(b, key, e, today).books, AccountOf(e);
            && DebtAgrees(b') && a in b'.balances
            && Outstanding(b', a) == Outstanding(b, a) + e.debtAmount.value
            && EntryNet(b'.debtEntries, a) != Sign(b'.balances[a].book) * Outstanding(b', a)
  {
    ApplyDebtKeepsAgreement(b, key, e, today);
    var b' := ApplyDebt(b, key, e, today).books;
    assert b'.debtEntries[..|b.debtEntries|] == b.debtEntries;
  }
}
