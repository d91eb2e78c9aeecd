/** Which keys the ledger's rows carry, and what that makes of the processed-event marker. */
module KeyLaws {
  import opened Common
  import opened EventKeys
  import opened LedgerBooks

  predicate WritesTo(e: Entry, table: Table) {
    match e
    case TxEntry(_, _, _, _, _) => table == Transactions
    case StockEntry(_, _, _) => table == Movements || table == StockMoves
    case DebtEntry(_, _, _, _, _) => table == DebtEntries || table == Transactions || table == DebtLogs
  }

  /** The keys that a list of entries adds to one table. */
  function KeysWritten(ks: seq<KeyedEntry>, table: Table): seq<string> {
    if ks == [] then []
    else
      var k := ks[|ks| - 1];
      KeysWritten(ks[..|ks| - 1], table) + if WritesTo(k.entry, table) then [k.key] else []
  }

  lemma EntryWritesItsKeys(resolve: Resolver, b: Books, k: KeyedEntry, today: int, table: Table)
    requires ApplyEntry(resolve, b, k, today).Applied?
    ensures Keys(ApplyEntry(resolve, b, k, today).books, table)
            == Keys(b, table) + if WritesTo(k.entry, table) then [k.key] else []
  {
    match k.entry
    case TxEntry(_, _, _, _, _) =>
    case DebtEntry(_, _, _, _, _) =>
    case StockEntry(_, _, _) =>
      match resolve(k.entry.product)
      case Matched(c) => StockWritesItsKeys(b, k.key, c.name, k.entry, table);
      case NoMatch => StockWritesItsKeys(b, k.key, k.entry.product, k.entry, table);
      case ClarificationNeeded(_) =>
  }

  lemma StockWritesItsKeys(b: Books, key: string, name: string, e: Entry, table: Table)
    requires e.StockEntry? && MoveStock(b, key, name, e).Applied?
    ensures Keys(MoveStock(b, key, name, e).books, table) == Keys(b, table) + if WritesTo(e, table) then [key] else []
  {
  }

  lemma EntryKeepsMarks(resolve: Resolver, b: Books, k: KeyedEntry, today: int)
    requires ApplyEntry(resolve, b, k, today).Applied?
    ensures ApplyEntry(resolve, b, k, today).books.processed == b.processed
  {
  }

  /** A message whose entries all succeed adds, to every keyed table, exactly the keys of its
      entries, in order and once each. */
  lemma {:induction false} EntriesWriteTheirKeys(resolve: Resolver, b: Books, ks: seq<KeyedEntry>, today: int, table: Table)
    requires ApplyAll(resolve, b, ks, today).Applied?
    ensures Keys(ApplyAll(resolve, b, ks, today).books, table) == Keys(b, table) + KeysWritten(ks, table)
    ensures ApplyAll(resolve, b, ks, today).books.processed == b.processed
  {
    if ks != [] {
      var front, last := ks[..|ks| - 1], ks[|ks| - 1];
      EntriesWriteTheirKeys(resolve, b, front, today, table);
      var b' := ApplyAll(resolve, b, front, today).books;
      assert ApplyAll(resolve, b, ks, today) == ApplyEntry(resolve, b', last, today);
      EntryWritesItsKeys(resolve, b', last, today, table);
      EntryKeepsMarks(resolve, b', last, today);
    }
  }

  /** Which list an entry of a compound message comes from, and where it stands there. */
  function KindAt(p: Message, i: nat): Kind {
    if i < |p.txs| then Tx else if i < |p.txs| + |p.stock| then Inv else Debt
  }

  function PlaceAt(p: Message, i: nat): nat {
    if i < |p.txs| then i else if i < |p.txs| + |p.stock| then i - |p.txs| else i - |p.txs| - |p.stock|
  }

  lemma CompoundKey(e: EventId, p: Message, i: nat)
    requires i < |p.txs| + |p.stock| + |p.debts|
    ensures |Entries(e, Compound(Some(p)))| == |p.txs| + |p.stock| + |p.debts|
    ensures Entries(e, Compound(Some(p)))[i].key == ItemKey(e, KindAt(p, i), PlaceAt(p, i))
  {
  }

  lemma EntryOwner(e: EventId, r: LedgerRequest, i: nat)
    requires i < |Entries(e, r)|
    ensures IsRowKey(Entries(e, r)[i].key) && Owner(Entries(e, r)[i].key) == e
  {
    match r
    case Shorthand(Some(tx)) =>
      assert e[..36] == e;
    case Compound(Some(p)) =>
      CompoundKey(e, p, i);
      ItemKeyOwner(e, KindAt(p, i), PlaceAt(p, i));
  }

  /** The keys of one message are pairwise distinct. */
  lemma EntryKeysDistinct(e: EventId, r: LedgerRequest, i: nat, j: nat)
    requires i < j < |Entries(e, r)|
    ensures Entries(e, r)[i].key != Entries(e, r)[j].key
  {
    if r.Compound? && r.parsed.Some? {
      var p := r.parsed.value;
      CompoundKey(e, p, i);
      CompoundKey(e, p, j);
      if Entries(e, r)[i].key == Entries(e, r)[j].key {
        ItemKeyInjective(e, KindAt(p, i), PlaceAt(p, i), e, KindAt(p, j), PlaceAt(p, j));
      }
    }
  }

  lemma {:induction false} KeysWrittenMembers(ks: seq<KeyedEntry>, table: Table)
    ensures forall key :: key in KeysWritten(ks, table) <==>
              exists i :: 0 <= i < |ks| && ks[i].key == key && WritesTo(ks[i].entry, table)
  {
    if ks != [] {
      var n := |ks| - 1;
      KeysWrittenMembers(ks[..n], table);
      forall key ensures key in KeysWritten(ks, table) <==>
                         exists i :: 0 <= i < |ks| && ks[i].key == key && WritesTo(ks[i].entry, table)
      {
        if i :| 0 <= i < |ks| && ks[i].key == key && WritesTo(ks[i].entry, table) {
          if i < n {
            assert ks[..n][i] == ks[i];
          }
        }
      }
    }
  }

  /** The rows of every table belong to processed events. */
  ghost predicate RowsAreMarked(b: Books) {
    forall table: Table, key :: key in Keys(b, table) ==> IsRowKey(key) && Owner(key) in b.processed
  }

  /** Every processed event has a row in one of the tables that the recovery probe reads. */
  ghost predicate MarksHaveRows(b: Books) {
    forall e :: e in b.processed ==>
      exists table: Table, key :: Probed(table) && key in Keys(b, table) && IsRowKey(key) && Owner(key) == e
  }

  predicate Probed(table: Table) {
    table == Transactions || table == StockMoves || table == DebtLogs
  }

  /** The recovery probe: does any row key in the three tables match the event's pattern? */
  ghost predicate ProbeFinds(b: Books, e: EventId) {
    exists table: Table, key :: Probed(table) && key in Keys(b, table) && Like(key, e + "%")
  }

  /** The recovery probe agrees with the idempotency marker. */
  lemma ProbeAgreesWithMarker(b: Books, e: EventId)
    requires RowsAreMarked(b) && MarksHaveRows(b)
    ensures ProbeFinds(b, e) <==> e in b.processed
  {
    if table: Table, key :| Probed(table) && key in Keys(b, table) && Like(key, e + "%") {
      ProbeMatchesOwner(key, e);
    }
    if e in b.processed {
      var table: Table, key :| Probed(table) && key in Keys(b, table) && IsRowKey(key) && Owner(key) == e;
      ProbeMatchesOwner(key, e);
    }
  }

  /** All the keys of a committed request are added, and its marker. */
  lemma RequestWritesItsKeys(b: Books, e: EventId, r: LedgerRequest, today: int)
    requires ApplyRequest(b, e, r, today).Applied?
    ensures var b' := ApplyRequest(b, e, r, today).books;
            && b'.processed == b.processed + {e}
            && forall table: Table :: Keys(b', table) == Keys(b, table) + KeysWritten(Entries(e, r), table)
  {
    var ks := Entries(e, r);
    var b1 := ApplyAll(ResolverOf(b), b, ks, today).books;
    var b' := ApplyRequest(b, e, r, today).books;
    EntriesWriteTheirKeys(ResolverOf(b), b, ks, today, Transactions);
    forall table: Table ensures Keys(b', table) == Keys(b, table) + KeysWritten(ks, table) {
      EntriesWriteTheirKeys(ResolverOf(b), b, ks, today, table);
      assert Keys(b', table) == Keys(b1, table);
    }
  }

  lemma WrittenKeysAreOwned(e: EventId, r: LedgerRequest, table: Table, key: string)
    requires key in KeysWritten(Entries(e, r), table)
    ensures IsRowKey(key) && Owner(key) == e
  {
    var ks := Entries(e, r);
    KeysWrittenMembers(ks, table);
    var i :| 0 <= i < |ks| && ks[i].key == key;
    EntryOwner(e, r, i);
  }

  lemma AddedRowsAreMarked(b: Books, b': Books, e: EventId, r: LedgerRequest, table: Table, key: string)
    requires RowsAreMarked(b) && b'.processed == b.processed + {e}
    requires Keys(b', table) == Keys(b, table) + KeysWritten(Entries(e, r), table)
    requires key in Keys(b', table)
    ensures IsRowKey(key) && Owner(key) in b'.processed
  {
    if key !in Keys(b, table) {
      WrittenKeysAreOwned(e, r, table, key);
    }
  }

  /** A committed request keeps every row marked. */
  lemma RequestKeepsRowsMarked(b: Books, e: EventId, r: LedgerRequest, today: int)
    requires RowsAreMarked(b) && ApplyRequest(b, e, r, today).Applied?
    ensures RowsAreMarked(ApplyRequest(b, e, r, today).books)
  {
    RequestWritesItsKeys(b, e, r, today);
    forall table: Table, key | key in Keys(ApplyRequest(b, e, r, today).books, table)
      ensures IsRowKey(key) && Owner(key) in ApplyRequest(b, e, r, today).books.processed
    {
      AddedRowsAreMarked(b, ApplyRequest(b, e, r, today).books, e, r, table, key);
    }
  }

  /** A committed mutating request keeps a probed row behind every marker. */
  lemma RequestKeepsMarksBacked(b: Books, e: EventId, r: LedgerRequest, today: int)
    requires MarksHaveRows(b) && Mutating(r) && ApplyRequest(b, e, r, today).Applied?
    ensures MarksHaveRows(ApplyRequest(b, e, r, today).books)
  {
    var b' := ApplyRequest(b, e, r, today).books;
    var ks := Entries(e, r);
    RequestWritesItsKeys(b, e, r, today);
    forall e' | e' in b'.processed
      ensures exists table: Table, key :: Probed(table) && key in Keys(b', table) && IsRowKey(key) && Owner(key) == e'
    {
      if e' in b.processed {
        var table: Table, key :| Probed(table) && key in Keys(b, table) && IsRowKey(key) && Owner(key) == e';
        assert key in Keys(b', table);
      } else {
        MutatingWritesProbedRow(e, r);
        var i, table: Table :| 0 <= i < |ks| && Probed(table) && WritesTo(ks[i].entry, table);
        KeysWrittenMembers(ks, table);
        WrittenKeysAreOwned(e, r, table, ks[i].key);
        assert ks[i].key in Keys(b', table);
      }
    }
  }

  lemma MutatingWritesProbedRow(e: EventId, r: LedgerRequest)
    requires Mutating(r)
    ensures exists i, table: Table :: 0 <= i < |Entries(e, r)| && Probed(table) && WritesTo(Entries(e, r)[i].entry, table)
  {
    var ks := Entries(e, r);
    assert |ks| > 0;
    var table := match ks[0].entry case StockEntry(_, _, _) => StockMoves case _ => Transactions;
    assert Probed(table) && WritesTo(ks[0].entry, table);
  }

  /** An event without a marker never meets a duplicate key: its own keys are all new. */
  lemma NewEventsMeetNoDuplicates(b: Books, e: EventId, r: LedgerRequest, i: nat, table: Table)
    requires RowsAreMarked(b) && e !in b.processed && i < |Entries(e, r)|
    ensures Entries(e, r)[i].key !in Keys(b, table)
  {
    EntryOwner(e, r, i);
  }
}
