/** What holds after any series of requests to the ledger agent, whatever errors occur. */
module LedgerRunLaws {
  import opened Common
  import opened EventKeys
  import opened LedgerBooks
  import opened StockLaws
  import opened DebtLaws
  import opened KeyLaws
  import opened LedgerAgent

  /** One request, with what the ledger meets while handling it. */
  datatype Call = Call(event: EventId, request: LedgerRequest, authorised: bool, reviewer: Reviewer,
                       faults: seq<Fault>, today: int)

  function AfterCall(b: Books, c: Call): Books {
    Handled(b, c.event, c.request, c.authorised, c.reviewer, c.faults, c.today)
  }

  function AfterCalls(b: Books, calls: seq<Call>): Books {
    if calls == [] then b else AfterCall(AfterCalls(b, calls[..|calls| - 1]), calls[|calls| - 1])
  }

  /** Stock and debt records agree, and rows and markers belong together. */
  ghost predicate BooksAgree(b: Books) {
    StockAgrees(b) && DebtAgrees(b) && RowsAreMarked(b) && MarksHaveRows(b)
  }

  lemma MarkingKeepsRecords(b: Books, e: EventId)
    requires StockAgrees(b) && DebtAgrees(b)
    ensures StockAgrees(b.(processed := b.processed + {e})) && DebtAgrees(b.(processed := b.processed + {e}))
  {
    var b' := b.(processed := b.processed + {e});
    assert ProductNames(b') == ProductNames(b);
    SameDebtTables(b, b');
  }

  lemma RequestKeepsRecords(b: Books, e: EventId, r: LedgerRequest, today: int)
    requires StockAgrees(b) && DebtAgrees(b) && ApplyRequest(b, e, r, today).Applied?
    ensures StockAgrees(ApplyRequest(b, e, r, today).books) && DebtAgrees(ApplyRequest(b, e, r, today).books)
  {
    var ks := Entries(e, r);
    EntriesKeepStockAgreement(ResolverOf(b), b, ks, today);
    EntriesKeepDebtAgreement(ResolverOf(b), b, ks, today);
    MarkingKeepsRecords(ApplyAll(ResolverOf(b), b, ks, today).books, e);
  }

  lemma CallKeepsAgreement(b: Books, c: Call)
    requires BooksAgree(b)
    ensures BooksAgree(AfterCall(b, c))
  {
    if AfterCall(b, c) != b {
      RequestKeepsRecords(b, c.event, c.request, c.today);
      RequestKeepsRowsMarked(b, c.event, c.request, c.today);
      RequestKeepsMarksBacked(b, c.event, c.request, c.today);
    }
  }

  /** Starting from empty tables, the three stock records and the debt records agree after any
      series of requests, and every event is marked exactly when it has rows. */
  lemma {:induction false} BooksAlwaysAgree(calls: seq<Call>)
    ensures BooksAgree(AfterCalls(EMPTY, calls))
  {
    if calls == [] {
      assert ProductNames(EMPTY) == [];
    } else {
      BooksAlwaysAgree(calls[..|calls| - 1]);
      CallKeepsAgreement(AfterCalls(EMPTY, calls[..|calls| - 1]), calls[|calls| - 1]);
    }
  }

  /** After any series of requests the recovery probe finds an event exactly when it was
      processed. */
  lemma ProbeIsExact(calls: seq<Call>, e: EventId)
    ensures ProbeFinds(AfterCalls(EMPTY, calls), e) <==> e in AfterCalls(EMPTY, calls).processed
  {
    BooksAlwaysAgree(calls);
    ProbeAgreesWithMarker(AfterCalls(EMPTY, calls), e);
  }

  /** An entry that fails or needs clarification leaves no trace of the entries before it. */
  lemma FailingEntryLeavesNoTrace(b: Books, c: Call, k: nat)
    requires k < |Entries(c.event, c.request)|
    requires !ApplyAll(ResolverOf(b), b, Entries(c.event, c.request)[..k + 1], c.today).Applied?
    ensures AfterCall(b, c) == b
  {
    StopsAt(ResolverOf(b), b, Entries(c.event, c.request), k + 1, c.today);
  }

  /** Every call leaves the tables as they were or adds exactly the keys of its own entries to
      every keyed table, together with its marker. */
  lemma CallIsAllOrNothing(b: Books, c: Call)
    ensures var b' := AfterCall(b, c);
            || b' == b
            || (&& c.event !in b.processed && b'.processed == b.processed + {c.event}
                && forall table: Table :: Keys(b', table) == Keys(b, table) + KeysWritten(Entries(c.event, c.request), table))
  {
    if AfterCall(b, c) != b {
      RequestWritesItsKeys(b, c.event, c.request, c.today);
    }
  }

  /** Repeating an event, with any payload, changes nothing once it has been processed. */
  lemma {:induction false} ProcessedEventsAreInert(b: Books, calls: seq<Call>, e: EventId)
    requires e in b.processed && forall i :: 0 <= i < |calls| ==> calls[i].event == e
    ensures AfterCalls(b, calls) == b
  {
    if calls != [] {
      ProcessedEventsAreInert(b, calls[..|calls| - 1], e);
    }
  }

  /** After any series of requests in which every debt entry on an account names one party, the
      account's entries net to its balance, with that party's sign. */
  lemma {:induction false} OnePartyEntriesNetToBalance(calls: seq<Call>, a: Account, p: Party)
    requires forall i :: 0 <= i < |calls| ==> NamesOnly(Entries(calls[i].event, calls[i].request), a, p)
    ensures OneParty(AfterCalls(EMPTY, calls), a, p)
  {
    if calls != [] {
      var b, c := AfterCalls(EMPTY, calls[..|calls| - 1]), calls[|calls| - 1];
      OnePartyEntriesNetToBalance(calls[..|calls| - 1], a, p);
      if AfterCall(b, c) != b {
        EntriesKeepOneParty(ResolverOf(b), b, Entries(c.event, c.request), c.today, a, p);
      }
    }
  }

  /* ---------- review ---------- */

  /** The threshold rule holds back exactly the shorthand requests at or above it. */
  lemma RuleHoldsLargeShorthands(threshold: int, r: LedgerRequest)
    requires threshold > 0
    ensures !PassesReview(Rule(threshold), r)
            <==> r.Shorthand? && r.tx.Some? && r.tx.value.amount.Some? && r.tx.value.amount.value >= threshold
  {
  }

  /** Rows of shorthand requests carry a bare event id as their key. */
  predicate ShorthandRowsBelow(b: Books, threshold: int) {
    forall t | t in b.transactions :: |t.key| == 36 ==> t.amount < threshold
  }

  lemma ShorthandStaysBelow(b: Books, c: Call, threshold: int)
    requires ShorthandRowsBelow(b, threshold) && c.reviewer == Rule(threshold)
    requires c.request.Shorthand?
    ensures ShorthandRowsBelow(AfterCall(b, c), threshold)
  {
    if AfterCall(b, c) != b {
      AllOfOne(b, c.event, c.request.tx.value, c.today);
    }
  }

  lemma {:induction false} ItemsAddNoShorthandRow(resolve: Resolver, b: Books, ks: seq<KeyedEntry>, today: int, threshold: int)
    requires ShorthandRowsBelow(b, threshold) && forall i :: 0 <= i < |ks| ==> |ks[i].key| != 36
    requires ApplyAll(resolve, b, ks, today).Applied?
    ensures ShorthandRowsBelow(ApplyAll(resolve, b, ks, today).books, threshold)
  {
    if ks != [] {
      var n := |ks| - 1;
      ItemsAddNoShorthandRow(resolve, b, ks[..n], today, threshold);
      EntryAddsOwnRow(resolve, ApplyAll(resolve, b, ks[..n], today).books, ks[n], today);
    }
  }

  lemma CompoundStaysBelow(b: Books, c: Call, threshold: int)
    requires ShorthandRowsBelow(b, threshold) && c.request.Compound?
    ensures ShorthandRowsBelow(AfterCall(b, c), threshold)
  {
    if AfterCall(b, c) != b {
      var ks := Entries(c.event, c.request);
      forall i | 0 <= i < |ks| ensures |ks[i].key| != 36 {
        CompoundKey(c.event, c.request.parsed.value, i);
      }
      ItemsAddNoShorthandRow(ResolverOf(b), b, ks, c.today, threshold);
    }
  }

  /** An entry adds at most one transaction row, under its own key. */
  lemma EntryAddsOwnRow(resolve: Resolver, b: Books, k: KeyedEntry, today: int)
    requires ApplyEntry(resolve, b, k, today).Applied?
    ensures var b' := ApplyEntry(resolve, b, k, today).books;
            b'.transactions == b.transactions
            || exists t: TxRow :: b'.transactions == b.transactions + [t] && t.key == k.key
  {
  }

  /** With the threshold rule wired, no shorthand amount at or above the threshold is ever
      recorded, whatever the retries and the other requests. */
  lemma {:induction false} LargeShorthandsAreNeverRecorded(calls: seq<Call>, threshold: int)
    requires forall i :: 0 <= i < |calls| ==> calls[i].reviewer == Rule(threshold)
    ensures ShorthandRowsBelow(AfterCalls(EMPTY, calls), threshold)
  {
    if calls != [] {
      var b, c := AfterCalls(EMPTY, calls[..|calls| - 1]), calls[|calls| - 1];
      LargeShorthandsAreNeverRecorded(calls[..|calls| - 1], threshold);
      if c.request.Shorthand? {
        ShorthandStaysBelow(b, c, threshold);
      } else {
        CompoundStaysBelow(b, c, threshold);
      }
    }
  }

  /** A compound message with one sale of a given amount. */
  function CompoundSale(amount: int): LedgerRequest {
    Compound(Some(Parsed([TxEntry(Income, Sale, Some(amount), "NGN", 0)], [], [], false)))
  }

  /** The same amount in a compound message passes the rule and is recorded: its proposal
      carries counts, not amounts. */
  lemma LargeCompoundAmountsAreRecorded(threshold: int, e: EventId)
    ensures exists c: Call ::
              c.reviewer == Rule(threshold) && c.event == e && |c.faults| == MAX_ATTEMPTS && c.request == CompoundSale(threshold)
              && exists t :: t in AfterCall(EMPTY, c).transactions && t.amount >= threshold
  {
    var entry := TxEntry(Income, Sale, Some(threshold), "NGN", 0);
    var c := Call(e, CompoundSale(threshold), true, Rule(threshold), [NoFault, NoFault, NoFault, NoFault], 0);
    var ks := Entries(e, c.request);
    assert ks == [KeyedEntry(ItemKey(e, Tx, 0), entry)] && ks[..0] == [];
    var row := TxRow(ItemKey(e, Tx, 0), Income, Sale, threshold, "NGN", 0);
    assert Keys(EMPTY, Transactions) == [];
    assert ApplyAll(ResolverOf(EMPTY), EMPTY, [], 0) == Applied(EMPTY);
    assert ReachesCommit(|ks|, c.faults[0]);
    assert AfterCall(EMPTY, c).transactions == [row];
    assert row in AfterCall(EMPTY, c).transactions;
  }
}
