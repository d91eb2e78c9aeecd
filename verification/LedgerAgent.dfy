/** The ledger agent: it reviews a request, then writes all of its entries and the
    processed-event marker in one database transaction, retrying transient errors. */
module LedgerAgent {
  import opened Common
  import opened EventKeys
  import opened LedgerBooks

  /* ---------- review ---------- */

  datatype Proposal = ShorthandWrite(amount: int) | CompoundWrite(txs: nat, stock: nat, debts: nat)

  /** The reviewer as the ledger sees it: the threshold rule, some other verdict that was
      collected, or no verdict within the timeout. */
  datatype Reviewer = Rule(threshold: int) | Says(approved: bool) | Silent(defaultAllow: bool)

  /** The envelope sent for review; none for requests that write nothing. */
  function ReviewProposal(r: LedgerRequest): Option<Proposal> {
    match r
    case Shorthand(Some(tx)) => Some(ShorthandWrite(match tx.amount case Some(a) => a case None => 0))
    case Compound(Some(p)) =>
      if p.txs != [] || p.stock != [] || p.debts != [] then Some(CompoundWrite(|p.txs|, |p.stock|, |p.debts|)) else None
    case _ => None
  }

  /** The deterministic rule: only a proposal that carries an amount can be held. */
  predicate PassesRule(threshold: int, p: Proposal) {
    p.ShorthandWrite? ==> p.amount < threshold
  }

  predicate Approves(reviewer: Reviewer, p: Proposal) {
    match reviewer
    case Rule(threshold) => PassesRule(threshold, p)
    case Says(approved) => approved
    case Silent(defaultAllow) => defaultAllow
  }

  predicate PassesReview(reviewer: Reviewer, r: LedgerRequest) {
    match ReviewProposal(r) case None => true case Some(p) => Approves(reviewer, p)
  }

  /* ---------- faults ---------- */

  /** What goes wrong in one attempt. A transient error has one of the four retried codes. An
      error while writing an entry of a compound message is handled where it occurs; the retry
      loop sees an error only when the rollback there fails as well, and that error is then the
      one that is transient or not. */
  datatype Fault =
    | NoFault
    | ConnectionRefused
    | BeforeWrites(transient: bool)
    | AtEntry(index: nat, transient: bool, rollbackFails: bool)
    | AtMarker(transient: bool)
    | AtCommit(transient: bool, durable: bool)
    | AfterCommit(transient: bool)

  const MAX_ATTEMPTS: nat := 4

  /** Does an attempt with this fault make its transaction durable? */
  predicate ReachesCommit(entries: nat, f: Fault) {
    match f
    case NoFault => true
    case AtEntry(index, _, _) => index >= entries
    case AtCommit(_, durable) => durable
    case AfterCommit(_) => true
    case _ => false
  }

  /** Does the fault send the attempt back to the retry loop? */
  predicate Retries(r: LedgerRequest, entries: nat, f: Fault) {
    match f
    case NoFault => false
    case ConnectionRefused => false
    case BeforeWrites(transient) => transient
    case AtEntry(index, transient, rollbackFails) => index < entries && transient && (r.Shorthand? || rollbackFails)
    case AtMarker(transient) => transient
    case AtCommit(transient, _) => transient
    case AfterCommit(transient) => transient
  }

  /** The request can be written to these tables. */
  predicate Writable(b: Books, e: EventId, r: LedgerRequest, today: int) {
    e !in b.processed && Mutating(r) && ApplyRequest(b, e, r, today).Applied?
  }

  /** Some attempt commits, and every attempt before it was retried. */
  predicate SomeAttemptCommits(r: LedgerRequest, entries: nat, faults: seq<Fault>) {
    exists k | 0 <= k < |faults| ::
      ReachesCommit(entries, faults[k]) && forall j | 0 <= j < k :: Retries(r, entries, faults[j])
  }

  /* ---------- replies ---------- */

  datatype Reply =
    | Unauthorised | Held | AlreadyProcessed | MissingData | ReadOnlyDone
    | Recorded | EntryFailed | EntryUnclear | NothingToDo | DeadLettered | Raised

  datatype CfoMessage = Rejection | Success | Error

  /** Replies that promise nothing was written. */
  predicate PromisesNothingWritten(r: Reply) {
    r in {Unauthorised, Held, MissingData, ReadOnlyDone, EntryFailed, EntryUnclear, NothingToDo}
  }

  /* ---------- the database ---------- */

  class Database {
    var committed: Books
    var working: Books

    constructor (b: Books)
      ensures committed == b && working == b
    {
      committed, working := b, b;
    }

    /** Opens a transaction, or drops the open one. */
    method Restart()
      modifies this`working
      ensures working == committed
    {
      working := committed;
    }

    method Commit()
      modifies this`committed
      ensures committed == working
    {
      committed := working;
    }
  }

  datatype Written = Ok | Unclear | Bad

  predicate Matches(w: Written, o: Outcome) {
    match o case Applied(_) => w == Ok case Clarify => w == Unclear case Failed => w == Bad
  }

  datatype Attempt = Finished(reply: Reply) | Retry

  /** The outcomes of an attempt that came to writing. */
  predicate Writes(a: Attempt) {
    a.Finished? ==> a.reply == Recorded || a.reply == EntryFailed || a.reply == EntryUnclear || a.reply == DeadLettered
  }

  /** What an attempt sends to the CFO: nothing, or one message. */
  function Emitted(a: Attempt): seq<CfoMessage> {
    match a
    case Retry => []
    case Finished(reply) =>
      if reply == Recorded || reply == ReadOnlyDone then [Success]
      else if reply == EntryFailed || reply == DeadLettered then [Error]
      else if reply == Held then [Rejection]
      else []
  }

  /** The tables after one attempt. */
  function AfterAttempt(b: Books, e: EventId, r: LedgerRequest, f: Fault, today: int): Books {
    if Writable(b, e, r, today) && ReachesCommit(|Entries(e, r)|, f) then ApplyRequest(b, e, r, today).books else b
  }

  /** The tables after all attempts. */
  function AfterAttempts(b: Books, e: EventId, r: LedgerRequest, faults: seq<Fault>, today: int): Books {
    if Writable(b, e, r, today) && SomeAttemptCommits(r, |Entries(e, r)|, faults)
    then ApplyRequest(b, e, r, today).books else b
  }

  /** The tables after a request is handled. */
  function Handled(b: Books, e: EventId, r: LedgerRequest, authorised: bool, reviewer: Reviewer,
                   faults: seq<Fault>, today: int): Books {
    if authorised && PassesReview(reviewer, r) then AfterAttempts(b, e, r, faults, today) else b
  }

  /** What a reply lets its reader conclude about the tables. */
  predicate Honest(a: Attempt, before: Books, after: Books, e: EventId) {
    a.Finished? ==>
      && (a.reply == Recorded ==> e !in before.processed && e in after.processed)
      && (a.reply == AlreadyProcessed ==> e in before.processed)
      && (PromisesNothingWritten(a.reply) ==> after == before && e !in before.processed)
  }

  /** What the first entries of a message come to, for each number of them. */
  ghost predicate AreOutcomes(os: seq<Outcome>, committed: Books, ks: seq<KeyedEntry>, today: int) {
    |os| == |ks| + 1
    && forall i {:trigger ks[..i]} :: 0 <= i <= |ks| ==> os[i] == ApplyAll(ResolverOf(committed), committed, ks[..i], today)
  }

  /** Why a message may stop: a fault at an entry, or an entry that does not apply. */
  predicate Stopped(a: Attempt, whole: Outcome, entries: nat, f: Fault) {
    var faulted := f.AtEntry? && f.index < entries;
    match a
    case Retry => faulted && f.rollbackFails && f.transient
    case Finished(reply) =>
      if reply == DeadLettered then faulted && f.rollbackFails && !f.transient
      else (reply == EntryFailed || reply == EntryUnclear) && (whole.Applied? ==> faulted && !f.rollbackFails)
  }

  class LedgerAgent {
    const db: Database
    var toCfo: seq<CfoMessage>

    constructor (db: Database)
      ensures this.db == db && toCfo == []
    {
      this.db, toCfo := db, [];
    }

    method EmitToCfo(m: CfoMessage)
      modifies this`toCfo
      ensures toCfo == old(toCfo) + [m]
    {
      toCfo := toCfo + [m];
    }

    /** One transaction row and its legacy record. */
    method RecordTransaction(key: string, e: Entry) returns (w: Written)
      requires e.TxEntry?
      modifies db`working
      ensures Matches(w, ApplyTx(old(db.working), key, e))
      ensures w == Ok ==> Applied(db.working) == ApplyTx(old(db.working), key, e)
    {
      if e.amount.None? || key in Keys(db.working, Transactions) {
        return Bad;
      }
      var amount := e.amount.value;
      db.working := db.working.(transactions := db.working.transactions + [TxRow(key, e.flow, e.action, amount, e.currency, e.date)]);
      db.working := db.working.(records := db.working.records + [WholeNaira(amount)]);
      w := Ok;
    }

    /** One stock movement, with its product row and legacy log row. */
    method ProcessInventory(key: string, e: Entry) returns (w: Written)
      requires e.StockEntry?
      modifies db`working
      ensures Matches(w, ApplyStock(ResolverOf(db.committed), old(db.working), key, e))
      ensures w == Ok ==> Applied(db.working) == ApplyStock(ResolverOf(db.committed), old(db.working), key, e)
    {
      if e.product == "" {
        return Bad;
      }
      var name := e.product;
      var resolved := ResolverOf(db.committed)(e.product);
      if resolved.ClarificationNeeded? {
        return Unclear;
      }
      if resolved.Matched? {
        name := resolved.item.name;
      }
      ghost var before := db.working;
      var found := Find(db.working.items, name);
      var item: nat;
      if found.Some? {
        item := found.value;
      } else {
        item := |db.working.items|;
        db.working := db.working.(items := db.working.items + [name]);
      }
      var current := Level(db.working.movements, item);
      if key in Keys(db.working, Movements) {
        assert Keys(db.working, Movements) == Keys(before, Movements);
        return Bad;
      }
      db.working := db.working.(movements := db.working.movements + [MovementFor(key, item, current, e.stockAction, e.quantity)]);
      var product: nat;
      var row := ProductRow(name, NewLevel(current, e.stockAction, e.quantity));
      var known := Find(ProductNames(db.working), name);
      if known.Some? {
        product := known.value;
        db.working := db.working.(products := db.working.products[product := row]);
      } else {
        product := |db.working.products|;
        db.working := db.working.(products := db.working.products + [row]);
      }
      assert Keys(db.working, StockMoves) == Keys(before, StockMoves);
      if key in Keys(db.working, StockMoves) {
        return Bad;
      }
      db.working := db.working.(stockMoves := db.working.stockMoves + [StockMoveRow(key, product, LegacyAction(e.stockAction), e.quantity)]);
      w := Ok;
    }

    /** One debt movement: entry, audit transaction, running balance, log. */
    method ProcessDebt(key: string, e: Entry, today: int) returns (w: Written)
      requires e.DebtEntry?
      modifies db`working
      ensures Matches(w, ApplyDebt(old(db.working), key, e, today))
      ensures w == Ok ==> Applied(db.working) == ApplyDebt(old(db.working), key, e, today)
    {
      if e.person == "" {
        return Bad;
      }
      var account := AccountOf(e);
      var previous := Outstanding(db.working, account);
      var book := if account in db.working.balances then db.working.balances[account].book else BookOf(e.party);
      var amount := DebtAmount(e, previous);
      ghost var before := db.working;
      if key in Keys(db.working, DebtEntries) {
        return Bad;
      }
      db.working := db.working.(debtEntries := db.working.debtEntries + [DebtEntryRow(key, account, EntryBook(e.party, e.debtAction), amount)]);
      assert Keys(db.working, Transactions) == Keys(before, Transactions);
      if key in Keys(db.working, Transactions) {
        return Bad;
      }
      var flow := if e.party == Customer then Income else Expense;
      var action := if e.debtAction == AddDebt then Sale else Payment;
      db.working := db.working.(transactions := db.working.transactions + [TxRow(key, flow, action, amount, account.currency, today)]);
      var next := NewBalance(e.debtAction, previous, amount);
      db.working := db.working.(balances := db.working.balances[account := BalanceRow(book, next)]);
      assert Keys(db.working, DebtLogs) == Keys(before, DebtLogs);
      if key in Keys(db.working, DebtLogs) {
        return Bad;
      }
      db.working := db.working.(debtLogs := db.working.debtLogs + [DebtLogRow(key, account, book, e.debtAction, amount, previous, next)]);
      w := Ok;
    }

    /** One entry of a compound message, which an injected fault may interrupt. */
    method WriteEntry(k: KeyedEntry, today: int) returns (w: Written)
      modifies db`working
      ensures Matches(w, ApplyEntry(ResolverOf(db.committed), old(db.working), k, today))
      ensures w == Ok ==> Applied(db.working) == ApplyEntry(ResolverOf(db.committed), old(db.working), k, today)
    {
      match k.entry
      case TxEntry(_, _, _, _, _) => w := RecordTransaction(k.key, k.entry);
      case StockEntry(_, _, _) => w := ProcessInventory(k.key, k.entry);
      case DebtEntry(_, _, _, _, _) => w := ProcessDebt(k.key, k.entry, today);
    }

    /** The entry at one position, after all the entries before it. */
    method WriteNext(ks: seq<KeyedEntry>, i: nat, today: int, ghost os: seq<Outcome>) returns (w: Written)
      requires i < |ks| && AreOutcomes(os, db.committed, ks, today) && os[i] == Applied(db.working)
      modifies db`working
      ensures w == Ok ==> os[i + 1] == Applied(db.working)
      ensures w != Ok ==> !os[|ks|].Applied?
    {
      NextEntry(ResolverOf(db.committed), db.committed, ks, i, today, db.working);
      w := WriteEntry(ks[i], today);
      if w != Ok {
        StopsAt(ResolverOf(db.committed), db.committed, ks, i + 1, today);
        assert ks[..|ks|] == ks;
      }
    }

    /** The three entry loops of a compound message; Some(attempt) if one of them was cut
        short. */
    method WriteCompound(e: EventId, p: Message, f: Fault, today: int) returns (stopped: Option<Attempt>)
      requires db.working == db.committed
      modifies db`working, this`toCfo
      ensures var ks := Entries(e, Compound(Some(p)));
              var whole := ApplyAll(ResolverOf(db.committed), db.committed, ks, today);
              && (stopped.None? ==> whole == Applied(db.working) && (f.AtEntry? ==> |ks| <= f.index) && toCfo == old(toCfo))
              && (stopped.Some? ==> Stopped(stopped.value, whole, |ks|, f) && toCfo == old(toCfo) + Emitted(stopped.value))
    {
      var ks := Entries(e, Compound(Some(p)));
      var n := |p.txs| + |p.stock|;
      ghost var os := Outcomes(db.committed, ks, today);
      stopped := WriteList(ks, 0, |p.txs|, f, today, os);
      if stopped.None? {
        stopped := WriteList(ks, |p.txs|, n, f, today, os);
      }
      if stopped.None? {
        stopped := WriteList(ks, n, |ks|, f, today, os);
      }
    }

    /** One of the loops: the entries from one position to another. */
    method WriteList(ks: seq<KeyedEntry>, lo: nat, hi: nat, f: Fault, today: int, ghost os: seq<Outcome>)
      returns (stopped: Option<Attempt>)
      requires lo <= hi <= |ks| && AreOutcomes(os, db.committed, ks, today) && os[lo] == Applied(db.working)
      requires f.AtEntry? ==> lo <= f.index
      modifies db`working, this`toCfo
      ensures stopped.None? ==> os[hi] == Applied(db.working) && (f.AtEntry? ==> hi <= f.index) && toCfo == old(toCfo)
      ensures stopped.Some? ==> Stopped(stopped.value, os[|ks|], |ks|, f) && toCfo == old(toCfo) + Emitted(stopped.value)
    {
      stopped := None;
      for i := lo to hi
        invariant os[i] == Applied(db.working) && (f.AtEntry? ==> i <= f.index)
        invariant stopped.None? && toCfo == old(toCfo)
      {
        stopped := WriteOne(ks, i, f, today, os);
        if stopped.Some? {
          return;
        }
      }
    }

    /** One round of a loop. */
    method WriteOne(ks: seq<KeyedEntry>, i: nat, f: Fault, today: int, ghost os: seq<Outcome>) returns (stopped: Option<Attempt>)
      requires i < |ks| && AreOutcomes(os, db.committed, ks, today) && os[i] == Applied(db.working)
      modifies db`working, this`toCfo
      ensures stopped.None? ==> os[i + 1] == Applied(db.working) && !(f.AtEntry? && f.index == i) && toCfo == old(toCfo)
      ensures stopped.Some? ==> Stopped(stopped.value, os[|ks|], |ks|, f) && toCfo == old(toCfo) + Emitted(stopped.value)
    {
      var w := Bad;
      if f.AtEntry? && f.index == i {
        if f.rollbackFails {
          var a := OnError(f.transient);
          return Some(a);
        }
      } else {
        w := WriteNext(ks, i, today, os);
        if w == Ok {
          return None;
        }
      }
      if w == Unclear {
        return Some(Finished(EntryUnclear));
      }
      EmitToCfo(Error);
      stopped := Some(Finished(EntryFailed));
    }

    /** One pass through the try block: the transaction from the idempotency check to the
        post-commit work. */
    method RunAttempt(e: EventId, r: LedgerRequest, f: Fault, today: int) returns (a: Attempt)
      modifies db, this`toCfo
      ensures db.committed == AfterAttempt(old(db.committed), e, r, f, today)
      ensures Writable(old(db.committed), e, r, today) ==> (a.Retry? <==> Retries(r, |Entries(e, r)|, f))
      ensures Honest(a, old(db.committed), db.committed, e)
      ensures a == Finished(ReadOnlyDone) ==> !Mutating(r)
      ensures f == NoFault ==> && (a == Finished(Recorded) <==> Writable(old(db.committed), e, r, today))
                               && (a == Finished(AlreadyProcessed) <==> e in old(db.committed).processed) && a.Finished?
      ensures a.Finished? ==> a.reply != Unauthorised && a.reply != Held
      ensures toCfo == old(toCfo) + Emitted(a)
    {
      if f.ConnectionRefused? {
        return Finished(Raised);
      }
      db.Restart();
      if f.BeforeWrites? {
        a := OnError(f.transient);
        return;
      }
      if e in db.working.processed {
        return Finished(AlreadyProcessed);
      }
      if (r.Shorthand? && r.tx.None?) || (r.Compound? && r.parsed.None?) {
        return Finished(MissingData);
      }
      if !Mutating(r) {
        if r.parsed.value.readOnly {
          EmitToCfo(Success);
          return Finished(ReadOnlyDone);
        }
        return Finished(NothingToDo);
      }
      if r.Shorthand? {
        a := RunShorthand(e, r.tx.value, f, today);
      } else {
        a := RunCompound(e, r.parsed.value, f, today);
      }
    }

    method RunShorthand(e: EventId, tx: Entry, f: Fault, today: int) returns (a: Attempt)
      requires tx.TxEntry? && db.working == db.committed && e !in db.committed.processed
      requires !f.ConnectionRefused? && !f.BeforeWrites?
      modifies db, this`toCfo
      ensures db.committed == AfterAttempt(old(db.committed), e, Shorthand(Some(tx)), f, today)
      ensures Writable(old(db.committed), e, Shorthand(Some(tx)), today) ==> (a.Retry? <==> Retries(Shorthand(Some(tx)), 1, f))
      ensures Honest(a, old(db.committed), db.committed, e) && Writes(a)
      ensures f == NoFault ==> a.Finished? && (a.reply == Recorded <==> ApplyRequest(old(db.committed), e, Shorthand(Some(tx)), today).Applied?)
      ensures toCfo == old(toCfo) + Emitted(a)
    {
      AllOfOne(db.committed, e, tx, today);
      if f.AtEntry? && f.index == 0 {
        a := OnError(f.transient);
        return;
      }
      var w := RecordTransaction(e, tx);
      if w != Ok {
        a := OnError(false);
        return;
      }
      a := Conclude(e, f);
    }

    method RunCompound(e: EventId, p: Message, f: Fault, today: int) returns (a: Attempt)
      requires Mutating(Compound(Some(p))) && db.working == db.committed && e !in db.committed.processed
      requires !f.ConnectionRefused? && !f.BeforeWrites?
      modifies db, this`toCfo
      ensures db.committed == AfterAttempt(old(db.committed), e, Compound(Some(p)), f, today)
      ensures Writable(old(db.committed), e, Compound(Some(p)), today) ==>
                (a.Retry? <==> Retries(Compound(Some(p)), |Entries(e, Compound(Some(p)))|, f))
      ensures Honest(a, old(db.committed), db.committed, e) && Writes(a)
      ensures f == NoFault ==>
                a.Finished? && (a.reply == Recorded <==> ApplyRequest(old(db.committed), e, Compound(Some(p)), today).Applied?)
      ensures toCfo == old(toCfo) + Emitted(a)
    {
      var stopped := WriteCompound(e, p, f, today);
      if stopped.Some? {
        db.Restart();
        return stopped.value;
      }
      a := Conclude(e, f);
    }

    /** The marker, the commit, and what follows it. */
    method Conclude(e: EventId, f: Fault) returns (a: Attempt)
      modifies db, this`toCfo
      ensures db.committed == (if f.AtMarker? || (f.AtCommit? && !f.durable) then old(db.committed)
                               else old(db.working).(processed := old(db.working).processed + {e}))
      ensures a.Retry? <==> (f.AtMarker? || f.AtCommit? || f.AfterCommit?) && f.transient
      ensures a.Finished? ==> a.reply == (if f.AtMarker? || f.AtCommit? || f.AfterCommit? then DeadLettered else Recorded)
      ensures toCfo == old(toCfo) + Emitted(a)
    {
      if f.AtMarker? {
        a := OnError(f.transient);
        return;
      }
      db.working := db.working.(processed := db.working.processed + {e});
      if f.AtCommit? && !f.durable {
        a := OnError(f.transient);
        return;
      }
      db.Commit();
      if f.AtCommit? || f.AfterCommit? {
        a := OnError(f.transient);
        return;
      }
      EmitToCfo(Success);
      a := Finished(Recorded);
    }

    /** The error handlers around an attempt: roll back, then either go round again or report. */
    method OnError(transient: bool) returns (a: Attempt)
      modifies db`working, this`toCfo
      ensures db.working == db.committed
      ensures a == if transient then Retry else Finished(DeadLettered)
      ensures toCfo == old(toCfo) + if transient then [] else [Error]
    {
      db.Restart();
      if transient {
        return Retry;
      }
      EmitToCfo(Error);
      a := Finished(DeadLettered);
    }

    /** A request from the intake agent. The tables either stay as they were or receive the
        whole request: exactly when the sender is authorised, the review passes, the event is
        new, the request mutates and all of its entries apply, and some attempt commits after
        nothing but retried errors. */
    method HandleIntakePayload(e: EventId, r: LedgerRequest, authorised: bool, reviewer: Reviewer,
                               faults: seq<Fault>, today: int) returns (reply: Reply)
      requires |faults| == MAX_ATTEMPTS
      modifies db, this`toCfo
      ensures db.committed == Handled(old(db.committed), e, r, authorised, reviewer, faults, today)
      ensures reply == Unauthorised <==> !authorised
      ensures reply == Held <==> authorised && !PassesReview(reviewer, r)
      ensures reply == Recorded ==> Writable(old(db.committed), e, r, today)
                                    && db.committed == ApplyRequest(old(db.committed), e, r, today).books
      ensures reply == AlreadyProcessed ==> e in db.committed.processed
      ensures reply !in {Recorded, AlreadyProcessed, DeadLettered, Raised} ==> db.committed == old(db.committed)
      ensures reply == ReadOnlyDone ==> !Mutating(r)
      ensures faults[0] == NoFault && authorised && PassesReview(reviewer, r) ==>
                && (reply == Recorded <==> Writable(old(db.committed), e, r, today))
                && (reply == AlreadyProcessed <==> e in old(db.committed).processed)
      ensures toCfo == old(toCfo) + match reply
                                    case Recorded => [Success]
                                    case ReadOnlyDone => [Success]
                                    case Held => [Rejection]
                                    case EntryFailed => [Error]
                                    case DeadLettered => [Error]
                                    case _ => []
    {
      if !authorised {
        return Unauthorised;
      }
      var proposal := ReviewProposal(r);
      if proposal.Some? && !Approves(reviewer, proposal.value) {
        EmitToCfo(Rejection);
        return Held;
      }
      reply := RunAttempts(e, r, faults, today);
    }

    /** The retry loop. */
    method RunAttempts(e: EventId, r: LedgerRequest, faults: seq<Fault>, today: int) returns (reply: Reply)
      requires |faults| == MAX_ATTEMPTS
      modifies db, this`toCfo
      ensures db.committed == AfterAttempts(old(db.committed), e, r, faults, today)
      ensures reply == Recorded ==> Writable(old(db.committed), e, r, today)
                                    && db.committed == ApplyRequest(old(db.committed), e, r, today).books
      ensures reply == AlreadyProcessed ==> e in db.committed.processed
      ensures PromisesNothingWritten(reply) ==> db.committed == old(db.committed)
      ensures reply == ReadOnlyDone ==> !Mutating(r)
      ensures reply != Unauthorised && reply != Held
      ensures faults[0] == NoFault ==> && (reply == Recorded <==> Writable(old(db.committed), e, r, today))
                                       && (reply == AlreadyProcessed <==> e in old(db.committed).processed)
      ensures toCfo == old(toCfo) + Emitted(Finished(reply))
    {
      ghost var b := db.committed;
      var attempt := 0;
      while true
        invariant attempt < MAX_ATTEMPTS && toCfo == old(toCfo)
        invariant Trying(b, db.committed, e, r, faults, attempt, today)
        invariant attempt == 0 ==> db.committed == b
        invariant attempt > 0 ==> faults[0] != NoFault
        decreases MAX_ATTEMPTS - attempt
      {
        ghost var before := db.committed;
        var a := RunAttempt(e, r, faults[attempt], today);
        NextTry(b, before, db.committed, e, r, faults, attempt, today, a.Retry?);
        if a.Finished? {
          return a.reply;
        }
        if attempt + 1 == MAX_ATTEMPTS {
          EmitToCfo(Error);
          return DeadLettered;
        }
        attempt := attempt + 1;
      }
    }
  }

  /** The tables before attempt n: as at the start, with no attempt before it having committed, or
      with the request applied by one of them. */
  ghost predicate Trying(b: Books, now: Books, e: EventId, r: LedgerRequest, faults: seq<Fault>, n: nat, today: int)
    requires n <= |faults|
  {
    if now == b then Writable(b, e, r, today) ==> StillTrying(r, |Entries(e, r)|, faults, n)
    else Writable(b, e, r, today) && SomeAttemptCommits(r, |Entries(e, r)|, faults) && now == ApplyRequest(b, e, r, today).books
  }

  /** One attempt more: the loop goes on, or its attempts have had their whole effect. */
  lemma NextTry(b: Books, now: Books, next: Books, e: EventId, r: LedgerRequest, faults: seq<Fault>, n: nat, today: int, retry: bool)
    requires n < |faults| && Trying(b, now, e, r, faults, n, today) && next == AfterAttempt(now, e, r, faults[n], today)
    requires Writable(now, e, r, today) ==> (retry <==> Retries(r, |Entries(e, r)|, faults[n]))
    ensures now == b || e in now.processed
    ensures if retry && n + 1 < |faults| then Trying(b, next, e, r, faults, n + 1, today)
            else next == AfterAttempts(b, e, r, faults, today)
  {
    if Writable(b, e, r, today) {
      AppliedIsMarked(b, e, r, today);
    }
    NoMoreAttempts(r, |Entries(e, r)|, faults, n);
  }

  /** Every attempt so far was retried and none committed. */
  ghost predicate StillTrying(r: LedgerRequest, entries: nat, faults: seq<Fault>, n: nat)
    requires n <= |faults|
  {
    forall j :: 0 <= j < n ==> Retries(r, entries, faults[j]) && !ReachesCommit(entries, faults[j])
  }

  /** Once an attempt that does not commit is not retried, or is the last, none commits. */
  lemma NoMoreAttempts(r: LedgerRequest, entries: nat, faults: seq<Fault>, i: nat)
    requires i < |faults|
    ensures StillTrying(r, entries, faults, i) && !ReachesCommit(entries, faults[i])
            && (i + 1 == |faults| || !Retries(r, entries, faults[i]))
            ==> !SomeAttemptCommits(r, entries, faults)
    ensures StillTrying(r, entries, faults, i) && ReachesCommit(entries, faults[i])
            ==> SomeAttemptCommits(r, entries, faults)
  {
  }

  /** A request that has been applied cannot be applied again. */
  lemma AppliedIsMarked(b: Books, e: EventId, r: LedgerRequest, today: int)
    requires ApplyRequest(b, e, r, today).Applied?
    ensures e in ApplyRequest(b, e, r, today).books.processed
    ensures !Writable(ApplyRequest(b, e, r, today).books, e, r, today)
  {
  }

  lemma AllOfOne(b: Books, e: EventId, tx: Entry, today: int)
    requires tx.TxEntry?
    ensures ApplyAll(ResolverOf(b), b, [KeyedEntry(e, tx)], today) == ApplyTx(b, e, tx)
  {
    var ks := [KeyedEntry(e, tx)];
    assert ks[..0] == [];
  }

  ghost function Outcomes(committed: Books, ks: seq<KeyedEntry>, today: int): (os: seq<Outcome>)
    ensures AreOutcomes(os, committed, ks, today) && os[0] == Applied(committed)
    ensures os[|ks|] == ApplyAll(ResolverOf(committed), committed, ks, today)
  {
    assert ks[..|ks|] == ks;
    seq(|ks| + 1, i requires 0 <= i <= |ks| => ApplyAll(ResolverOf(committed), committed, ks[..i], today))
  }

  lemma NextEntry(resolve: Resolver, b: Books, ks: seq<KeyedEntry>, i: nat, today: int, before: Books)
    requires i < |ks| && ApplyAll(resolve, b, ks[..i], today) == Applied(before)
    ensures ApplyAll(resolve, b, ks[..i + 1], today) == ApplyEntry(resolve, before, ks[i], today)
  {
    assert ks[..i + 1][..i] == ks[..i];
  }

  /** A message whose first entries do not succeed does not succeed. */
  lemma {:induction false} StopsAt(resolve: Resolver, b: Books, ks: seq<KeyedEntry>, n: nat, today: int)
    requires n <= |ks| && !ApplyAll(resolve, b, ks[..n], today).Applied?
    ensures ApplyAll(resolve, b, ks, today) == ApplyAll(resolve, b, ks[..n], today)
  {
    if n == |ks| {
      assert ks[..n] == ks;
    } else {
      assert ks[..|ks| - 1][..n] == ks[..n];
      StopsAt(resolve, b, ks[..|ks| - 1], n, today);
    }
  }
}
