/** Runs of the confirmation protocol in which a row is found by its sender after it has been
    replaced. Each shows that a condition of the lock laws is needed: the code takes the step. */
module ConfirmationRuns {
  import opened Common
  import opened EventKeys
  import opened LedgerBooks
  import opened LedgerAgent
  import opened Confirmation
  import opened ConfirmationLaws

  ghost predicate Reachable(s: State) {
    exists states, steps :: IsRun(states, steps) && states[|steps|] == s
  }

  lemma StartIsReachable()
    ensures Reachable(START)
  {
    assert IsRun([START], []);
  }

  lemma Reach(s: State, step: Step)
    requires Reachable(s) && Enabled(s, step)
    ensures Reachable(Take(s, step))
  {
    var states, steps :| IsRun(states, steps) && states[|steps|] == s;
    var states', steps' := states + [Take(s, step)], steps + [step];
    forall i | 0 <= i < |steps'| ensures Enabled(states'[i], steps'[i]) && states'[i + 1] == Take(states'[i], steps'[i]) {
      if i < |steps| {
        assert states'[i] == states[i] && steps'[i] == steps[i];
      }
    }
    assert IsRun(states', steps') && states'[|steps'|] == Take(s, step);
  }

  lemma ReachableIsSound(s: State)
    requires Reachable(s)
    ensures Sound(s)
  {
    var states, steps :| IsRun(states, steps) && states[|steps|] == s;
    RunsAreSound(states, steps, |steps|);
  }

  /** A message with one transaction. */
  function One(tx: Entry): LedgerRequest
    requires tx.TxEntry?
  {
    Compound(Some(Parsed([tx], [], [], false)))
  }

  /** A new message is held, and a YES and perhaps a NO have loaded it. */
  lemma StoreAndLoad(s: State, id: nat, e: EventId, tx: Entry, h: nat, yes: bool) returns (s': State)
    requires Reachable(s) && tx.TxEntry? && id !in s.stored && e !in s.issued && h !in s.handlers
    ensures Reachable(s')
    ensures var row := Row(id, e, One(tx), false);
            s' == s.(pending := Some(row), handlers := s.handlers[h := Loaded(row, yes)], issued := s.issued + {e}, stored := s.stored[id := row])
  {
    Reach(s, Store(id, e, One(tx)));
    var s1 := Take(s, Store(id, e, One(tx)));
    Reach(s1, Load(h, yes));
    s' := Take(s1, Load(h, yes));
  }

  /** A loaded YES locks the row that is pending now. */
  lemma LockPending(s: State, h: nat) returns (s': State)
    requires Reachable(s) && Lockable(s.pending) && h in s.handlers && s.handlers[h].Loaded? && s.handlers[h].yes
    ensures Reachable(s')
    ensures s' == s.(pending := Flagged(s.pending, true), handlers := s.handlers[h := Reviewing(LockedRun(s, h))])
  {
    Reach(s, Lock(h));
    s' := Take(s, Lock(h));
  }

  /** A publisher passes review. */
  lemma Approve(s: State, h: nat) returns (s': State)
    requires Reachable(s) && h in s.handlers && s.handlers[h].Reviewing?
    ensures var run := s.handlers[h].run;
            Reachable(s') && s' == s.(handlers := s.handlers[h := Between(run, 1)])
  {
    Reach(s, Review(h, Says(true)));
    s' := Take(s, Review(h, Says(true)));
  }

  lemma OneEntryFits(s: State, e: EventId, tx: Entry)
    requires Reachable(s) && tx.TxEntry? && e !in s.processed
    ensures Mutating(One(tx)) && |Entries(e, One(tx))| == 1 && Fits(s.written, Entries(e, One(tx))[0])
    ensures Admits(s, e, Entries(e, One(tx)))
  {
    ReachableIsSound(s);
    OnlyTheMarkerRefuses(s, e, One(tx));
    var ks := Entries(e, One(tx));
    assert |ks| == 1 && ks[0] in ks;
  }

  /** Its one entry is written in an open transaction. */
  lemma WriteFirst(s: State, h: nat, tx: Entry) returns (s': State)
    requires Reachable(s) && h in s.handlers && tx.TxEntry? && s.handlers[h].Between? && s.handlers[h].attempt == 1
    requires s.handlers[h].run.request == One(tx) && s.handlers[h].run.event !in s.processed
    ensures Reachable(s') && s' == s.(handlers := s.handlers[h := Writing(s.handlers[h].run, 1, 1)])
  {
    OneEntryFits(s, s.handlers[h].run.event, tx);
    var s1 := Begins(s, h);
    Reach(s, Begin(h));
    s' := Writes(s1, h);
    Reach(s1, Write(h));
    assert s'.handlers == s.handlers[h := Writing(s.handlers[h].run, 1, 1)];
  }

  lemma Writes(s: State, h: nat) returns (s': State)
    requires Enabled(s, Write(h))
    ensures s' == Take(s, Write(h))
    ensures var st := s.handlers[h]; s' == s.(handlers := s.handlers[h := Writing(st.run, st.attempt, st.done + 1)])
  {
    s' := Take(s, Write(h));
  }

  lemma CommitWritten(s: State, h: nat, tx: Entry, ack: Acknowledgement) returns (s': State)
    requires Reachable(s) && h in s.handlers && tx.TxEntry? && s.handlers[h].Writing?
             && s.handlers[h].attempt == s.handlers[h].done == 1
    requires s.handlers[h].run.request == One(tx) && s.handlers[h].run.event !in s.processed
    ensures var run := s.handlers[h].run;
            && Reachable(s')
            && s' == s.(handlers := s.handlers[h := CommitEnds(run, 1, ack)], written := s.written + Entries(run.event, run.request),
                        processed := s.processed + {run.event}, committed := s.committed[run.event := run])
  {
    OneEntryFits(s, s.handlers[h].run.event, tx);
    Reach(s, Commit(h, ack));
    s' := Take(s, Commit(h, ack));
  }

  /** A publisher's event is approved and committed in one attempt. */
  lemma CommitFirst(s: State, h: nat, tx: Entry, ack: Acknowledgement) returns (s': State)
    requires Reachable(s) && h in s.handlers && s.handlers[h].Reviewing? && tx.TxEntry?
    requires s.handlers[h].run.request == One(tx) && s.handlers[h].run.event !in s.processed
    ensures var run := s.handlers[h].run;
            && Reachable(s')
            && s' == s.(handlers := s.handlers[h := CommitEnds(run, 1, ack)],
                        written := s.written + Entries(run.event, run.request),
                        processed := s.processed + {run.event}, committed := s.committed[run.event := run])
  {
    var s1 := Approve(s, h);
    var s2 := WriteFirst(s1, h, tx);
    s' := CommitWritten(s2, h, tx, ack);
    assert s'.handlers == s.handlers[h := CommitEnds(s.handlers[h].run, 1, ack)];
  }

  /** A publisher whose reply is an error gives its sender's row back. */
  lemma GiveUp(s: State, h: nat) returns (s': State)
    requires Reachable(s) && h in s.handlers && s.handlers[h].Replied? && s.handlers[h].run.row.Some?
    requires s.handlers[h].reply == Some(Error)
    ensures Reachable(s') && s' == s.(pending := Flagged(s.pending, false), handlers := s.handlers - {h})
  {
    Reach(s, Decide(h));
    var s1 := Take(s, Decide(h));
    Reach(s1, Reset(h));
    s' := Take(s1, Reset(h));
  }

  lemma FailToReset(s: State, h: nat) returns (s': State)
    requires Reachable(s) && h in s.handlers && s.handlers[h].Between? && s.handlers[h].run.row.Some?
    ensures Reachable(s') && s' == s.(handlers := s.handlers - {h})
  {
    Reach(s, Abort(h, Some(Error)));
    var s1 := Take(s, Abort(h, Some(Error)));
    Reach(s1, Decide(h));
    var s2 := Take(s1, Decide(h));
    Reach(s2, ResetFails(h));
    s' := Take(s2, ResetFails(h));
  }

  /** YES; the ledger answers with an error; the reset of the row meets a database error too. The
      row stays flagged with no handler left, so that a YES is told it is being recorded. */
  lemma RowLeftFlagged(a: EventId, tx: Entry)
    requires tx.TxEntry?
    ensures exists s: State :: Reachable(s) && s.handlers == map[] && s.pending.Some? && !Lockable(s.pending)
              && s.written == []
  {
    StartIsReachable();
    var s := StoreAndLoad(START, 0, a, tx, 1, true);
    s := LockPending(s, 1);
    s := Approve(s, 1);
    s := FailToReset(s, 1);
    assert s.handlers == map[];
  }

  /** A NO, or a new message, takes the row away under a publisher. */
  lemma CancelPending(s: State, h: nat) returns (s': State)
    requires Reachable(s) && s.pending.Some? && h !in s.handlers
    ensures Reachable(s') && s' == s.(pending := None)
  {
    Reach(s, Load(h, false));
    var s1 := Take(s, Load(h, false));
    Reach(s1, Cancel(h));
    s' := Take(s1, Cancel(h));
    assert s'.handlers == s.handlers;
  }

  /** A YES publishes row 0; NO; a new message is held in row 1. */
  lemma Replaced(a: EventId, b: EventId, tx: Entry) returns (s: State)
    requires a != b && tx.TxEntry?
    ensures Reachable(s) && s.handlers.Keys == {1, 2} && s.processed == {}
    ensures s.handlers[1] == Reviewing(Run(a, One(tx), Some(0)))
    ensures s.pending == Some(Row(1, b, One(tx), false)) && s.handlers[2] == Loaded(s.pending.value, true)
  {
    StartIsReachable();
    s := StoreAndLoad(START, 0, a, tx, 1, true);
    s := LockPending(s, 1);
    s := CancelPending(s, 2);
    s := StoreAndLoad(s, 1, b, tx, 2, true);
  }

  /** YES; NO while it publishes; a new message; YES; the first publisher fails and resets the
      row of the second; YES. Two handlers now publish the same row. */
  lemma TwoPublishers(a: EventId, b: EventId, tx: Entry)
    requires a != b && tx.TxEntry?
    ensures exists s: State, h, h', id :: Reachable(s) && h != h' && h in s.handlers && h' in s.handlers
              && s.handlers[h].Reviewing? && s.handlers[h'].Reviewing?
              && Holds(s.handlers[h], id) && Holds(s.handlers[h'], id)
  {
    var s := Replaced(a, b, tx);
    s := LockPending(s, 2);
    s := CommitFirst(s, 1, tx, LostOther);
    s := GiveUp(s, 1);
    Reach(s, Load(3, true));
    s := Take(s, Load(3, true));
    s := LockPending(s, 3);
    assert Holds(s.handlers[2], 1) && Holds(s.handlers[3], 1);
  }

  /** YES is loaded; NO; a new message; the YES locks the new row under the old event, commits,
      and is told of an error; YES again. The new row is recorded twice, under two events. */
  lemma RowRecordedTwice(a: EventId, b: EventId, tx: Entry)
    requires a != b && tx.TxEntry?
    ensures exists s: State :: Reachable(s) && a in s.committed && b in s.committed
              && s.committed[a].row.Some? && s.committed[a].row == s.committed[b].row
  {
    StartIsReachable();
    var s := StoreAndLoad(START, 0, a, tx, 1, true);
    s := CancelPending(s, 2);
    s := StoreAndLoad(s, 1, b, tx, 2, true);
    s := LockPending(s, 1);
    s := CommitFirst(s, 1, tx, LostOther);
    s := GiveUp(s, 1);
    s := LockPending(s, 2);
    s := CommitFirst(s, 2, tx, Acked);
    assert s.committed[a].row == s.committed[b].row == Some(1);
  }

  /** Two YES are loaded; the first records the row and clears it; a new message; the second YES
      locks the new row under the old event, finds that event already recorded, and clears the
      row. The user is told of success, and the new row was never recorded. */
  lemma RowLost(a: EventId, b: EventId, tx: Entry)
    requires a != b && tx.TxEntry?
    ensures exists s: State, h :: Reachable(s) && Enabled(s, Clear(h)) && !s.handlers[h].rejected
              && s.pending.Some? && Holds(s.handlers[h], s.pending.value.id)
              && s.pending.value.event == b && Where(OwnedBy(b), s.written) == []
              && forall e :: e in s.committed ==> s.committed[e].row != Some(s.pending.value.id)
  {
    var s := RecordedTwiceLoaded(a, tx);
    s := StoreAndLoad(s, 1, b, tx, 3, true);
    s := LockPending(s, 2);
    s := FindAlreadyRecorded(s, 2);
    ReachableIsSound(s);
    assert ConfirmationLaws.Recorded(s, b) == [];
    assert Enabled(s, Clear(2)) && Holds(s.handlers[2], 1);
  }

  /** Two YES are loaded; the first records the row and clears it. */
  lemma RecordedTwiceLoaded(a: EventId, tx: Entry) returns (s: State)
    requires tx.TxEntry?
    ensures Reachable(s) && s.pending == None && s.handlers == map[2 := Loaded(Row(0, a, One(tx), false), true)]
    ensures s.issued == {a} && s.stored.Keys == {0} && s.processed == {a}
    ensures s.committed == map[a := Run(a, One(tx), Some(0))]
  {
    s := FirstRecords(a, tx);
    s := ConfirmAndClear(s, 1);
    assert s.handlers == map[2 := Loaded(Row(0, a, One(tx), false), true)];
  }

  lemma FirstRecords(a: EventId, tx: Entry) returns (s: State)
    requires tx.TxEntry?
    ensures Reachable(s) && s.issued == {a} && s.stored.Keys == {0} && s.processed == {a}
    ensures var run := Run(a, One(tx), Some(0));
            && s.handlers == map[1 := Reporting(run, 1), 2 := Loaded(Row(0, a, One(tx), false), true)]
            && s.committed == map[a := run]
  {
    s := TwoLoaded(a, tx);
    s := LockPending(s, 1);
    s := CommitFirst(s, 1, tx, Acked);
  }

  lemma TwoLoaded(a: EventId, tx: Entry) returns (s: State)
    requires tx.TxEntry?
    ensures Reachable(s)
    ensures var row := Row(0, a, One(tx), false);
            s == START.(pending := Some(row), handlers := map[1 := Loaded(row, true), 2 := Loaded(row, true)],
                        issued := {a}, stored := map[0 := row])
  {
    StartIsReachable();
    s := StoreAndLoad(START, 0, a, tx, 1, true);
    Reach(s, Load(2, true));
    s := Take(s, Load(2, true));
  }

  lemma ConfirmAndClear(s: State, h: nat) returns (s': State)
    requires Reachable(s) && h in s.handlers && s.handlers[h].Reporting? && s.handlers[h].run.row.Some?
    ensures Reachable(s') && s' == s.(pending := None, handlers := s.handlers - {h})
  {
    Reach(s, Report(h, true));
    var s1 := Take(s, Report(h, true));
    Reach(s1, Decide(h));
    var s2 := Take(s1, Decide(h));
    Reach(s2, Clear(h));
    s' := Take(s2, Clear(h));
  }

  lemma Begins(s: State, h: nat) returns (s': State)
    requires h in s.handlers && s.handlers[h].Between? && Mutating(s.handlers[h].run.request)
    ensures Enabled(s, Begin(h)) && s' == Take(s, Begin(h))
    ensures var st := s.handlers[h];
            s' == s.(handlers := s.handlers[h := if st.run.event in s.processed then Replied(st.run, None) else Writing(st.run, st.attempt, 0)])
  {
    s' := Take(s, Begin(h));
  }

  /** An attempt at an event that is already recorded ends with the row being cleared: it finds
      the marker, no reply comes back, and the probe finds the rows. */
  lemma RecordedEventIsConfirmed(s: State, h: nat) returns (s1: State, s2: State)
    requires ExactlyOnce(s) && h in s.handlers && s.handlers[h].Between? && Mutating(s.handlers[h].run.request)
    requires s.handlers[h].run.row.Some? && s.handlers[h].run.event in s.processed
    ensures Enabled(s, Begin(h)) && s1 == Take(s, Begin(h))
    ensures Enabled(s1, Decide(h)) && s2 == Take(s1, Decide(h))
    ensures s2 == s.(handlers := s.handlers[h := Clearing(s.handlers[h].run, false)])
  {
    s1 := Begins(s, h);
    ProbeIsExact(s, s.handlers[h].run.event);
    s2 := Take(s1, Decide(h));
    assert s2.handlers == s.handlers[h := Clearing(s.handlers[h].run, false)];
  }

  /** A commit whose acknowledgement is lost is not repeated, and is confirmed all the same. */
  lemma LostAcknowledgementIsRecovered(s: State, h: nat) returns (s1: State, s2: State, s3: State)
    requires Sound(s) && Enabled(s, Commit(h, LostTransient)) && s.handlers[h].attempt < MAX_ATTEMPTS
    requires s.handlers[h].run.row.Some?
    ensures s1 == Take(s, Commit(h, LostTransient))
    ensures Enabled(s1, Begin(h)) && s2 == Take(s1, Begin(h))
    ensures Enabled(s2, Decide(h)) && s3 == Take(s2, Decide(h))
    ensures s3 == s1.(handlers := s1.handlers[h := Clearing(s.handlers[h].run, false)])
  {
    s1 := Take(s, Commit(h, LostTransient));
    CommitKeepsExactlyOnce(s, h, LostTransient);
    s2, s3 := RecordedEventIsConfirmed(s1, h);
  }

  lemma ReportFails(s: State, h: nat) returns (s': State)
    requires Reachable(s) && h in s.handlers && s.handlers[h].Reporting?
    ensures Reachable(s') && s' == s.(handlers := s.handlers[h := Replied(s.handlers[h].run, Some(Error))])
  {
    Reach(s, Report(h, false));
    s' := Take(s, Report(h, false));
  }

  lemma ReportingIsRecorded(s: State, h: nat)
    requires Reachable(s) && h in s.handlers && s.handlers[h].Reporting?
    ensures s.handlers[h].run.event in s.processed
  {
    ReachableIsSound(s);
    assert Confirms(s, s.handlers[h]);
  }

  /** A commit whose report to the CFO fails is told as an error: the row is given back although its
      event stands recorded, and the next YES can lock it again. */
  lemma FailedReportGivesRowBack(s: State, h: nat) returns (s': State)
    requires Reachable(s) && h in s.handlers && s.handlers[h].Reporting? && s.handlers[h].run.row.Some?
    requires s.pending.Some?
    ensures Reachable(s') && Lockable(s'.pending) && s'.pending.value.id == s.pending.value.id
    ensures s'.handlers == s.handlers - {h} && s.handlers[h].run.event in s'.processed
  {
    ReportingIsRecorded(s, h);
    var s1 := ReportFails(s, h);
    s' := GiveUp(s1, h);
    assert s'.handlers == s.handlers - {h} && s'.processed == s.processed;
  }

  /** A reply that is lost on its way to the handler leaves the decision to the probe. */
  lemma LostReplyIsProbed(s: State, h: nat) returns (s1: State, s2: State)
    requires Reachable(s) && h in s.handlers && s.handlers[h].Replied? && s.handlers[h].run.row.Some?
    ensures Enabled(s, LoseReply(h)) && s1 == Take(s, LoseReply(h))
    ensures Enabled(s1, Decide(h)) && s2 == Take(s1, Decide(h))
    ensures var run := s.handlers[h].run;
            s2 == s.(handlers := s.handlers[h := if run.event in s.processed then Clearing(run, false) else Resetting(run)])
  {
    ReachableIsSound(s);
    ProbeIsExact(s, s.handlers[h].run.event);
    s1 := Take(s, LoseReply(h));
    s2 := Take(s1, Decide(h));
    assert s1.handlers[h := s2.handlers[h]] == s.handlers[h := s2.handlers[h]];
  }

  /** A run that the reviewer rejects ends with its row cleared as rejected, and writes nothing. */
  lemma RejectedRowIsCleared(s: State, h: nat, reviewer: Reviewer) returns (s1: State, s2: State, s3: State)
    requires h in s.handlers && s.handlers[h].Reviewing? && s.handlers[h].run.row.Some?
    requires !PassesReview(reviewer, s.handlers[h].run.request)
    ensures Enabled(s, Review(h, reviewer)) && s1 == Take(s, Review(h, reviewer))
    ensures Enabled(s1, Decide(h)) && s2 == Take(s1, Decide(h)) && Enabled(s2, Clear(h)) && s3 == Take(s2, Clear(h))
    ensures s2.handlers[h].rejected && s3 == s.(pending := None, handlers := s.handlers - {h})
  {
    s1 := Take(s, Review(h, reviewer));
    s2 := Take(s1, Decide(h));
    s3 := Take(s2, Clear(h));
    assert s3.handlers == s.handlers - {h};
  }

  lemma FindAlreadyRecorded(s: State, h: nat) returns (s': State)
    requires Reachable(s) && h in s.handlers && s.handlers[h].Reviewing? && s.handlers[h].run.row.Some?
    requires Mutating(s.handlers[h].run.request) && s.handlers[h].run.event in s.processed
    ensures var run := s.handlers[h].run;
            Reachable(s') && s' == s.(handlers := s.handlers[h := Clearing(run, false)])
  {
    var s1 := Approve(s, h);
    s' := ReachConfirmed(s1, h);
    assert s'.handlers == s.handlers[h := Clearing(s.handlers[h].run, false)];
  }

  lemma ReachConfirmed(s: State, h: nat) returns (s': State)
    requires Reachable(s) && h in s.handlers && s.handlers[h].Between? && Mutating(s.handlers[h].run.request)
    requires s.handlers[h].run.row.Some? && s.handlers[h].run.event in s.processed
    ensures Reachable(s') && s' == s.(handlers := s.handlers[h := Clearing(s.handlers[h].run, false)])
  {
    ReachableIsSound(s);
    var s1;
    s1, s' := RecordedEventIsConfirmed(s, h);
    Reach(s, Begin(h));
    Reach(s1, Decide(h));
  }
}
