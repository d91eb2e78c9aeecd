/** What no interleaving of message handlers can break: every event's entries are in the tables
    exactly once or not at all, only reviewed runs commit, and the recovery probe is exact. */
module ConfirmationLaws {
  import opened Common
  import opened EventKeys
  import opened LedgerBooks
  import opened KeyLaws
  import opened LedgerAgent
  import opened Confirmation

  /* ---------- rows, runs and identifiers ---------- */

  /** A run publishes the request of the row it locked; without a row, its event is its own. */
  ghost predicate RunFiled(s: State, run: Run) {
    && run.event in s.issued
    && match run.row
       case Some(i) => i in s.stored && s.stored[i].request == run.request
       case None => forall i :: i in s.stored ==> s.stored[i].event != run.event
  }

  ghost predicate RowFiled(s: State, row: Row) {
    row.id in s.stored && row.(recording := false) == s.stored[row.id]
  }

  ghost predicate StageFiled(s: State, st: Stage) {
    if st.Loaded? then RowFiled(s, st.loaded) else RunFiled(s, st.run)
  }

  /** Every stored row has an event of its own, and every run can be traced. */
  ghost predicate Filed(s: State) {
    && (forall i :: i in s.stored ==> s.stored[i].id == i && s.stored[i].event in s.issued && Mutating(s.stored[i].request))
    && (forall i, j :: i in s.stored && j in s.stored && s.stored[i].event == s.stored[j].event ==> i == j)
    && (s.pending.Some? ==> RowFiled(s, s.pending.value))
    && (forall h :: h in s.handlers ==> StageFiled(s, s.handlers[h]))
    && (forall e :: e in s.committed ==> s.committed[e].event == e && RunFiled(s, s.committed[e]))
  }

  /** Identifiers are only added, and new rows have new events. */
  ghost predicate Grows(s: State, s': State) {
    && s.issued <= s'.issued && s.processed <= s'.processed
    && (forall i :: i in s.stored ==> i in s'.stored && s'.stored[i] == s.stored[i])
    && (forall i :: i in s'.stored && i !in s.stored ==> s'.stored[i].event !in s.issued)
  }

  /** The handler that takes a step. */
  function Actor(step: Step): Option<nat> {
    if step.Store? then None else Some(step.h)
  }

  /** A step moves its own handler and no other. */
  lemma StepMovesOne(s: State, step: Step)
    requires Enabled(s, step)
    ensures Grows(s, Take(s, step))
    ensures forall h :: h in Take(s, step).handlers && Actor(step) != Some(h) ==>
              h in s.handlers && Take(s, step).handlers[h] == s.handlers[h]
  {
  }

  lemma StaysFiled(s: State, s': State, st: Stage)
    requires Grows(s, s') && StageFiled(s, st)
    ensures StageFiled(s', st)
  {
  }

  lemma ActorStaysFiled(s: State, step: Step)
    requires Filed(s) && Enabled(s, step) && Actor(step).Some?
    requires Actor(step).value in Take(s, step).handlers
    ensures StageFiled(Take(s, step), Take(s, step).handlers[Actor(step).value])
  {
    if !Starts(step) {
      RunIsKept(s, step);
      StepMovesOne(s, step);
      StaysFiled(s, Take(s, step), s.handlers[step.h]);
    } else {
      StartIsFiled(s, step);
    }
  }

  /** The steps that bring a row or a run into play. */
  predicate Starts(step: Step) {
    step.Store? || step.Direct? || step.Load? || step.Lock?
  }

  lemma StartIsFiled(s: State, step: Step)
    requires Filed(s) && Enabled(s, step) && Starts(step) && !step.Store?
    requires step.h in Take(s, step).handlers
    ensures StageFiled(Take(s, step), Take(s, step).handlers[step.h])
  {
  }

  /** A run is fixed when it starts. */
  lemma RunIsKept(s: State, step: Step)
    requires Enabled(s, step) && !Starts(step)
    requires step.h in Take(s, step).handlers
    ensures !s.handlers[step.h].Loaded? && !Take(s, step).handlers[step.h].Loaded?
    ensures Take(s, step).handlers[step.h].run == s.handlers[step.h].run
  {
  }

  lemma StepKeepsFiled(s: State, step: Step)
    requires Filed(s) && Enabled(s, step)
    ensures Filed(Take(s, step))
  {
    var s' := Take(s, step);
    StepMovesOne(s, step);
    forall h | h in s'.handlers ensures StageFiled(s', s'.handlers[h]) {
      if Actor(step) == Some(h) {
        ActorStaysFiled(s, step);
      } else {
        StaysFiled(s, s', s.handlers[h]);
      }
    }
    CommittedStaysFiled(s, step);
    RowsStayFiled(s, step);
    if s'.pending.Some? {
      PendingStaysFiled(s, step);
    }
  }

  lemma CommittedStaysFiled(s: State, step: Step)
    requires Filed(s) && Enabled(s, step)
    ensures var s' := Take(s, step);
            forall e :: e in s'.committed ==> s'.committed[e].event == e && RunFiled(s', s'.committed[e])
  {
    var s' := Take(s, step);
    StepMovesOne(s, step);
    forall e | e in s'.committed ensures s'.committed[e].event == e && RunFiled(s', s'.committed[e]) {
      var run := s'.committed[e];
      assert (e in s.committed && run == s.committed[e]) || (step.Commit? && run == s.handlers[step.h].run && e == run.event);
      StaysFiled(s, s', Reviewing(run));
    }
  }

  lemma RowsStayFiled(s: State, step: Step)
    requires Filed(s) && Enabled(s, step)
    ensures var s' := Take(s, step);
      && (forall i :: i in s'.stored ==> s'.stored[i].id == i && s'.stored[i].event in s'.issued && Mutating(s'.stored[i].request))
      && (forall i, j :: i in s'.stored && j in s'.stored && s'.stored[i].event == s'.stored[j].event ==> i == j)
  {
    var s' := Take(s, step);
    if !step.Store? {
      assert s'.stored == s.stored && s'.issued >= s.issued;
    }
  }

  lemma PendingStaysFiled(s: State, step: Step)
    requires Filed(s) && Enabled(s, step) && Take(s, step).pending.Some?
    ensures RowFiled(Take(s, step), Take(s, step).pending.value)
  {
    StepMovesOne(s, step);
    assert Take(s, step).pending == NextRow(s, step);
  }

  /** Only a handler that locked a row goes on to clear or reset one. */
  ghost predicate EndsWithRow(s: State) {
    forall h :: h in s.handlers && (s.handlers[h].Clearing? || s.handlers[h].Resetting?) ==> s.handlers[h].run.row.Some?
  }

  lemma StepKeepsEndsWithRow(s: State, step: Step)
    requires EndsWithRow(s) && Enabled(s, step)
    ensures EndsWithRow(Take(s, step))
  {
  }

  /* ---------- exactly once ---------- */

  /** The rows that belong to an event. */
  function OwnedBy(e: EventId): KeyedEntry -> bool {
    (k: KeyedEntry) => IsRowKey(k.key) && Owner(k.key) == e
  }

  /** What the tables should hold for an event: the whole message of the run that committed
      it, or nothing. */
  function Recorded(s: State, e: EventId): seq<KeyedEntry> {
    if e in s.committed then Entries(e, s.committed[e].request) else []
  }

  ghost predicate ExactlyOnce(s: State) {
    && s.processed == s.committed.Keys
    && (forall e :: e in s.committed ==> s.committed[e].event == e && Mutating(s.committed[e].request))
    && (forall e: EventId :: Where(OwnedBy(e), s.written) == Recorded(s, e))
    && (forall k :: k in s.written ==> IsRowKey(k.key) && Owner(k.key) in s.processed)
  }

  /** A transaction that is open writes a mutating request, one entry after another. */
  ghost predicate Progressing(s: State) {
    forall h :: h in s.handlers && s.handlers[h].Writing? ==>
      && Mutating(s.handlers[h].run.request)
      && s.handlers[h].done <= |Entries(s.handlers[h].run.event, s.handlers[h].run.request)|
  }

  lemma StepKeepsProgress(s: State, step: Step)
    requires Progressing(s) && Enabled(s, step)
    ensures Progressing(Take(s, step))
  {
  }

  ghost predicate PastReview(st: Stage) {
    st.Between? || st.Writing? || st.Reporting?
  }

  /** The attempt a handler is at, of four at most. */
  ghost predicate AttemptsBounded(s: State) {
    forall h :: h in s.handlers && PastReview(s.handlers[h]) ==> 1 <= s.handlers[h].attempt <= MAX_ATTEMPTS
  }

  lemma StepKeepsAttemptsBounded(s: State, step: Step)
    requires AttemptsBounded(s) && Enabled(s, step)
    ensures AttemptsBounded(Take(s, step))
  {
  }

  lemma OwnEntries(e: EventId, r: LedgerRequest, e': EventId)
    ensures Where(OwnedBy(e'), Entries(e, r)) == if e' == e then Entries(e, r) else []
  {
    var ks := Entries(e, r);
    forall i | 0 <= i < |ks| ensures OwnedBy(e')(ks[i]) <==> e' == e {
      EntryOwner(e, r, i);
    }
    if e' == e {
      WhereAll(OwnedBy(e'), ks);
    } else {
      WhereNone(OwnedBy(e'), ks);
    }
  }

  lemma EntriesAddToTheirEvent(written: seq<KeyedEntry>, e: EventId, r: LedgerRequest, e': EventId)
    ensures Where(OwnedBy(e'), written + Entries(e, r))
            == Where(OwnedBy(e'), written) + if e' == e then Entries(e, r) else []
  {
    var ks := Entries(e, r);
    WhereConcat(OwnedBy(e'), written, ks);
    OwnEntries(e, r, e');
  }

  lemma EntriesAreOwned(e: EventId, r: LedgerRequest, k: KeyedEntry)
    requires k in Entries(e, r)
    ensures IsRowKey(k.key) && Owner(k.key) == e
  {
    var i :| 0 <= i < |Entries(e, r)| && Entries(e, r)[i] == k;
    EntryOwner(e, r, i);
  }

  lemma CommitKeepsExactlyOnce(s: State, h: nat, ack: Acknowledgement)
    requires ExactlyOnce(s) && Progressing(s) && Enabled(s, Commit(h, ack))
    ensures ExactlyOnce(Take(s, Commit(h, ack)))
  {
    var s', run := Take(s, Commit(h, ack)), s.handlers[h].run;
    forall e: EventId ensures Where(OwnedBy(e), s'.written) == Recorded(s', e) {
      EntriesAddToTheirEvent(s.written, run.event, run.request, e);
    }
    forall k | k in s'.written ensures IsRowKey(k.key) && Owner(k.key) in s'.processed {
      if k !in s.written {
        EntriesAreOwned(run.event, run.request, k);
      }
    }
  }

  lemma StepKeepsExactlyOnce(s: State, step: Step)
    requires ExactlyOnce(s) && Progressing(s) && Enabled(s, step)
    ensures ExactlyOnce(Take(s, step))
  {
    match step
    case Commit(h, ack) => CommitKeepsExactlyOnce(s, h, ack);
    case _ => SameTables(s, Take(s, step));
  }

  lemma SameTables(s: State, s': State)
    requires ExactlyOnce(s)
    requires s'.written == s.written && s'.processed == s.processed && s'.committed == s.committed
    ensures ExactlyOnce(s')
  {
    forall e: EventId ensures Where(OwnedBy(e), s'.written) == Recorded(s', e) {
    }
  }

  /* ---------- the recovery probe ---------- */

  lemma RecordedEventsHaveRows(s: State, e: EventId)
    requires ExactlyOnce(s) && e in s.processed
    ensures exists i, table: Table :: 0 <= i < |s.written| && Probed(table) && WritesTo(s.written[i].entry, table)
                                      && IsRowKey(s.written[i].key) && Owner(s.written[i].key) == e
  {
    var r := s.committed[e].request;
    MutatingWritesProbedRow(e, r);
    var j, table: Table :| 0 <= j < |Entries(e, r)| && Probed(table) && WritesTo(Entries(e, r)[j].entry, table);
    var k := Entries(e, r)[j];
    assert k in Where(OwnedBy(e), s.written);
    WhereMembers(OwnedBy(e), s.written);
    var i :| 0 <= i < |s.written| && s.written[i] == k;
    assert OwnedBy(e)(k);
  }

  /** The recovery probe finds an event exactly when its marker is there. */
  lemma ProbeIsExact(s: State, e: EventId)
    requires ExactlyOnce(s)
    ensures Probe(s.written, e) <==> e in s.processed
  {
    if table: Table, key :| Probed(table) && key in KeysWritten(s.written, table) && Like(key, e + "%") {
      KeysWrittenMembers(s.written, table);
      var i :| 0 <= i < |s.written| && s.written[i].key == key;
      assert s.written[i] in s.written;
      ProbeMatchesOwner(key, e);
    }
    if e in s.processed {
      RecordedEventsHaveRows(s, e);
      var i, table: Table :| 0 <= i < |s.written| && Probed(table) && WritesTo(s.written[i].entry, table)
                             && IsRowKey(s.written[i].key) && Owner(s.written[i].key) == e;
      KeysWrittenMembers(s.written, table);
      ProbeMatchesOwner(s.written[i].key, e);
    }
  }

  /** A handler that is about to confirm its row to the user has its event in the tables. */
  ghost predicate Confirms(s: State, st: Stage) {
    match st
    case Reporting(run, _) => run.event in s.processed
    case Replied(run, Some(Success)) => Mutating(run.request) ==> run.event in s.processed
    case Clearing(run, false) => Mutating(run.request) ==> run.event in s.processed
    case _ => true
  }

  ghost predicate ConfirmationsAreTrue(s: State) {
    forall h :: h in s.handlers ==> Confirms(s, s.handlers[h])
  }

  lemma ActorConfirmsTruly(s: State, step: Step)
    requires ConfirmationsAreTrue(s) && Enabled(s, step) && !step.Store? && step.h in Take(s, step).handlers
    requires step.Decide? ==> Probe(s.written, s.handlers[step.h].run.event) ==> s.handlers[step.h].run.event in s.processed
    ensures Confirms(Take(s, step), Take(s, step).handlers[step.h])
  {
  }

  lemma StepKeepsConfirmations(s: State, step: Step)
    requires ConfirmationsAreTrue(s) && ExactlyOnce(s) && Enabled(s, step)
    ensures ConfirmationsAreTrue(Take(s, step))
  {
    var s' := Take(s, step);
    StepMovesOne(s, step);
    forall h | h in s'.handlers ensures Confirms(s', s'.handlers[h]) {
      if Actor(step) == Some(h) {
        if step.Decide? {
          ProbeIsExact(s, s.handlers[h].run.event);
        }
        ActorConfirmsTruly(s, step);
      }
    }
  }

  /* ---------- unique keys ---------- */

  ghost predicate KeysUnique(written: seq<KeyedEntry>) {
    forall i, j :: 0 <= i < j < |written| ==> written[i].key != written[j].key
  }

  lemma StepKeepsKeysUnique(s: State, step: Step)
    requires KeysUnique(s.written) && ExactlyOnce(s) && Enabled(s, step)
    ensures KeysUnique(Take(s, step).written)
  {
    if step.Commit? {
      var run := s.handlers[step.h].run;
      var ks := Entries(run.event, run.request);
      var n, written := |s.written|, Take(s, step).written;
      assert written == s.written + ks;
      forall i, j | 0 <= i < j < |written| ensures written[i].key != written[j].key {
        if i >= n {
          EntryKeysDistinct(run.event, run.request, i - n, j - n);
        } else if j >= n {
          EntryOwner(run.event, run.request, j - n);
          assert s.written[i] in s.written;
        }
      }
    }
  }

  /** The unique columns refuse a message exactly when its marker is already there. */
  lemma OnlyTheMarkerRefuses(s: State, e: EventId, r: LedgerRequest)
    requires ExactlyOnce(s)
    ensures Admits(s, e, Entries(e, r)) <==> e !in s.processed
  {
    if e !in s.processed {
      forall k, table: Table | k in Entries(e, r) ensures k.key !in KeysWritten(s.written, table) {
        EntriesAreOwned(e, r, k);
        KeysWrittenMembers(s.written, table);
        assert forall i :: 0 <= i < |s.written| ==> s.written[i] in s.written;
      }
    }
  }

  /** A commit does to the key columns and markers what the ledger agent does to its tables,
      and it is possible whenever the ledger agent could write the request. */
  lemma CommitRefinesLedger(s: State, h: nat, ack: Acknowledgement, b: Books, today: int)
    requires ExactlyOnce(s) && h in s.handlers && s.handlers[h].Writing?
    requires s.handlers[h].done == |Entries(s.handlers[h].run.event, s.handlers[h].run.request)|
    requires b.processed == s.processed && forall table: Table :: Keys(b, table) == KeysWritten(s.written, table)
    requires Writable(b, s.handlers[h].run.event, s.handlers[h].run.request, today)
    ensures Enabled(s, Commit(h, ack))
    ensures var b' := ApplyRequest(b, s.handlers[h].run.event, s.handlers[h].run.request, today).books;
            var s' := Take(s, Commit(h, ack));
            b'.processed == s'.processed && forall table: Table :: Keys(b', table) == KeysWritten(s'.written, table)
  {
    var run := s.handlers[h].run;
    OnlyTheMarkerRefuses(s, run.event, run.request);
    RequestWritesItsKeys(b, run.event, run.request, today);
    var b', s' := ApplyRequest(b, run.event, run.request, today).books, Take(s, Commit(h, ack));
    forall table: Table ensures Keys(b', table) == KeysWritten(s'.written, table) {
      KeysWrittenConcat(s.written, Entries(run.event, run.request), table);
    }
  }

  lemma {:induction false} KeysWrittenConcat(ks: seq<KeyedEntry>, more: seq<KeyedEntry>, table: Table)
    ensures KeysWritten(ks + more, table) == KeysWritten(ks, table) + KeysWritten(more, table)
  {
    if more == [] {
      assert ks + more == ks;
    } else {
      var n := |more| - 1;
      KeysWrittenConcat(ks, more[..n], table);
      assert (ks + more)[..|ks + more| - 1] == ks + more[..n];
    }
  }

  /* ---------- whole runs ---------- */

  ghost predicate Sound(s: State) {
    && Filed(s) && EndsWithRow(s) && Progressing(s) && AttemptsBounded(s) && ExactlyOnce(s) && KeysUnique(s.written)
    && ConfirmationsAreTrue(s)
  }

  /** No interleaving of steps leads out of the sound states. */
  lemma {:induction false} RunsAreSound(states: seq<State>, steps: seq<Step>, i: nat)
    requires IsRun(states, steps) && i <= |steps|
    ensures Sound(states[i])
  {
    if i > 0 {
      var s, step := states[i - 1], steps[i - 1];
      RunsAreSound(states, steps, i - 1);
      StepKeepsFiled(s, step);
      StepKeepsEndsWithRow(s, step);
      StepKeepsProgress(s, step);
      StepKeepsAttemptsBounded(s, step);
      StepKeepsExactlyOnce(s, step);
      StepKeepsKeysUnique(s, step);
      StepKeepsConfirmations(s, step);
    }
  }

  /** At every moment of every run, the tables hold for each event either nothing at all, or
      once, in order, the entries of one request whose marker is there too; no two rows share a
      key; and the recovery probe tells the two cases apart. */
  lemma EventsAreRecordedExactlyOnce(states: seq<State>, steps: seq<Step>, i: nat, e: EventId)
    requires IsRun(states, steps) && i <= |steps|
    ensures var s := states[i];
      && Where(OwnedBy(e), s.written) == (if e in s.committed then Entries(e, s.committed[e].request) else [])
      && (e in s.processed <==> e in s.committed)
      && KeysUnique(s.written)
      && (Probe(s.written, e) <==> e in s.processed)
  {
    RunsAreSound(states, steps, i);
    ProbeIsExact(states[i], e);
  }

  lemma RecordIsKept(s: State, step: Step, e: EventId)
    requires Enabled(s, step) && e in s.processed
    ensures e in Take(s, step).processed && Where(OwnedBy(e), Take(s, step).written) == Where(OwnedBy(e), s.written)
  {
    if step.Commit? {
      EntriesAddToTheirEvent(s.written, s.handlers[step.h].run.event, s.handlers[step.h].run.request, e);
    }
  }

  /** Once an event is recorded, no later step changes what is recorded for it. */
  lemma {:induction false} RecordsAreFinal(states: seq<State>, steps: seq<Step>, i: nat, j: nat, e: EventId)
    requires IsRun(states, steps) && i <= j <= |steps| && e in states[i].processed
    ensures e in states[j].processed && Where(OwnedBy(e), states[j].written) == Where(OwnedBy(e), states[i].written)
  {
    if i < j {
      RecordsAreFinal(states, steps, i, j - 1, e);
      RecordIsKept(states[j - 1], steps[j - 1], e);
    }
  }

  /* ---------- review ---------- */

  /** A handler locks a row or is given a message, in the step before state b, and waits with
      that run until a reviewer lets it through, in the step after state j. */
  ghost predicate HasReviewed(states: seq<State>, steps: seq<Step>, h: nat, run: Run, b: nat, j: nat) {
    && |states| == |steps| + 1 && 0 < b <= j < |steps|
    && (steps[b - 1].Lock? || steps[b - 1].Direct?) && steps[b - 1].h == h
    && Waits(states, h, run, b, j)
    && steps[j].Review? && steps[j].h == h && PassesReview(steps[j].reviewer, run.request)
  }

  ghost predicate Waits(states: seq<State>, h: nat, run: Run, b: nat, j: nat)
    requires b <= j < |states|
  {
    forall m :: b <= m <= j ==> h in states[m].handlers && states[m].handlers[h] == Reviewing(run)
  }

  /** The handler is busy with an approved run in every state after j, up to k. */
  ghost predicate Pursues(states: seq<State>, h: nat, run: Run, j: nat, k: nat)
    requires j <= k < |states|
  {
    forall m :: j < m <= k ==>
      h in states[m].handlers && PastReview(states[m].handlers[h]) && states[m].handlers[h].run == run
  }

  lemma {:induction false} RunsStartWithALock(states: seq<State>, steps: seq<Step>, i: nat, h: nat) returns (b: nat)
    requires IsRun(states, steps) && i <= |steps| && h in states[i].handlers && states[i].handlers[h].Reviewing?
    ensures 0 < b <= i && (steps[b - 1].Lock? || steps[b - 1].Direct?) && steps[b - 1].h == h
    ensures Waits(states, h, states[i].handlers[h].run, b, i)
  {
    var step := steps[i - 1];
    StepMovesOne(states[i - 1], step);
    if Actor(step) == Some(h) {
      b := i;
    } else {
      b := RunsStartWithALock(states, steps, i - 1, h);
    }
  }

  lemma ReviewOpensWork(s: State, step: Step, h: nat)
    requires Enabled(s, step) && h in Take(s, step).handlers && PastReview(Take(s, step).handlers[h]) && h in s.handlers
    ensures !s.handlers[h].Loaded? && s.handlers[h].run == Take(s, step).handlers[h].run
    ensures if step.Review? && step.h == h
            then s.handlers[h].Reviewing? && PassesReview(step.reviewer, s.handlers[h].run.request)
            else PastReview(s.handlers[h])
  {
  }

  /** A handler at work on a run had that very run reviewed, after starting it and before any
      attempt at it. */
  lemma {:induction false} ReviewComesFirst(states: seq<State>, steps: seq<Step>, i: nat, h: nat) returns (b: nat, j: nat)
    requires IsRun(states, steps) && i <= |steps| && h in states[i].handlers && PastReview(states[i].handlers[h])
    ensures j < i && HasReviewed(states, steps, h, states[i].handlers[h].run, b, j)
    ensures Pursues(states, h, states[i].handlers[h].run, j, i)
  {
    var s, step := states[i - 1], steps[i - 1];
    StepMovesOne(s, step);
    ReviewOpensWork(s, step, h);
    if step.Review? && step.h == h {
      j := i - 1;
      b := RunsStartWithALock(states, steps, j, h);
    } else {
      b, j := ReviewComesFirst(states, steps, i - 1, h);
    }
  }

  /** One handler started the run, had it reviewed, and committed it in the step after state k,
      with nothing else in between. */
  ghost predicate ReviewedThenCommitted(states: seq<State>, steps: seq<Step>, run: Run, h: nat, b: nat, j: nat, k: nat) {
    && HasReviewed(states, steps, h, run, b, j)
    && j < k < |steps| && Pursues(states, h, run, j, k)
    && steps[k].Commit? && steps[k].h == h
  }

  /** Whatever is committed was committed by a handler that had its own run reviewed: it took up
      the run, passed review with it, and only then began to write. */
  lemma {:induction false} CommitsWereReviewed(states: seq<State>, steps: seq<Step>, i: nat, e: EventId)
    requires IsRun(states, steps) && i <= |steps| && e in states[i].committed
    ensures exists h, b: nat, j: nat, k: nat :: k < i && ReviewedThenCommitted(states, steps, states[i].committed[e], h, b, j, k)
  {
    var s, step := states[i - 1], steps[i - 1];
    if e in s.committed && s.committed[e] == states[i].committed[e] {
      CommitsWereReviewed(states, steps, i - 1, e);
    } else {
      assert step.Commit? && states[i].committed[e] == s.handlers[step.h].run;
      var b, j := ReviewComesFirst(states, steps, i - 1, step.h);
      assert ReviewedThenCommitted(states, steps, states[i].committed[e], step.h, b, j, i - 1);
    }
  }

  /** With the threshold rule wired, no shorthand amount at or above the threshold is committed
      in any run, whatever the retries. */
  lemma LargeShorthandsNeverCommit(states: seq<State>, steps: seq<Step>, i: nat, e: EventId, threshold: int)
    requires IsRun(states, steps) && i <= |steps| && e in states[i].committed && threshold > 0
    requires forall j :: 0 <= j < |steps| && steps[j].Review? ==> steps[j].reviewer == Rule(threshold)
    ensures var r := states[i].committed[e].request;
            r.Shorthand? && r.tx.Some? && r.tx.value.amount.Some? ==> r.tx.value.amount.value < threshold
  {
    CommitsWereReviewed(states, steps, i, e);
    var h, b: nat, j: nat, k: nat :| k < i && ReviewedThenCommitted(states, steps, states[i].committed[e], h, b, j, k);
    assert steps[j].Review?;
  }
}
