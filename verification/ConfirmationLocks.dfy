/** Who may publish the pending row: when the recording flag excludes a second publisher, when
    it comes off again, and when a confirmed row is recorded under its own event. Each property
    is kept by every step but one kind, which the code allows; a run shows each kind at work. */
module ConfirmationLocks {
  import opened Common
  import opened EventKeys
  import opened LedgerBooks
  import opened Confirmation
  import opened ConfirmationLaws

  /* ---------- one publisher for each row ---------- */

  ghost predicate Held(s: State, id: nat, but: nat) {
    exists h :: h in s.handlers && h != but && Holds(s.handlers[h], id)
  }

  /** No two handlers hold the same row, and a pending row that is held is flagged. */
  ghost predicate Exclusive(s: State) {
    && (forall h, h', id :: h in s.handlers && h' in s.handlers && Holds(s.handlers[h], id) && Holds(s.handlers[h'], id) ==> h == h')
    && (forall h :: h in s.handlers && s.pending.Some? && Holds(s.handlers[h], s.pending.value.id) ==> s.pending.value.recording)
  }

  /** A handler that gives up resets whatever row its sender has: here one that another handler
      is publishing. */
  ghost predicate StealsLock(s: State, step: Step) {
    step.Reset? && s.pending.Some? && Held(s, s.pending.value.id, step.h)
  }

  /** The rows a handler holds after a step: those it held before, or the one it locks now. */
  lemma NewHolds(s: State, step: Step, h: nat, id: nat)
    requires Enabled(s, step) && h in Take(s, step).handlers && Holds(Take(s, step).handlers[h], id)
    ensures (h in s.handlers && Holds(s.handlers[h], id))
            || (step == Lock(h) && Lockable(s.pending) && id == s.pending.value.id)
  {
    if Actor(step) == Some(h) && !Starts(step) {
      RunIsKept(s, step);
    } else {
      StepMovesOne(s, step);
    }
  }

  lemma HoldersStayApart(s: State, step: Step, h: nat, h': nat, id: nat)
    requires Exclusive(s) && Enabled(s, step)
    requires h in Take(s, step).handlers && h' in Take(s, step).handlers
    requires Holds(Take(s, step).handlers[h], id) && Holds(Take(s, step).handlers[h'], id)
    ensures h == h'
  {
    NewHolds(s, step, h, id);
    NewHolds(s, step, h', id);
  }

  lemma HeldRowStaysFlagged(s: State, step: Step, h: nat)
    requires Filed(s) && Exclusive(s) && Enabled(s, step) && !StealsLock(s, step)
    requires h in Take(s, step).handlers && Take(s, step).pending.Some?
    requires Holds(Take(s, step).handlers[h], Take(s, step).pending.value.id)
    ensures Take(s, step).pending.value.recording
  {
    var row := NextRow(s, step);
    assert Take(s, step).pending == row;
    assert h in s.handlers ==> StageFiled(s, s.handlers[h]);
    NewHolds(s, step, h, row.value.id);
  }

  /** A step keeps rows exclusive exactly when it is not a reset of a row that another handler
      is publishing. */
  lemma StepKeepsExclusive(s: State, step: Step)
    requires Filed(s) && Exclusive(s) && Enabled(s, step)
    ensures Exclusive(Take(s, step)) <==> !StealsLock(s, step)
  {
    var s' := Take(s, step);
    if StealsLock(s, step) {
      var h :| h in s.handlers && h != step.h && Holds(s.handlers[h], s.pending.value.id);
      assert h in s'.handlers && Holds(s'.handlers[h], s'.pending.value.id);
    } else {
      forall h, h', id | h in s'.handlers && h' in s'.handlers && Holds(s'.handlers[h], id) && Holds(s'.handlers[h'], id)
        ensures h == h'
      {
        HoldersStayApart(s, step, h, h', id);
      }
      forall h | h in s'.handlers && s'.pending.Some? && Holds(s'.handlers[h], s'.pending.value.id)
        ensures s'.pending.value.recording
      {
        HeldRowStaysFlagged(s, step, h);
      }
    }
  }

  /** A property that holds at the start of a run, and that a step breaks exactly when it is bad,
      holds throughout exactly when no step of the run is bad. */
  lemma {:induction false} RunIff(states: seq<State>, steps: seq<Step>, good: State -> bool, bad: (State, Step) -> bool)
    requires IsRun(states, steps) && good(START)
    requires forall i :: 0 <= i < |steps| && good(states[i]) ==> (good(states[i + 1]) <==> !bad(states[i], steps[i]))
    ensures (forall i :: 0 <= i <= |steps| ==> good(states[i]))
            <==> (forall i :: 0 <= i < |steps| ==> !bad(states[i], steps[i]))
  {
    if forall i :: 0 <= i < |steps| ==> !bad(states[i], steps[i]) {
      for i := 0 to |steps|
        invariant forall j :: 0 <= j <= i ==> good(states[j])
      {
        assert good(states[i]) && !bad(states[i], steps[i]);
      }
    } else {
      var i :| 0 <= i < |steps| && bad(states[i], steps[i]);
      assert !good(states[i]) || !good(states[i + 1]);
    }
  }

  /** At most one handler publishes a given row at any moment of a run, and that row is flagged,
      exactly when no handler of the run resets a row that another one is publishing. */
  lemma RunsAreExclusive(states: seq<State>, steps: seq<Step>)
    requires IsRun(states, steps)
    ensures (forall i :: 0 <= i <= |steps| ==> Exclusive(states[i]))
            <==> (forall i :: 0 <= i < |steps| ==> !StealsLock(states[i], steps[i]))
  {
    forall i: nat | i < |steps| && Exclusive(states[i])
      ensures Exclusive(states[i + 1]) <==> !StealsLock(states[i], steps[i])
    {
      RunsAreSound(states, steps, i);
      StepKeepsExclusive(states[i], steps[i]);
    }
    RunIff(states, steps, s => Exclusive(s), (s, step) => StealsLock(s, step));
  }

  /* ---------- rows left in peace ---------- */

  ghost predicate AnyHolder(s: State) {
    exists h, id :: h in s.handlers && Holds(s.handlers[h], id)
  }

  /** Only the pending row is held, by one handler, and it is flagged. */
  ghost predicate OnlyPendingIsHeld(s: State) {
    && Exclusive(s)
    && forall h, id :: h in s.handlers && Holds(s.handlers[h], id) ==> s.pending.Some? && s.pending.value.id == id
  }

  /** The row is replaced or cancelled while a handler publishes it. */
  ghost predicate Disturbs(s: State, step: Step) {
    (step.Store? || step.Cancel?) && AnyHolder(s)
  }

  lemma PendingStaysHeld(s: State, step: Step, h: nat, id: nat)
    requires EndsWithRow(s) && OnlyPendingIsHeld(s) && Enabled(s, step) && !Disturbs(s, step)
    requires h in Take(s, step).handlers && Holds(Take(s, step).handlers[h], id)
    ensures Take(s, step).pending.Some? && Take(s, step).pending.value.id == id
  {
    NewHolds(s, step, h, id);
    StepMovesOne(s, step);
    if step.Clear? {
      assert Holds(s.handlers[step.h], s.handlers[step.h].run.row.value);
    }
  }

  /** The lock of the only holder cannot be stolen: the handler that resets holds the row. */
  lemma NothingToSteal(s: State, step: Step)
    requires EndsWithRow(s) && OnlyPendingIsHeld(s) && Enabled(s, step)
    ensures !StealsLock(s, step)
  {
    if step.Reset? {
      assert Holds(s.handlers[step.h], s.handlers[step.h].run.row.value);
    }
  }

  lemma StepKeepsOnlyPendingHeld(s: State, step: Step)
    requires Filed(s) && EndsWithRow(s) && OnlyPendingIsHeld(s) && Enabled(s, step)
    ensures OnlyPendingIsHeld(Take(s, step)) <==> !Disturbs(s, step)
    ensures !StealsLock(s, step)
  {
    var s' := Take(s, step);
    NothingToSteal(s, step);
    StepKeepsExclusive(s, step);
    if Disturbs(s, step) {
      var h, id :| h in s.handlers && Holds(s.handlers[h], id);
      assert h in s'.handlers && Holds(s'.handlers[h], id);
    } else {
      forall h, id | h in s'.handlers && Holds(s'.handlers[h], id)
        ensures s'.pending.Some? && s'.pending.value.id == id
      {
        PendingStaysHeld(s, step, h, id);
      }
    }
  }

  /** Exactly one thing can come between a publisher and its row: a cancellation or a new message
      while it publishes. Without it, only the pending row is ever held, by one handler. */
  lemma UndisturbedRuns(states: seq<State>, steps: seq<Step>)
    requires IsRun(states, steps)
    ensures (forall i :: 0 <= i <= |steps| ==> OnlyPendingIsHeld(states[i]))
            <==> (forall i :: 0 <= i < |steps| ==> !Disturbs(states[i], steps[i]))
  {
    forall i: nat | i < |steps| && OnlyPendingIsHeld(states[i])
      ensures OnlyPendingIsHeld(states[i + 1]) <==> !Disturbs(states[i], steps[i])
    {
      RunsAreSound(states, steps, i);
      StepKeepsOnlyPendingHeld(states[i], steps[i]);
    }
    RunIff(states, steps, s => OnlyPendingIsHeld(s), (s, step) => Disturbs(s, step));
  }

  /* ---------- the flag comes off again ---------- */

  /** A flagged row has a handler that is still to clear or reset it. */
  ghost predicate FlagIsHeld(s: State) {
    s.pending.Some? && s.pending.value.recording ==>
      exists h :: h in s.handlers && Holds(s.handlers[h], s.pending.value.id)
  }

  /** The handler ends and leaves the row as it is: it dies, or its clear or reset of the row meets
      a database error, which is printed and otherwise ignored. */
  predicate Quits(step: Step) {
    step.Crash? || step.ClearFails? || step.ResetFails?
  }

  /** The only publisher of the flagged row quits, or the lock of a row that nobody publishes becomes
      durable without its handler learning of it. */
  ghost predicate Abandons(s: State, step: Step) {
    || (step.LockLost? && step.durable && s.pending.Some? && !Held(s, s.pending.value.id, step.h))
    || (Quits(step) && step.h in s.handlers && s.pending.Some? && s.pending.value.recording
        && Holds(s.handlers[step.h], s.pending.value.id) && !Held(s, s.pending.value.id, step.h))
  }

  /** A handler that neither finishes nor quits keeps the row it holds. */
  lemma HoldIsKept(s: State, step: Step, h: nat, id: nat)
    requires Enabled(s, step) && h in s.handlers && Holds(s.handlers[h], id)
    requires Actor(step) != Some(h) || !(step.Clear? || step.Reset? || Quits(step))
    ensures h in Take(s, step).handlers && Holds(Take(s, step).handlers[h], id)
  {
    if Actor(step) == Some(h) {
      assert NextStage(s, step).Some?;
      RunIsKept(s, step);
    }
  }

  lemma FlaggedRowStaysHeld(s: State, step: Step)
    requires FlagIsHeld(s) && Enabled(s, step) && !Abandons(s, step)
    ensures FlagIsHeld(Take(s, step))
  {
    var s' := Take(s, step);
    if s'.pending.Some? && s'.pending.value.recording {
      if step.Lock? && Lockable(s.pending) {
        assert Holds(s'.handlers[step.h], s'.pending.value.id);
      } else if step.LockLost? && step.durable {
        var h :| h in s.handlers && h != step.h && Holds(s.handlers[h], s.pending.value.id);
        HoldIsKept(s, step, h, s.pending.value.id);
      } else {
        var id := s'.pending.value.id;
        assert s.pending == s'.pending;
        var h :| h in s.handlers && Holds(s.handlers[h], id);
        if Quits(step) && step.h == h {
          var h' :| h' in s.handlers && h' != h && Holds(s.handlers[h'], id);
          HoldIsKept(s, step, h', id);
        } else {
          HoldIsKept(s, step, h, id);
        }
      }
    }
  }

  /** A step leaves a flagged row without a handler exactly when it abandons it: when its last
      publisher dies or fails to clear or reset it, or a lock becomes durable unnoticed. */
  lemma StepKeepsFlagHeld(s: State, step: Step)
    requires FlagIsHeld(s) && Enabled(s, step)
    ensures FlagIsHeld(Take(s, step)) <==> !Abandons(s, step)
  {
    var s' := Take(s, step);
    if Abandons(s, step) {
      var id := s'.pending.value.id;
      forall h | h in s'.handlers ensures !Holds(s'.handlers[h], id) {
        if Holds(s'.handlers[h], id) {
          NewHolds(s, step, h, id);
        }
      }
    } else {
      FlaggedRowStaysHeld(s, step);
    }
  }

  /** In every run, stolen locks or not, a flagged row has a publisher at every moment exactly when
      no step abandons it. */
  lemma FlagsAreHeld(states: seq<State>, steps: seq<Step>)
    requires IsRun(states, steps)
    ensures (forall i :: 0 <= i <= |steps| ==> FlagIsHeld(states[i]))
            <==> (forall i :: 0 <= i < |steps| ==> !Abandons(states[i], steps[i]))
  {
    forall i: nat | i < |steps| && FlagIsHeld(states[i])
      ensures FlagIsHeld(states[i + 1]) <==> !Abandons(states[i], steps[i])
    {
      StepKeepsFlagHeld(states[i], steps[i]);
    }
    RunIff(states, steps, s => FlagIsHeld(s), (s, step) => Abandons(s, step));
  }

  /** While no handler holds it, a pending row can be confirmed: a new YES publishes it, under
      its own event. */
  lemma RetryIsPossible(s: State, h: nat)
    requires FlagIsHeld(s) && s.pending.Some? && h !in s.handlers
    requires forall h' :: h' in s.handlers ==> !Holds(s.handlers[h'], s.pending.value.id)
    ensures Enabled(s, Load(h, true)) && Enabled(Take(s, Load(h, true)), Lock(h))
    ensures var row := s.pending.value;
            Take(Take(s, Load(h, true)), Lock(h)).handlers[h] == Reviewing(Run(row.event, row.request, Some(row.id)))
  {
  }

  /** A YES that finds its sender's row gone or flagged is turned away: it ends, and nothing changes.
      So ends one whose lock fails, but for the flag if the lock became durable all the same. */
  lemma DuplicatesAreTurnedAway(s: State, h: nat)
    requires h in s.handlers && s.handlers[h].Loaded? && s.handlers[h].yes
    ensures Enabled(s, Lock(h)) && Enabled(s, LockLost(h, false))
    ensures !Lockable(s.pending) ==> Take(s, Lock(h)) == s.(handlers := s.handlers - {h})
    ensures Take(s, LockLost(h, false)) == s.(handlers := s.handlers - {h})
    ensures Lockable(s.pending) ==> Enabled(s, LockLost(h, true))
                                    && Take(s, LockLost(h, true)) == s.(handlers := s.handlers - {h}, pending := Some(s.pending.value.(recording := true)))
  {
  }

  /* ---------- a row is recorded under its own event ---------- */

  ghost predicate Labelled(s: State, run: Run) {
    run.row.Some? ==> run.row.value in s.stored && s.stored[run.row.value].event == run.event
  }

  /** Every run that locked a row carries the event of that row. */
  ghost predicate WellLabelled(s: State) {
    && (forall h :: h in s.handlers && !s.handlers[h].Loaded? ==> Labelled(s, s.handlers[h].run))
    && (forall e :: e in s.committed ==> Labelled(s, s.committed[e]))
  }

  /** The row was replaced between the load and the lock. */
  predicate Mislabels(s: State, step: Step) {
    step.Lock? && Lockable(s.pending) && step.h in s.handlers && s.handlers[step.h].Loaded?
    && s.handlers[step.h].loaded.event != s.pending.value.event
  }

  lemma ActorStaysLabelled(s: State, step: Step)
    requires Filed(s) && WellLabelled(s) && Enabled(s, step) && !Mislabels(s, step)
    requires Actor(step).Some? && step.h in Take(s, step).handlers && !Take(s, step).handlers[step.h].Loaded?
    ensures Labelled(Take(s, step), Take(s, step).handlers[step.h].run)
  {
    if !Starts(step) {
      RunIsKept(s, step);
      StepMovesOne(s, step);
    }
  }

  lemma CommittedStayLabelled(s: State, step: Step, e: EventId)
    requires Filed(s) && WellLabelled(s) && Enabled(s, step) && e in Take(s, step).committed
    ensures Labelled(Take(s, step), Take(s, step).committed[e])
  {
    StepMovesOne(s, step);
    if step.Commit? && e == s.handlers[step.h].run.event {
      assert Labelled(s, s.handlers[step.h].run);
    }
  }

  /** A step keeps labels right exactly when it does not lock a row other than the one it
      loaded. */
  lemma StepKeepsLabels(s: State, step: Step)
    requires Filed(s) && WellLabelled(s) && Enabled(s, step)
    ensures WellLabelled(Take(s, step)) <==> !Mislabels(s, step)
  {
    var s' := Take(s, step);
    if Mislabels(s, step) {
      assert !Labelled(s', s'.handlers[step.h].run);
    } else {
      StepMovesOne(s, step);
      forall h | h in s'.handlers && !s'.handlers[h].Loaded? ensures Labelled(s', s'.handlers[h].run) {
        if Actor(step) == Some(h) {
          ActorStaysLabelled(s, step);
        } else {
          assert Labelled(s, s.handlers[h].run);
        }
      }
      forall e | e in s'.committed ensures Labelled(s', s'.committed[e]) {
        CommittedStayLabelled(s, step, e);
      }
    }
  }

  /** Labels are right throughout a run exactly when no handler of it locks a row other than the
      one it loaded. */
  lemma RunsAreWellLabelled(states: seq<State>, steps: seq<Step>)
    requires IsRun(states, steps)
    ensures (forall i :: 0 <= i <= |steps| ==> WellLabelled(states[i]))
            <==> (forall i :: 0 <= i < |steps| ==> !Mislabels(states[i], steps[i]))
  {
    forall i: nat | i < |steps| && WellLabelled(states[i])
      ensures WellLabelled(states[i + 1]) <==> !Mislabels(states[i], steps[i])
    {
      RunsAreSound(states, steps, i);
      StepKeepsLabels(states[i], steps[i]);
    }
    RunIff(states, steps, s => WellLabelled(s), (s, step) => Mislabels(s, step));
  }

  /** With right labels, a stored row is recorded at most once, under its own event. */
  lemma EachRowIsRecordedOnce(s: State, e: EventId, e': EventId)
    requires Sound(s) && WellLabelled(s) && e in s.committed && e' in s.committed
    requires s.committed[e].row.Some? && s.committed[e].row == s.committed[e'].row
    ensures e == e' == s.stored[s.committed[e].row.value].event
    ensures s.committed[e].request == s.stored[s.committed[e].row.value].request
  {
  }

  /** With right labels, a handler that clears the row it published after anything but a
      rejection has recorded that very row: its event, with the message the user confirmed. */
  lemma ClearedRowWasRecorded(s: State, h: nat)
    requires Sound(s) && WellLabelled(s) && Enabled(s, Clear(h)) && !s.handlers[h].rejected
    requires s.pending.Some? && Holds(s.handlers[h], s.pending.value.id)
    ensures var row := s.pending.value;
            row.event in s.processed && Where(OwnedBy(row.event), s.written) == Entries(row.event, row.request)
  {
    var i := s.pending.value.id;
    var e := s.handlers[h].run.event;
    assert StageFiled(s, s.handlers[h]) && Labelled(s, s.handlers[h].run) && Confirms(s, s.handlers[h]);
    var run := s.committed[e];
    assert RunFiled(s, run) && Labelled(s, run);
    assert run.row == Some(i);
  }

  /** In a run where rows are neither replaced nor cancelled while they are published, and no
      handler locks a row it did not load, a row disappears after anything but a cancellation or
      a rejection only when its whole message stands recorded, once, under its own event. */
  lemma ConfirmedRowsAreRecorded(states: seq<State>, steps: seq<Step>, i: nat)
    requires IsRun(states, steps) && i < |steps|
    requires forall j :: 0 <= j < i ==> !Disturbs(states[j], steps[j]) && !Mislabels(states[j], steps[j])
    requires steps[i].Clear? && !states[i].handlers[steps[i].h].rejected
    ensures states[i].pending.Some? && states[i + 1].pending.None?
    ensures var row := states[i].pending.value;
            Where(OwnedBy(row.event), states[i + 1].written) == Entries(row.event, row.request)
  {
    RunsAreSound(states, steps, i);
    UndisturbedRuns(states[..i + 1], steps[..i]);
    RunsAreWellLabelled(states[..i + 1], steps[..i]);
    assert states[..i + 1][i] == states[i];
    var s, h := states[i], steps[i].h;
    assert Holds(s.handlers[h], s.handlers[h].run.row.value);
    ClearedRowWasRecorded(s, h);
  }
}
