/** At most one delivery of a message works on it at a time, and none after it is processed:
    exactly while no stale claim is made on a message that is still being worked on. */
module WebhookLaws {
  import opened WebhookClaim

  /* ---------- one delivery at a time ---------- */

  /** Between claim and final status. */
  predicate Works(s: State, d: nat, message: MessageId) {
    d in s.deliveries && s.deliveries[d].Active? && s.deliveries[d].key.message == message
  }

  /** No message has two workers, and a message that has one is marked as being processed. */
  ghost predicate OneWorker(s: State) {
    && (forall d, d', message :: Works(s, d, message) && Works(s, d', message) ==> d == d')
    && (forall d, message :: Works(s, d, message) ==> message in s.events && s.events[message].status == Processing)
  }

  /** A delivery claims a message as stale while another one works on it. */
  ghost predicate Overtakes(s: State, step: Step, limit: int) {
    && step.Claim? && step.d in s.deliveries
    && CanClaim(s.events, s.deliveries[step.d].key.message, s.now, limit)
    && exists d :: d != step.d && Works(s, d, s.deliveries[step.d].key.message)
  }

  lemma WorkersAfter(s: State, step: Step, limit: int, d: nat, message: MessageId)
    requires Enabled(s, step) && Works(Take(s, step, limit), d, message)
    ensures Works(s, d, message) || (step == Claim(d)
            && CanClaim(s.events, message, s.now, limit)) || (step == Insert(d) && message !in s.events)
    ensures step == Claim(d) || step == Insert(d) ==> s.deliveries[d].key.message == message && !Works(s, d, message)
  {
  }

  lemma WorkersStayApart(s: State, step: Step, limit: int, d: nat, d': nat, message: MessageId)
    requires OneWorker(s) && Enabled(s, step) && !Overtakes(s, step, limit)
    requires Works(Take(s, step, limit), d, message) && Works(Take(s, step, limit), d', message)
    ensures d == d'
  {
    WorkersAfter(s, step, limit, d, message);
    WorkersAfter(s, step, limit, d', message);
  }

  lemma WorkedOnIsProcessing(s: State, step: Step, limit: int, d: nat, message: MessageId)
    requires OneWorker(s) && Enabled(s, step) && Works(Take(s, step, limit), d, message)
    ensures message in Take(s, step, limit).events && Take(s, step, limit).events[message].status == Processing
  {
    assert step.Finish? || step.TimeOut? ==> Works(s, step.d, s.deliveries[step.d].key.message);
    WorkersAfter(s, step, limit, d, message);
  }

  /** A step keeps messages to one worker exactly when it is not such a claim. */
  lemma StepKeepsOneWorker(s: State, step: Step, limit: int)
    requires OneWorker(s) && Enabled(s, step)
    ensures OneWorker(Take(s, step, limit)) <==> !Overtakes(s, step, limit)
  {
    var s' := Take(s, step, limit);
    if Overtakes(s, step, limit) {
      var message := s.deliveries[step.d].key.message;
      var d :| d != step.d && Works(s, d, message);
      assert Works(s', d, message) && Works(s', step.d, message);
    } else {
      forall d, d', message | Works(s', d, message) && Works(s', d', message) ensures d == d' {
        WorkersStayApart(s, step, limit, d, d', message);
      }
      forall d, message | Works(s', d, message) ensures message in s'.events && s'.events[message].status == Processing {
        WorkedOnIsProcessing(s, step, limit, d, message);
      }
    }
  }

  /** At every moment of a run each message has at most one worker, exactly when no delivery of
      the run overtakes a worker. */
  lemma RunsHaveOneWorker(states: seq<State>, steps: seq<Step>, limit: int)
    requires IsRun(states, steps, limit)
    ensures (forall i :: 0 <= i <= |steps| ==> OneWorker(states[i]))
            <==> (forall i :: 0 <= i < |steps| ==> !Overtakes(states[i], steps[i], limit))
  {
    if forall i :: 0 <= i < |steps| ==> !Overtakes(states[i], steps[i], limit) {
      for i := 0 to |steps|
        invariant forall j :: 0 <= j <= i ==> OneWorker(states[j])
      {
        StepKeepsOneWorker(states[i], steps[i], limit);
      }
    } else {
      var i :| 0 <= i < |steps| && Overtakes(states[i], steps[i], limit);
      if OneWorker(states[i]) {
        StepKeepsOneWorker(states[i], steps[i], limit);
        assert !OneWorker(states[i + 1]);
      }
    }
  }

  /** A message that is being processed is claimed only while it is at most as old as the stale
      limit, counted from its receipt. */
  predicate ClaimsInTime(s: State, step: Step, limit: int) {
    step.Claim? && step.d in s.deliveries ==>
      var message := s.deliveries[step.d].key.message;
      message in s.events && s.events[message].status == Processing ==> s.now <= s.events[message].createdAt + limit
  }

  /** Such a claim overtakes nobody. */
  lemma ClaimsInTimeDoNotOvertake(s: State, step: Step, limit: int)
    requires OneWorker(s) && Enabled(s, step) && ClaimsInTime(s, step, limit)
    ensures !Overtakes(s, step, limit)
  {
  }

  /** In a run whose deliveries come in time, each message has at most one worker at every moment
      and no worker is ever overtaken. */
  lemma {:induction false} YoungMessagesHaveOneWorker(states: seq<State>, steps: seq<Step>, limit: int, i: nat)
    requires IsRun(states, steps, limit) && i <= |steps|
    requires forall k :: 0 <= k < |steps| ==> ClaimsInTime(states[k], steps[k], limit)
    ensures OneWorker(states[i])
    ensures i < |steps| ==> !Overtakes(states[i], steps[i], limit)
  {
    if i > 0 {
      YoungMessagesHaveOneWorker(states, steps, limit, i - 1);
      StepKeepsOneWorker(states[i - 1], steps[i - 1], limit);
    }
    if i < |steps| {
      ClaimsInTimeDoNotOvertake(states[i], steps[i], limit);
    }
  }

  /* ---------- nothing after success ---------- */

  predicate IsProcessed(s: State, message: MessageId) {
    message in s.events && s.events[message].status == Processed
  }

  lemma ProcessedStays(s: State, step: Step, limit: int, message: MessageId)
    requires OneWorker(s) && Enabled(s, step) && IsProcessed(s, message)
    ensures IsProcessed(Take(s, step, limit), message)
    ensures forall d :: !Works(Take(s, step, limit), d, message)
  {
    assert step.Finish? || step.TimeOut? ==> Works(s, step.d, s.deliveries[step.d].key.message);
    forall d ensures !Works(Take(s, step, limit), d, message) {
      if Works(Take(s, step, limit), d, message) {
        WorkersAfter(s, step, limit, d, message);
      }
    }
  }

  /** While no worker is overtaken, a message that has been processed stays processed, and no
      delivery ever works on it again. */
  lemma {:induction false} ProcessedIsFinal(states: seq<State>, steps: seq<Step>, limit: int, i: nat, j: nat, message: MessageId)
    requires IsRun(states, steps, limit) && i < j <= |steps|
    requires forall k :: 0 <= k < |steps| ==> !Overtakes(states[k], steps[k], limit)
    requires IsProcessed(states[i], message)
    ensures IsProcessed(states[j], message) && forall d :: !Works(states[j], d, message)
  {
    RunsHaveOneWorker(states, steps, limit);
    if i < j - 1 {
      ProcessedIsFinal(states, steps, limit, i, j - 1, message);
    }
    ProcessedStays(states[j - 1], steps[j - 1], limit, message);
  }

  /** The same where only the age of the messages is known: in a run whose deliveries come in
      time, a processed message is never run again. */
  lemma YoungProcessedIsFinal(states: seq<State>, steps: seq<Step>, limit: int, i: nat, j: nat, message: MessageId)
    requires IsRun(states, steps, limit) && i < j <= |steps|
    requires forall k :: 0 <= k < |steps| ==> ClaimsInTime(states[k], steps[k], limit)
    requires IsProcessed(states[i], message)
    ensures IsProcessed(states[j], message) && forall d :: !Works(states[j], d, message)
  {
    forall k: nat | k < |steps| ensures !Overtakes(states[k], steps[k], limit) {
      YoungMessagesHaveOneWorker(states, steps, limit, k);
    }
    ProcessedIsFinal(states, steps, limit, i, j, message);
  }

  /* ---------- one run of a message at a time ---------- */

  /** Running the message: as its worker, or still after the worker has given it up. */
  predicate Runs(s: State, d: nat, message: MessageId) {
    d in s.deliveries && (s.deliveries[d].Active? || s.deliveries[d].Overdue?) && s.deliveries[d].key.message == message
  }

  /** No message is run by two deliveries, and one that is run has a row. */
  ghost predicate OneRunner(s: State) {
    && (forall d, d', message :: Runs(s, d, message) && Runs(s, d', message) ==> d == d')
    && (forall d, message :: Runs(s, d, message) ==> message in s.events)
  }

  /** A delivery claims a message while another one is still running it. */
  ghost predicate RunsAgain(s: State, step: Step, limit: int) {
    && step.Claim? && step.d in s.deliveries
    && CanClaim(s.events, s.deliveries[step.d].key.message, s.now, limit)
    && exists d :: d != step.d && Runs(s, d, s.deliveries[step.d].key.message)
  }

  lemma RunnersAfter(s: State, step: Step, limit: int, d: nat, message: MessageId)
    requires Enabled(s, step) && Runs(Take(s, step, limit), d, message)
    ensures Runs(s, d, message) || (step == Claim(d) && CanClaim(s.events, message, s.now, limit))
            || (step == Insert(d) && message !in s.events)
    ensures step == Claim(d) || step == Insert(d) ==> s.deliveries[d].key.message == message && !Runs(s, d, message)
    ensures message in s.events ==> message in Take(s, step, limit).events
  {
  }

  lemma RunnersStayApart(s: State, step: Step, limit: int, d: nat, d': nat, message: MessageId)
    requires OneRunner(s) && Enabled(s, step) && !RunsAgain(s, step, limit)
    requires Runs(Take(s, step, limit), d, message) && Runs(Take(s, step, limit), d', message)
    ensures d == d'
  {
    RunnersAfter(s, step, limit, d, message);
    RunnersAfter(s, step, limit, d', message);
  }

  /** A step keeps each message to one run at a time exactly when it is not such a claim. */
  lemma StepKeepsOneRunner(s: State, step: Step, limit: int)
    requires OneRunner(s) && Enabled(s, step)
    ensures OneRunner(Take(s, step, limit)) <==> !RunsAgain(s, step, limit)
  {
    var s' := Take(s, step, limit);
    if RunsAgain(s, step, limit) {
      var message := s.deliveries[step.d].key.message;
      var d :| d != step.d && Runs(s, d, message);
      assert Runs(s', d, message) && Runs(s', step.d, message);
    } else {
      forall d, d', message | Runs(s', d, message) && Runs(s', d', message) ensures d == d' {
        RunnersStayApart(s, step, limit, d, d', message);
      }
      forall d, message | Runs(s', d, message) ensures message in s'.events {
        RunnersAfter(s, step, limit, d, message);
      }
    }
  }

  /** At every moment of a run each message is run by one delivery at most, exactly when no
      delivery of the run claims a message that another one is still running. */
  lemma RunsHaveOneRunner(states: seq<State>, steps: seq<Step>, limit: int)
    requires IsRun(states, steps, limit)
    ensures (forall i :: 0 <= i <= |steps| ==> OneRunner(states[i]))
            <==> (forall i :: 0 <= i < |steps| ==> !RunsAgain(states[i], steps[i], limit))
  {
    if forall i :: 0 <= i < |steps| ==> !RunsAgain(states[i], steps[i], limit) {
      for i := 0 to |steps|
        invariant forall j :: 0 <= j <= i ==> OneRunner(states[j])
      {
        StepKeepsOneRunner(states[i], steps[i], limit);
      }
    } else {
      var i :| 0 <= i < |steps| && RunsAgain(states[i], steps[i], limit);
      if OneRunner(states[i]) {
        StepKeepsOneRunner(states[i], steps[i], limit);
        assert !OneRunner(states[i + 1]);
      }
    }
  }

  /** The row says that a message is being processed while its worker is at it, and that it is
      processed while it is run after that. */
  ghost predicate RowsTellRunners(s: State) {
    forall d, message :: Runs(s, d, message) ==>
      message in s.events && s.events[message].status == if s.deliveries[d].Active? then Processing else Processed
  }

  /** A worker that gives up finds the user's prompt and leaves the message processed, not failed. */
  predicate GivesUpAsProcessed(step: Step) {
    step.TimeOut? ==> step.prompted
  }

  lemma StepKeepsRowsTelling(s: State, step: Step, limit: int)
    requires OneRunner(s) && RowsTellRunners(s) && Enabled(s, step)
    requires ClaimsInTime(s, step, limit) && GivesUpAsProcessed(step)
    ensures !RunsAgain(s, step, limit) && RowsTellRunners(Take(s, step, limit))
  {
    var s' := Take(s, step, limit);
    assert step.Finish? || step.TimeOut? ==> Runs(s, step.d, s.deliveries[step.d].key.message);
    forall d, message | Runs(s', d, message)
      ensures message in s'.events && s'.events[message].status == if s'.deliveries[d].Active? then Processing else Processed
    {
      RunnersAfter(s, step, limit, d, message);
    }
  }

  /** In a run whose deliveries come in time and whose workers never give up a message as failed,
      each message is run by one delivery at most at every moment. */
  lemma {:induction false} PromptedMessagesRunOnce(states: seq<State>, steps: seq<Step>, limit: int, i: nat)
    requires IsRun(states, steps, limit) && i <= |steps|
    requires forall k :: 0 <= k < |steps| ==> ClaimsInTime(states[k], steps[k], limit) && GivesUpAsProcessed(steps[k])
    ensures OneRunner(states[i]) && RowsTellRunners(states[i])
  {
    if i > 0 {
      PromptedMessagesRunOnce(states, steps, limit, i - 1);
      StepKeepsRowsTelling(states[i - 1], steps[i - 1], limit);
      StepKeepsOneRunner(states[i - 1], steps[i - 1], limit);
    }
  }

  /* ---------- one delivery a minute ---------- */

  /** Deliveries in flight have different request keys, all of them on record. */
  ghost predicate KeysDiffer(s: State) {
    && (forall d :: d in s.deliveries ==> s.deliveries[d].key in s.requests)
    && (forall d, d' :: d in s.deliveries && d' in s.deliveries && d != d' ==> s.deliveries[d].key != s.deliveries[d'].key)
  }

  lemma StepKeepsKeysDiffer(s: State, step: Step, limit: int)
    requires KeysDiffer(s) && Enabled(s, step)
    ensures KeysDiffer(Take(s, step, limit))
  {
  }

  /** In every run, stale claims or not, the deliveries in flight have different request keys. */
  lemma {:induction false} KeysAlwaysDiffer(states: seq<State>, steps: seq<Step>, limit: int, i: nat)
    requires IsRun(states, steps, limit) && i <= |steps|
    ensures KeysDiffer(states[i])
  {
    if i > 0 {
      KeysAlwaysDiffer(states, steps, limit, i - 1);
      StepKeepsKeysDiffer(states[i - 1], steps[i - 1], limit);
    }
  }

  /** A used request key stays on record. */
  lemma {:induction false} KeysAreKept(states: seq<State>, steps: seq<Step>, limit: int, i: nat, j: nat)
    requires IsRun(states, steps, limit) && i <= j <= |steps|
    ensures states[i].requests <= states[j].requests
  {
    if i < j {
      KeysAreKept(states, steps, limit, i, j - 1);
    }
  }

  /** Once a message has come in, every later delivery of it in the same minute is turned away at
      the request key and changes nothing, whatever became of the first. */
  lemma OneDeliveryAMinute(states: seq<State>, steps: seq<Step>, limit: int, i: nat, j: nat)
    requires IsRun(states, steps, limit) && i < j < |steps|
    requires steps[i].Arrive? && steps[j].Arrive? && steps[i].message == steps[j].message
    requires states[i].now / 60 == states[j].now / 60
    ensures states[j + 1] == states[j]
  {
    assert KeyAt(steps[i].message, states[i].now) in states[i + 1].requests;
    KeysAreKept(states, steps, limit, i + 1, j);
  }

  /* ---------- what the claim does not prevent ---------- */

  ghost predicate Reachable(s: State, limit: int) {
    exists states, steps :: IsRun(states, steps, limit) && states[|steps|] == s
  }

  lemma Reach(s: State, step: Step, limit: int)
    requires Reachable(s, limit) && Enabled(s, step)
    ensures Reachable(Take(s, step, limit), limit)
  {
    var states, steps :| IsRun(states, steps, limit) && states[|steps|] == s;
    var states', steps' := states + [Take(s, step, limit)], steps + [step];
    forall i | 0 <= i < |steps'|
      ensures Enabled(states'[i], steps'[i]) && states'[i + 1] == Take(states'[i], steps'[i], limit)
    {
      if i < |steps| {
        assert states'[i] == states[i] && steps'[i] == steps[i];
      }
    }
    assert IsRun(states', steps', limit) && states'[|steps'|] == Take(s, step, limit);
  }

  /** A message comes in at a given time and its first delivery claims it at once. */
  lemma FirstClaim(message: MessageId, limit: int) returns (s: State)
    ensures Reachable(s, limit) && s.now == 0 && s.requests == {Key(message, 0)}
    ensures s.events == map[message := EventRow(Processing, 0)] && s.deliveries == map[0 := Active(Key(message, 0))]
  {
    assert IsRun([START], [], limit);
    Reach(START, Receive(message), limit);
    s := Take(START, Receive(message), limit);
    Reach(s, Arrive(0, message), limit);
    s := Take(s, Arrive(0, message), limit);
    Reach(s, Claim(0), limit);
    s := Take(s, Claim(0), limit);
  }

  /** Some time later another delivery claims it. */
  lemma NextClaim(s: State, message: MessageId, seconds: nat, d: nat, limit: int) returns (s': State)
    requires Reachable(s, limit) && d !in s.deliveries && KeyAt(message, s.now + seconds) !in s.requests
    requires CanClaim(s.events, message, s.now + seconds, limit)
    ensures Reachable(s', limit) && s'.now == s.now + seconds && s'.requests == s.requests + {KeyAt(message, s'.now)}
    ensures s'.events == WithStatus(s.events, message, Processing)
            && s'.deliveries == s.deliveries[d := Active(KeyAt(message, s'.now))]
  {
    Reach(s, Pass(seconds), limit);
    s' := Take(s, Pass(seconds), limit);
    Reach(s', Arrive(d, message), limit);
    s' := Take(s', Arrive(d, message), limit);
    Reach(s', Claim(d), limit);
    s' := Take(s', Claim(d), limit);
  }

  /** The stale limit runs from receipt, not from the claim: a message that failed and was
      claimed again after the limit is taken from its new worker a minute later. */
  lemma FreshClaimIsOvertaken(message: MessageId)
    ensures exists s, d, d' :: Reachable(s, 120) && d != d' && Works(s, d, message) && Works(s, d', message)
  {
    var s := FirstClaim(message, 120);
    Reach(s, Finish(0, false), 120);
    s := Take(s, Finish(0, false), 120);
    s := NextClaim(s, message, 180, 1, 120);
    s := NextClaim(s, message, 60, 2, 120);
    assert Works(s, 1, message) && Works(s, 2, message);
  }

  /** A worker that gives up on a slow message marks it failed while it is still being run, so
      that the next delivery runs it a second time at the same time, however young it is. */
  lemma OverdueMessageRunsTwice(message: MessageId)
    ensures exists s, d, d' :: Reachable(s, 120) && s.now == 60 && d in s.deliveries && Works(s, d', message)
              && s.deliveries[d].Overdue? && s.deliveries[d].key.message == message
  {
    var s := FirstClaim(message, 120);
    Reach(s, TimeOut(0, false), 120);
    s := Take(s, TimeOut(0, false), 120);
    s := NextClaim(s, message, 60, 1, 120);
    assert s.deliveries[0] == Overdue(Key(message, 0)) && Works(s, 1, message);
  }
}
