/** What holds for every interleaving of terminal sends and reply collectors. */
module BrokerLaws {
  import opened Common
  import opened Broker

  /* ---------- replies are conserved ---------- */

  predicate IsStored(s: State, i: nat) {
    i < |s.posts| && s.posts[i] in s.shared.replies && s.shared.replies[s.posts[i]] == i
  }

  ghost predicate IsReturnedTo(s: State, i: nat, c: nat) {
    c in s.collectors && s.collectors[c].Returned? && s.collectors[c].got == Some(i)
  }

  /** Every posted reply is in exactly one place: stored under its id, overwritten by a later
      reply to the same id, or returned to one collector, which asked for that id. */
  ghost predicate Conserved(s: State) {
    && (forall cid :: cid in s.shared.replies ==> s.shared.replies[cid] < |s.posts| && s.posts[s.shared.replies[cid]] == cid)
    && (forall i :: i in s.overwritten ==> i < |s.posts| && !IsStored(s, i))
    && (forall i: nat, c: nat :: IsReturnedTo(s, i, c) ==>
          i < |s.posts| && s.posts[i] == s.collectors[c].cid && !IsStored(s, i) && i !in s.overwritten)
    && (forall i: nat, c: nat, c': nat :: IsReturnedTo(s, i, c) && IsReturnedTo(s, i, c') ==> c == c')
    && (forall i: nat :: i < |s.posts| ==> IsStored(s, i) || i in s.overwritten || exists c: nat :: IsReturnedTo(s, i, c))
  }

  lemma PostConserves(s: State, cid: Cid)
    requires Conserved(s)
    ensures Conserved(Take(s, Post(cid)))
  {
    var s' := Take(s, Post(cid));
    forall i: nat, c: nat ensures IsReturnedTo(s', i, c) <==> IsReturnedTo(s, i, c) {
    }
    forall i: nat | i < |s'.posts|
      ensures IsStored(s', i) || i in s'.overwritten || exists c: nat :: IsReturnedTo(s', i, c)
    {
      if i < |s.posts| && exists c: nat :: IsReturnedTo(s, i, c) {
        var c: nat :| IsReturnedTo(s, i, c);
        assert IsReturnedTo(s', i, c);
      } else if i < |s.posts| && IsStored(s, i) && !IsStored(s', i) {
        assert s.posts[i] == cid;
      }
    }
  }

  predicate Takes(s: State, cid: Cid, i: nat) {
    cid in s.shared.replies && s.shared.replies[cid] == i
  }

  /** A collector that ends takes what is stored for its id, and nothing else moves. */
  lemma EndReturns(s: State, c: nat, cid: Cid, i: nat, c': nat)
    requires c in s.collectors && !s.collectors[c].Returned?
    ensures IsReturnedTo(Ends(s, c, cid), i, c') <==> if c' == c then Takes(s, cid, i) else IsReturnedTo(s, i, c')
  {
  }

  lemma EndConserves(s: State, c: nat, cid: Cid)
    requires Conserved(s) && c in s.collectors && !s.collectors[c].Returned?
    ensures Conserved(Ends(s, c, cid))
  {
    var s' := Ends(s, c, cid);
    forall i: nat, c': nat
      ensures IsReturnedTo(s', i, c') <==> if c' == c then Takes(s, cid, i) else IsReturnedTo(s, i, c')
    {
      EndReturns(s, c, cid, i, c');
    }
    forall i: nat ensures IsStored(s', i) <==> IsStored(s, i) && s.posts[i] != cid {
    }
    forall i: nat | i < |s'.posts|
      ensures IsStored(s', i) || i in s'.overwritten || exists c': nat :: IsReturnedTo(s', i, c')
    {
      if IsStored(s, i) && s.posts[i] == cid {
        assert IsReturnedTo(s', i, c);
      } else if c': nat :| IsReturnedTo(s, i, c') {
        assert IsReturnedTo(s', i, c');
      }
    }
  }

  lemma MoveConserves(s: State, s': State)
    requires Conserved(s) && s'.posts == s.posts && s'.overwritten == s.overwritten && s'.shared.replies == s.shared.replies
    requires forall c :: c in s'.collectors && s'.collectors[c].Returned? ==>
             c in s.collectors && s.collectors[c] == s'.collectors[c]
    requires forall c :: c in s.collectors && s.collectors[c].Returned? ==>
             c in s'.collectors && s.collectors[c] == s'.collectors[c]
    ensures Conserved(s')
  {
    forall i: nat, c: nat ensures IsReturnedTo(s', i, c) <==> IsReturnedTo(s, i, c) {
    }
    forall i: nat ensures IsStored(s', i) <==> IsStored(s, i) {
    }
    forall i: nat | i < |s'.posts|
      ensures IsStored(s', i) || i in s'.overwritten || exists c: nat :: IsReturnedTo(s', i, c)
    {
      if c: nat :| IsReturnedTo(s, i, c) {
        assert IsReturnedTo(s', i, c);
      }
    }
  }

  lemma StepConserves(s: State, step: Step)
    requires Conserved(s) && Enabled(s, step)
    ensures Conserved(Take(s, step))
  {
    if step.Post? {
      PostConserves(s, step.cid);
    } else if step.Finish? || (step.Look? && s.collectors[step.c].cid in s.shared.replies) {
      EndConserves(s, step.c, s.collectors[step.c].cid);
    } else {
      MoveConserves(s, Take(s, step));
    }
  }

  /** In every run, each reply that was ever posted is stored, overwritten, or returned to
      exactly one collector of its own id. */
  lemma {:induction false} RepliesAreConserved(states: seq<State>, steps: seq<Step>, i: nat)
    requires IsRun(states, steps) && i <= |steps|
    ensures Conserved(states[i])
  {
    if i > 0 {
      RepliesAreConserved(states, steps, i - 1);
      StepConserves(states[i - 1], steps[i - 1]);
    }
  }

  /** A reply is returned at most once, and only to a collector of the id it was posted under. */
  lemma NoLeakNoDuplicate(states: seq<State>, steps: seq<Step>, i: nat, c: nat, c': nat, reply: nat)
    requires IsRun(states, steps) && i <= |steps|
    requires IsReturnedTo(states[i], reply, c)
    ensures reply < |states[i].posts| && states[i].posts[reply] == states[i].collectors[c].cid
    ensures IsReturnedTo(states[i], reply, c') ==> c == c'
  {
    RepliesAreConserved(states, steps, i);
  }

  /* ---------- wake-ups ---------- */

  /** A collector that may yet wait, or waits, on its event. */
  predicate Listening(st: Stage) {
    st.Arrived? || st.Waiting?
  }

  /** Collecting for an id, from the event being fetched until the last look. */
  predicate Active(st: Stage) {
    !st.Returned?
  }

  /** The events of all listening collectors are registered under their ids. */
  ghost predicate Registered(s: State) {
    forall c :: c in s.collectors && Listening(s.collectors[c]) ==>
      s.collectors[c].cid in s.shared.events && s.shared.events[s.collectors[c].cid] == s.collectors[c].event
  }

  /** A collector that leaves withdraws the event another one is listening on. */
  ghost predicate Deregisters(s: State, step: Step) {
    && (step.Finish? || (step.Look? && step.c in s.collectors && s.collectors[step.c].cid in s.shared.replies))
    && exists c :: c in s.collectors && c != step.c && Listening(s.collectors[c])
                   && step.c in s.collectors && s.collectors[c].cid == s.collectors[step.c].cid
  }

  lemma StepKeepsRegistered(s: State, step: Step)
    requires Registered(s) && Enabled(s, step)
    ensures Registered(Take(s, step)) <==> !Deregisters(s, step)
  {
    if Deregisters(s, step) {
      var c :| c in s.collectors && c != step.c && Listening(s.collectors[c]) && s.collectors[c].cid == s.collectors[step.c].cid;
      assert Take(s, step).collectors[c] == s.collectors[c];
    }
  }

  /** No collector sleeps while its reply is stored: its event is set. */
  ghost predicate NoMissedWakeUp(s: State) {
    forall c :: c in s.collectors && s.collectors[c].Waiting? && s.collectors[c].cid in s.shared.replies ==>
      s.collectors[c].event in s.shared.signalled
  }

  /** A post leaves a waiting collector asleep exactly when its event is neither set already nor
      registered any more. */
  lemma PostWakesTheRegistered(s: State, cid: Cid, c: nat)
    requires c in s.collectors && s.collectors[c].Waiting? && s.collectors[c].cid == cid
    ensures var event := s.collectors[c].event;
            Enabled(Take(s, Post(cid)), Wake(c))
            <==> event in s.shared.signalled || (cid in s.shared.events && s.shared.events[cid] == event)
  {
  }

  lemma StepKeepsWakeUps(s: State, step: Step)
    requires Registered(s) && NoMissedWakeUp(s) && Enabled(s, step)
    ensures NoMissedWakeUp(Take(s, step))
  {
  }

  /** At most one collector at a time for each id. */
  ghost predicate Single(s: State) {
    forall c, c' :: c in s.collectors && c' in s.collectors && c != c' && Active(s.collectors[c]) && Active(s.collectors[c']) ==>
      s.collectors[c].cid != s.collectors[c'].cid
  }

  /** While each id has at most one collector at a time, no wake-up is missed: whenever a reply
      is stored for a waiting collector, that collector can wake. */
  lemma {:induction false} SingleCollectorsAreWoken(states: seq<State>, steps: seq<Step>, i: nat)
    requires IsRun(states, steps) && i <= |steps|
    requires forall j :: 0 <= j <= i ==> Single(states[j])
    ensures Registered(states[i]) && NoMissedWakeUp(states[i])
  {
    if i > 0 {
      SingleCollectorsAreWoken(states, steps, i - 1);
      StepKeepsRegistered(states[i - 1], steps[i - 1]);
      StepKeepsWakeUps(states[i - 1], steps[i - 1]);
      SingleDoesNotDeregister(states[i - 1], steps[i - 1]);
    }
  }

  lemma SingleDoesNotDeregister(s: State, step: Step)
    requires Single(s) && Enabled(s, step)
    ensures !Deregisters(s, step)
  {
  }

  /* ---------- no false wake-up ---------- */

  /** Event objects are never reused: the set ones and the registered ones have been made, and
      different ids have different events. */
  ghost predicate EventsDiffer(s: State) {
    && (forall n :: n in s.shared.signalled ==> n < s.shared.made)
    && (forall cid :: cid in s.shared.events ==> s.shared.events[cid] < s.shared.made)
    && (forall cid, cid' :: cid in s.shared.events && cid' in s.shared.events && cid != cid' ==>
          s.shared.events[cid] != s.shared.events[cid'])
  }

  /** A registered event belongs to somebody who collects, and is set only once its reply is
      stored. */
  ghost predicate EventsMeanReplies(s: State) {
    forall cid :: cid in s.shared.events ==>
      && (exists c :: c in s.collectors && Active(s.collectors[c]) && s.collectors[c].cid == cid)
      && (s.shared.events[cid] in s.shared.signalled ==> cid in s.shared.replies)
  }

  lemma StepKeepsEventsDiffer(s: State, step: Step)
    requires EventsDiffer(s) && Enabled(s, step)
    ensures EventsDiffer(Take(s, step))
  {
  }

  lemma StepKeepsEventsMeaning(s: State, step: Step)
    requires EventsDiffer(s) && EventsMeanReplies(s) && Enabled(s, step) && Single(s)
    ensures EventsMeanReplies(Take(s, step))
  {
    var s' := Take(s, step);
    forall cid | cid in s'.shared.events
      ensures exists c :: c in s'.collectors && Active(s'.collectors[c]) && s'.collectors[c].cid == cid
      ensures s'.shared.events[cid] in s'.shared.signalled ==> cid in s'.shared.replies
    {
      if cid in s.shared.events {
        var c :| c in s.collectors && Active(s.collectors[c]) && s.collectors[c].cid == cid;
        assert c in s'.collectors && Active(s'.collectors[c]) && s'.collectors[c].cid == cid;
      } else {
        assert step.Arrive? && s'.collectors[step.c] == Arrived(cid, s.shared.made);
      }
    }
  }

  /** While each id has at most one collector at a time, a waiting collector can wake exactly
      when its reply is stored. */
  lemma {:induction false} WakesExactlyForReplies(states: seq<State>, steps: seq<Step>, i: nat)
    requires IsRun(states, steps) && i <= |steps|
    requires forall j :: 0 <= j <= i ==> Single(states[j])
    ensures EventsDiffer(states[i]) && EventsMeanReplies(states[i])
    ensures forall c :: c in states[i].collectors && states[i].collectors[c].Waiting? ==>
              (Enabled(states[i], Wake(c)) <==> states[i].collectors[c].cid in states[i].shared.replies)
  {
    SingleCollectorsAreWoken(states, steps, i);
    if i > 0 {
      WakesExactlyForReplies(states, steps, i - 1);
      StepKeepsEventsDiffer(states[i - 1], steps[i - 1]);
      StepKeepsEventsMeaning(states[i - 1], steps[i - 1]);
    }
  }

  /* ---------- timeouts lose nothing ---------- */

  /** The only collector of an id, from some moment on. */
  ghost predicate Alone(s: State, c: nat, cid: Cid) {
    && c in s.collectors && Active(s.collectors[c]) && s.collectors[c].cid == cid
    && forall c' :: c' in s.collectors && Active(s.collectors[c']) && s.collectors[c'].cid == cid ==> c' == c
  }

  lemma {:induction false} ReplyStaysStored(states: seq<State>, steps: seq<Step>, j: nat, i: nat, c: nat, cid: Cid)
    requires IsRun(states, steps) && j <= i <= |steps|
    requires cid in states[j].shared.replies
    requires forall k :: j <= k < i ==> Alone(states[k], c, cid)
    requires c in states[i].collectors && Active(states[i].collectors[c])
    ensures cid in states[i].shared.replies
  {
    if j < i {
      ReplyStaysStored(states, steps, j, i - 1, c, cid);
      assert Alone(states[i - 1], c, cid);
    }
  }

  /** A collector that is alone on its id and has not returned when a reply to it is posted
      returns a reply, whether it wakes or times out, and however late it looks. */
  lemma PostedReplyIsCollected(states: seq<State>, steps: seq<Step>, j: nat, i: nat, c: nat, cid: Cid)
    requires IsRun(states, steps) && j < i < |steps| && steps[j] == Post(cid)
    requires forall k :: j <= k <= i ==> Alone(states[k], c, cid)
    requires c in states[i + 1].collectors && states[i + 1].collectors[c].Returned?
    ensures cid in states[i].shared.replies && states[i + 1].collectors[c].got == Some(states[i].shared.replies[cid])
  {
    ReplyStaysStored(states, steps, j + 1, i, c, cid);
  }

  /* ---------- two collectors on one id ---------- */

  ghost predicate Reachable(s: State) {
    exists states, steps :: IsRun(states, steps) && states[|steps|] == s
  }

  lemma Reach(s: State, step: Step)
    requires Reachable(s) && Enabled(s, step)
    ensures Reachable(Take(s, step))
  {
    var states, steps :| IsRun(states, steps) && states[|steps|] == s;
    var states', steps' := states + [Take(s, step)], steps + [step];
    forall i | 0 <= i < |steps'| ensures Enabled(states'[i], steps'[i]) && states'[i + 1] == Take(states'[i], steps'[i]) {
      if i < |steps| {
        assert states'[i] == states[i] && steps'[i] == steps[i];
      }
    }
    assert IsRun(states', steps') && states'[|steps'|] == Take(s, step);
  }

  lemma TwoWaiting(cid: Cid) returns (s: State)
    ensures Reachable(s) && s.posts == [] && s.shared == Shared(map[], map[cid := 0], {}, 1)
    ensures s.collectors == map[0 := Waiting(cid, 0), 1 := Waiting(cid, 0)]
  {
    assert IsRun([START], []);
    s := START;
    var steps := [Arrive(0, cid), Arrive(1, cid), Look(0), Look(1)];
    Reach(s, steps[0]);
    s := Take(s, steps[0]);
    Reach(s, steps[1]);
    s := Take(s, steps[1]);
    Reach(s, steps[2]);
    s := Take(s, steps[2]);
    Reach(s, steps[3]);
    s := Take(s, steps[3]);
  }

  /** Two collectors wait for one id; the first times out and withdraws the event that both hold;
      the reply that comes then is stored, and nothing wakes the second. */
  lemma SecondCollectorSleeps(cid: Cid)
    ensures exists s, c :: Reachable(s) && c in s.collectors && s.collectors[c].Waiting? && s.collectors[c].cid == cid
                           && cid in s.shared.replies && !Enabled(s, Wake(c))
  {
    var s := TwoWaiting(cid);
    Reach(s, TimeOut(0));
    s := Take(s, TimeOut(0));
    Reach(s, Finish(0));
    s := Take(s, Finish(0));
    assert cid !in s.shared.events && s.shared.signalled == {};
    Reach(s, Post(cid));
    s := Take(s, Post(cid));
    assert s.collectors[1] == Waiting(cid, 0) && !Enabled(s, Wake(1));
  }
}
