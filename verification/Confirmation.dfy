/** The confirmation protocol as a step system. A parsed message waits in its sender's one
    pending row; a YES locks the row, publishes its event to the ledger and unlocks or removes
    the row by what comes back. Any number of message handlers run at once, and their steps
    interleave freely. One step is one database transaction, or one local decision. */
module Confirmation {
  import opened Common
  import opened EventKeys
  import opened LedgerBooks
  import opened KeyLaws
  import opened LedgerAgent

  /** The sender's row in pending_confirmations. */
  datatype Row = Row(id: nat, event: EventId, request: LedgerRequest, recording: bool)

  /** What a handler publishes, and the id of the row it locked; none when it publishes without
      confirmation. */
  datatype Run = Run(event: EventId, request: LedgerRequest, row: Option<nat>)

  /** Where a message handler stands. */
  datatype Stage =
    | Loaded(loaded: Row, yes: bool)
    | Reviewing(run: Run)
    | Between(run: Run, attempt: nat)
    | Writing(run: Run, attempt: nat, done: nat)
    | Reporting(run: Run, attempt: nat)
    | Replied(run: Run, reply: Option<CfoMessage>)
    | Clearing(run: Run, rejected: bool)
    | Resetting(run: Run)

  /** The shared tables, the handlers in flight, and a history that no step reads except to
      choose new identifiers: every row stored, and the run that committed each event. */
  datatype State = State(
    pending: Option<Row>, handlers: map<nat, Stage>,
    written: seq<KeyedEntry>, processed: set<EventId>,
    issued: set<EventId>, stored: map<nat, Row>, committed: map<EventId, Run>)

  const START := State(None, map[], [], {}, {}, map[], map[])

  /* ---------- the pending row ---------- */

  predicate Lockable(p: Option<Row>) {
    p.Some? && !p.value.recording
  }

  /** The row with its recording flag set or reset; an absent row stays absent. */
  function Flagged(p: Option<Row>, recording: bool): Option<Row> {
    match p case None => None case Some(row) => Some(row.(recording := recording))
  }

  /** A handler that published what it found in a given row, and has not finished with it. */
  predicate Holds(st: Stage, id: nat) {
    !st.Loaded? && st.run.row == Some(id)
  }

  /** The recovery probe over the tables written so far. */
  ghost predicate Probe(written: seq<KeyedEntry>, e: EventId) {
    exists table: Table, key :: Probed(table) && key in KeysWritten(written, table) && Like(key, e + "%")
  }

  /** An entry whose key is still free in every table it is written to. */
  predicate Fits(written: seq<KeyedEntry>, k: KeyedEntry) {
    forall table: Table :: WritesTo(k.entry, table) ==> k.key !in KeysWritten(written, table)
  }

  /** The unique columns admit a whole message and its marker. */
  predicate Admits(s: State, e: EventId, ks: seq<KeyedEntry>) {
    e !in s.processed && forall k :: k in ks ==> Fits(s.written, k)
  }

  /* ---------- steps ---------- */

  /** How the ledger learns of a commit: it does; or the connection is lost once the commit is
      durable, with a retried error or another one. */
  datatype Acknowledgement = Acked | LostTransient | LostOther

  datatype Step =
    | Store(id: nat, event: EventId, request: LedgerRequest)
    | Direct(h: nat, event: EventId, request: LedgerRequest)
    | Load(h: nat, yes: bool)
    | Cancel(h: nat)
    | Lock(h: nat)
    | LockLost(h: nat, durable: bool)
    | Review(h: nat, reviewer: Reviewer)
    | Begin(h: nat)
    | Write(h: nat)
    | Abort(h: nat, answer: Option<CfoMessage>)
    | Transient(h: nat)
    | Commit(h: nat, ack: Acknowledgement)
    | Report(h: nat, succeeded: bool)
    | LoseReply(h: nat)
    | Decide(h: nat)
    | ProbeFails(h: nat)
    | Clear(h: nat)
    | ClearFails(h: nat)
    | Reset(h: nat)
    | ResetFails(h: nat)
    | Crash(h: nat)

  /** The position a step needs its handler to be in, and the guards of its statements. Only a
      message with something to record is held for confirmation. */
  predicate Enabled(s: State, step: Step) {
    match step
    case Store(id, e, r) => id !in s.stored && e !in s.issued && Mutating(r)
    case Direct(h, e, r) => h !in s.handlers && e !in s.issued
    case Load(h, yes) => h !in s.handlers && s.pending.Some?
    case Cancel(h) => h in s.handlers && s.handlers[h].Loaded? && !s.handlers[h].yes
    case Lock(h) => h in s.handlers && s.handlers[h].Loaded? && s.handlers[h].yes
    case LockLost(h, durable) =>
      h in s.handlers && s.handlers[h].Loaded? && s.handlers[h].yes && (durable ==> Lockable(s.pending))
    case Review(h, _) => h in s.handlers && s.handlers[h].Reviewing?
    case Begin(h) => h in s.handlers && s.handlers[h].Between? && Mutating(s.handlers[h].run.request)
    case Write(h) =>
      && h in s.handlers && s.handlers[h].Writing?
      && var st := s.handlers[h];
      && var ks := Entries(st.run.event, st.run.request);
      && st.done < |ks| && Fits(s.written, ks[st.done])
    case Abort(h, answer) =>
      && h in s.handlers && (s.handlers[h].Between? || s.handlers[h].Writing? || (s.handlers[h].Reviewing? && answer == None))
      && answer != Some(Rejection) && (answer == Some(Success) ==> !Mutating(s.handlers[h].run.request))
    case Transient(h) =>
      h in s.handlers && (s.handlers[h].Between? || s.handlers[h].Writing? || s.handlers[h].Reporting?)
    case Commit(h, _) =>
      && h in s.handlers && s.handlers[h].Writing?
      && var st := s.handlers[h];
      && var ks := Entries(st.run.event, st.run.request);
      && st.done == |ks| && Admits(s, st.run.event, ks)
    case Report(h, _) => h in s.handlers && s.handlers[h].Reporting?
    case LoseReply(h) => h in s.handlers && s.handlers[h].Replied?
    case Decide(h) => h in s.handlers && s.handlers[h].Replied?
    case ProbeFails(h) =>
      h in s.handlers && s.handlers[h].Replied? && s.handlers[h].reply == None && s.handlers[h].run.row.Some?
    case Clear(h) => h in s.handlers && s.handlers[h].Clearing?
    case ClearFails(h) =>
      h in s.handlers && (s.handlers[h].Clearing? || (s.handlers[h].Loaded? && !s.handlers[h].yes))
    case Reset(h) => h in s.handlers && s.handlers[h].Resetting?
    case ResetFails(h) => h in s.handlers && s.handlers[h].Resetting?
    case Crash(h) => h in s.handlers
  }

  /** What the handler does with the reply it collected. */
  ghost function Decided(written: seq<KeyedEntry>, run: Run, reply: Option<CfoMessage>): Stage {
    match reply
    case Some(Rejection) => Clearing(run, true)
    case Some(Error) => Resetting(run)
    case Some(Success) => Clearing(run, false)
    case None => if Probe(written, run.event) then Clearing(run, false) else Resetting(run)
  }

  /** The next attempt, or the dead letter after the last one. */
  function NextAttempt(run: Run, attempt: nat): Stage {
    if attempt < MAX_ATTEMPTS then Between(run, attempt + 1) else Replied(run, Some(Error))
  }

  /** Where a step leaves its handler; None when the handler is done. */
  ghost function NextStage(s: State, step: Step): Option<Stage>
    requires Enabled(s, step) && !step.Store?
  {
    match step
    case Direct(h, e, r) => Some(Reviewing(Run(e, r, None)))
    case Load(h, yes) => Some(Loaded(s.pending.value, yes))
    case Lock(h) => if Lockable(s.pending) then Some(Reviewing(LockedRun(s, h))) else None
    case Review(h, reviewer) => Some(Reviewed(s.handlers[h].run, reviewer))
    case Begin(h) =>
      var st := s.handlers[h];
      Some(if st.run.event in s.processed then Replied(st.run, None) else Writing(st.run, st.attempt, 0))
    case Write(h) => var st := s.handlers[h]; Some(st.(done := st.done + 1))
    case Abort(h, answer) => Some(Replied(s.handlers[h].run, answer))
    case Transient(h) => Some(NextAttempt(s.handlers[h].run, s.handlers[h].attempt))
    case Commit(h, ack) => Some(CommitEnds(s.handlers[h].run, s.handlers[h].attempt, ack))
    case Report(h, succeeded) => Some(Replied(s.handlers[h].run, Some(if succeeded then Success else Error)))
    case LoseReply(h) => Some(Replied(s.handlers[h].run, None))
    case Decide(h) => var st := s.handlers[h]; if st.run.row == None then None else Some(Decided(s.written, st.run, st.reply))
    case ProbeFails(h) => Some(Resetting(s.handlers[h].run))
    case Cancel(_) => None
    case LockLost(_, _) => None
    case Clear(_) => None
    case ClearFails(_) => None
    case Reset(_) => None
    case ResetFails(_) => None
    case Crash(_) => None
  }

  /** The run a successful lock starts. The lock re-reads the row: the request it publishes is
      the row's, but the event id is still the one that was loaded before. */
  function LockedRun(s: State, h: nat): Run
    requires h in s.handlers && s.handlers[h].Loaded? && s.pending.Some?
  {
    Run(s.handlers[h].loaded.event, s.pending.value.request, Some(s.pending.value.id))
  }

  function Reviewed(run: Run, reviewer: Reviewer): Stage {
    if PassesReview(reviewer, run.request) then Between(run, 1) else Replied(run, Some(Rejection))
  }

  function CommitEnds(run: Run, attempt: nat, ack: Acknowledgement): Stage {
    match ack
    case Acked => Reporting(run, attempt)
    case LostTransient => NextAttempt(run, attempt)
    case LostOther => Replied(run, Some(Error))
  }

  /** What a step makes of the pending row. Rows are found by sender, never by id. A handler whose
      clear or reset meets a database error leaves the row as it is and answers all the same. */
  function NextRow(s: State, step: Step): Option<Row>
    requires Enabled(s, step)
  {
    match step
    case Store(id, e, r) => Some(Row(id, e, r, false))
    case Cancel(_) => None
    case Lock(_) => Flagged(s.pending, true)
    case LockLost(_, durable) => if durable then Flagged(s.pending, true) else s.pending
    case Clear(_) => None
    case Reset(_) => Flagged(s.pending, false)
    case _ => s.pending
  }

  /** One step. Only a commit changes the tables, and it changes all of them at once. */
  ghost function Take(s: State, step: Step): State
    requires Enabled(s, step)
  {
    match step
    case Store(id, e, r) =>
      s.(pending := NextRow(s, step), issued := s.issued + {e}, stored := s.stored[id := Row(id, e, r, false)])
    case Direct(h, e, r) =>
      s.(handlers := NextHandlers(s, step), issued := s.issued + {e})
    case Commit(h, ack) =>
      var run := s.handlers[h].run;
      s.(handlers := NextHandlers(s, step), written := s.written + Entries(run.event, run.request),
         processed := s.processed + {run.event}, committed := s.committed[run.event := run])
    case _ => s.(pending := NextRow(s, step), handlers := NextHandlers(s, step))
  }

  ghost function NextHandlers(s: State, step: Step): map<nat, Stage>
    requires Enabled(s, step) && !step.Store?
  {
    match NextStage(s, step)
    case None => s.handlers - {step.h}
    case Some(st) => s.handlers[step.h := st]
  }

  /** A run from the empty state: the state before each step, and the one after the last. */
  ghost predicate IsRun(states: seq<State>, steps: seq<Step>) {
    && |states| == |steps| + 1 && states[0] == START
    && forall i :: 0 <= i < |steps| ==> Enabled(states[i], steps[i]) && states[i + 1] == Take(states[i], steps[i])
  }
}
