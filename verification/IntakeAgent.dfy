/** The intake agent's confirmation gate as it runs when nothing interferes: the statements of
    one YES or NO, from the loaded row through the room of the agents to the answer, over the
    pending row and the ledger's tables. The step system of module Confirmation interleaves the
    same statements. */
module IntakeAgent {
  import opened Common
  import opened EventKeys
  import opened LedgerBooks
  import opened KeyLaws
  import opened LedgerAgent
  import opened LedgerRunLaws
  import opened Confirmation
  import Cascade

  datatype Answer = NothingPending | AlreadyRecording | Cancelled | Told(message: CfoMessage) | Reconstructed | TimedOut

  /** What one YES meets on its way: the ledger's circumstances, whether the CFO's reply is
      lost, whether the probe's queries fail, and whether the last write to the pending row does. */
  datatype Weather = Weather(ledger: Cascade.Weather, replyLost: bool, probeFails: bool, cleanupFails: bool)

  function Matching(pattern: string): string -> bool {
    key => Like(key, pattern)
  }

  /** SELECT COUNT(*) ... WHERE event_id LIKE pattern. */
  method CountLike(keys: seq<string>, pattern: string) returns (count: nat)
    ensures count == |Where(Matching(pattern), keys)|
    ensures count > 0 <==> exists key :: key in keys && Like(key, pattern)
  {
    count := 0;
    for i := 0 to |keys|
      invariant count == |Where(Matching(pattern), keys[..i])|
    {
      assert keys[..i + 1] == keys[..i] + [keys[i]];
      WherePush(Matching(pattern), keys[..i], keys[i]);
      if Like(keys[i], pattern) {
        count := count + 1;
      }
    }
    assert keys[..|keys|] == keys;
    ghost var found := Where(Matching(pattern), keys);
    WhereMembers(Matching(pattern), keys);
    assert count > 0 ==> found[0] in found && Matching(pattern)(found[0]);
    forall key | key in keys && Like(key, pattern) ensures count > 0 {
      assert Matching(pattern)(key) && key in found;
    }
  }

  class IntakeAgent {
    const room: Cascade.Room
    var pending: Option<Row>

    constructor (room: Cascade.Room)
      ensures this.room == room && pending == None
    {
      this.room, pending := room, None;
    }

    /** A database error is swallowed: the row then stays. */
    method ClearPending(fails: bool)
      modifies this`pending
      ensures pending == if fails then old(pending) else None
    {
      if !fails {
        pending := None;
      }
    }

    /** Reads the sender's row for update and writes it back unflagged. A database error is
        swallowed: the row then stays as it is. */
    method ResetRecordingFlag(fails: bool)
      modifies this`pending
      ensures pending == if fails then old(pending) else Flagged(old(pending), false)
    {
      if !fails && pending.Some? {
        var row := pending.value;
        if row.recording {
          row := row.(recording := false);
        }
        pending := Some(row);
      }
    }

    /** The recovery probe: any row of the event in the three tables? */
    method CheckEventCommitted(e: EventId) returns (found: bool)
      ensures found <==> ProbeFinds(room.ledger.db.committed, e)
    {
      var tables := [Transactions, StockMoves, DebtLogs];
      for i := 0 to |tables|
        invariant forall j :: 0 <= j < i ==> forall key :: key in Keys(room.ledger.db.committed, tables[j]) ==>
                  !Like(key, e + "%")
      {
        var count := CountLike(Keys(room.ledger.db.committed, tables[i]), e + "%");
        if count > 0 {
          return true;
        }
      }
      assert forall table: Table :: Probed(table) <==> table == tables[0] || table == tables[1] || table == tables[2];
      found := false;
    }

    /** A NO removes the row. A YES that finds the row unlocked hands its message to the ledger,
        under the event id that was loaded; afterwards the row is either gone or exactly as it
        was before. It is gone precisely after a rejection, after a success, or when no reply
        came back and the event is in the tables. If the last write to the row meets a database
        error, the answer is the same, and the row stays: after a NO as it was, after a YES
        flagged. A request that can be written, and meets neither a fault nor a lost reply, is told
        as a success. */
    method ApplyConfirmation(loaded: Row, yes: bool, w: Weather) returns (answer: Answer, collected: Option<CfoMessage>)
      requires room.Valid() && Cascade.Possible(w.ledger) && {Cascade.LEDGER, Cascade.CFO} <= room.wired
      requires BooksAgree(room.ledger.db.committed)
      modifies this`pending, room, room.engine, room.ledger`toCfo, room.ledger.db
      ensures room.Valid() && BooksAgree(room.ledger.db.committed) && room.engine.replies == old(room.engine.replies)
      ensures !yes ==> pending == (if w.cleanupFails then old(pending) else None) && answer == Cancelled
      ensures yes && !Lockable(old(pending)) ==>
                pending == old(pending) && answer == if pending == None then NothingPending else AlreadyRecording
      ensures !yes || !Lockable(old(pending)) ==> room.ledger.db.committed == old(room.ledger.db.committed)
      ensures yes && Lockable(old(pending)) ==>
                room.ledger.db.committed == Recorded(old(room.ledger.db.committed), loaded.event, old(pending).value.request, w.ledger)
      ensures yes && Lockable(old(pending)) ==>
                && collected == (if w.replyLost || |room.ledger.toCfo| <= |old(room.ledger.toCfo)| then None
                                 else Some(room.ledger.toCfo[|room.ledger.toCfo| - 1]))
                && (answer == if collected.Some? then Told(collected.value)
                              else if !w.probeFails && loaded.event in room.ledger.db.committed.processed then Reconstructed else TimedOut)
      ensures yes && Lockable(old(pending)) && !w.cleanupFails ==>
                && (pending == None || pending == old(pending))
                && (pending == None <==> collected == Some(Rejection) || collected == Some(Success)
                                         || (collected == None && !w.probeFails && loaded.event in room.ledger.db.committed.processed))
      ensures yes && Lockable(old(pending)) && w.cleanupFails ==> pending == Some(old(pending).value.(recording := true))
      ensures yes && Lockable(old(pending)) && answer == Told(Rejection) ==> room.ledger.db.committed == old(room.ledger.db.committed)
      ensures yes && Lockable(old(pending)) && (answer == Told(Success) || answer == Reconstructed) && Mutating(old(pending).value.request) ==>
                loaded.event in room.ledger.db.committed.processed
      ensures yes && Lockable(old(pending)) && !w.replyLost
              && room.WrittenAtOnce(old(room.ledger.db.committed), loaded.event, old(pending).value.request, w.ledger) ==>
                answer == Told(Success) && loaded.event in room.ledger.db.committed.processed
    {
      collected := None;
      if !yes {
        ClearPending(w.cleanupFails);
        return Cancelled, None;
      }
      if pending.None? {
        return NothingPending, None;
      }
      var row := pending.value;
      if row.recording {
        return AlreadyRecording, None;
      }
      pending := Some(row.(recording := true));

      RecordedAgrees(room.ledger.db.committed, loaded.event, row.request, w.ledger);
      var reply := room.SendCollect(loaded.event, row.request, w.ledger);
      ghost var sent := room.ledger.toCfo[|old(room.ledger.toCfo)|..];
      assert |sent| == 1 ==> sent[0] in sent && sent[0] == room.ledger.toCfo[|room.ledger.toCfo| - 1];
      if !w.replyLost && reply.Some? && reply.value.ReplyText? {
        collected := Some(reply.value.message);
      }

      if collected.Some? {
        if collected.value == Error {
          ResetRecordingFlag(w.cleanupFails);
        } else {
          ClearPending(w.cleanupFails);
        }
        return Told(collected.value), collected;
      }
      var found := false;
      if !w.probeFails {
        found := CheckEventCommitted(loaded.event);
        ProbeAgreesWithMarker(room.ledger.db.committed, loaded.event);
      }
      if found {
        ClearPending(w.cleanupFails);
        answer := Reconstructed;
      } else {
        ResetRecordingFlag(w.cleanupFails);
        answer := TimedOut;
      }
    }

    /** The tables after the ledger has handled an event with the reviewer of the room. */
    function Recorded(b: Books, e: EventId, r: LedgerRequest, w: Cascade.Weather): Books {
      Handled(b, e, r, w.authorised, room.Reviewer(), w.faults, w.today)
    }

    lemma RecordedAgrees(b: Books, e: EventId, r: LedgerRequest, w: Cascade.Weather)
      requires BooksAgree(b)
      ensures BooksAgree(Recorded(b, e, r, w))
    {
      CallKeepsAgreement(b, Call(e, r, w.authorised, room.Reviewer(), w.faults, w.today));
    }
  }

  /** The gate decides as the handlers of the step system do, when both see the same rows. */
  lemma DecidesAsTheSteps(b: Books, written: seq<KeyedEntry>, run: Run, reply: Option<CfoMessage>)
    requires BooksAgree(b) && forall table: Table :: Keys(b, table) == KeysWritten(written, table)
    ensures Decided(written, run, reply).Resetting?
            <==> !(reply == Some(Rejection) || reply == Some(Success) || (reply == None && run.event in b.processed))
  {
    ProbeAgreesWithMarker(b, run.event);
    assert Probe(written, run.event) <==> ProbeFinds(b, run.event);
  }
}
