/** One merchant's room: a message sent to an agent is handled before the send returns, and its
    handler may send again. Intake's event reaches the ledger, which asks compliance for a verdict
    and tells the CFO the outcome; the CFO posts the reply that intake collects. */
module Cascade {
  import opened Common
  import opened EventKeys
  import opened LedgerBooks
  import opened LedgerAgent
  import Broker

  type Cid = Broker.Cid
  type Shared = Broker.Shared<Body>

  const LEDGER := "@tali-ledger"
  const COMPLIANCE := "@tali-compliance"
  const CFO := "@tali-cfo"
  const INTAKE := "@tali-intake"
  const GATEWAY := "@tali-gateway"
  const ROOM := "tali"

  /** What the agents send each other. */
  datatype Body =
    | Intake(event: EventId, request: LedgerRequest)
    | ProposedWrite(proposal: Proposal)
    | Verdict(approved: bool)
    | Update(message: CfoMessage)
    | ReplyText(message: CfoMessage)
    | Escalation
    | Note

  /** What the ledger meets while it handles an event. */
  datatype Weather = Weather(authorised: bool, faults: seq<Fault>, today: int)

  predicate Possible(w: Weather) {
    |w.faults| == MAX_ATTEMPTS
  }

  /** The compliance agent's verdict; a message without a proposal carries no amount. */
  predicate Approved(threshold: int, body: Body) {
    body.ProposedWrite? ==> PassesRule(threshold, body.proposal)
  }

  /** The CFO's reply to a message. */
  function Composed(body: Body): Body {
    match body
    case Update(m) => ReplyText(m)
    case Intake(_, _) => Escalation
    case _ => ReplyText(Error)
  }

  /* ---------- why nested sends end ---------- */

  /** How far a delivery can lead: an intake event at the ledger leads to compliance and the CFO,
      a message at compliance at most to a verdict at the ledger, one at the CFO nowhere. */
  function Rank(handle: string, body: Body): nat {
    if handle == LEDGER then (if body.Intake? then 4 else 1)
    else if handle == COMPLIANCE then 3
    else if handle == CFO then 2
    else 0
  }

  function SendRank(mentions: seq<string>, body: Body, cid: Option<Cid>, terminal: bool): (rank: nat)
    ensures terminal && cid.Some? ==> rank == 0
    ensures !(terminal && cid.Some?) && |mentions| == 1 ==> rank == Rank(mentions[0], body)
    ensures !(terminal && cid.Some?) ==> forall i :: 0 <= i < |mentions| ==> Rank(mentions[i], body) <= rank
  {
    if (terminal && cid.Some?) || mentions == [] then 0
    else
      var rest := SendRank(mentions[1..], body, cid, terminal);
      if Rank(mentions[0], body) > rest then Rank(mentions[0], body) else rest
  }

  class Room {
    const engine: Broker.OrchestrationEngine<Body>
    const ledger: LedgerAgent
    const wired: set<string>
    const threshold: int
    const defaultAllow: bool
    var userCid: Option<Cid>
    var nextCid: Cid

    constructor (engine: Broker.OrchestrationEngine<Body>, ledger: LedgerAgent, wired: set<string>, threshold: int, defaultAllow: bool)
      requires engine.replies == map[] && engine.replyEvents == map[]
      ensures this.engine == engine && this.ledger == ledger && this.wired == wired
      ensures this.threshold == threshold && this.defaultAllow == defaultAllow && Valid()
    {
      this.engine, this.ledger, this.wired := engine, ledger, wired;
      this.threshold, this.defaultAllow := threshold, defaultAllow;
      userCid, nextCid := None, 0;
    }

    /** Correlation ids in use were issued here. */
    ghost predicate Valid()
      reads this, engine
    {
      (forall cid :: cid in engine.replies ==> cid < nextCid) && (forall cid :: cid in engine.replyEvents ==> cid < nextCid)
    }

    /** What the reviewer amounts to for the ledger. */
    function Reviewer(): Reviewer {
      if COMPLIANCE in wired then Rule(threshold) else Silent(defaultAllow)
    }

    /** What a message to agents other than the ledger leaves in the store. */
    function AfterDelivery(replies: map<Cid, Body>, handle: string, body: Body, cid: Cid): map<Cid, Body> {
      if handle !in wired then replies
      else if handle == COMPLIANCE then replies[cid := Verdict(Approved(threshold, body))]
      else if handle == CFO then replies[cid := Composed(body)]
      else replies
    }

    method FreshCid() returns (cid: Cid)
      requires Valid()
      modifies this`nextCid
      ensures cid == old(nextCid) && nextCid == old(nextCid) + 1 && Valid()
    {
      cid := nextCid;
      nextCid := nextCid + 1;
    }

    /** Nothing but the reply store and the room log changes. */
    twostate predicate Quiet()
      reads this, ledger, ledger.db
    {
      userCid == old(userCid) && nextCid == old(nextCid) && ledger.toCfo == old(ledger.toCfo)
      && ledger.db.committed == old(ledger.db.committed)
    }

    /** What is added to the log carries one correlation id and expects no answer. */
    twostate predicate OnlyAnswers(cid: Option<Cid>)
      reads engine
    {
      && old(engine.Log(ROOM)) <= engine.Log(ROOM)
      && forall i :: |old(engine.Log(ROOM))| <= i < |engine.Log(ROOM)| ==> engine.Log(ROOM)[i].cid == cid && engine.Log(ROOM)[i].terminal
    }

    /** What is added carries one correlation id; only the message itself expects an answer. */
    twostate predicate Logs(mentions: seq<string>, cid: Option<Cid>)
      reads engine
    {
      && old(engine.Log(ROOM)) <= engine.Log(ROOM)
      && forall i :: |old(engine.Log(ROOM))| <= i < |engine.Log(ROOM)| ==>
           engine.Log(ROOM)[i].cid == cid && (engine.Log(ROOM)[i].terminal || engine.Log(ROOM)[i].mentions == mentions)
    }

    /** An event handled by the ledger under one correlation id: the tables take it as the wired
        reviewer decides, at most one message goes to the CFO, under that id, and all that is left
        in the reply store is the CFO's answer under that id. */
    twostate predicate LedgerHandled(cid: Cid, e: EventId, r: LedgerRequest, w: Weather)
      requires Possible(w)
      reads this, engine, ledger, ledger.db
    {
      && userCid == Some(cid)
      && ledger.db.committed == Handled(old(ledger.db.committed), e, r, w.authorised, Reviewer(), w.faults, w.today)
      && old(ledger.toCfo) <= ledger.toCfo
      && Answered(old(engine.replies), engine.replies, cid, ledger.toCfo[|old(ledger.toCfo)|..])
      && Truthful(ledger.toCfo[|old(ledger.toCfo)|..], old(ledger.db.committed), ledger.db.committed, e, r, w)
      && old(engine.Log(ROOM)) <= engine.Log(ROOM)
      && forall i :: |old(engine.Log(ROOM))| <= i < |engine.Log(ROOM)| && engine.Log(ROOM)[i].mentions == [CFO] && !engine.Log(ROOM)[i].terminal ==>
           engine.Log(ROOM)[i].cid == Some(cid)
    }

    /** A success reports an event that is recorded, and a rejection one that left no trace; what
        the reviewer rejects is reported so, and what is written without faults is reported as a
        success. */
    predicate Truthful(sent: seq<CfoMessage>, before: Books, after: Books, e: EventId, r: LedgerRequest, w: Weather)
      requires Possible(w)
    {
      && (Success in sent && Mutating(r) ==> e in after.processed)
      && (Rejection in sent ==> after == before)
      && (w.authorised && !PassesReview(Reviewer(), r) ==> sent == [Rejection])
      && (WrittenAtOnce(before, e, r, w) ==> sent == [Success])
    }

    predicate WrittenAtOnce(before: Books, e: EventId, r: LedgerRequest, w: Weather)
      requires Possible(w)
    {
      w.authorised && PassesReview(Reviewer(), r) && w.faults[0] == NoFault && Writable(before, e, r, w.today)
    }

    predicate Answered(before: map<Cid, Body>, after: map<Cid, Body>, cid: Cid, sent: seq<CfoMessage>) {
      if sent == [] then after == before
      else |sent| == 1 && after == if CFO in wired then before[cid := ReplyText(sent[0])] else before
    }

    /** A message to the mentioned agents. A terminal one with a correlation id is stored for its
        collector and enters no handler. */
    method Send(sender: string, mentions: seq<string>, body: Body, cid: Option<Cid>, terminal: bool, w: Weather)
      requires Valid() && Possible(w) && (cid.Some? ==> cid.value < nextCid)
      modifies this`userCid, this`nextCid, engine, ledger`toCfo, ledger.db
      ensures Valid() && engine.replyEvents == old(engine.replyEvents) && old(nextCid) <= nextCid
      ensures terminal && cid.Some? ==>
              Quiet() && OnlyAnswers(cid) && engine.replies == old(engine.replies)[cid.value := body]
      ensures forall handle :: !terminal && mentions == [handle] && (handle != LEDGER || LEDGER !in wired) && cid.Some? ==>
                Quiet() && Logs(mentions, cid) && engine.replies == AfterDelivery(old(engine.replies), handle, body, cid.value)
      ensures !terminal && mentions == [LEDGER] && LEDGER in wired && body.Intake? && cid.Some? ==>
                LedgerHandled(cid.value, body.event, body.request, w)
      decreases SendRank(mentions, body, cid, terminal), 2
    {
      engine.Append(ROOM, Broker.Message(sender, mentions, body, cid, terminal));
      if terminal && cid.Some? {
        engine.PostReply(cid.value, body);
        return;
      }
      for i := 0 to |mentions|
        invariant Valid() && engine.replyEvents == old(engine.replyEvents) && old(nextCid) <= nextCid
        invariant i == 0 ==> Quiet() && engine.replies == old(engine.replies)
                             && engine.Log(ROOM) == old(engine.Log(ROOM)) + [Broker.Message(sender, mentions, body, cid, terminal)]
        invariant i == 1 && !terminal && cid.Some? && (mentions[0] != LEDGER || LEDGER !in wired) ==>
                    Quiet() && Logs(mentions, cid) && engine.replies == AfterDelivery(old(engine.replies), mentions[0], body, cid.value)
        invariant i == 1 && !terminal && cid.Some? && mentions == [LEDGER] && LEDGER in wired && body.Intake? ==>
                    LedgerHandled(cid.value, body.event, body.request, w)
      {
        ghost var logged := engine.Log(ROOM);
        if mentions[i] in wired {
          Deliver(mentions[i], body, cid, w);
        }
        assert i == 0 && cid.Some? && (mentions[0] != LEDGER || LEDGER !in wired) ==>
            logged <= engine.Log(ROOM) && engine.Log(ROOM)[|logged| - 1] == Broker.Message(sender, mentions, body, cid, terminal);
      }
    }

    /** The handler registered for an agent. */
    method Deliver(handle: string, body: Body, cid: Option<Cid>, w: Weather)
      requires Valid() && Possible(w) && (cid.Some? ==> cid.value < nextCid) && handle in wired
      modifies this`userCid, this`nextCid, engine, ledger`toCfo, ledger.db
      ensures Valid() && engine.replyEvents == old(engine.replyEvents) && old(nextCid) <= nextCid
      ensures handle != LEDGER && cid.Some? ==>
                && Quiet() && OnlyAnswers(cid) && engine.replies == AfterDelivery(old(engine.replies), handle, body, cid.value)
      ensures handle == LEDGER && body.Intake? && cid.Some? ==> LedgerHandled(cid.value, body.event, body.request, w)
      decreases Rank(handle, body), 1
    {
      if handle == LEDGER {
        OnLedger(body, cid, w);
      } else if handle == COMPLIANCE {
        Send(COMPLIANCE, [LEDGER], Verdict(Approved(threshold, body)), cid, true, w);
      } else if handle == CFO {
        Send(CFO, [GATEWAY], Composed(body), cid, true, w);
      }
    }

    /** The ledger's handler: it notes whose event this is, asks for a review, handles the event
        and tells the CFO. */
    method OnLedger(body: Body, cid: Option<Cid>, w: Weather)
      requires Valid() && Possible(w) && (cid.Some? ==> cid.value < nextCid)
      modifies this`userCid, this`nextCid, engine, ledger`toCfo, ledger.db
      ensures Valid() && engine.replyEvents == old(engine.replyEvents) && old(nextCid) <= nextCid
      ensures body.Intake? && cid.Some? ==> LedgerHandled(cid.value, body.event, body.request, w)
      decreases Rank(LEDGER, body), 0
    {
      userCid := cid;
      if !body.Intake? {
        return;
      }
      var e, r := body.event, body.request;
      var reviewer := ReviewGate(r, w);
      var sent := HandleEvent(e, r, reviewer, w);
      if sent != [] {
        Send(LEDGER, [CFO], Update(sent[0]), userCid, false, w);
      }
    }

    /** The ledger handles an event with the verdict it has, and has at most one message for the
        CFO. */
    method HandleEvent(e: EventId, r: LedgerRequest, reviewer: Reviewer, w: Weather) returns (sent: seq<CfoMessage>)
      requires Possible(w) && (w.authorised ==> (PassesReview(reviewer, r) <==> PassesReview(Reviewer(), r)))
      modifies ledger`toCfo, ledger.db
      ensures ledger.db.committed == Handled(old(ledger.db.committed), e, r, w.authorised, Reviewer(), w.faults, w.today)
      ensures ledger.toCfo == old(ledger.toCfo) + sent && |sent| <= 1
      ensures Truthful(sent, old(ledger.db.committed), ledger.db.committed, e, r, w)
    {
      var reply := ledger.HandleIntakePayload(e, r, w.authorised, reviewer, w.faults, w.today);
      sent := Emitted(Finished(reply));
    }

    /** The review: a proposal under a fresh correlation id, and the verdict collected under it. */
    method ReviewGate(r: LedgerRequest, w: Weather) returns (reviewer: Reviewer)
      requires Valid() && Possible(w)
      modifies this`userCid, this`nextCid, engine, ledger`toCfo, ledger.db
      ensures Valid() && engine.replyEvents == old(engine.replyEvents) && old(nextCid) <= nextCid
      ensures userCid == old(userCid) && ledger.toCfo == old(ledger.toCfo)
              && ledger.db.committed == old(ledger.db.committed)
      ensures engine.replies == old(engine.replies)
      ensures w.authorised ==> (PassesReview(reviewer, r) <==> PassesReview(Reviewer(), r))
      ensures old(engine.Log(ROOM)) <= engine.Log(ROOM)
      ensures forall i :: |old(engine.Log(ROOM))| <= i < |engine.Log(ROOM)| ==>
              engine.Log(ROOM)[i].terminal || engine.Log(ROOM)[i].mentions == [COMPLIANCE]
      decreases 3, 3
    {
      reviewer := Silent(defaultAllow);
      var proposal := ReviewProposal(r);
      if w.authorised && proposal.Some? {
        var cid := FreshCid();
        Send(LEDGER, [COMPLIANCE], ProposedWrite(proposal.value), Some(cid), false, w);
        var verdict := engine.CollectReply(cid);
        assert engine.replies == old(engine.replies) && engine.replyEvents == old(engine.replyEvents);
        match verdict {
          case None =>
          case Some(body) => reviewer := Says(body.Verdict? && body.approved);
        }
      }
    }

    /** Intake's hand-off: the event goes to the ledger under a fresh correlation id, and the
        reply is collected under it. By then the tables have taken the event as the wired reviewer
        decides; the reply is the CFO's text for whatever the ledger reported, or nothing when it
        reported nothing; and no reply or event is left behind. */
    method SendCollect(e: EventId, r: LedgerRequest, w: Weather) returns (answer: Option<Body>)
      requires Valid() && Possible(w)
      modifies this`userCid, this`nextCid, engine, ledger`toCfo, ledger.db
      ensures Valid() && engine.replies == old(engine.replies) && engine.replyEvents == old(engine.replyEvents)
      ensures LEDGER in wired ==>
                && ledger.db.committed == Handled(old(ledger.db.committed), e, r, w.authorised, Reviewer(), w.faults, w.today)
                && old(ledger.toCfo) <= ledger.toCfo && |ledger.toCfo| <= |old(ledger.toCfo)| + 1
                && Truthful(ledger.toCfo[|old(ledger.toCfo)|..], old(ledger.db.committed), ledger.db.committed, e, r, w)
                && answer == if ledger.toCfo == old(ledger.toCfo) || CFO !in wired then None
                             else Some(ReplyText(ledger.toCfo[|ledger.toCfo| - 1]))
      ensures LEDGER !in wired ==> answer == None && ledger.db.committed == old(ledger.db.committed)
    {
      var cid := FreshCid();
      Send(INTAKE, [LEDGER], Intake(e, r), Some(cid), false, w);
      ghost var sent := ledger.toCfo[|old(ledger.toCfo)|..];
      assert LEDGER in wired ==> Answered(old(engine.replies), engine.replies, cid, sent);
      answer := engine.CollectReply(cid);
      assert engine.replies == old(engine.replies) && engine.replyEvents == old(engine.replyEvents);
      assert LEDGER in wired && sent == [] ==> ledger.toCfo == old(ledger.toCfo);
    }
  }
}
