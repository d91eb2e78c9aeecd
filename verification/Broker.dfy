/** The message broker: room logs, terminal replies kept by correlation id, and the events that
    wake the threads waiting for them. */
module Broker {
  import opened Common

  /** A correlation id: what uuid4 returns, never the same twice. */
  type Cid = nat

  /** What collectors and senders share under the broker's lock. An event object is a number;
      `made` counts the objects created so far. */
  datatype Shared<B> = Shared(replies: map<Cid, B>, events: map<Cid, nat>, signalled: set<nat>, made: nat)

  function NoReplies<B>(): Shared<B> {
    Shared(map[], map[], {}, 0)
  }

  /** The event registered for an id, a new one if there is none. */
  function WithEvent<B>(s: Shared<B>, cid: Cid): (s': Shared<B>)
    ensures cid in s'.events
  {
    if cid in s.events then s else s.(events := s.events[cid := s.made], made := s.made + 1)
  }

  /** A terminal reply: stored, and signalled to whatever event is registered for its id. */
  function Posted<B>(s: Shared<B>, cid: Cid, body: B): Shared<B> {
    s.(replies := s.replies[cid := body],
       signalled := if cid in s.events then s.signalled + {s.events[cid]} else s.signalled)
  }

  /** A collector takes the reply for its id, if there is one, and withdraws the event. */
  function Withdrawn<B>(s: Shared<B>, cid: Cid): Shared<B> {
    s.(replies := s.replies - {cid}, events := s.events - {cid})
  }

  function Stored<B>(s: Shared<B>, cid: Cid): Option<B> {
    if cid in s.replies then Some(s.replies[cid]) else None
  }

  datatype Message<B> = Message(sender: string, mentions: seq<string>, body: B, cid: Option<Cid>, terminal: bool)

  /** Python's log[-limit:]. */
  function Latest<T>(log: seq<T>, limit: int): seq<T> {
    if limit == 0 then log
    else if limit > 0 then (if limit < |log| then log[|log| - limit..] else log)
    else if -limit < |log| then log[-limit..] else []
  }

  class OrchestrationEngine<B> {
    var rooms: map<string, seq<Message<B>>>
    var replies: map<Cid, B>
    var replyEvents: map<Cid, nat>
    var signalled: set<nat>
    var made: nat

    constructor ()
      ensures Contents() == NoReplies() && rooms == map[]
    {
      rooms, replies, replyEvents, signalled, made := map[], map[], map[], {}, 0;
    }

    function Contents(): Shared<B>
      reads this
    {
      Shared(replies, replyEvents, signalled, made)
    }

    function Log(room: string): seq<Message<B>>
      reads this
    {
      if room in rooms then rooms[room] else []
    }

    method Append(room: string, message: Message<B>)
      modifies this`rooms
      ensures Log(room) == old(Log(room)) + [message]
      ensures forall other :: other != room ==> Log(other) == old(Log(other))
    {
      if room !in rooms {
        rooms := rooms[room := []];
      }
      rooms := rooms[room := rooms[room] + [message]];
    }

    /** The newest messages of a room, oldest first: at most `limit` of them, but all of them
        when the limit is zero, and all but the oldest -limit when it is negative. */
    method ReadContext(room: string, limit: int) returns (messages: seq<Message<B>>)
      ensures |messages| <= |Log(room)| && messages == Log(room)[|Log(room)| - |messages|..]
      ensures limit > 0 ==> |messages| == if limit < |Log(room)| then limit else |Log(room)|
      ensures limit == 0 ==> messages == Log(room)
      ensures limit < 0 ==> |messages| == if -limit < |Log(room)| then |Log(room)| + limit else 0
    {
      messages := Latest(Log(room), limit);
    }

    method GetEvent(cid: Cid) returns (event: nat)
      modifies this`replyEvents, this`made
      ensures Contents() == WithEvent(old(Contents()), cid) && event == Contents().events[cid]
    {
      if cid !in replyEvents {
        replyEvents := replyEvents[cid := made];
        made := made + 1;
      }
      event := replyEvents[cid];
    }

    /** The part of a send that completes a terminal reply. */
    method PostReply(cid: Cid, body: B)
      modifies this`replies, this`signalled
      ensures Contents() == Posted(old(Contents()), cid, body)
    {
      replies := replies[cid := body];
      if cid in replyEvents {
        signalled := signalled + {replyEvents[cid]};
      }
    }

    /** First look of a collector: a reply that is already there is taken at once. */
    method TakeIfStored(cid: Cid) returns (reply: Option<B>)
      modifies this`replies, this`replyEvents
      ensures reply == Stored(old(Contents()), cid)
      ensures Contents() == if reply.Some? then Withdrawn(old(Contents()), cid) else old(Contents())
    {
      if cid in replies {
        reply := Some(replies[cid]);
        replies := replies - {cid};
        replyEvents := replyEvents - {cid};
        return;
      }
      reply := None;
    }

    /** Last look of a collector, after the event or the timeout. */
    method TakeAfterWait(cid: Cid) returns (reply: Option<B>)
      modifies this`replies, this`replyEvents
      ensures reply == Stored(old(Contents()), cid) && Contents() == Withdrawn(old(Contents()), cid)
    {
      replyEvents := replyEvents - {cid};
      reply := None;
      if cid in replies {
        reply := Some(replies[cid]);
        replies := replies - {cid};
      }
      assert reply.None? ==> replies == old(replies) - {cid};
    }

    /** A whole collection during which nothing is posted: the reply if it is there already,
        otherwise nothing, once the timeout has passed. */
    method CollectReply(cid: Cid) returns (reply: Option<B>)
      modifies this`replies, this`replyEvents, this`made
      ensures reply == Stored(old(Contents()), cid)
      ensures replies == old(replies) - {cid} && replyEvents == old(replyEvents) - {cid}
    {
      var event := GetEvent(cid);
      reply := TakeIfStored(cid);
      if reply.None? {
        reply := TakeAfterWait(cid);
      }
    }
  }

  /* ---------- senders and collectors at once ---------- */

  /** Where a collecting thread stands. It holds the event it was given, whatever is registered
      for its id meanwhile. */
  datatype Stage =
    | Arrived(cid: Cid, event: nat)
    | Waiting(cid: Cid, event: nat)
    | Woken(cid: Cid)
    | Returned(cid: Cid, got: Option<nat>)

  /** Replies are identified by the position of their post; `overwritten` and `posts` only keep
      the history. */
  datatype State = State(shared: Shared<nat>, collectors: map<nat, Stage>, posts: seq<Cid>, overwritten: set<nat>)

  const START := State(NoReplies(), map[], [], {})

  datatype Step =
    | Arrive(c: nat, cid: Cid)
    | Look(c: nat)
    | Wake(c: nat)
    | TimeOut(c: nat)
    | Finish(c: nat)
    | Post(cid: Cid)

  predicate Enabled(s: State, step: Step) {
    match step
    case Arrive(c, _) => c !in s.collectors
    case Look(c) => c in s.collectors && s.collectors[c].Arrived?
    case Wake(c) => c in s.collectors && s.collectors[c].Waiting? && s.collectors[c].event in s.shared.signalled
    case TimeOut(c) => c in s.collectors && s.collectors[c].Waiting?
    case Finish(c) => c in s.collectors && s.collectors[c].Woken?
    case Post(_) => true
  }

  function Take(s: State, step: Step): State
    requires Enabled(s, step)
  {
    match step
    case Arrive(c, cid) =>
      var shared := WithEvent(s.shared, cid);
      s.(shared := shared, collectors := s.collectors[c := Arrived(cid, shared.events[cid])])
    case Look(c) =>
      var Arrived(cid, event) := s.collectors[c];
      if cid in s.shared.replies then Ends(s, c, cid) else s.(collectors := s.collectors[c := Waiting(cid, event)])
    case Wake(c) => s.(collectors := s.collectors[c := Woken(s.collectors[c].cid)])
    case TimeOut(c) => s.(collectors := s.collectors[c := Woken(s.collectors[c].cid)])
    case Finish(c) => Ends(s, c, s.collectors[c].cid)
    case Post(cid) =>
      s.(shared := Posted(s.shared, cid, |s.posts|), posts := s.posts + [cid],
         overwritten := if cid in s.shared.replies then s.overwritten + {s.shared.replies[cid]} else s.overwritten)
  }

  function Ends(s: State, c: nat, cid: Cid): State {
    s.(shared := Withdrawn(s.shared, cid), collectors := s.collectors[c := Returned(cid, Stored(s.shared, cid))])
  }

  ghost predicate IsRun(states: seq<State>, steps: seq<Step>) {
    && |states| == |steps| + 1 && states[0] == START
    && forall i :: 0 <= i < |steps| ==> Enabled(states[i], steps[i]) && states[i + 1] == Take(states[i], steps[i])
  }
}
