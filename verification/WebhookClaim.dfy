/** The webhook gateway: which delivery of a message may run it. One user; times in seconds. */
module WebhookClaim {
  import opened Common

  type MessageId = string

  datatype Status = Received | Processing | Processed | Failed

  /** A row of webhook_events. Claims leave created_at as it was on receipt. */
  datatype EventRow = EventRow(status: Status, createdAt: int)

  /** The request key: the hash of the message id and the minute it is delivered in. */
  datatype Key = Key(message: MessageId, minute: int)

  function KeyAt(message: MessageId, now: int): Key {
    Key(message, now / 60)
  }

  type Events = map<MessageId, EventRow>

  predicate Stale(row: EventRow, now: int, limit: int) {
    row.status == Processing && row.createdAt < now - limit
  }

  predicate Claimable(row: EventRow, now: int, limit: int) {
    row.status == Received || row.status == Failed || Stale(row, now, limit)
  }

  predicate CanClaim(events: Events, message: MessageId, now: int, limit: int) {
    message in events && Claimable(events[message], now, limit)
  }

  function WithStatus(events: Events, message: MessageId, status: Status): Events {
    if message in events then events[message := events[message].(status := status)] else events
  }

  /** INSERT IGNORE of a message that has just come in. */
  function WithReceived(events: Events, message: MessageId, now: int): Events {
    if message in events then events else events[message := EventRow(Received, now)]
  }

  /** What the gateway makes of one delivery. */
  datatype Outcome = Ran | Duplicate | TooManyRequests

  const JOB_CAP: nat := 3

  class Gateway {
    const staleLimit: int
    var requests: set<Key>
    var events: Events

    constructor (staleLimit: int)
      ensures this.staleLimit == staleLimit && requests == {} && events == map[]
    {
      this.staleLimit, requests, events := staleLimit, {}, map[];
    }

    method Receive(message: MessageId, now: int)
      modifies this`events
      ensures events == WithReceived(old(events), message, now)
    {
      if message !in events {
        events := events[message := EventRow(Received, now)];
      }
    }

    /** Inserts the request key; false if it is there already. */
    method InsertKey(key: Key) returns (isNew: bool)
      modifies this`requests
      ensures isNew <==> key !in old(requests)
      ensures requests == old(requests) + {key}
    {
      isNew := key !in requests;
      requests := requests + {key};
    }

    /** The atomic UPDATE ... WHERE; tells whether a row was changed. */
    method ClaimEvent(message: MessageId, now: int) returns (claimed: bool)
      modifies this`events
      ensures claimed <==> CanClaim(old(events), message, now, staleLimit)
      ensures claimed <==> message in old(events)
                           && (var row := old(events)[message];
                               row.status in {Received, Failed} || (row.status == Processing && row.createdAt + staleLimit < now))
      ensures events == if claimed then WithStatus(old(events), message, Processing) else old(events)
    {
      claimed := false;
      if message in events {
        var row := events[message];
        if row.status == Received || row.status == Failed || (row.status == Processing && row.createdAt < now - staleLimit) {
          events := events[message := row.(status := Processing)];
          claimed := true;
        }
      }
    }

    method InsertProcessing(message: MessageId, now: int) returns (inserted: bool)
      modifies this`events
      ensures inserted <==> message !in old(events)
      ensures events == if inserted then old(events)[message := EventRow(Processing, now)] else old(events)
    {
      inserted := message !in events;
      if inserted {
        events := events[message := EventRow(Processing, now)];
      }
    }

    method SetStatus(message: MessageId, status: Status)
      modifies this`events
      ensures events == WithStatus(old(events), message, status)
    {
      if message in events {
        events := events[message := events[message].(status := status)];
      }
    }

    /** One delivery, run to the end with nothing in between; the count of the user's active jobs
        may be unknown, because its query failed. The message runs exactly when its request key is
        new, fewer than three jobs are known to be active, and its row is claimable or missing;
        then the row ends processed or failed, as the message did. Otherwise no row changes. Being
        turned away uses up the request key all the same. */
    method Route(message: MessageId, now: int, activeJobs: Option<nat>, succeeds: bool) returns (outcome: Outcome)
      modifies this
      ensures outcome == if KeyAt(message, now) in old(requests) then Duplicate
                         else if activeJobs.Some? && activeJobs.value >= 3 then TooManyRequests
                         else if message !in old(events) || CanClaim(old(events), message, now, staleLimit) then Ran
                         else Duplicate
      ensures requests == old(requests) + {KeyAt(message, now)}
      ensures !outcome.Ran? ==> events == old(events)
      ensures outcome.Ran? ==> message in events && events.Keys == old(events).Keys + {message}
                               && events[message].status == if succeeds then Processed else Failed
      ensures outcome.Ran? ==> forall other :: other in old(events) && other != message ==> events[other] == old(events)[other]
    {
      var isNew := InsertKey(KeyAt(message, now));
      if !isNew {
        return Duplicate;
      }
      if activeJobs.Some? && activeJobs.value >= JOB_CAP {
        return TooManyRequests;
      }
      var claimed := ClaimEvent(message, now);
      if !claimed {
        if message in events {
          return Duplicate;
        }
        var inserted := InsertProcessing(message, now);
        if !inserted {
          return Duplicate;
        }
      }
      SetStatus(message, if succeeds then Processed else Failed);
      return Ran;
    }
  }

  /* ---------- deliveries at once ---------- */

  /** Where a delivery stands. An overdue one has been given up by its worker, which has set the
      final status, while its message is still being run. */
  datatype Stage =
    | Arrived(key: Key)
    | Missed(key: Key)
    | Absent(key: Key)
    | Active(key: Key)
    | Overdue(key: Key)

  datatype State = State(now: int, requests: set<Key>, events: Events, deliveries: map<nat, Stage>)

  const START := State(0, {}, map[], map[])

  datatype Step =
    | Pass(seconds: nat)
    | Receive(message: MessageId)
    | Arrive(d: nat, message: MessageId)
    | Throttle(d: nat)
    | Claim(d: nat)
    | Look(d: nat)
    | Insert(d: nat)
    | Finish(d: nat, succeeded: bool)
    | TimeOut(d: nat, prompted: bool)
    | Settle(d: nat)
    | Crash(d: nat)

  predicate Enabled(s: State, step: Step) {
    match step
    case Pass(_) => true
    case Receive(_) => true
    case Arrive(d, _) => d !in s.deliveries
    case Throttle(d) => d in s.deliveries && s.deliveries[d].Arrived?
    case Claim(d) => d in s.deliveries && s.deliveries[d].Arrived?
    case Look(d) => d in s.deliveries && s.deliveries[d].Missed?
    case Insert(d) => d in s.deliveries && s.deliveries[d].Absent?
    case Finish(d, _) => d in s.deliveries && s.deliveries[d].Active?
    case TimeOut(d, _) => d in s.deliveries && s.deliveries[d].Active?
    case Settle(d) => d in s.deliveries && s.deliveries[d].Overdue?
    case Crash(d) => d in s.deliveries
  }

  function Ended(s: State, d: nat): State {
    s.(deliveries := s.deliveries - {d})
  }

  function At(s: State, d: nat, st: Stage): State {
    s.(deliveries := s.deliveries[d := st])
  }

  function Take(s: State, step: Step, limit: int): State
    requires Enabled(s, step)
  {
    match step
    case Pass(seconds) => s.(now := s.now + seconds)
    case Receive(message) => s.(events := WithReceived(s.events, message, s.now))
    case Arrive(d, message) =>
      var key := KeyAt(message, s.now);
      if key in s.requests then s else At(s, d, Arrived(key)).(requests := s.requests + {key})
    case Throttle(d) => Ended(s, d)
    case Claim(d) =>
      var key := s.deliveries[d].key;
      if CanClaim(s.events, key.message, s.now, limit)
      then At(s, d, Active(key)).(events := WithStatus(s.events, key.message, Processing))
      else At(s, d, Missed(key))
    case Look(d) =>
      var key := s.deliveries[d].key;
      if key.message in s.events then Ended(s, d) else At(s, d, Absent(key))
    case Insert(d) =>
      var key := s.deliveries[d].key;
      if key.message in s.events then Ended(s, d)
      else At(s, d, Active(key)).(events := s.events[key.message := EventRow(Processing, s.now)])
    case Finish(d, succeeded) =>
      Ended(s, d).(events := WithStatus(s.events, s.deliveries[d].key.message, if succeeded then Processed else Failed))
    case TimeOut(d, prompted) =>
      var key := s.deliveries[d].key;
      At(s, d, Overdue(key)).(events := WithStatus(s.events, key.message, if prompted then Processed else Failed))
    case Settle(d) => Ended(s, d)
    case Crash(d) => Ended(s, d)
  }

  ghost predicate IsRun(states: seq<State>, steps: seq<Step>, limit: int) {
    && |states| == |steps| + 1 && states[0] == START
    && forall i :: 0 <= i < |steps| ==> Enabled(states[i], steps[i]) && states[i + 1] == Take(states[i], steps[i], limit)
  }
}
