/** The login lockouts. The administrators' portal keeps a record per client address and user
    name, the merchants' portal per phone number text. Times are in seconds since the epoch. */
module Lockout {
  import opened Common
  import Text

  datatype Limits = Limits(maxAttempts: nat, window: nat, lock: nat)

  const ADMIN := Limits(5, 900, 900)
  const MERCHANT := Limits(3, 600, 600)

  /** Limits under which a lock outlasts the window. */
  predicate Sensible(l: Limits) {
    l.maxAttempts >= 2 && l.lock >= l.window
  }

  datatype Record = Record(attempts: nat, lockedUntil: int, firstFailed: int)

  /** The record kept for a key, if any. */
  type Kept = Option<Record>

  predicate Locked(kept: Kept, now: int) {
    kept.Some? && kept.value.lockedUntil > now
  }

  /** What a check leaves: an unlocked record whose window has passed is dropped. */
  function Checked(l: Limits, kept: Kept, now: int): Kept {
    if kept.Some? && kept.value.lockedUntil <= now && now - kept.value.firstFailed > l.window then None else kept
  }

  function Failed(l: Limits, kept: Kept, now: int): Record {
    var known := match kept case Some(r) => r case None => Record(0, 0, now);
    var current := if now - known.firstFailed > l.window && known.lockedUntil <= now then known.(attempts := 0, firstFailed := now) else known;
    var attempts := current.attempts + 1;
    current.(attempts := attempts, lockedUntil := if attempts >= l.maxAttempts then now + l.lock else current.lockedUntil)
  }

  type Table = map<string, Record>

  function In(table: Table, key: string): Kept {
    if key in table then Some(table[key]) else None
  }

  /** The table after a key has been checked, and after a failure has been recorded under it. */
  function WithCheck(l: Limits, table: Table, key: string, now: int): Table {
    if Checked(l, In(table, key), now) == None then table - {key} else table
  }

  function WithFailure(l: Limits, table: Table, key: string, now: int): Table {
    table[key := Failed(l, In(table, key), now)]
  }

  class AttemptTable {
    const limits: Limits
    var states: Table

    constructor (limits: Limits)
      ensures this.limits == limits && states == map[]
    {
      this.limits, states := limits, map[];
    }

    /** Whether a key is locked, and for how many whole seconds, at least one. */
    method CheckLockout(key: string, now: int) returns (locked: bool, remaining: int)
      modifies this`states
      ensures locked <==> Locked(In(old(states), key), now)
      ensures if locked then remaining == old(states)[key].lockedUntil - now && remaining >= 1 else remaining == 0
      ensures states == WithCheck(limits, old(states), key, now)
    {
      if key !in states {
        assert states - {key} == states;
        return false, 0;
      }
      var state := states[key];
      if state.lockedUntil > now {
        return true, state.lockedUntil - now;
      }
      if now - state.firstFailed > limits.window {
        states := states - {key};
      }
      return false, 0;
    }

    method RecordFailedAttempt(key: string, now: int) returns (locked: bool, remainingAttempts: nat)
      modifies this`states
      ensures states == WithFailure(limits, old(states), key, now)
      ensures locked <==> states[key].attempts >= limits.maxAttempts
      ensures remainingAttempts == if locked then 0 else limits.maxAttempts - states[key].attempts
    {
      if key !in states {
        states := states[key := Record(0, 0, now)];
      }
      var state := states[key];
      if now - state.firstFailed > limits.window && state.lockedUntil <= now {
        state := state.(attempts := 0, firstFailed := now);
      }
      state := state.(attempts := state.attempts + 1);
      locked := state.attempts >= limits.maxAttempts;
      remainingAttempts := 0;
      if locked {
        state := state.(lockedUntil := now + limits.lock);
      } else {
        remainingAttempts := limits.maxAttempts - state.attempts;
      }
      states := states[key := state];
    }

    /** A wrong code at the merchants' portal, with the numbers of its registered merchants. The typed
        text is checked, and then looked up; a failure is recorded under the stored number of the
        account that is found, and under the typed text when that differs. */
    method EnterWrongCode(registered: set<string>, c: WrongCode) returns (admitted: bool)
      modifies this`states
      ensures var found := FindMerchant(registered, c.typed);
              && (admitted <==> !Locked(In(old(states), c.typed), c.checked) && found.Some?)
              && (found.None? ==> states == WithCheck(limits, old(states), c.typed, c.checked))
              && (found.Some? ==> Portal(states, if admitted then [Rejection(c.typed, c.recorded)] else [])
                                  == Enter(limits, found.value, Portal(old(states), []), c))
    {
      var locked, _ := CheckLockout(c.typed, c.checked);
      if locked {
        return false;
      }
      var found := FindMerchant(registered, c.typed);
      if found.None? {
        return false;
      }
      var stored := found.value;
      var _, _ := RecordFailedAttempt(stored, c.recorded);
      if c.typed != stored {
        var _, _ := RecordFailedAttempt(c.typed, c.recorded);
      }
      admitted := true;
    }
  }

  /* ---------- attempts on one key ---------- */

  /** What one attempt does with a key: when it checks it, if it does, and when a failure would be
      recorded under it. */
  datatype Attempt = Attempt(checked: Option<int>, recorded: int)

  function Begins(a: Attempt): int {
    if a.checked.Some? then a.checked.value else a.recorded
  }

  /** Attempts one after another on a clock that does not run backwards. */
  predicate Clocked(attempts: seq<Attempt>) {
    && (forall i :: 0 <= i < |attempts| ==> 0 <= Begins(attempts[i]) <= attempts[i].recorded)
    && (forall i, j :: 0 <= i < j < |attempts| ==> attempts[i].recorded <= Begins(attempts[j]))
  }

  /** A failure recorded under the key: when, the count and window start it left, and whether its
      attempt had checked the key. */
  datatype Failure = Failure(time: int, attempts: nat, first: int, checked: bool)

  /** The record of the key and the failures recorded so far. */
  datatype Trace = Trace(kept: Kept, failures: seq<Failure>)

  const UNTRIED := Trace(None, [])

  /** A failing attempt: a key that is checked and locked turns it away. */
  function Try(l: Limits, t: Trace, a: Attempt): Trace {
    if a.checked.Some? && Locked(t.kept, a.checked.value) then t
    else
      var kept := if a.checked.Some? then Checked(l, t.kept, a.checked.value) else t.kept;
      var r := Failed(l, kept, a.recorded);
      Trace(Some(r), t.failures + [Failure(a.recorded, r.attempts, r.firstFailed, a.checked.Some?)])
  }

  function Run(l: Limits, t: Trace, attempts: seq<Attempt>): Trace
    decreases |attempts|
  {
    if attempts == [] then t else Run(l, Try(l, t, attempts[0]), attempts[1..])
  }

  function Recorded(l: Limits, attempts: seq<Attempt>): seq<Failure> {
    Run(l, UNTRIED, attempts).failures
  }

  function During(start: int, length: nat): Failure -> bool {
    (f: Failure) => start <= f.time < start + length
  }

  function CheckedDuring(start: int, length: nat): Failure -> bool {
    (f: Failure) => f.checked && start <= f.time < start + length
  }

  /* ---------- wrong codes for one merchant ---------- */

  /** A wrong code: the phone number as it was typed, when it was checked, and when the failure
      would be recorded. */
  datatype WrongCode = WrongCode(typed: string, checked: int, recorded: int)

  /** A wrong code that was let in and found wrong. */
  datatype Rejection = Rejection(typed: string, time: int)

  datatype Portal = Portal(table: Table, rejections: seq<Rejection>)

  const UNVISITED := Portal(map[], [])

  function Enter(l: Limits, stored: string, p: Portal, c: WrongCode): Portal {
    if Locked(In(p.table, c.typed), c.checked) then p
    else
      var counted := WithFailure(l, WithCheck(l, p.table, c.typed, c.checked), stored, c.recorded);
      Portal(if c.typed == stored then counted else WithFailure(l, counted, c.typed, c.recorded),
             p.rejections + [Rejection(c.typed, c.recorded)])
  }

  function EnterAll(l: Limits, stored: string, p: Portal, cs: seq<WrongCode>): Portal
    decreases |cs|
  {
    if cs == [] then p else EnterAll(l, stored, Enter(l, stored, p, cs[0]), cs[1..])
  }

  /** Wrong codes one after another. */
  predicate InTurn(cs: seq<WrongCode>) {
    && (forall i :: 0 <= i < |cs| ==> 0 <= cs[i].checked <= cs[i].recorded)
    && (forall i, j :: 0 <= i < j < |cs| ==> cs[i].recorded <= cs[j].checked)
  }

  function RejectedDuring(start: int, length: nat): Rejection -> bool {
    (r: Rejection) => start <= r.time < start + length
  }

  function TypedDuring(typed: string, start: int, length: nat): Rejection -> bool {
    (r: Rejection) => r.typed == typed && start <= r.time < start + length
  }

  /* ---------- phone numbers ---------- */

  predicate IsDigit(c: char) {
    '0' <= c <= '9'
  }

  /** The form in which a typed phone number is looked up. */
  function NormalizePhone(raw: string): string {
    var clean := Text.Strip(raw);
    var digits := Where(IsDigit, clean);
    if raw == "" then ""
    else if "+" <= clean then "+" + digits
    else if |digits| == 11 && digits[0] == '0' then "+234" + digits[1..]
    else if |digits| == 13 && "234" <= digits then "+" + digits
    else if |digits| >= 10 then "+" + digits
    else clean
  }

  /** The texts that a typed number is looked up as, one after another. */
  function Lookups(raw: string): seq<string> {
    var norm, clean := NormalizePhone(raw), Text.Strip(raw);
    var digits := Where(IsDigit, clean);
    (if norm != "" then [norm] else [])
    + (if clean != "" && clean != norm then [clean] else [])
    + (if "234" <= digits && |digits| >= 12 then ["0" + digits[3..], digits]
       else if "0" <= digits && |digits| == 11 then ["+234" + digits[1..], "234" + digits[1..]]
       else [])
  }

  /** The stored number of the account that a typed number is found to be. */
  function FindMerchant(registered: set<string>, raw: string): (found: Option<string>)
    ensures found.Some? ==> found.value in registered && found.value in Lookups(raw)
    ensures found.None? ==> forall n :: n in Lookups(raw) ==> n !in registered
  {
    FirstIn(registered, Lookups(raw))
  }

  function FirstIn(registered: set<string>, numbers: seq<string>): (found: Option<string>)
    ensures found.Some? ==> found.value in registered && found.value in numbers
    ensures found.None? ==> forall n :: n in numbers ==> n !in registered
  {
    if numbers == [] then None else if numbers[0] in registered then Some(numbers[0]) else FirstIn(registered, numbers[1..])
  }
}
