/** Login codes and chat sessions. Codes are issued for WhatsApp, as a token to which a code is
    attached later, and for the merchant portal. */
module Logins {
  import opened Common

  /** A row of verification_codes with the purpose of login. */
  datatype Code = Code(phone: string, code: string, token: Option<string>, expires: int, used: bool)

  datatype Session = Session(sender: string, user: nat, active: bool)

  /* ---------- updates ---------- */

  function Retire(phone: string): Code -> Code {
    (c: Code) => if c.phone == phone then c.(used := true) else c
  }

  /** A new code takes the place of all unused codes of its phone. */
  function Issued(codes: seq<Code>, c: Code): seq<Code> {
    Each(Retire(c.phone), codes) + [c]
  }

  /** The first row that satisfies a condition, as SELECT ... LIMIT 1. */
  function First(p: Code -> bool, codes: seq<Code>): (r: Option<nat>)
    ensures r.Some? ==> r.value < |codes| && p(codes[r.value])
    ensures r.None? ==> forall i :: 0 <= i < |codes| ==> !p(codes[i])
  {
    if codes == [] then None
    else if p(codes[0]) then Some(0)
    else match First(p, codes[1..]) case Some(i) => Some(i + 1) case None => None
  }

  /** The newest such row. */
  function Newest(p: Code -> bool, codes: seq<Code>): (r: Option<nat>)
    ensures r.Some? ==> r.value < |codes| && p(codes[r.value])
    ensures r.None? ==> forall i :: 0 <= i < |codes| ==> !p(codes[i])
  {
    if codes == [] then None
    else if p(codes[|codes| - 1]) then Some(|codes| - 1)
    else Newest(p, codes[..|codes| - 1])
  }

  function WithToken(token: string, now: int): Code -> bool {
    (c: Code) => c.token == Some(token) && !c.used && c.expires > now
  }

  function Redeemable(phone: string, code: string, now: int): Code -> bool {
    (c: Code) => c.code == code && c.phone == phone && !c.used && c.expires > now
  }

  function Redeem(phone: string, code: string, now: int): Code -> Code {
    (c: Code) => if Redeemable(phone, code, now)(c) then c.(used := true) else c
  }

  /** The sender's active sessions end; a new one may begin. */
  function Ended(sessions: seq<Session>, sender: string): (r: seq<Session>)
    ensures |r| == |sessions|
    ensures forall i :: 0 <= i < |r| ==>
              r[i] == if sessions[i].sender == sender then sessions[i].(active := false) else sessions[i]
  {
    seq(|sessions|, i requires 0 <= i < |sessions| =>
      if sessions[i].sender == sender then sessions[i].(active := false) else sessions[i])
  }

  function Opened(sessions: seq<Session>, sender: string, user: nat): seq<Session> {
    Ended(sessions, sender) + [Session(sender, user, true)]
  }

  /* ---------- operations ---------- */

  datatype Tables = Tables(codes: seq<Code>, sessions: seq<Session>)

  datatype Op =
    | CreateLoginToken(phone: string, token: string, expires: int)
    | AttachCode(token: string, code: string, now: int)
    | EnterCode(sender: string, code: string, now: int, user: Option<nat>)
    | RequestOtp(phone: string, code: string, expires: int)
    | EnterOtp(phone: string, code: string, now: int)
    | OpenSession(sender: string, owner: nat)
    | EndSession(sender: string)

  /** The rows an operation redeems. */
  function Redeemed(t: Tables, op: Op): set<nat> {
    match op
    case EnterCode(sender, code, now, _) => set i: nat | i < |t.codes| && Redeemable(sender, code, now)(t.codes[i])
    case EnterOtp(phone, code, now) =>
      (match Newest(Redeemable(phone, code, now), t.codes) case Some(i) => {i} case None => {})
    case _ => {}
  }

  function After(t: Tables, op: Op): Tables {
    match op
    case CreateLoginToken(phone, token, expires) => t.(codes := Issued(t.codes, Code(phone, "", Some(token), expires, false)))
    case AttachCode(token, code, now) =>
      (match First(WithToken(token, now), t.codes)
       case Some(i) => t.(codes := t.codes[i := t.codes[i].(code := code)])
       case None => t)
    case EnterCode(sender, code, now, user) =>
      var t' := t.(codes := Each(Redeem(sender, code, now), t.codes));
      if Redeemed(t, op) != {} && user.Some? then t'.(sessions := Opened(t.sessions, sender, user.value)) else t'
    case RequestOtp(phone, code, expires) => t.(codes := Issued(t.codes, Code(phone, code, None, expires, false)))
    case EnterOtp(phone, code, now) =>
      (match Newest(Redeemable(phone, code, now), t.codes)
       case Some(i) => t.(codes := t.codes[i := t.codes[i].(used := true)])
       case None => t)
    case OpenSession(sender, owner) => t.(sessions := Opened(t.sessions, sender, owner))
    case EndSession(sender) => t.(sessions := Ended(t.sessions, sender))
  }

  /** A run from empty tables: the tables before each operation, and after the last. */
  ghost predicate IsRun(states: seq<Tables>, ops: seq<Op>) {
    && |states| == |ops| + 1 && states[0] == Tables([], [])
    && forall i :: 0 <= i < |ops| ==> states[i + 1] == After(states[i], ops[i])
  }

  /* ---------- laws ---------- */

  predicate OneUnused(codes: seq<Code>) {
    forall i, j :: 0 <= i < j < |codes| && codes[i].phone == codes[j].phone ==> codes[i].used || codes[j].used
  }

  predicate OneActive(sessions: seq<Session>) {
    forall i, j :: 0 <= i < j < |sessions| && sessions[i].sender == sessions[j].sender ==> !sessions[i].active || !sessions[j].active
  }

  /** Rows stay, and a used code stays used. */
  predicate UsedStays(before: seq<Code>, after: seq<Code>) {
    |before| <= |after| && forall i :: 0 <= i < |before| ==> after[i].phone == before[i].phone && (before[i].used ==> after[i].used)
  }

  lemma OpKeepsOneEach(t: Tables, op: Op)
    requires OneUnused(t.codes) && OneActive(t.sessions)
    ensures OneUnused(After(t, op).codes) && OneActive(After(t, op).sessions)
    ensures UsedStays(t.codes, After(t, op).codes)
  {
  }

  /** At every moment each phone has at most one unused login code, whoever issued it, and each
      sender at most one active session. */
  lemma {:induction false} OneCodeOneSession(states: seq<Tables>, ops: seq<Op>, n: nat)
    requires IsRun(states, ops) && n <= |ops|
    ensures OneUnused(states[n].codes) && OneActive(states[n].sessions)
  {
    if n > 0 {
      OneCodeOneSession(states, ops, n - 1);
      OpKeepsOneEach(states[n - 1], ops[n - 1]);
    }
  }

  /** What an operation redeems: one code at most, unused before and used afterwards, of the phone
      that entered it, with the code that was entered, in time. */
  lemma RedeemsOne(t: Tables, op: Op, i: nat, j: nat)
    requires OneUnused(t.codes) && i in Redeemed(t, op)
    ensures j in Redeemed(t, op) ==> i == j
    ensures i < |t.codes| && !t.codes[i].used && i < |After(t, op).codes| && After(t, op).codes[i].used
    ensures EntersCode(op) && t.codes[i].phone == PhoneOf(op) && t.codes[i].code == op.code && op.now < t.codes[i].expires
  {
  }

  predicate EntersCode(op: Op) {
    op.EnterCode? || op.EnterOtp?
  }

  function PhoneOf(op: Op): string
    requires EntersCode(op)
  {
    if op.EnterCode? then op.sender else op.phone
  }

  /** The row holds the code that is entered, for the phone that enters it, unused and in time. */
  predicate Answers(c: Code, op: Op)
    requires EntersCode(op)
  {
    c.code == op.code && c.phone == PhoneOf(op) && !c.used && op.now < c.expires
  }

  /** A login succeeds exactly when some row answers the code that was entered; only such rows are
      redeemed. */
  lemma RedeemsIffAnswered(t: Tables, op: Op)
    ensures forall i :: i in Redeemed(t, op) ==> i < |t.codes| && EntersCode(op) && Answers(t.codes[i], op)
    ensures Redeemed(t, op) != {} <==> EntersCode(op) && exists i :: 0 <= i < |t.codes| && Answers(t.codes[i], op)
    ensures OneUnused(t.codes) && EntersCode(op) ==> forall i :: 0 <= i < |t.codes| && Answers(t.codes[i], op) ==> Redeemed(t, op) == {i}
  {
    if EntersCode(op) {
      forall i: nat | i < |t.codes| && Answers(t.codes[i], op)
        ensures Redeemed(t, op) != {} && (OneUnused(t.codes) ==> Redeemed(t, op) == {i})
      {
        if op.EnterCode? {
          assert i in Redeemed(t, op);
        } else {
          assert Redeemable(op.phone, op.code, op.now)(t.codes[i]);
        }
      }
    }
  }

  /** What an entered code changes: redeemed rows are used, all others stay; a sender whose code was
      redeemed, and who is a user, has a new session in place of the old ones. A code that redeems
      nothing changes nothing. */
  lemma EnteredCodeChanges(t: Tables, op: Op)
    requires EntersCode(op)
    ensures var t' := After(t, op);
            && |t'.codes| == |t.codes|
            && (forall i :: 0 <= i < |t.codes| ==> t'.codes[i] == if i in Redeemed(t, op) then t.codes[i].(used := true) else t.codes[i])
            && (if op.EnterCode? && op.user.Some? && Redeemed(t, op) != {}
                then SessionReplaced(t.sessions, t'.sessions, op.sender, op.user.value) else t'.sessions == t.sessions)
    ensures Redeemed(t, op) == {} ==> After(t, op) == t
  {
    if op.EnterCode? && Redeemed(t, op) == {} {
      var redeem := Redeem(op.sender, op.code, op.now);
      forall i: nat | i < |t.codes| ensures redeem(t.codes[i]) == t.codes[i] {
        assert i !in Redeemed(t, op);
      }
      assert Each(redeem, t.codes) == t.codes;
    }
  }

  /** All sessions of the sender have ended but for a new one, the user's. */
  predicate SessionReplaced(before: seq<Session>, after: seq<Session>, sender: string, user: nat) {
    && |after| == |before| + 1 && after[|before|] == Session(sender, user, true)
    && SessionsEnded(before, after[..|before|], sender)
  }

  predicate SessionsEnded(before: seq<Session>, after: seq<Session>, sender: string) {
    && |after| == |before|
    && forall i :: 0 <= i < |before| ==>
         && after[i].sender == before[i].sender && after[i].user == before[i].user
         && (after[i].active <==> before[i].active && before[i].sender != sender)
  }

  /** The other operations: a new code retires the unused ones of its phone; a code is attached to
      an unused token in time, if there is one; sessions are opened and ended by sender. */
  lemma OtherChanges(t: Tables, op: Op)
    requires !EntersCode(op)
    ensures var t' := After(t, op);
            match op
            case CreateLoginToken(phone, token, expires) =>
              t'.sessions == t.sessions && CodeIssued(t.codes, t'.codes, Code(phone, "", Some(token), expires, false))
            case RequestOtp(phone, code, expires) =>
              t'.sessions == t.sessions && CodeIssued(t.codes, t'.codes, Code(phone, code, None, expires, false))
            case AttachCode(token, code, now) =>
              t'.sessions == t.sessions && CodeAttached(t.codes, t'.codes, token, code, now)
            case OpenSession(sender, owner) => t'.codes == t.codes && SessionReplaced(t.sessions, t'.sessions, sender, owner)
            case EndSession(sender) => t'.codes == t.codes && SessionsEnded(t.sessions, t'.sessions, sender)
            case EnterCode(_, _, _, _) => true
            case EnterOtp(_, _, _) => true
  {
  }

  predicate CodeIssued(before: seq<Code>, after: seq<Code>, c: Code) {
    && |after| == |before| + 1 && after[|before|] == c
    && forall i :: 0 <= i < |before| ==> after[i] == if before[i].phone == c.phone then before[i].(used := true) else before[i]
  }

  /** The token is on a row that is unused and in time. */
  predicate TokenHolds(c: Code, token: string, now: int) {
    c.token == Some(token) && !c.used && now < c.expires
  }

  predicate CodeAttached(before: seq<Code>, after: seq<Code>, token: string, code: string, now: int) {
    if forall i :: 0 <= i < |before| ==> !TokenHolds(before[i], token, now) then after == before
    else exists i :: 0 <= i < |before| && TokenHolds(before[i], token, now) && after == before[i := before[i].(code := code)]
  }

  /** A login by token: the code that was attached in time, entered in time by the phone it was
      made for, opens the user's session, the sender's only active one. */
  lemma TokenLogsIn(t: Tables, phone: string, token: string, code: string, expires: int, attached: int, entered: int, user: nat)
    requires OneUnused(t.codes) && OneActive(t.sessions) && attached < expires && entered < expires
    requires forall c :: c in t.codes ==> c.token != Some(token)
    ensures var t1 := After(t, CreateLoginToken(phone, token, expires));
            var t2 := After(t1, AttachCode(token, code, attached));
            var t3 := After(t2, EnterCode(phone, code, entered, Some(user)));
            && Redeemed(t2, EnterCode(phone, code, entered, Some(user))) == {|t.codes|}
            && SessionReplaced(t.sessions, t3.sessions, phone, user)
  {
    var t1 := After(t, CreateLoginToken(phone, token, expires));
    var t2 := After(t1, AttachCode(token, code, attached));
    var op := EnterCode(phone, code, entered, Some(user));
    TokenIsFound(t, phone, token, expires, attached);
    assert t2.codes[|t.codes|] == Code(phone, code, Some(token), expires, false);
    OpKeepsOneEach(t, CreateLoginToken(phone, token, expires));
    OpKeepsOneEach(t1, AttachCode(token, code, attached));
    RedeemsIffAnswered(t2, op);
    assert Answers(t2.codes[|t.codes|], op);
    EnteredCodeChanges(t2, op);
  }

  lemma TokenIsFound(t: Tables, phone: string, token: string, expires: int, attached: int)
    requires attached < expires && forall c :: c in t.codes ==> c.token != Some(token)
    ensures First(WithToken(token, attached), After(t, CreateLoginToken(phone, token, expires)).codes) == Some(|t.codes|)
  {
    var codes := After(t, CreateLoginToken(phone, token, expires)).codes;
    assert forall i :: 0 <= i < |t.codes| ==> codes[i].token == t.codes[i].token && t.codes[i] in t.codes;
    assert WithToken(token, attached)(codes[|t.codes|]);
  }

  /** A login at the portal: the code that was requested, entered in time, is redeemed, and a second
      time it is not. */
  lemma OtpLogsInOnce(t: Tables, phone: string, code: string, expires: int, entered: int, again: int)
    requires OneUnused(t.codes) && OneActive(t.sessions) && entered < expires
    ensures var t1 := After(t, RequestOtp(phone, code, expires));
            && Redeemed(t1, EnterOtp(phone, code, entered)) == {|t.codes|}
            && Redeemed(After(t1, EnterOtp(phone, code, entered)), EnterOtp(phone, code, again)) == {}
  {
    var t1, op := After(t, RequestOtp(phone, code, expires)), EnterOtp(phone, code, entered);
    OpKeepsOneEach(t, RequestOtp(phone, code, expires));
    RedeemsIffAnswered(t1, op);
    assert Answers(t1.codes[|t.codes|], op);
    EnteredCodeChanges(t1, op);
    RedeemsIffAnswered(After(t1, op), EnterOtp(phone, code, again));
  }

  predicate IsUsed(t: Tables, i: nat) {
    i < |t.codes| && t.codes[i].used
  }

  lemma {:induction false} UsedForGood(states: seq<Tables>, ops: seq<Op>, m: nat, n: nat, i: nat)
    requires IsRun(states, ops) && m <= n <= |ops| && IsUsed(states[m], i)
    ensures IsUsed(states[n], i)
  {
    if m < n {
      UsedForGood(states, ops, m, n - 1, i);
      OneCodeOneSession(states, ops, n - 1);
      OpKeepsOneEach(states[n - 1], ops[n - 1]);
    }
  }

  lemma RedeemedWereUnused(t: Tables, op: Op, i: nat)
    requires i in Redeemed(t, op)
    ensures !IsUsed(t, i) && IsUsed(After(t, op), i)
  {
  }

  /** In any run no code is redeemed twice. */
  lemma RedeemedOnce(states: seq<Tables>, ops: seq<Op>, m: nat, n: nat, i: nat)
    requires IsRun(states, ops) && m < n < |ops| && i in Redeemed(states[m], ops[m])
    ensures i !in Redeemed(states[n], ops[n])
  {
    RedeemedWereUnused(states[m], ops[m], i);
    UsedForGood(states, ops, m + 1, n, i);
    if i in Redeemed(states[n], ops[n]) {
      RedeemedWereUnused(states[n], ops[n], i);
    }
  }
}
