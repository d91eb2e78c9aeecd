/** How many failures the lockouts let through: for a key that every attempt checks, and for a
    merchant's account, whose attempts check the typed number and record under the stored one. */
module LockoutLaws {
  import opened Common
  import opened Lockout
  import Text

  /* ---------- one key ---------- */

  /** How the failures of a key follow each other: the count goes on, or starts again once its
      window has passed; and a failure that locks holds off, for a whole window, every later
      attempt that checks the key. */
  ghost predicate Chained(l: Limits, fs: seq<Failure>) {
    && (forall i :: 0 <= i < |fs| ==> fs[i].attempts >= 1 && (fs[i].attempts == 1 ==> fs[i].first == fs[i].time))
    && (forall i, j :: 0 <= i <= j < |fs| ==> fs[i].time <= fs[j].time)
    && (forall i :: 0 < i < |fs| ==> Follows(l, fs[i - 1], fs[i]))
    && (forall i, j :: 0 <= i < j < |fs| && fs[i].attempts >= l.maxAttempts && fs[j].checked ==>
          fs[j].time >= fs[i].time + l.window)
  }

  predicate Follows(l: Limits, f: Failure, g: Failure) {
    || (g.attempts == f.attempts + 1 && g.first == f.first)
    || (g.attempts == 1 && g.first == g.time && g.time - f.first > l.window)
  }

  /** The record is that of the last failure, and a lock that has not run out is in it. */
  ghost predicate Remembers(l: Limits, t: Trace, moment: int) {
    && (t.failures == [] ==> t.kept == None)
    && (t.failures != [] ==>
          var f := t.failures[|t.failures| - 1];
          t.kept.Some? && t.kept.value.attempts == f.attempts && t.kept.value.firstFailed == f.first)
    && (forall i :: 0 <= i < |t.failures| && t.failures[i].attempts >= l.maxAttempts ==>
          t.failures[i].time + l.lock <= moment || (t.kept.Some? && t.failures[i].time + l.lock <= t.kept.value.lockedUntil))
  }

  ghost predicate Sound(l: Limits, t: Trace, moment: int) {
    Chained(l, t.failures) && Remembers(l, t, moment) && forall i :: 0 <= i < |t.failures| ==> t.failures[i].time <= moment
  }

  /** One more failure goes on from the last one, or starts again. */
  lemma NextFollows(l: Limits, t: Trace, a: Attempt, moment: int)
    requires Sensible(l) && Sound(l, t, moment) && 0 <= moment <= Begins(a) <= a.recorded && Try(l, t, a) != t
    ensures var n, fs := |t.failures|, Try(l, t, a).failures;
            && fs[n].attempts >= 1 && (fs[n].attempts == 1 ==> fs[n].first == fs[n].time)
            && (n > 0 ==> Follows(l, fs[n - 1], fs[n]))
  {
  }

  /** A lock that has not run out turns a checking attempt away. */
  lemma NextWaitsForLocks(l: Limits, t: Trace, a: Attempt, moment: int, i: nat)
    requires Sensible(l) && Sound(l, t, moment) && 0 <= moment <= Begins(a) <= a.recorded && Try(l, t, a) != t
    requires i < |t.failures| && t.failures[i].attempts >= l.maxAttempts
    ensures a.checked.Some? ==> a.recorded >= t.failures[i].time + l.window
    ensures t.failures[i].time + l.lock <= a.recorded || t.failures[i].time + l.lock <= Try(l, t, a).kept.value.lockedUntil
  {
  }

  lemma PushChained(l: Limits, fs: seq<Failure>, g: Failure)
    requires Chained(l, fs) && g.attempts >= 1 && (g.attempts == 1 ==> g.first == g.time)
    requires fs != [] ==> Follows(l, fs[|fs| - 1], g)
    requires forall i :: 0 <= i < |fs| ==> fs[i].time <= g.time
    requires forall i :: 0 <= i < |fs| && fs[i].attempts >= l.maxAttempts && g.checked ==> g.time >= fs[i].time + l.window
    ensures Chained(l, fs + [g])
  {
    var all, n := fs + [g], |fs|;
    assert all[n] == g && forall i :: 0 <= i < n ==> all[i] == fs[i];
    forall i | 0 < i < |all| ensures Follows(l, all[i - 1], all[i]) {
      assert i < n ==> Follows(l, fs[i - 1], fs[i]);
    }
  }

  lemma TryIsSound(l: Limits, t: Trace, a: Attempt, moment: int)
    requires Sensible(l) && Sound(l, t, moment) && 0 <= moment <= Begins(a) <= a.recorded
    ensures Sound(l, Try(l, t, a), a.recorded)
  {
    var t' := Try(l, t, a);
    if t' != t {
      var n, fs := |t.failures|, t'.failures;
      NextFollows(l, t, a, moment);
      forall i | 0 <= i < n && t.failures[i].attempts >= l.maxAttempts
        ensures fs[n].checked ==> fs[n].time >= t.failures[i].time + l.window
        ensures t.failures[i].time + l.lock <= a.recorded || t.failures[i].time + l.lock <= t'.kept.value.lockedUntil
      {
        NextWaitsForLocks(l, t, a, moment, i);
      }
      assert fs == t.failures + [fs[n]];
      PushChained(l, t.failures, fs[n]);
      NextRemembers(l, t, a, moment);
    }
  }

  lemma NextRemembers(l: Limits, t: Trace, a: Attempt, moment: int)
    requires Sensible(l) && Sound(l, t, moment) && 0 <= moment <= Begins(a) <= a.recorded && Try(l, t, a) != t
    ensures Remembers(l, Try(l, t, a), a.recorded)
  {
    var t' := Try(l, t, a);
    var n, fs := |t.failures|, t'.failures;
    assert fs == t.failures + [fs[n]];
    forall i | 0 <= i < |fs| && fs[i].attempts >= l.maxAttempts
      ensures fs[i].time + l.lock <= a.recorded || fs[i].time + l.lock <= t'.kept.value.lockedUntil
    {
      if i < n {
        NextWaitsForLocks(l, t, a, moment, i);
      }
    }
  }

  lemma {:induction false} RunIsSound(l: Limits, t: Trace, attempts: seq<Attempt>, moment: int)
    requires Sensible(l) && Clocked(attempts) && Sound(l, t, moment) && 0 <= moment
    requires attempts != [] ==> moment <= Begins(attempts[0])
    ensures Chained(l, Run(l, t, attempts).failures)
    decreases |attempts|
  {
    if attempts != [] {
      TryIsSound(l, t, attempts[0], moment);
      RunIsSound(l, Try(l, t, attempts[0]), attempts[1..], attempts[0].recorded);
    }
  }

  /** Among any 2 MAX - 1 failures in a row, a last one that checked the key is a whole window
      after the first. */
  lemma FailuresSpanAWindow(l: Limits, fs: seq<Failure>, i: nat, j: nat)
    requires Sensible(l) && Chained(l, fs) && i + 2 * l.maxAttempts - 2 <= j < |fs| && fs[j].checked
    ensures fs[j].time - fs[i].time >= l.window
  {
    if fs[j].time - fs[i].time < l.window {
      var last := i + 2 * l.maxAttempts - 2;
      var k, p := i, i;
      while k < last
        invariant i <= p <= k <= last
        invariant p == i ==> fs[k].attempts == fs[i].attempts + (k - i) && fs[k].first == fs[i].first
        invariant k > i ==> fs[k].attempts <= l.maxAttempts
        invariant p > i ==> p <= i + l.maxAttempts - 2 && fs[k].attempts == 1 + (k - p) && fs[k].first == fs[p].time
      {
        assert Follows(l, fs[k], fs[k + 1]);
        assert fs[k].attempts < l.maxAttempts;
        if fs[k + 1].attempts != fs[k].attempts + 1 {
          assert p == i && fs[i].attempts > 1;
          p := k + 1;
        }
        k := k + 1;
      }
      assert false;
    }
  }

  lemma BoundedWhenChained(l: Limits, fs: seq<Failure>, start: int)
    requires Sensible(l) && Chained(l, fs)
    ensures |Where(CheckedDuring(start, l.window), fs)| <= 2 * l.maxAttempts - 2
  {
    var p := CheckedDuring(start, l.window);
    if |Where(p, fs)| > 2 * l.maxAttempts - 2 {
      var i, j := WhereSpread(p, fs);
      FailuresSpanAWindow(l, fs, i, j);
    }
  }

  /** Whenever the attempts come, and whatever else is recorded under a key, every half-open
      interval of one window's length holds at most 2 MAX - 2 failures that had checked the key. */
  lemma FailureRateIsBounded(l: Limits, attempts: seq<Attempt>, start: int)
    requires Sensible(l) && Clocked(attempts)
    ensures |Where(CheckedDuring(start, l.window), Recorded(l, attempts))| <= 2 * l.maxAttempts - 2
  {
    RunIsSound(l, UNTRIED, attempts, 0);
    BoundedWhenChained(l, Recorded(l, attempts), start);
  }

  /* ---------- administrators ---------- */

  lemma {:induction false} AllChecked(l: Limits, t: Trace, attempts: seq<Attempt>)
    requires forall i :: 0 <= i < |attempts| ==> attempts[i].checked.Some?
    requires forall i :: 0 <= i < |t.failures| ==> t.failures[i].checked
    ensures forall i :: 0 <= i < |Run(l, t, attempts).failures| ==> Run(l, t, attempts).failures[i].checked
    decreases |attempts|
  {
    if attempts != [] {
      AllChecked(l, Try(l, t, attempts[0]), attempts[1..]);
    }
  }

  /** At the administrators' portal every attempt checks the address and user name it records
      under: these have at most 8 failures in any 15 minutes. */
  lemma AdministratorsAreBounded(attempts: seq<Attempt>, start: int)
    requires Clocked(attempts) && forall i :: 0 <= i < |attempts| ==> attempts[i].checked.Some?
    ensures |Where(During(start, 900), Recorded(ADMIN, attempts))| <= 8
  {
    AllChecked(ADMIN, UNTRIED, attempts);
    WhereSame(During(start, 900), CheckedDuring(start, 900), Recorded(ADMIN, attempts));
    FailureRateIsBounded(ADMIN, attempts, start);
  }

  /* ---------- merchants ---------- */

  /** What a wrong code does with one key: it checks the key that was typed, and once let in
      records under that key and the stored one. */
  function Use(p: Portal, stored: string, c: WrongCode, key: string): seq<Attempt> {
    if c.typed == key then [Attempt(Some(c.checked), c.recorded)]
    else if key == stored && !Locked(In(p.table, c.typed), c.checked) then [Attempt(None, c.recorded)]
    else []
  }

  /** The trace of a key stands for the portal. */
  ghost predicate Stands(l: Limits, t: Trace, p: Portal, key: string, start: int, moment: int) {
    && Sound(l, t, moment) && t.kept == In(p.table, key)
    && |Where(CheckedDuring(start, l.window), t.failures)| == |Where(TypedDuring(key, start, l.window), p.rejections)|
  }

  /** The record of a key follows the trace of its uses. */
  lemma KeyAfterEnter(l: Limits, stored: string, t: Trace, p: Portal, c: WrongCode, key: string)
    requires t.kept == In(p.table, key)
    ensures var uses := Use(p, stored, c, key);
            In(Enter(l, stored, p, c).table, key) == if uses == [] then t.kept else Try(l, t, uses[0]).kept
  {
    var checked := WithCheck(l, p.table, c.typed, c.checked);
    assert key != c.typed ==> In(checked, key) == In(p.table, key);
    assert In(checked, c.typed) == Checked(l, In(p.table, c.typed), c.checked);
  }

  /** So do its failures that checked it. */
  lemma CountAfterEnter(l: Limits, stored: string, t: Trace, p: Portal, c: WrongCode, key: string, start: int)
    requires t.kept == In(p.table, key)
    requires |Where(CheckedDuring(start, l.window), t.failures)| == |Where(TypedDuring(key, start, l.window), p.rejections)|
    ensures var uses := Use(p, stored, c, key);
            var t' := if uses == [] then t else Try(l, t, uses[0]);
            |Where(CheckedDuring(start, l.window), t'.failures)|
            == |Where(TypedDuring(key, start, l.window), Enter(l, stored, p, c).rejections)|
  {
    var typed, checked := TypedDuring(key, start, l.window), CheckedDuring(start, l.window);
    var uses := Use(p, stored, c, key);
    if !Locked(In(p.table, c.typed), c.checked) {
      var r := Rejection(c.typed, c.recorded);
      WherePush(typed, p.rejections, r);
      if uses != [] {
        var f := Try(l, t, uses[0]).failures[|t.failures|];
        assert Try(l, t, uses[0]).failures == t.failures + [f];
        WherePush(checked, t.failures, f);
        assert checked(f) <==> typed(r);
      }
    }
  }

  lemma EnterStands(l: Limits, stored: string, t: Trace, p: Portal, c: WrongCode, key: string, start: int, moment: int)
    returns (t': Trace)
    requires Sensible(l) && Stands(l, t, p, key, start, moment) && 0 <= moment <= c.checked <= c.recorded
    ensures Stands(l, t', Enter(l, stored, p, c), key, start, c.recorded)
  {
    var uses := Use(p, stored, c, key);
    KeyAfterEnter(l, stored, t, p, c, key);
    CountAfterEnter(l, stored, t, p, c, key, start);
    if uses == [] {
      t' := t;
      LaterIsSound(l, t, moment, c.recorded);
    } else {
      t' := Try(l, t, uses[0]);
      TryIsSound(l, t, uses[0], moment);
    }
  }

  lemma LaterIsSound(l: Limits, t: Trace, moment: int, later: int)
    requires Sound(l, t, moment) && moment <= later
    ensures Sound(l, t, later)
  {
  }

  lemma {:induction false} EnterAllStands(l: Limits, stored: string, t: Trace, p: Portal, cs: seq<WrongCode>,
                                          key: string, start: int, moment: int) returns (t': Trace)
    requires Sensible(l) && Stands(l, t, p, key, start, moment) && InTurn(cs) && 0 <= moment
    requires cs != [] ==> moment <= cs[0].checked
    ensures Chained(l, t'.failures)
    ensures |Where(CheckedDuring(start, l.window), t'.failures)|
            == |Where(TypedDuring(key, start, l.window), EnterAll(l, stored, p, cs).rejections)|
    decreases |cs|
  {
    t' := t;
    if cs != [] {
      t' := EnterStands(l, stored, t, p, cs[0], key, start, moment);
      t' := EnterAllStands(l, stored, t', Enter(l, stored, p, cs[0]), cs[1..], key, start, cs[0].recorded);
    }
  }

  /** For every way of typing a merchant's number, any window holds at most 2 MAX - 2 wrong codes
      that were let in under that typing, whatever is typed otherwise. */
  lemma EachTypingIsBounded(l: Limits, stored: string, cs: seq<WrongCode>, typed: string, start: int)
    requires Sensible(l) && InTurn(cs)
    ensures |Where(TypedDuring(typed, start, l.window), EnterAll(l, stored, UNVISITED, cs).rejections)| <= 2 * l.maxAttempts - 2
  {
    var t := EnterAllStands(l, stored, UNTRIED, UNVISITED, cs, typed, start, 0);
    BoundedWhenChained(l, t.failures, start);
  }

  /** The bound holds for an account in every series of wrong codes that uses these typings. */
  ghost predicate Bounded(l: Limits, stored: string, typings: set<string>) {
    forall cs: seq<WrongCode>, start ::
      InTurn(cs) && (forall i :: 0 <= i < |cs| ==> cs[i].typed in typings) ==>
        |Where(RejectedDuring(start, l.window), EnterAll(l, stored, UNVISITED, cs).rejections)| <= 2 * l.maxAttempts - 2
  }

  predicate AllTyped(rs: seq<Rejection>, typings: set<string>) {
    forall i :: 0 <= i < |rs| ==> rs[i].typed in typings
  }

  lemma {:induction false} RejectionsWereTyped(l: Limits, stored: string, p: Portal, cs: seq<WrongCode>, typings: set<string>)
    requires forall i :: 0 <= i < |cs| ==> cs[i].typed in typings
    requires AllTyped(p.rejections, typings)
    ensures AllTyped(EnterAll(l, stored, p, cs).rejections, typings)
    decreases |cs|
  {
    if cs != [] {
      RejectionsWereTyped(l, stored, Enter(l, stored, p, cs[0]), cs[1..], typings);
    }
  }

  lemma OneTypingIsBounded(l: Limits, stored: string, typings: set<string>, cs: seq<WrongCode>, start: int)
    requires Sensible(l) && InTurn(cs) && forall i :: 0 <= i < |cs| ==> cs[i].typed in typings
    requires forall a, b :: a in typings && b in typings ==> a == b
    ensures |Where(RejectedDuring(start, l.window), EnterAll(l, stored, UNVISITED, cs).rejections)| <= 2 * l.maxAttempts - 2
  {
    if cs != [] {
      var rs := EnterAll(l, stored, UNVISITED, cs).rejections;
      RejectionsWereTyped(l, stored, UNVISITED, cs, typings);
      assert cs[0].typed in typings;
      forall i | 0 <= i < |rs| ensures rs[i].typed == cs[0].typed {
        assert rs[i].typed in typings;
      }
      WhereSame(RejectedDuring(start, l.window), TypedDuring(cs[0].typed, start, l.window), rs);
      EachTypingIsBounded(l, stored, cs, cs[0].typed, start);
    }
  }

  /** Several wrong codes at one moment. */
  function Codes(typed: string, n: nat): seq<WrongCode> {
    if n == 0 then [] else [WrongCode(typed, 0, 0)] + Codes(typed, n - 1)
  }

  lemma {:induction false} CodesFacts(typed: string, n: nat)
    ensures |Codes(typed, n)| == n && forall i :: 0 <= i < n ==> Codes(typed, n)[i] == WrongCode(typed, 0, 0)
  {
    if n > 0 {
      CodesFacts(typed, n - 1);
    }
  }

  lemma {:induction false} EnterConcat(l: Limits, stored: string, p: Portal, a: seq<WrongCode>, b: seq<WrongCode>)
    ensures EnterAll(l, stored, p, a + b) == EnterAll(l, stored, EnterAll(l, stored, p, a), b)
    decreases |a|
  {
    if a == [] {
      assert a + b == b;
    } else {
      assert (a + b)[1..] == a[1..] + b;
      EnterConcat(l, stored, Enter(l, stored, p, a[0]), a[1..], b);
    }
  }

  /** A typing under which so many failures have been counted, all at the first moment. */
  ghost predicate Counted(p: Portal, typed: string, n: nat) {
    if n == 0 then In(p.table, typed) == None
    else typed in p.table && p.table[typed] == Record(n, 0, 0)
  }

  /** One wrong code under a typing that is not locked. */
  lemma CodeIsLetIn(l: Limits, stored: string, p: Portal, typed: string, m: nat)
    requires Sensible(l) && m < l.maxAttempts && Counted(p, typed, m)
    ensures var p' := Enter(l, stored, p, WrongCode(typed, 0, 0));
            && p'.rejections == p.rejections + [Rejection(typed, 0)] && (m + 1 < l.maxAttempts ==> Counted(p', typed, m + 1))
            && forall key :: key != typed && key != stored ==> In(p'.table, key) == In(p.table, key)
  {
    assert In(WithCheck(l, p.table, typed, 0), typed) == In(p.table, typed);
  }

  /** A typing that has not been used up lets in as many wrong codes as are left. */
  lemma {:induction false} CodesAreLetIn(l: Limits, stored: string, p: Portal, typed: string, m: nat, n: nat)
    requires Sensible(l) && m + n <= l.maxAttempts && (n > 0 ==> Counted(p, typed, m))
    ensures var p' := EnterAll(l, stored, p, Codes(typed, n));
            && |p'.rejections| == |p.rejections| + n && p.rejections <= p'.rejections
            && (forall i :: |p.rejections| <= i < |p'.rejections| ==> p'.rejections[i].time == 0)
            && forall key :: key != typed && key != stored ==> In(p'.table, key) == In(p.table, key)
    decreases n
  {
    if n > 0 {
      var c := WrongCode(typed, 0, 0);
      assert Codes(typed, n)[0] == c && Codes(typed, n)[1..] == Codes(typed, n - 1);
      CodeIsLetIn(l, stored, p, typed, m);
      CodesAreLetIn(l, stored, Enter(l, stored, p, c), typed, m + 1, n - 1);
    }
  }

  function TwoBursts(l: Limits, first: string, second: string): seq<WrongCode> {
    Codes(first, l.maxAttempts) + Codes(second, l.maxAttempts)
  }

  lemma TwoBurstsFacts(l: Limits, first: string, second: string)
    ensures var cs := TwoBursts(l, first, second);
            InTurn(cs) && forall i :: 0 <= i < |cs| ==> (cs[i].typed == first || cs[i].typed == second) && cs[i].recorded == 0
  {
    CodesFacts(first, l.maxAttempts);
    CodesFacts(second, l.maxAttempts);
  }

  /** Two typings of one number let in MAX wrong codes each, at one moment; the stored number, if
      it is one of them, comes first. */
  lemma TwoTypingsExceed(l: Limits, stored: string, first: string, second: string)
    requires Sensible(l) && l.window > 0 && first != second && second != stored
    ensures var rs := EnterAll(l, stored, UNVISITED, TwoBursts(l, first, second)).rejections;
            |rs| == 2 * l.maxAttempts && Where(RejectedDuring(0, l.window), rs) == rs
  {
    var m := l.maxAttempts;
    var p1 := EnterAll(l, stored, UNVISITED, Codes(first, m));
    CodesAreLetIn(l, stored, UNVISITED, first, 0, m);
    assert In(p1.table, second) == In(UNVISITED.table, second) == None;
    CodesAreLetIn(l, stored, p1, second, 0, m);
    var p2 := EnterAll(l, stored, p1, Codes(second, m));
    EnterConcat(l, stored, UNVISITED, Codes(first, m), Codes(second, m));
    WhereAll(RejectedDuring(0, l.window), p2.rejections);
  }

  /** An account is bounded exactly when its number is typed in one way only. Typings that are not
      found to be the account are turned away and do not matter. */
  lemma BoundedIffOneTyping(l: Limits, registered: set<string>, stored: string, typings: set<string>)
    requires Sensible(l) && l.window > 0
    requires forall t :: t in typings ==> FindMerchant(registered, t) == Some(stored)
    ensures Bounded(l, stored, typings) <==> forall a, b :: a in typings && b in typings ==> a == b
  {
    if forall a, b :: a in typings && b in typings ==> a == b {
      forall cs: seq<WrongCode>, start | InTurn(cs) && (forall i :: 0 <= i < |cs| ==> cs[i].typed in typings)
        ensures |Where(RejectedDuring(start, l.window), EnterAll(l, stored, UNVISITED, cs).rejections)| <= 2 * l.maxAttempts - 2
      {
        OneTypingIsBounded(l, stored, typings, cs, start);
      }
    } else {
      var a, b :| a in typings && b in typings && a != b;
      var first, second := if b == stored then b else a, if b == stored then a else b;
      TwoTypingsExceed(l, stored, first, second);
      TwoBurstsFacts(l, first, second);
      var cs := TwoBursts(l, first, second);
      assert forall i :: 0 <= i < |cs| ==> cs[i].typed in typings;
      assert |Where(RejectedDuring(0, l.window), EnterAll(l, stored, UNVISITED, cs).rejections)| > 2 * l.maxAttempts - 2;
    }
  }

  /** A number in local form is found to be the stored one, and so is the stored one. */
  lemma LocalFormIsLookedUp(registered: set<string>, local: string)
    requires |local| == 11 && local[0] == '0' && forall i :: 0 <= i < 11 ==> IsDigit(local[i])
    requires "+234" + local[1..] in registered
    ensures var stored := "+234" + local[1..];
            FindMerchant(registered, local) == Some(stored) == FindMerchant(registered, stored)
  {
    LocalFormIsNormalised(local);
    var stored := "+234" + local[1..];
    assert Lookups(local)[0] == stored && Lookups(stored)[0] == stored;
  }

  predicate AllDigits(s: string) {
    forall i :: 0 <= i < |s| ==> IsDigit(s[i])
  }

  /** The ways in which a Nigerian number of ten digits is stored or typed. */
  function Forms(digits: string): seq<string> {
    ["+234" + digits, "234" + digits, "0" + digits]
  }

  /** What a text is looked up as, from its trimmed form, its digits and its normal form. */
  lemma LookupsOf(typed: string, digits: string, norm: string)
    requires Text.Strip(typed) == typed != "" && Where(IsDigit, typed) == digits && NormalizePhone(typed) == norm != ""
    ensures "234" <= digits && |digits| >= 12 ==>
              Lookups(typed) == (if typed == norm then [norm] else [norm, typed]) + ["0" + digits[3..], digits]
    ensures "0" <= digits && |digits| == 11 ==>
              Lookups(typed) == (if typed == norm then [norm] else [norm, typed]) + ["+234" + digits[1..], "234" + digits[1..]]
  {
  }

  lemma PlainFormIsNormalised(plain: string)
    requires |plain| == 13 && AllDigits(plain) && "234" <= plain
    ensures Text.Strip(plain) == plain && NormalizePhone(plain) == "+" + plain
  {
    Text.StripFacts(plain);
    WhereAll(IsDigit, plain);
  }

  lemma FormIsNormalised(digits: string, typed: string)
    requires |digits| == 10 && AllDigits(digits) && typed in Forms(digits)
    ensures Text.Strip(typed) == typed && NormalizePhone(typed) == "+234" + digits
  {
    var plain, local := "234" + digits, "0" + digits;
    Text.StripFacts(typed);
    assert "+234" + digits == "+" + plain;
    if typed == local {
      assert local[1..] == digits;
      LocalFormIsNormalised(local);
    } else if typed == plain {
      PlainFormIsNormalised(plain);
    } else {
      StoredFormIsNormalised(plain);
    }
  }

  /** Each of these forms is looked up as all of them, and nothing else. */
  lemma FormsAreLookedUp(digits: string, typed: string)
    requires |digits| == 10 && AllDigits(digits) && typed in Forms(digits)
    ensures forall n :: n in Lookups(typed) <==> n in Forms(digits)
  {
    DigitsOfForm(digits, typed);
    FormIsNormalised(digits, typed);
    var norm := "+234" + digits;
    if typed == "0" + digits {
      LookupsOf(typed, typed, norm);
      assert typed[1..] == digits;
      assert Lookups(typed) == [norm, typed, norm, "234" + digits];
    } else {
      var plain := "234" + digits;
      LookupsOf(typed, plain, norm);
      assert plain[3..] == digits;
      assert Lookups(typed) == (if typed == norm then [norm] else [norm, typed]) + ["0" + digits, plain];
    }
  }

  lemma DigitsOfForm(digits: string, typed: string)
    requires AllDigits(digits) && typed in Forms(digits)
    ensures Where(IsDigit, typed) == if typed == "+234" + digits then "234" + digits else typed
  {
    if typed == "+234" + digits {
      assert typed == "+" + ("234" + digits);
      WhereConcat(IsDigit, "+", "234" + digits);
      WhereNone(IsDigit, "+");
      WhereAll(IsDigit, "234" + digits);
    } else {
      WhereAll(IsDigit, typed);
    }
  }

  /** So a merchant whose number is stored in one of the forms, and in no other, is found by typing
      any of them. */
  lemma EveryFormFindsTheAccount(registered: set<string>, digits: string, stored: string, typed: string)
    requires |digits| == 10 && AllDigits(digits) && stored in Forms(digits) && typed in Forms(digits)
    requires forall n :: n in registered && n in Forms(digits) <==> n == stored
    ensures FindMerchant(registered, typed) == Some(stored)
  {
    FormsAreLookedUp(digits, typed);
    assert stored in Lookups(typed);
  }

  lemma LocalFormIsNormalised(local: string)
    requires |local| == 11 && local[0] == '0' && forall i :: 0 <= i < 11 ==> IsDigit(local[i])
    ensures NormalizePhone(local) == "+234" + local[1..] == NormalizePhone("+234" + local[1..])
  {
    Text.StripFacts(local);
    WhereAll(IsDigit, local);
    StoredFormIsNormalised("234" + local[1..]);
    assert "+234" + local[1..] == "+" + ("234" + local[1..]);
  }

  lemma StoredFormIsNormalised(digits: string)
    requires digits != "" && forall i :: 0 <= i < |digits| ==> IsDigit(digits[i])
    ensures NormalizePhone("+" + digits) == "+" + digits
  {
    Text.StripFacts("+" + digits);
    WhereConcat(IsDigit, "+", digits);
    WhereNone(IsDigit, "+");
    WhereAll(IsDigit, digits);
  }

  /** So every merchant with a Nigerian number can have six wrong codes let in at one moment,
      where typing the number in one way allows four in ten minutes. */
  lemma LocalAndStoredFormLetInSix(registered: set<string>, local: string)
    requires |local| == 11 && local[0] == '0' && forall i :: 0 <= i < 11 ==> IsDigit(local[i])
    requires "+234" + local[1..] in registered
    ensures var stored := "+234" + local[1..];
            && FindMerchant(registered, local) == Some(stored) == FindMerchant(registered, stored)
            && !Bounded(MERCHANT, stored, {stored, local}) && Bounded(MERCHANT, stored, {stored})
            && exists cs: seq<WrongCode> :: InTurn(cs) && (forall i :: 0 <= i < |cs| ==> cs[i].typed in {stored, local} && cs[i].recorded == 0)
                            && |EnterAll(MERCHANT, stored, UNVISITED, cs).rejections| == 6
  {
    var stored := "+234" + local[1..];
    LocalFormIsLookedUp(registered, local);
    assert |stored| == 14;
    BoundedIffOneTyping(MERCHANT, registered, stored, {stored, local});
    BoundedIffOneTyping(MERCHANT, registered, stored, {stored});
    SixAreLetIn(stored, local);
  }

  lemma SixAreLetIn(stored: string, other: string)
    requires stored != other
    ensures exists cs: seq<WrongCode> :: InTurn(cs) && (forall i :: 0 <= i < |cs| ==> cs[i].typed in {stored, other} && cs[i].recorded == 0)
                            && |EnterAll(MERCHANT, stored, UNVISITED, cs).rejections| == 6
  {
    TwoTypingsExceed(MERCHANT, stored, stored, other);
    TwoBurstsFacts(MERCHANT, stored, other);
    var cs := TwoBursts(MERCHANT, stored, other);
    assert forall i :: 0 <= i < |cs| ==> cs[i].typed in {stored, other};
  }

  /* ---------- counting and locking ---------- */

  /** A failure counts on from those of its window, and starts again when the window is over and no
      lock runs. From the last allowed failure on, the key is locked for the length of a lock and no
      longer; a check drops a record whose window and lock are over, and leaves any other. */
  lemma CountsAndLocks(l: Limits, kept: Kept, now: int, later: int)
    requires l.maxAttempts > 0
    ensures var r := Failed(l, kept, now);
            var over := kept.None? || (now - kept.value.firstFailed > l.window && !Locked(kept, now));
            && r.attempts == (if over then 1 else kept.value.attempts + 1)
            && r.firstFailed == (if over then now else kept.value.firstFailed)
            && (r.attempts >= l.maxAttempts ==> (Locked(Some(r), later) <==> later < now + l.lock))
            && (r.attempts < l.maxAttempts && !Locked(kept, now) && 0 <= now <= later ==> !Locked(Some(r), later))
    ensures Checked(l, kept, now)
            == if kept.Some? && !Locked(kept, now) && now - kept.value.firstFailed > l.window then None else kept
    ensures kept.Some? ==> (Locked(kept, now) <==> now < kept.value.lockedUntil)
  {
  }

  /* ---------- the bound is reached ---------- */

  function Checking(time: int): Attempt {
    Attempt(Some(time), time)
  }

  /** Several attempts at one moment. */
  function Burst(time: int, n: nat): seq<Attempt> {
    if n == 0 then [] else [Checking(time)] + Burst(time, n - 1)
  }

  lemma {:induction false} RunConcat(l: Limits, t: Trace, a: seq<Attempt>, b: seq<Attempt>)
    ensures Run(l, t, a + b) == Run(l, Run(l, t, a), b)
    decreases |a|
  {
    if a == [] {
      assert a + b == b;
    } else {
      assert (a + b)[1..] == a[1..] + b;
      RunConcat(l, Try(l, t, a[0]), a[1..], b);
    }
  }

  /** A burst that fits under the maximum is admitted whole. */
  lemma {:induction false} BurstIsAdmitted(l: Limits, t: Trace, r: Record, time: int, n: nat)
    requires Sensible(l) && t.kept == Some(r)
    requires r.lockedUntil <= time && time - r.firstFailed <= l.window && r.attempts + n <= l.maxAttempts
    ensures var t' := Run(l, t, Burst(time, n));
            && t'.kept == Some(r.(attempts := r.attempts + n,
                                  lockedUntil := if n > 0 && r.attempts + n >= l.maxAttempts then time + l.lock else r.lockedUntil))
            && |t'.failures| == |t.failures| + n && t.failures <= t'.failures
            && forall i :: |t.failures| <= i < |t'.failures| ==> t'.failures[i].checked && t'.failures[i].time == time
    decreases n
  {
    if n > 0 {
      assert Burst(time, n)[0] == Checking(time) && Burst(time, n)[1..] == Burst(time, n - 1);
      var t1 := Try(l, t, Checking(time));
      if n > 1 {
        BurstIsAdmitted(l, t1, t1.kept.value, time, n - 1);
      }
    }
  }

  /** A failure, MAX - 2 more when the window is about to pass, and MAX more just after. */
  function Busiest(l: Limits): seq<Attempt>
    requires Sensible(l)
  {
    [Checking(0)] + Burst(l.window, l.maxAttempts - 2) + [Checking(l.window + 1)] + Burst(l.window + 1, l.maxAttempts - 1)
  }

  /** The bound cannot be lowered. */
  lemma BoundIsReached(l: Limits)
    requires Sensible(l) && l.window >= 2
    ensures |Where(CheckedDuring(l.window, l.window), Recorded(l, Busiest(l)))| == 2 * l.maxAttempts - 2
  {
    var m, w := l.maxAttempts, l.window;
    var t1 := Try(l, UNTRIED, Checking(0));
    assert t1 == Trace(Some(Record(1, 0, 0)), [Failure(0, 1, 0, true)]);
    BurstIsAdmitted(l, t1, Record(1, 0, 0), w, m - 2);
    var t2 := Run(l, t1, Burst(w, m - 2));
    var t3 := Try(l, t2, Checking(w + 1));
    StartsAgain(l, t2);
    BurstIsAdmitted(l, t3, Record(1, 0, w + 1), w + 1, m - 1);
    var t4 := Run(l, t3, Burst(w + 1, m - 1));
    BusiestRuns(l);
    WhereTail(t4.failures, l);
  }

  /** Just after the window the count starts again. */
  lemma StartsAgain(l: Limits, t: Trace)
    requires Sensible(l) && t.kept == Some(Record(l.maxAttempts - 1, 0, 0))
    ensures Try(l, t, Checking(l.window + 1))
            == Trace(Some(Record(1, 0, l.window + 1)), t.failures + [Failure(l.window + 1, 1, l.window + 1, true)])
  {
  }

  lemma RunOne(l: Limits, t: Trace, a: Attempt)
    ensures Run(l, t, [a]) == Try(l, t, a)
  {
    assert [a][1..] == [];
  }

  lemma BusiestRuns(l: Limits)
    requires Sensible(l)
    ensures var t2 := Run(l, Try(l, UNTRIED, Checking(0)), Burst(l.window, l.maxAttempts - 2));
            Run(l, UNTRIED, Busiest(l)) == Run(l, Try(l, t2, Checking(l.window + 1)), Burst(l.window + 1, l.maxAttempts - 1))
  {
    var a, c := [Checking(0)], [Checking(l.window + 1)];
    var b, d := Burst(l.window, l.maxAttempts - 2), Burst(l.window + 1, l.maxAttempts - 1);
    RunConcat(l, UNTRIED, a + b + c, d);
    RunConcat(l, UNTRIED, a + b, c);
    RunConcat(l, UNTRIED, a, b);
    RunOne(l, UNTRIED, a[0]);
    RunOne(l, Run(l, Try(l, UNTRIED, a[0]), b), c[0]);
  }

  lemma WhereTail(fs: seq<Failure>, l: Limits)
    requires |fs| > 0 && fs[0].time < l.window && forall i :: 0 < i < |fs| ==> CheckedDuring(l.window, l.window)(fs[i])
    ensures Where(CheckedDuring(l.window, l.window), fs) == fs[1..]
  {
    assert fs == fs[..1] + fs[1..];
    WhereConcat(CheckedDuring(l.window, l.window), fs[..1], fs[1..]);
    WhereAll(CheckedDuring(l.window, l.window), fs[1..]);
  }
}
