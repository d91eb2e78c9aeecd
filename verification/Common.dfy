/** Small shared vocabulary: optional values, and sums and filters over sequences. */
module Common {

  datatype Option<+T> = None | Some(value: T)

  /** The sum of a measure over a sequence, as SQL's SUM over a result set. */
  function Sum<T>(f: T -> int, s: seq<T>): int {
    if s == [] then 0 else Sum(f, s[..|s| - 1]) + f(s[|s| - 1])
  }

  /** The elements that satisfy a condition, in order: SQL's WHERE. */
  function Where<T>(p: T -> bool, s: seq<T>): seq<T> {
    if s == [] then []
    else
      var front := Where(p, s[..|s| - 1]);
      if p(s[|s| - 1]) then front + [s[|s| - 1]] else front
  }

  /** A function applied to every element. */
  function Each<A, B>(f: A -> B, items: seq<A>): (r: seq<B>)
    ensures |r| == |items|
    ensures forall i :: 0 <= i < |items| ==> r[i] == f(items[i])
  {
    seq(|items|, i requires 0 <= i < |items| => f(items[i]))
  }

  lemma {:induction false} WhereMembers<T(!new)>(p: T -> bool, s: seq<T>)
    ensures forall x :: x in Where(p, s) <==> x in s && p(x)
  {
    if s != [] {
      WhereMembers(p, s[..|s| - 1]);
      assert s == s[..|s| - 1] + [s[|s| - 1]];
    }
  }

  lemma SumPush<T>(f: T -> int, s: seq<T>, x: T)
    ensures Sum(f, s + [x]) == Sum(f, s) + f(x)
  {
    assert (s + [x])[..|s|] == s;
  }

  lemma WherePush<T>(p: T -> bool, s: seq<T>, x: T)
    ensures Where(p, s + [x]) == if p(x) then Where(p, s) + [x] else Where(p, s)
  {
    assert (s + [x])[..|s|] == s;
  }

  lemma {:induction false} WhereConcat<T>(p: T -> bool, s: seq<T>, t: seq<T>)
    ensures Where(p, s + t) == Where(p, s) + Where(p, t)
  {
    if t == [] {
      assert s + t == s;
    } else {
      var front := t[..|t| - 1];
      assert s + t == (s + front) + [t[|t| - 1]];
      WhereConcat(p, s, front);
      WherePush(p, s + front, t[|t| - 1]);
    }
  }

  lemma {:induction false} WhereAll<T>(p: T -> bool, s: seq<T>)
    requires forall i :: 0 <= i < |s| ==> p(s[i])
    ensures Where(p, s) == s
  {
    if s != [] {
      WhereAll(p, s[..|s| - 1]);
    }
  }

  lemma {:induction false} WhereNone<T>(p: T -> bool, s: seq<T>)
    requires forall i :: 0 <= i < |s| ==> !p(s[i])
    ensures Where(p, s) == []
  {
    if s != [] {
      WhereNone(p, s[..|s| - 1]);
    }
  }

  lemma {:induction false} WhereCount<T(!new)>(p: T -> bool, s: seq<T>, x: T)
    ensures multiset(Where(p, s))[x] == if p(x) then multiset(s)[x] else 0
  {
    if s != [] {
      var front, last := s[..|s| - 1], s[|s| - 1];
      assert s == front + [last];
      WhereCount(p, front, x);
    }
  }

  /** Filtering does not depend on the order of the rows. */
  lemma WherePermutation<T(!new)>(p: T -> bool, s: seq<T>, t: seq<T>)
    requires multiset(s) == multiset(t)
    ensures multiset(Where(p, s)) == multiset(Where(p, t))
  {
    forall x ensures multiset(Where(p, s))[x] == multiset(Where(p, t))[x] {
      WhereCount(p, s, x);
      WhereCount(p, t, x);
    }
  }

  /** Filters that agree on the elements of a sequence select the same ones. */
  lemma {:induction false} WhereSame<T>(p: T -> bool, q: T -> bool, s: seq<T>)
    requires forall i :: 0 <= i < |s| ==> (p(s[i]) <==> q(s[i]))
    ensures Where(p, s) == Where(q, s)
  {
    if s != [] {
      WhereSame(p, q, s[..|s| - 1]);
    }
  }

  /** Filtering first by a wider condition changes nothing. */
  lemma {:induction false} WhereWider<T>(p: T -> bool, wide: T -> bool, s: seq<T>)
    requires forall i :: 0 <= i < |s| && p(s[i]) ==> wide(s[i])
    ensures Where(p, Where(wide, s)) == Where(p, s)
  {
    if s != [] {
      var front, x := s[..|s| - 1], s[|s| - 1];
      WhereWider(p, wide, front);
      WherePush(p, Where(wide, front), x);
    }
  }

  /** The order of two filters does not matter. */
  lemma {:induction false} WhereCommutes<T>(p: T -> bool, q: T -> bool, s: seq<T>)
    ensures Where(p, Where(q, s)) == Where(q, Where(p, s))
  {
    if s != [] {
      var front, x := s[..|s| - 1], s[|s| - 1];
      WhereCommutes(p, q, front);
      WherePush(p, Where(q, front), x);
      WherePush(q, Where(p, front), x);
    }
  }

  /** The selected elements lie between the first and the last of them. */
  lemma {:induction false} WhereSpread<T>(p: T -> bool, s: seq<T>) returns (i: nat, j: nat)
    requires Where(p, s) != []
    ensures i <= j < |s| && p(s[i]) && p(s[j]) && |Where(p, s)| <= j - i + 1
  {
    var n := |s| - 1;
    if !p(s[n]) {
      i, j := WhereSpread(p, s[..n]);
    } else if Where(p, s[..n]) == [] {
      i, j := n, n;
    } else {
      i, j := WhereSpread(p, s[..n]);
      j := n;
    }
  }
}
