/** The string operations of the item resolver, on ASCII text: case folding, trimming,
    splitting on whitespace and joining with single spaces. */
module Text {

  predicate IsSpace(c: char) {
    c == ' ' || '\t' <= c <= '\r' || '\U{1C}' <= c <= '\U{1F}'
  }

  function LowerChar(c: char): char {
    if 'A' <= c <= 'Z' then c - 'A' + 'a' else c
  }

  function Lower(s: string): (r: string)
    ensures |r| == |s|
    ensures forall i :: 0 <= i < |s| ==> r[i] == LowerChar(s[i])
  {
    seq(|s|, i requires 0 <= i < |s| => LowerChar(s[i]))
  }

  function StripLeft(s: string): string {
    if s != "" && IsSpace(s[0]) then StripLeft(s[1..]) else s
  }

  function StripRight(s: string): string {
    if s != "" && IsSpace(s[|s| - 1]) then StripRight(s[..|s| - 1]) else s
  }

  function Strip(s: string): string {
    StripRight(StripLeft(s))
  }

  /** The length of the first word of a text that does not begin with whitespace. */
  function WordLength(s: string): (n: nat)
    ensures n <= |s|
    ensures forall i :: 0 <= i < n ==> !IsSpace(s[i])
    ensures n < |s| ==> IsSpace(s[n])
  {
    if s == "" || IsSpace(s[0]) then 0 else 1 + WordLength(s[1..])
  }

  lemma StripLeftLength(s: string)
    ensures |StripLeft(s)| <= |s|
    ensures StripLeft(s) != "" ==> !IsSpace(StripLeft(s)[0])
  {
  }

  /** Splitting on runs of whitespace. */
  function Words(s: string): seq<string>
    decreases |s|
  {
    StripLeftLength(s);
    var t := StripLeft(s);
    if t == "" then []
    else
      var n := WordLength(t);
      [t[..n]] + Words(t[n..])
  }

  /** A word: some text without whitespace. */
  predicate IsWord(w: string) {
    w != "" && forall i :: 0 <= i < |w| ==> !IsSpace(w[i])
  }

  predicate AllWords(ws: seq<string>) {
    forall i :: 0 <= i < |ws| ==> IsWord(ws[i])
  }

  function Join(ws: seq<string>): string {
    if |ws| == 0 then ""
    else if |ws| == 1 then ws[0]
    else ws[0] + " " + Join(ws[1..])
  }

  lemma {:induction false} WordsAreWords(s: string)
    ensures AllWords(Words(s))
    decreases |s|
  {
    StripLeftLength(s);
    var t := StripLeft(s);
    if t != "" {
      WordsAreWords(t[WordLength(t)..]);
    }
  }

  lemma WordLengthOfWord(w: string, rest: string)
    requires IsWord(w)
    requires rest == "" || IsSpace(rest[0])
    ensures WordLength(w + rest) == |w|
  {
    var s := w + rest;
    assert forall i :: 0 <= i < |w| ==> s[i] == w[i];
    if rest != "" {
      assert s[|w|] == rest[0];
    }
  }

  /** Splitting undoes joining, so joined word lists are equal only if the lists are. */
  lemma {:induction false} WordsOfJoin(ws: seq<string>)
    requires AllWords(ws)
    ensures Words(Join(ws)) == ws
  {
    if |ws| == 0 {
    } else {
      var rest := if |ws| == 1 then "" else " " + Join(ws[1..]);
      var s := Join(ws);
      assert s == ws[0] + rest;
      assert !IsSpace(s[0]);
      assert StripLeft(s) == s;
      WordLengthOfWord(ws[0], rest);
      assert s[..|ws[0]|] == ws[0] && s[|ws[0]|..] == rest;
      if |ws| > 1 {
        WordsOfJoin(ws[1..]);
        assert StripLeft(rest) == StripLeft(Join(ws[1..])) by { assert rest[1..] == Join(ws[1..]); }
        assert Words(rest) == Words(Join(ws[1..]));
      }
      assert ws == [ws[0]] + ws[1..];
    }
  }

  function MapLower(ws: seq<string>): (r: seq<string>)
    ensures |r| == |ws|
    ensures forall i :: 0 <= i < |ws| ==> r[i] == Lower(ws[i])
  {
    seq(|ws|, i requires 0 <= i < |ws| => Lower(ws[i]))
  }

  lemma {:induction false} StripLeftLower(s: string)
    ensures StripLeft(Lower(s)) == Lower(StripLeft(s))
  {
    if s != "" && IsSpace(s[0]) {
      assert Lower(s)[1..] == Lower(s[1..]);
      StripLeftLower(s[1..]);
    }
  }

  lemma {:induction false} WordLengthLower(s: string)
    ensures WordLength(Lower(s)) == WordLength(s)
  {
    if s != "" && !IsSpace(s[0]) {
      assert Lower(s)[1..] == Lower(s[1..]);
      WordLengthLower(s[1..]);
    }
  }

  lemma {:induction false} WordsLower(s: string)
    ensures Words(Lower(s)) == MapLower(Words(s))
    decreases |s|
  {
    StripLeftLength(s);
    StripLeftLower(s);
    var t := StripLeft(s);
    if t != "" {
      var n := WordLength(t);
      WordLengthLower(t);
      assert Lower(t)[..n] == Lower(t[..n]) && Lower(t)[n..] == Lower(t[n..]);
      WordsLower(t[n..]);
    }
  }

  lemma {:induction false} WordsStripLeft(s: string)
    ensures Words(StripLeft(s)) == Words(s)
  {
    StripLeftLength(s);
    assert StripLeft(StripLeft(s)) == StripLeft(s);
  }

  /** Trailing whitespace adds no word. */
  lemma {:induction false} WordsPushSpace(s: string, c: char)
    requires IsSpace(c)
    ensures Words(s + [c]) == Words(s)
    decreases |s|
  {
    StripLeftLength(s);
    StripLeftPushSpace(s, c);
    var t := StripLeft(s);
    if t == "" {
      assert Words(s) == [];
      assert StripLeft(s + [c]) == "";
    } else {
      assert StripLeft(s + [c]) == t + [c];
      var n := WordLength(t);
      assert t == t[..n] + t[n..];
      assert t + [c] == t[..n] + (t[n..] + [c]);
      WordLengthOfWord(t[..n], t[n..] + [c]);
      WordsPushSpace(t[n..], c);
      assert (t + [c])[..n] == t[..n] && (t + [c])[n..] == t[n..] + [c];
    }
  }

  lemma {:induction false} StripLeftPushSpace(s: string, c: char)
    requires IsSpace(c)
    ensures StripLeft(s + [c]) == if StripLeft(s) == "" then "" else StripLeft(s) + [c]
  {
    if s == "" {
      assert (s + [c])[1..] == "";
    } else if IsSpace(s[0]) {
      assert (s + [c])[1..] == s[1..] + [c];
      StripLeftPushSpace(s[1..], c);
    }
  }

  lemma {:induction false} WordsStripRight(s: string)
    ensures Words(StripRight(s)) == Words(s)
  {
    if s != "" && IsSpace(s[|s| - 1]) {
      var front := s[..|s| - 1];
      assert s == front + [s[|s| - 1]];
      WordsPushSpace(front, s[|s| - 1]);
      WordsStripRight(front);
    }
  }

  /** Neither trimming nor the whitespace between words changes the words of a text. */
  lemma WordsStrip(s: string)
    ensures Words(Strip(s)) == Words(s)
  {
    WordsStripLeft(s);
    WordsStripRight(StripLeft(s));
  }

  lemma LowerIdempotent(s: string)
    ensures Lower(Lower(s)) == Lower(s)
  {
  }

  lemma {:induction false} StripRightOfWord(w: string)
    requires IsWord(w)
    ensures Strip(w) == w
  {
  }

  predicate Trimmed(s: string) {
    s == "" || (!IsSpace(s[0]) && !IsSpace(s[|s| - 1]))
  }

  lemma {:induction false} StripRightFacts(s: string)
    ensures StripRight(s) <= s
    ensures StripRight(s) != "" ==> !IsSpace(StripRight(s)[|StripRight(s)| - 1])
    ensures s != "" && !IsSpace(s[0]) ==> StripRight(s) != ""
    ensures StripRight(s) == s <==> s == "" || !IsSpace(s[|s| - 1])
  {
    if s != "" && IsSpace(s[|s| - 1]) {
      StripRightFacts(s[..|s| - 1]);
    }
  }

  lemma StripFacts(s: string)
    ensures Trimmed(Strip(s)) && |Strip(s)| <= |s|
    ensures Trimmed(s) ==> Strip(s) == s
    ensures s != "" && !IsSpace(s[0]) ==> Strip(s) == StripRight(s) && Strip(s) != ""
  {
    StripLeftLength(s);
    StripRightFacts(StripLeft(s));
    StripRightFacts(s);
  }

  /** Trimming cuts whitespace off both ends and nothing else. */
  lemma StripCutsSpace(s: string)
    ensures exists i: nat, j: nat :: CutsSpace(s, i, j) && s[i..j] == Strip(s)
  {
    var i := StripLeftCuts(s);
    var t := s[i..];
    var j := StripRightCuts(t);
    assert s[i..i + j] == t[..j];
    assert forall k :: i + j <= k < |s| ==> s[k] == t[k - i];
    assert CutsSpace(s, i, i + j);
  }

  /** Whitespace up to i and from j on. */
  predicate CutsSpace(s: string, i: nat, j: nat) {
    i <= j <= |s| && (forall k :: 0 <= k < i ==> IsSpace(s[k])) && (forall k :: j <= k < |s| ==> IsSpace(s[k]))
  }

  lemma {:induction false} StripLeftCuts(s: string) returns (i: nat)
    ensures i <= |s| && StripLeft(s) == s[i..] && forall k :: 0 <= k < i ==> IsSpace(s[k])
  {
    i := 0;
    if s != "" && IsSpace(s[0]) {
      var n := StripLeftCuts(s[1..]);
      i := n + 1;
      assert s[i..] == s[1..][n..];
      assert forall k :: 1 <= k < i ==> s[k] == s[1..][k - 1];
    }
  }

  lemma {:induction false} StripRightCuts(s: string) returns (j: nat)
    ensures j <= |s| && StripRight(s) == s[..j] && forall k :: j <= k < |s| ==> IsSpace(s[k])
  {
    j := |s|;
    if s != "" && IsSpace(s[|s| - 1]) {
      j := StripRightCuts(s[..|s| - 1]);
    }
  }

  /** Two characters that are one up to case. */
  predicate SameLetter(c: char, d: char) {
    c == d || ('A' <= c <= 'Z' && d as int == c as int + 32) || ('A' <= d <= 'Z' && c as int == d as int + 32)
  }

  predicate SameLetters(s: string, t: string) {
    |s| == |t| && forall i :: 0 <= i < |s| ==> SameLetter(s[i], t[i])
  }

  lemma LowerForgetsCase(s: string, t: string)
    ensures Lower(s) == Lower(t) <==> SameLetters(s, t)
  {
    if |s| == |t| {
      forall i | 0 <= i < |s| ensures Lower(s)[i] == Lower(t)[i] <==> SameLetter(s[i], t[i]) {
        LetterForgetsCase(s[i], t[i]);
      }
    }
  }

  lemma LetterForgetsCase(c: char, d: char)
    ensures LowerChar(c) == LowerChar(d) <==> SameLetter(c, d)
  {
  }

  lemma {:induction false} StripRightLower(s: string)
    ensures StripRight(Lower(s)) == Lower(StripRight(s))
  {
    if s != "" && IsSpace(s[|s| - 1]) {
      assert Lower(s)[..|s| - 1] == Lower(s[..|s| - 1]);
      StripRightLower(s[..|s| - 1]);
    }
  }

  lemma StripOfLower(s: string)
    ensures Strip(Lower(s)) == Lower(Strip(s))
  {
    StripLeftLower(s);
    StripRightLower(StripLeft(s));
  }
}
