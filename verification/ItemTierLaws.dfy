/** What the tiers of the item resolver mean for the words a merchant types: which names match with
    plurals folded, and which by their words or parts. */
module ItemTierLaws {
  import opened Text
  import opened ItemResolver
  import opened ItemResolverLaws

  /* ---------- plurals ---------- */

  /** A word in lower case. */
  predicate LowerCaseWord(w: string) {
    IsWord(w) && Lower(w) == w
  }

  lemma StemOfLowerCase(w: string)
    requires LowerCaseWord(w)
    ensures StemToken(w) == if |w| <= 3 then w else Singular(w)
  {
    NormalisedWord(w);
  }

  lemma JoinedWord(w: string, ending: string)
    requires LowerCaseWord(w) && LowerCaseWord(ending)
    ensures LowerCaseWord(w + ending)
  {
    var s := w + ending;
    forall i | 0 <= i < |s| ensures !IsSpace(s[i]) && LowerChar(s[i]) == s[i] {
      assert i < |w| ==> s[i] == w[i] && Lower(w)[i] == LowerChar(w[i]);
      assert i >= |w| ==> s[i] == ending[i - |w|] && Lower(ending)[i - |w|] == LowerChar(ending[i - |w|]);
    }
    assert Lower(s) == s;
  }

  /** Words whose plural in s is read as another plural. */
  predicate TakesOtherPlural(w: string) {
    || EndsWith(w, "s") || (|w| > 3 && EndsWith(w, "ie"))
    || EndsWith(w, "toe") || EndsWith(w, "doe") || EndsWith(w, "che") || EndsWith(w, "she") || EndsWith(w, "xe") || EndsWith(w, "sse")
  }

  lemma EndLetters(w: string)
    requires |w| >= 3
    ensures var a, b, c := w[|w| - 3], w[|w| - 2], w[|w| - 1];
            && (EndsWith(w, "s") <==> c == 's') && (EndsWith(w, "ie") <==> b == 'i' && c == 'e')
            && (EndsWith(w, "xe") <==> b == 'x' && c == 'e')
            && (EndsWith(w, "toe") <==> a == 't' && b == 'o' && c == 'e') && (EndsWith(w, "doe") <==> a == 'd' && b == 'o' && c == 'e')
            && (EndsWith(w, "che") <==> a == 'c' && b == 'h' && c == 'e') && (EndsWith(w, "she") <==> a == 's' && b == 'h' && c == 'e')
            && (EndsWith(w, "sse") <==> a == 's' && b == 's' && c == 'e')
  {
    assert w[|w| - 1..] == [w[|w| - 1]];
    assert w[|w| - 2..] == [w[|w| - 2], w[|w| - 1]];
    assert w[|w| - 3..] == [w[|w| - 3], w[|w| - 2], w[|w| - 1]];
  }

  lemma SingularOfS(w: string)
    requires |w| >= 3
    ensures Singular(w + "s") ==
            if |w| > 3 && EndsWith(w, "ie") then DropLast(w, 2) + "y"
            else if EndsWith(w, "toe") || EndsWith(w, "doe") || EndsWith(w, "che") || EndsWith(w, "she") || EndsWith(w, "xe")
                    || EndsWith(w, "sse") then DropLast(w, 1)
            else if EndsWith(w, "s") then w + "s" else w
  {
    var plural := w + "s";
    SuffixLetters(plural);
    EndLetters(w);
    assert DropLast(plural, 1) == w && DropLast(plural, 2) == DropLast(w, 1) && DropLast(plural, 3) == DropLast(w, 2);
  }

  /** The plural in s of a word of at least three letters is traced back to the word, exactly when
      no other plural is read into it. */
  lemma PluralInS(w: string)
    requires LowerCaseWord(w) && |w| >= 3
    ensures StemToken(w + "s") == w <==> !TakesOtherPlural(w)
  {
    JoinedWord(w, "s");
    StemOfLowerCase(w + "s");
    SingularOfS(w);
  }

  lemma TwoEndLetters(w: string)
    requires |w| >= 2
    ensures var b, c := w[|w| - 2], w[|w| - 1];
            && (EndsWith(w, "to") <==> b == 't' && c == 'o') && (EndsWith(w, "do") <==> b == 'd' && c == 'o')
            && (EndsWith(w, "ch") <==> b == 'c' && c == 'h') && (EndsWith(w, "sh") <==> b == 's' && c == 'h')
            && (EndsWith(w, "ss") <==> b == 's' && c == 's') && (EndsWith(w, "x") <==> c == 'x')
  {
    assert w[|w| - 1..] == [w[|w| - 1]];
    assert w[|w| - 2..] == [w[|w| - 2], w[|w| - 1]];
  }

  /** The plural in es, of words that take it. */
  lemma PluralInEs(w: string)
    requires LowerCaseWord(w) && |w| >= 2
    ensures StemToken(w + "es") == w <==>
              EndsWith(w, "to") || EndsWith(w, "do") || EndsWith(w, "ch") || EndsWith(w, "sh") || EndsWith(w, "ss") || EndsWith(w, "x")
  {
    JoinedWord(w, "es");
    StemOfLowerCase(w + "es");
    SuffixLetters(w + "es");
    TwoEndLetters(w);
    assert DropLast(w + "es", 2) == w;
    assert |DropLast(w + "es", 1)| == |w| + 1;
    assert w[|w| - 1] == 'i' ==> (DropLast(w + "es", 3) + "y")[|w| - 1] == 'y';
  }

  /** The plural in ies is traced back to a word in y. */
  lemma PluralInIes(w: string)
    requires LowerCaseWord(w) && |w| >= 2
    ensures StemToken(w + "ies") == w + "y"
  {
    JoinedWord(w, "ies");
    StemOfLowerCase(w + "ies");
    SuffixLetters(w + "ies");
    assert DropLast(w + "ies", 3) == w;
  }

  /* ---------- stemmed matches ---------- */

  /** A name matches with plurals folded exactly when, word for word, it has the stems of the typed
      text. */
  lemma StemmedWordForWord(c: Candidate, q: string)
    ensures IsStemmed(c, q) <==>
              && |Words(c.name)| == |Words(q)|
              && forall i :: 0 <= i < |Words(q)| ==> StemToken(Words(c.name)[i]) == StemToken(Words(q)[i])
  {
    StemsAreWords(c.name);
    StemsAreWords(q);
    WordsOfJoin(Stems(c.name));
    WordsOfJoin(Stems(q));
    assert IsStemmed(c, q) <==> Stems(c.name) == Stems(q);
  }

  /* ---------- contained matches ---------- */

  predicate IsAt(part: string, whole: string, i: nat) {
    i + |part| <= |whole| && whole[i..i + |part|] == part
  }

  /** One text is found inside another. */
  ghost predicate Inside(part: string, whole: string) {
    exists i :: IsAt(part, whole, i)
  }

  lemma IsAtLater(part: string, whole: string, i: nat)
    requires whole != ""
    ensures IsAt(part, whole, i + 1) <==> IsAt(part, whole[1..], i)
  {
    if i + 1 + |part| <= |whole| {
      assert whole[i + 1..i + 1 + |part|] == whole[1..][i..i + |part|];
    }
  }

  lemma {:induction false} ContainsIsInside(a: string, b: string)
    ensures Contains(a, b) <==> Inside(b, a)
  {
    assert b <= a <==> IsAt(b, a, 0);
    if a != "" {
      ContainsIsInside(a[1..], b);
      if i: nat :| IsAt(b, a, i) {
        if i > 0 {
          IsAtLater(b, a, i - 1);
        }
      }
      if i: nat :| IsAt(b, a[1..], i) {
        IsAtLater(b, a, i);
      }
    }
  }

  /** Each word of the typed text has its stem among those of the name. */
  predicate HasWords(name: string, q: string) {
    forall i :: 0 <= i < |Words(q)| ==> StemToken(Words(q)[i]) in Stems(name)
  }

  lemma StemsIncluded(name: string, q: string)
    ensures SetOf(Stems(q)) <= SetOf(Stems(name)) <==> HasWords(name, q)
  {
    var own, typed := Stems(name), Stems(q);
    if SetOf(typed) <= SetOf(own) {
      forall i | 0 <= i < |Words(q)| ensures StemToken(Words(q)[i]) in own {
        assert typed[i] in SetOf(typed);
      }
    }
    if HasWords(name, q) {
      forall w | w in SetOf(typed) ensures w in SetOf(own) {
        var i :| 0 <= i < |typed| && typed[i] == w;
        assert StemToken(Words(q)[i]) in own;
      }
    }
  }

  /** A name is a match of the widest tier exactly when it has every word of the typed text up to
      plurals, or the text is part of the name, or the name is part of the text. */
  lemma ContainedWordsOrParts(c: Candidate, q: string)
    ensures IsContained(c, q) <==> HasWords(c.name, q) || Inside(q, Lower(c.name)) || Inside(Lower(c.name), q)
  {
    ContainsIsInside(Lower(c.name), q);
    ContainsIsInside(q, Lower(c.name));
    StemsIncluded(c.name, q);
  }
}
