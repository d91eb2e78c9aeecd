/** What the item resolver promises: nested tiers, a result that is the narrowest tier's only
    member, independence of candidate order, and answers to a clarification that resolve. */
module ItemResolverLaws {
  import opened Common
  import opened Text
  import opened ItemResolver

  /* ---------- stemming ---------- */

  lemma StripLower(s: string)
    ensures Strip(Lower(Strip(s))) == Lower(Strip(s))
  {
    StripFacts(s);
    assert Trimmed(Lower(Strip(s)));
    StripFacts(Lower(Strip(s)));
  }

  /** A trimmed text that ends in a gap followed by a lone s. */
  predicate EndsInLoneS(word: string) {
    var w := Normalised(word);
    |w| > 3 && w[|w| - 1] == 's' && IsSpace(w[|w| - 2])
  }

  /** The suffix tests of the rules, letter by letter. */
  lemma SuffixLetters(w: string)
    requires |w| > 3
    ensures var a, b, c, d := w[|w| - 4], w[|w| - 3], w[|w| - 2], w[|w| - 1];
            && (EndsWith(w, "ies") <==> b == 'i' && c == 'e' && d == 's')
            && (EndsWith(w, "toes") <==> a == 't' && b == 'o' && c == 'e' && d == 's')
            && (EndsWith(w, "does") <==> a == 'd' && b == 'o' && c == 'e' && d == 's')
            && (EndsWith(w, "ches") <==> a == 'c' && b == 'h' && c == 'e' && d == 's')
            && (EndsWith(w, "shes") <==> a == 's' && b == 'h' && c == 'e' && d == 's')
            && (EndsWith(w, "xes") <==> b == 'x' && c == 'e' && d == 's')
            && (EndsWith(w, "sses") <==> a == 's' && b == 's' && c == 'e' && d == 's')
            && (EndsWith(w, "ss") <==> c == 's' && d == 's')
            && (EndsWith(w, "s") <==> d == 's')
  {
    assert w[|w| - 1..] == [w[|w| - 1]];
    assert w[|w| - 2..] == [w[|w| - 2], w[|w| - 1]];
    assert w[|w| - 3..] == [w[|w| - 3], w[|w| - 2], w[|w| - 1]];
    assert w[|w| - 4..] == [w[|w| - 4], w[|w| - 3], w[|w| - 2], w[|w| - 1]];
  }

  /** Each rule leaves a word whose last letter is not a single s. */
  lemma SingularShape(w: string)
    requires |w| > 3
    ensures var r := Singular(w);
            && 2 <= |r| <= |w| && r[0] == w[0]
            && (r == w || r == DropLast(w, 3) + "y" || r == DropLast(w, 2) || r == DropLast(w, 1))
            && (r[|r| - 1] == 's' ==> r[|r| - 2] == 's')
            && (IsSpace(r[|r| - 1]) ==> IsSpace(w[|w| - 1]) || (w[|w| - 1] == 's' && r == DropLast(w, 1)))
            && (w[|w| - 1] == 's' && IsSpace(w[|w| - 2]) ==> r == DropLast(w, 1))
  {
    SuffixLetters(w);
  }

  lemma SingularIsLower(w: string)
    requires |w| > 3 && Lower(w) == w
    ensures Lower(Singular(w)) == Singular(w)
  {
    SingularShape(w);
    var r := Singular(w);
    forall i | 0 <= i < |r| ensures LowerChar(r[i]) == r[i] {
      assert r[i] == w[i] || r[i] == 'y';
    }
  }

  /** Where the last letter of a singular can be whitespace. */
  lemma SingularEnd(w: string)
    requires |w| > 3 && !IsSpace(w[|w| - 1])
    ensures IsSpace(Singular(w)[|Singular(w)| - 1]) <==> w[|w| - 1] == 's' && IsSpace(w[|w| - 2])
  {
    SingularShape(w);
  }

  lemma StemTokenShape(word: string)
    ensures var w, r := Normalised(word), StemToken(word);
            && |r| <= |w| && Lower(r) == r
            && (r == "" <==> w == "")
            && (r != "" ==> !IsSpace(r[0]))
            && (r != "" && IsSpace(r[|r| - 1]) <==> EndsInLoneS(word))
            && (|r| > 3 && r[|r| - 1] == 's' ==> r[|r| - 2] == 's')
  {
    StripFacts(word);
    StripLower(word);
    var w := Normalised(word);
    LowerIdempotent(Strip(word));
    if |w| > 3 {
      SingularShape(w);
      SingularIsLower(w);
      SingularEnd(w);
    }
  }

  /** A word that does not end in a single s is its own singular. */
  lemma SingularFixed(w: string)
    requires |w| > 3 && (w[|w| - 1] == 's' ==> w[|w| - 2] == 's')
    ensures Singular(w) == w
  {
    SuffixLetters(w);
  }

  lemma StemFixed(r: string)
    requires Normalised(r) == r && (|r| > 3 && r[|r| - 1] == 's' ==> r[|r| - 2] == 's')
    ensures StemToken(r) == r
  {
    if |r| > 3 {
      SingularFixed(r);
    }
  }

  lemma StemShrinks(r: string)
    requires r != "" && !IsSpace(r[0]) && IsSpace(r[|r| - 1])
    ensures |StemToken(r)| < |r|
  {
    assert StripLeft(r) == r;
    StripRightFacts(r[..|r| - 1]);
    StemTokenShape(r);
  }

  /** A second pass changes nothing, except on texts that end in a gap and a lone s; tokens
      produced by splitting contain no gap. */
  lemma StemTokenIdempotent(word: string)
    ensures StemToken(StemToken(word)) == StemToken(word) <==> !EndsInLoneS(word)
  {
    var r := StemToken(word);
    StemTokenShape(word);
    if EndsInLoneS(word) {
      StemShrinks(r);
    } else {
      StripFacts(r);
      StemFixed(r);
    }
  }

  lemma NormalisedWord(w: string)
    requires IsWord(w)
    ensures IsWord(Lower(w)) && Normalised(w) == Lower(w) && Normalised(Lower(w)) == Lower(w)
  {
    StripRightOfWord(w);
    assert forall i :: 0 <= i < |w| ==> IsSpace(LowerChar(w[i])) == IsSpace(w[i]);
    StripRightOfWord(Lower(w));
    LowerIdempotent(w);
  }

  lemma StemOfWord(w: string)
    requires IsWord(w)
    ensures IsWord(StemToken(w)) && StemToken(Lower(w)) == StemToken(w)
  {
    NormalisedWord(w);
    if |w| > 3 {
      SingularShape(Lower(w));
    }
  }

  /** On the tokens that splitting produces, stemming is idempotent. */
  lemma StemTokenIdempotentOnWords(w: string)
    requires IsWord(w)
    ensures StemToken(StemToken(w)) == StemToken(w)
  {
    NormalisedWord(w);
    StemTokenIdempotent(w);
  }

  lemma StemsAreWords(s: string)
    ensures AllWords(Stems(s))
  {
    WordsAreWords(s);
    forall i | 0 <= i < |Stems(s)| ensures IsWord(Stems(s)[i]) {
      StemOfWord(Words(s)[i]);
    }
  }

  /** Trimming and case do not change the stems of a name. */
  lemma StemsOfNormalised(s: string)
    ensures Stems(Normalised(s)) == Stems(s)
  {
    WordsStrip(s);
    WordsLower(Strip(s));
    WordsAreWords(s);
    forall i | 0 <= i < |Words(s)| ensures StemToken(Words(Normalised(s))[i]) == StemToken(Words(s)[i]) {
      StemOfWord(Words(s)[i]);
    }
  }

  /* ---------- tiers ---------- */

  /** The three tiers are nested: an exact match is a stemmed match, and a stemmed match is a
      contained match. */
  lemma TiersNested(c: Candidate, productName: string)
    ensures var q := Normalised(productName);
            && (IsExact(c, q) ==> IsStemmed(c, q))
            && (IsStemmed(c, q) ==> IsContained(c, q))
  {
    var q := Normalised(productName);
    StemsOfNormalised(c.name);
    if IsStemmed(c, q) {
      StemsAreWords(c.name);
      StemsAreWords(q);
      WordsOfJoin(Stems(c.name));
      WordsOfJoin(Stems(q));
      assert Stems(c.name) == Stems(q);
    }
  }

  lemma TierMembers(tier: Tier, candidates: seq<Candidate>, q: string)
    ensures forall c :: c in TierMatches(tier, candidates, q) <==> c in candidates && InTier(tier, c, q)
  {
    WhereMembers(TierFilter(tier, q), candidates);
  }

  lemma {:induction false} WhereLonger<T(!new)>(p: T -> bool, p': T -> bool, s: seq<T>)
    requires forall x :: x in s && p(x) ==> p'(x)
    ensures |Where(p, s)| <= |Where(p', s)|
  {
    if s != [] {
      var front := s[..|s| - 1];
      assert forall x :: x in front ==> x in s;
      assert s[|s| - 1] in s;
      WhereLonger(p, p', front);
    }
  }

  lemma TierCounts(candidates: seq<Candidate>, productName: string)
    ensures var q := Normalised(productName);
            |TierMatches(Exact, candidates, q)| <= |TierMatches(Stemmed, candidates, q)|
            <= |TierMatches(Contained, candidates, q)|
  {
    var q := Normalised(productName);
    forall c ensures (IsExact(c, q) ==> IsStemmed(c, q)) && (IsStemmed(c, q) ==> IsContained(c, q)) {
      TiersNested(c, productName);
    }
    WhereLonger(TierFilter(Exact, q), TierFilter(Stemmed, q), candidates);
    WhereLonger(TierFilter(Stemmed, q), TierFilter(Contained, q), candidates);
  }

  /** The narrowest tier with any match, if some tier has one. */
  function NarrowestTier(candidates: seq<Candidate>, q: string): Option<Tier> {
    if TierMatches(Exact, candidates, q) != [] then Some(Exact)
    else if TierMatches(Stemmed, candidates, q) != [] then Some(Stemmed)
    else if TierMatches(Contained, candidates, q) != [] then Some(Contained)
    else None
  }

  /** The result is the only member of the narrowest non-empty tier, a question about its members
      when it has several (about the stemmed matches when several are exact), and nothing when
      every tier is empty. */
  lemma ResultIsNarrowestTier(candidates: seq<Candidate>, productName: string)
    requires Normalised(productName) != ""
    ensures var q := Normalised(productName);
            match NarrowestTier(candidates, q)
            case None => ResolveItem(candidates, productName) == NoMatch
            case Some(tier) =>
              var found := TierMatches(tier, candidates, q);
              if |found| == 1 then ResolveItem(candidates, productName) == Matched(found[0])
              else
                ResolveItem(candidates, productName)
                == ClarificationNeeded(if tier == Exact then TierMatches(Stemmed, candidates, q) else found)
  {
    var q := Normalised(productName);
    TierCounts(candidates, productName);
    TierMembers(Exact, candidates, q);
    TierMembers(Stemmed, candidates, q);
    forall c ensures IsExact(c, q) ==> IsStemmed(c, q) {
      TiersNested(c, productName);
    }
  }

  /** Every name offered in a question is a stored candidate, and there are at least two. */
  lemma QuestionsOfferCandidates(candidates: seq<Candidate>, productName: string)
    requires ResolveItem(candidates, productName).ClarificationNeeded?
    ensures var matches := ResolveItem(candidates, productName).matches;
            |matches| >= 2 && forall c :: c in matches ==> c in candidates
  {
    TierMembers(Stemmed, candidates, Normalised(productName));
    TierMembers(Contained, candidates, Normalised(productName));
  }

  lemma ResultIsCandidate(candidates: seq<Candidate>, productName: string)
    requires ResolveItem(candidates, productName).Matched?
    ensures ResolveItem(candidates, productName).item in candidates
  {
    TierMembers(Exact, candidates, Normalised(productName));
    TierMembers(Stemmed, candidates, Normalised(productName));
    TierMembers(Contained, candidates, Normalised(productName));
  }

  /* ---------- order independence ---------- */

  predicate SameUpToOrder(r: Resolution, r': Resolution) {
    match (r, r')
    case (Matched(c), Matched(c')) => c == c'
    case (ClarificationNeeded(m), ClarificationNeeded(m')) => multiset(m) == multiset(m')
    case (NoMatch, NoMatch) => true
    case _ => false
  }

  lemma TierPermutation(tier: Tier, cs: seq<Candidate>, cs': seq<Candidate>, q: string)
    requires multiset(cs) == multiset(cs')
    ensures var m, m' := TierMatches(tier, cs, q), TierMatches(tier, cs', q);
            multiset(m) == multiset(m') && |m| == |m'| && (|m| == 1 ==> m == m')
  {
    var m, m' := TierMatches(tier, cs, q), TierMatches(tier, cs', q);
    WherePermutation(TierFilter(tier, q), cs, cs');
    assert |multiset(m)| == |m| && |multiset(m')| == |m'|;
    if |m| == 1 {
      assert m == [m[0]] && m' == [m'[0]];
      assert m[0] in multiset(m');
    }
  }

  /** The order in which the database returns the candidates does not matter. */
  lemma OrderIndependent(cs: seq<Candidate>, cs': seq<Candidate>, productName: string)
    requires multiset(cs) == multiset(cs')
    ensures SameUpToOrder(ResolveItem(cs, productName), ResolveItem(cs', productName))
  {
    var q := Normalised(productName);
    TierPermutation(Exact, cs, cs', q);
    TierPermutation(Stemmed, cs, cs', q);
    TierPermutation(Contained, cs, cs', q);
  }

  /* ---------- answering a question ---------- */

  function CountNamed(candidates: seq<Candidate>, q: string): nat {
    |TierMatches(Exact, candidates, q)|
  }

  /** Typing back a stored name picks that item exactly when no other stored name equals it up
      to case and surrounding whitespace. */
  lemma TypedBackNameResolves(candidates: seq<Candidate>, c: Candidate)
    requires c in candidates && Normalised(c.name) != ""
    ensures ResolveItem(candidates, c.name) == Matched(c)
            <==> CountNamed(candidates, Normalised(c.name)) == 1
  {
    var q := Normalised(c.name);
    var exact := TierMatches(Exact, candidates, q);
    TierMembers(Exact, candidates, q);
    assert c in exact;
    if |exact| == 1 {
      assert exact == [exact[0]];
    } else {
      TierCounts(candidates, c.name);
    }
  }

  /** In particular every answer copied from a question resolves when the names are distinct. */
  lemma AnswersResolve(candidates: seq<Candidate>, productName: string, answer: Candidate)
    requires ResolveItem(candidates, productName).ClarificationNeeded?
    requires answer in ResolveItem(candidates, productName).matches
    requires Normalised(answer.name) != ""
    requires forall i, j :: 0 <= i < j < |candidates| ==> Normalised(candidates[i].name) != Normalised(candidates[j].name)
    ensures ResolveItem(candidates, answer.name) == Matched(answer)
  {
    var q := Normalised(answer.name);
    QuestionsOfferCandidates(candidates, productName);
    DistinctNamesCount(candidates, q);
    TierMembers(Exact, candidates, q);
    assert answer in TierMatches(Exact, candidates, q);
    TypedBackNameResolves(candidates, answer);
  }

  lemma {:induction false} DistinctNamesCount(candidates: seq<Candidate>, q: string)
    requires forall i, j :: 0 <= i < j < |candidates| ==> Normalised(candidates[i].name) != Normalised(candidates[j].name)
    ensures CountNamed(candidates, q) <= 1
  {
    if candidates != [] {
      var front, last := candidates[..|candidates| - 1], candidates[|candidates| - 1];
      DistinctNamesCount(front, q);
      if IsExact(last, q) {
        TierMembers(Exact, front, q);
        assert forall c :: c in front ==> !IsExact(c, q);
        var found := TierMatches(Exact, front, q);
        assert |found| == 0 || found[0] in found;
      }
    }
  }

  /** Candidate gathering lists every item and adds products with new names only: a name that no
      item has is listed once at most, and one that items have as often as they have it. */
  lemma {:induction false} GatheredCount(itemNames: seq<string>, productNames: seq<string>, q: string)
    ensures var n := CountNamed(FromItems(itemNames), q);
            CountNamed(Gathered(itemNames, productNames), q) == n || (n == 0 && CountNamed(Gathered(itemNames, productNames), q) == 1)
  {
    if productNames != [] {
      var front, name := productNames[..|productNames| - 1], productNames[|productNames| - 1];
      var before := Gathered(itemNames, front);
      GatheredCount(itemNames, front, q);
      if Gathered(itemNames, productNames) != before {
        WherePush(TierFilter(Exact, q), before, Candidate(name, Products));
        if Normalised(name) == q {
          TierMembers(Exact, before, q);
          assert |TierMatches(Exact, before, q)| > 0 ==> TierMatches(Exact, before, q)[0] in before;
        }
      }
    }
  }

  /** The candidates are stored names, and every stored name is among them, an item's as it is and a
      product's up to case and surrounding whitespace. */
  lemma {:induction false} GatheredAreStored(itemNames: seq<string>, productNames: seq<string>)
    ensures var g := Gathered(itemNames, productNames);
            && (forall c :: c in g ==> if c.source == InventoryItems then c.name in itemNames else c.name in productNames)
            && (forall n :: n in itemNames ==> Candidate(n, InventoryItems) in g)
            && (forall n :: n in productNames ==> exists c :: c in g && Normalised(c.name) == Normalised(n))
  {
    if productNames == [] {
      var g := FromItems(itemNames);
      forall n | n in itemNames ensures Candidate(n, InventoryItems) in g {
        var i :| 0 <= i < |itemNames| && itemNames[i] == n;
        assert g[i] == Candidate(n, InventoryItems);
      }
    } else {
      var front, name := productNames[..|productNames| - 1], productNames[|productNames| - 1];
      assert productNames == front + [name];
      GatheredAreStored(itemNames, front);
      assert Gathered(itemNames, productNames) != Gathered(itemNames, front) ==> Candidate(name, Products) in Gathered(itemNames, productNames);
    }
  }

  /** Typing back the stored name of any candidate picks it exactly when the inventory does not
      have two items of that name; the product list never makes a name ambiguous. */
  lemma StoredNamesResolve(itemNames: seq<string>, productNames: seq<string>, c: Candidate)
    requires c in Gathered(itemNames, productNames) && Normalised(c.name) != ""
    ensures ResolveItem(Gathered(itemNames, productNames), c.name) == Matched(c)
            <==> CountNamed(FromItems(itemNames), Normalised(c.name)) <= 1
  {
    var candidates := Gathered(itemNames, productNames);
    TypedBackNameResolves(candidates, c);
    GatheredCount(itemNames, productNames, Normalised(c.name));
    TierMembers(Exact, candidates, Normalised(c.name));
    assert c in TierMatches(Exact, candidates, Normalised(c.name));
  }

  /** So every answer copied from a question about a stored name settles it, exactly when the
      inventory does not have two items of the chosen name. */
  lemma GatheredAnswersResolve(itemNames: seq<string>, productNames: seq<string>, productName: string, answer: Candidate)
    requires ResolveItem(Gathered(itemNames, productNames), productName).ClarificationNeeded?
    requires answer in ResolveItem(Gathered(itemNames, productNames), productName).matches && Normalised(answer.name) != ""
    ensures ResolveItem(Gathered(itemNames, productNames), answer.name) == Matched(answer)
            <==> CountNamed(FromItems(itemNames), Normalised(answer.name)) <= 1
  {
    QuestionsOfferCandidates(Gathered(itemNames, productNames), productName);
    StoredNamesResolve(itemNames, productNames, answer);
  }
}
