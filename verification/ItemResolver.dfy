/** Resolution of a product name typed by a merchant against the stored item names. */
module ItemResolver {
  import opened Common
  import opened Text

  datatype Source = InventoryItems | Products

  datatype Candidate = Candidate(name: string, source: Source)

  datatype Resolution = Matched(item: Candidate) | ClarificationNeeded(matches: seq<Candidate>) | NoMatch

  predicate EndsWith(s: string, suffix: string) {
    |suffix| <= |s| && s[|s| - |suffix|..] == suffix
  }

  function DropLast(s: string, n: nat): string
    requires n <= |s|
  {
    s[..|s| - n]
  }

  /** The suffix rules, on a trimmed lower-case word of more than three letters. */
  function Singular(w: string): string
    requires |w| > 3
  {
    if EndsWith(w, "ies") && |w| > 4 then DropLast(w, 3) + "y"
    else if EndsWith(w, "toes") || EndsWith(w, "does") then DropLast(w, 2)
    else if EndsWith(w, "ches") || EndsWith(w, "shes") || EndsWith(w, "xes") then DropLast(w, 2)
    else if EndsWith(w, "sses") then DropLast(w, 2)
    else if EndsWith(w, "s") && !EndsWith(w, "ss") then DropLast(w, 1)
    else w
  }

  /** The singular of a word. */
  function StemToken(word: string): string {
    var w := Lower(Strip(word));
    if |w| <= 3 then w else Singular(w)
  }

  function StemAll(ws: seq<string>): (r: seq<string>)
    ensures |r| == |ws|
    ensures forall i :: 0 <= i < |ws| ==> r[i] == StemToken(ws[i])
  {
    seq(|ws|, i requires 0 <= i < |ws| => StemToken(ws[i]))
  }

  function Stems(s: string): seq<string> {
    StemAll(Words(s))
  }

  function SetOf(ws: seq<string>): set<string> {
    set w | w in ws
  }

  function Normalised(s: string): string {
    Lower(Strip(s))
  }

  /** A contains B as a substring: Python's `in` between strings. */
  predicate Contains(a: string, b: string) {
    b <= a || (a != "" && Contains(a[1..], b))
  }

  predicate IsExact(c: Candidate, q: string) {
    Normalised(c.name) == q
  }

  predicate IsStemmed(c: Candidate, q: string) {
    Join(Stems(c.name)) == Join(Stems(q))
  }

  predicate IsContained(c: Candidate, q: string) {
    || SetOf(Stems(q)) <= SetOf(Stems(c.name))
    || Contains(Lower(c.name), q)
    || Contains(q, Lower(c.name))
  }

  datatype Tier = Exact | Stemmed | Contained

  predicate InTier(tier: Tier, c: Candidate, q: string) {
    match tier
    case Exact => IsExact(c, q)
    case Stemmed => IsStemmed(c, q)
    case Contained => IsContained(c, q)
  }

  function TierFilter(tier: Tier, q: string): Candidate -> bool {
    c => InTier(tier, c, q)
  }

  function TierMatches(tier: Tier, candidates: seq<Candidate>, q: string): seq<Candidate> {
    Where(TierFilter(tier, q), candidates)
  }

  function ResolveItem(candidates: seq<Candidate>, productName: string): Resolution {
    var q := Normalised(productName);
    if q == "" then NoMatch
    else
      var exact := TierMatches(Exact, candidates, q);
      if |exact| == 1 then Matched(exact[0])
      else
        var stemmed := TierMatches(Stemmed, candidates, q);
        if |stemmed| == 1 then Matched(stemmed[0])
        else if |stemmed| > 1 then ClarificationNeeded(stemmed)
        else
          var contained := TierMatches(Contained, candidates, q);
          if |contained| == 1 then Matched(contained[0])
          else if |contained| > 1 then ClarificationNeeded(contained)
          else NoMatch
  }

  /** The candidate list: every inventory item, then the products whose trimmed lower-case
      name no earlier candidate has. */
  function Gathered(itemNames: seq<string>, productNames: seq<string>): seq<Candidate> {
    if productNames == [] then FromItems(itemNames)
    else
      var before := Gathered(itemNames, productNames[..|productNames| - 1]);
      var name := productNames[|productNames| - 1];
      if exists c | c in before :: Normalised(c.name) == Normalised(name) then before
      else before + [Candidate(name, Products)]
  }

  function FromItems(itemNames: seq<string>): (r: seq<Candidate>)
    ensures |r| == |itemNames|
    ensures forall i :: 0 <= i < |r| ==> r[i] == Candidate(itemNames[i], InventoryItems)
  {
    seq(|itemNames|, i requires 0 <= i < |itemNames| => Candidate(itemNames[i], InventoryItems))
  }

  /** The two query loops of the resolver, with the set of names already seen. */
  method GatherCandidates(itemNames: seq<string>, productNames: seq<string>) returns (candidates: seq<Candidate>)
    ensures candidates == Gathered(itemNames, productNames)
  {
    candidates := [];
    var seen := {};
    for i := 0 to |itemNames|
      invariant candidates == FromItems(itemNames[..i])
      invariant forall n :: n in seen <==> exists c :: c in candidates && Normalised(c.name) == n
    {
      assert itemNames[..i + 1] == itemNames[..i] + [itemNames[i]];
      candidates := candidates + [Candidate(itemNames[i], InventoryItems)];
      seen := seen + {Normalised(itemNames[i])};
    }
    assert itemNames[..|itemNames|] == itemNames;
    for i := 0 to |productNames|
      invariant candidates == Gathered(itemNames, productNames[..i])
      invariant forall n :: n in seen <==> exists c :: c in candidates && Normalised(c.name) == n
    {
      assert productNames[..i + 1][..i] == productNames[..i];
      var name := productNames[i];
      if Normalised(name) !in seen {
        candidates := candidates + [Candidate(name, Products)];
        seen := seen + {Normalised(name)};
      }
    }
    assert productNames[..|productNames|] == productNames;
  }
}
