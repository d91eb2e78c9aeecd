/** The per-row event keys the ledger writes into its UNIQUE event_id columns, and the
    prefix probe that the intake agent runs over them after a lost reply. */
module EventKeys {

  predicate IsEventIdChar(c: char) {
    '0' <= c <= '9' || 'a' <= c <= 'f' || c == '-'
  }

  /** The text of a UUID: 36 characters, hexadecimal digits and hyphens. */
  type EventId = s: string | |s| == 36 && forall i :: 0 <= i < |s| ==> IsEventIdChar(s[i])
    witness "00000000-0000-0000-0000-000000000000"

  /** What an f-string makes of a list index. */
  function Decimal(n: nat): (s: string)
    ensures |s| > 0
  {
    var digit := ['0' + (n % 10) as char];
    if n < 10 then digit else Decimal(n / 10) + digit
  }

  datatype Kind = Tx | Inv | Debt

  function Suffix(kind: Kind): string {
    match kind
    case Tx => ":tx"
    case Inv => ":inv"
    case Debt => ":debt"
  }

  /** A row key of the compound path: event id, kind and list position. */
  function ItemKey(e: EventId, kind: Kind, i: nat): string {
    e + Suffix(kind) + Decimal(i)
  }

  lemma {:induction false} DecimalInjective(m: nat, n: nat)
    requires Decimal(m) == Decimal(n)
    ensures m == n
  {
    var dm, dn := Decimal(m), Decimal(n);
    assert dm[|dm| - 1] == '0' + (m % 10) as char;
    assert dn[|dn| - 1] == '0' + (n % 10) as char;
    if m < 10 || n < 10 {
      assert |dm| == 1 || |dn| == 1;
    } else {
      assert Decimal(m / 10) == dm[..|dm| - 1] == dn[..|dn| - 1] == Decimal(n / 10);
      DecimalInjective(m / 10, n / 10);
    }
  }

  /** Different events, kinds or positions never share a key. */
  lemma ItemKeyInjective(e: EventId, k: Kind, i: nat, e': EventId, k': Kind, i': nat)
    requires ItemKey(e, k, i) == ItemKey(e', k', i')
    ensures e == e' && k == k' && i == i'
  {
    var key, key' := ItemKey(e, k, i), ItemKey(e', k', i');
    assert key[..36] == e && key'[..36] == e';
    assert key[37] == Suffix(k)[1] && key'[37] == Suffix(k')[1];
    assert k == k';
    var n := 36 + |Suffix(k)|;
    assert key[n..] == Decimal(i) && key'[n..] == Decimal(i');
    DecimalInjective(i, i');
  }

  /** An item key is never a bare event id, which is the key of a shorthand entry. */
  lemma ItemKeyIsNotAnEventId(e: EventId, k: Kind, i: nat, e': EventId)
    ensures ItemKey(e, k, i) != e'
  {
  }

  /** SQL LIKE: a percent sign stands for any text, an underscore for any one character. */
  predicate Like(text: string, pattern: string)
    decreases |pattern|, |text|
  {
    if pattern == "" then text == ""
    else if pattern[0] == '%' then
      Like(text, pattern[1..]) || (text != "" && Like(text[1..], pattern))
    else
      text != "" && (pattern[0] == '_' || pattern[0] == text[0]) && Like(text[1..], pattern[1..])
  }

  lemma {:induction false} LikeAnything(text: string)
    ensures Like(text, "%")
  {
    if text != "" {
      LikeAnything(text[1..]);
    }
  }

  predicate Literal(s: string) {
    forall i :: 0 <= i < |s| ==> s[i] != '%' && s[i] != '_'
  }

  /** A wildcard-free text followed by a percent sign matches exactly the texts it begins. */
  lemma {:induction false} LikePrefix(text: string, prefix: string)
    requires Literal(prefix)
    ensures Like(text, prefix + "%") <==> prefix <= text
  {
    var pattern := prefix + "%";
    if prefix == "" {
      assert pattern == "%";
      LikeAnything(text);
    } else {
      assert pattern[0] == prefix[0] && pattern[1..] == prefix[1..] + "%";
      if text != "" && text[0] == prefix[0] {
        LikePrefix(text[1..], prefix[1..]);
        assert prefix == [prefix[0]] + prefix[1..] && text == [text[0]] + text[1..];
      }
    }
  }

  /** A key the ledger can write: a bare event id or an item key. */
  predicate IsRowKey(key: string) {
    |key| >= 36 && forall i :: 0 <= i < 36 ==> IsEventIdChar(key[i])
  }

  function Owner(key: string): EventId
    requires IsRowKey(key)
  {
    key[..36]
  }

  /** The probe pattern for one event matches exactly the rows that event owns: event ids
      contain no wildcard and all have the same length. */
  lemma ProbeMatchesOwner(key: string, e: EventId)
    requires IsRowKey(key)
    ensures Like(key, e + "%") <==> Owner(key) == e
  {
    LikePrefix(key, e);
  }

  lemma ItemKeyOwner(e: EventId, k: Kind, i: nat)
    ensures IsRowKey(ItemKey(e, k, i)) && Owner(ItemKey(e, k, i)) == e
  {
    var key := ItemKey(e, k, i);
    assert key[..36] == e;
    assert forall j :: 0 <= j < 36 ==> key[j] == e[j];
  }

  predicate LikeFrom(text: string, n: nat, pattern: string) {
    n <= |text| && Like(text[n..], pattern)
  }

  /** What LIKE means for a pattern that starts with a given sign: an underscore stands for one
      character, a percent sign for some text, anything else for itself. */
  lemma LikeBySign(text: string, pattern: string)
    ensures Like(text, "_" + pattern) <==> text != "" && Like(text[1..], pattern)
    ensures Like(text, "%" + pattern) <==> exists n :: LikeFrom(text, n, pattern)
    ensures forall c: char :: c != '_' && c != '%' ==> (Like(text, [c] + pattern) <==> text != "" && text[0] == c && Like(text[1..], pattern))
  {
    assert ("_" + pattern)[1..] == pattern && ("%" + pattern)[1..] == pattern;
    assert forall c: char :: ([c] + pattern)[1..] == pattern && ([c] + pattern)[0] == c;
    PercentSkips(text, pattern);
  }

  lemma {:induction false} PercentSkips(text: string, pattern: string)
    ensures Like(text, "%" + pattern) <==> exists n :: LikeFrom(text, n, pattern)
  {
    assert ("%" + pattern)[1..] == pattern;
    assert text[0..] == text;
    assert Like(text, pattern) <==> LikeFrom(text, 0, pattern);
    if text != "" {
      PercentSkips(text[1..], pattern);
      if n: nat :| LikeFrom(text[1..], n, pattern) {
        assert text[1..][n..] == text[n + 1..];
        assert LikeFrom(text, n + 1, pattern);
      }
      if n: nat :| n > 0 && LikeFrom(text, n, pattern) {
        assert text[1..][n - 1..] == text[n..];
        assert LikeFrom(text[1..], n - 1, pattern);
      }
    }
  }
}
