/** Binary identifiers: integer ids turned into 16 bytes by SQL and by Python, the foreign keys
    over them, and new time-ordered identifiers (section 5.7 of RFC 9562). */
module IdMigration {
  import opened Common
  import EventKeys

  type Byte = b: nat | b < 256

  type Bytes = seq<Byte>

  function Power(base: nat, n: nat): nat {
    if n == 0 then 1 else base * Power(base, n - 1)
  }

  /** int.to_bytes(n, 'big'). */
  function BigEndian(v: nat, n: nat): (bytes: Bytes)
    ensures |bytes| == n
  {
    if n == 0 then [] else BigEndian(v / 256, n - 1) + [v % 256]
  }

  /* ---------- UNHEX(LPAD(HEX(v), 32, '0')) ---------- */

  type Digit = d: nat | d < 16

  /** The two digits of the last byte. */
  function High(v: nat): Digit {
    v / 16 % 16
  }

  function Low(v: nat): Digit {
    v % 16
  }

  /** HEX of an integer: no leading zeros, and one digit for zero. */
  function Hex(v: nat): (digits: seq<Digit>)
    ensures |digits| > 0
  {
    if v < 16 then [v] else Hex(v / 16) + [v % 16]
  }

  /** LPAD with zeros: a text that is too long is cut at the end. */
  function LPad(digits: seq<Digit>, n: nat): (padded: seq<Digit>)
    ensures |padded| == n
  {
    if |digits| >= n then digits[..n] else seq(n - |digits|, _ => 0) + digits
  }

  /** UNHEX of n pairs of digits. */
  function Unhex(digits: seq<Digit>, n: nat): (bytes: Bytes)
    requires |digits| == 2 * n
    ensures |bytes| == n
  {
    if n == 0 then []
    else
      var high: nat, low: nat := digits[2 * n - 2], digits[2 * n - 1];
      Unhex(digits[..2 * n - 2], n - 1) + [16 * high + low]
  }

  lemma PowerStep(v: nat, n: nat)
    requires n > 0 && v < Power(256, n)
    ensures v / 256 < Power(256, n - 1)
  {
  }

  function Migrated(v: nat): Bytes {
    Unhex(LPad(Hex(v), 32), 16)
  }

  /** The last two digits are the last byte. */
  lemma HexSplits(v: nat)
    requires v >= 256
    ensures Hex(v) == Hex(v / 256) + [High(v), Low(v)]
  {
    assert v / 16 / 16 == v / 256;
    assert Hex(v) == Hex(v / 16) + [v % 16] && Hex(v / 16) == Hex(v / 256) + [v / 16 % 16];
  }

  lemma ByteOfDigits(v: nat)
    ensures 16 * (High(v) as nat) + Low(v) == v % 256
  {
  }

  lemma PadSplits(front: seq<Digit>, a: Digit, b: Digit, n: nat)
    requires |front| <= n
    ensures LPad(front + [a, b], n + 2) == LPad(front, n) + [a, b]
  {
  }

  /** Splitting the last byte off the padded hexadecimal text. */
  lemma PaddedHexSplits(v: nat, n: nat)
    requires n > 0 && v < Power(256, n)
    ensures LPad(Hex(v), 2 * n) == LPad(Hex(v / 256), 2 * n - 2) + [High(v), Low(v)]
  {
    if v >= 256 {
      HexFits(v, n);
      HexSplits(v);
      PadSplits(Hex(v / 256), High(v), Low(v), 2 * n - 2);
    } else {
      SmallHex(v);
      assert Hex(v / 256) == [0];
    }
  }

  lemma SmallHex(v: nat)
    requires v < 256
    ensures Hex(v) == if v < 16 then [v] else [v / 16, v % 16]
    ensures v / 16 % 16 == v / 16
  {
  }

  /** The digits fit, so that nothing is cut off. */
  lemma {:induction false} HexFits(v: nat, n: nat)
    requires n > 0 && v < Power(256, n)
    ensures |Hex(v)| <= 2 * n
  {
    if n == 1 {
      assert v < 256 * Power(256, 0);
      assert v / 16 < 16;
    } else if v >= 256 {
      PowerStep(v, n);
      HexFits(v / 256, n - 1);
      HexSplits(v);
    }
  }

  lemma UnhexPush(digits: seq<Digit>, n: nat, high: Digit, low: Digit)
    requires |digits| == 2 * n
    ensures Unhex(digits + [high, low], n + 1) == Unhex(digits, n) + [16 * (high as nat) + low]
  {
    assert (digits + [high, low])[..2 * n] == digits;
  }

  lemma LastByte(v: nat, n: nat)
    requires n > 0 && v < Power(256, n)
    ensures Unhex(LPad(Hex(v), 2 * n), n) == Unhex(LPad(Hex(v / 256), 2 * (n - 1)), n - 1) + [v % 256]
  {
    PaddedHexSplits(v, n);
    UnhexPush(LPad(Hex(v / 256), 2 * (n - 1)), n - 1, High(v), Low(v));
    ByteOfDigits(v);
  }

  lemma {:induction false} UnhexIsBigEndian(v: nat, n: nat)
    requires v < Power(256, n)
    ensures Unhex(LPad(Hex(v), 2 * n), n) == BigEndian(v, n)
  {
    if n > 0 {
      PowerStep(v, n);
      UnhexIsBigEndian(v / 256, n - 1);
      LastByte(v, n);
    }
  }

  /* ---------- uuid_to_bin of the decimal text ---------- */

  function DigitValue(c: char): nat {
    if '0' <= c <= '9' then (c - '0') as nat else 0
  }

  function ParseDecimal(s: string): nat {
    if s == "" then 0 else 10 * ParseDecimal(s[..|s| - 1]) + DigitValue(s[|s| - 1])
  }

  lemma {:induction false} ParseOfDecimal(v: nat)
    ensures ParseDecimal(EventKeys.Decimal(v)) == v
  {
    var s := EventKeys.Decimal(v);
    assert s[|s| - 1] == '0' + (v % 10) as char;
    assert DigitValue('0' + (v % 10) as char) == v % 10;
    if v < 10 {
      assert s[..|s| - 1] == "";
    } else {
      assert s[..|s| - 1] == EventKeys.Decimal(v / 10);
      ParseOfDecimal(v / 10);
    }
  }

  /** uuid_to_bin of a text of decimal digits; an empty text and a number over 128 bits have no
      identifier. */
  function UuidToBin(s: string): Option<Bytes> {
    if s == "" || ParseDecimal(s) >= Power(256, 16) then None else Some(BigEndian(ParseDecimal(s), 16))
  }

  /** The migrated column holds exactly what the application computes from the old id. */
  lemma MigrationMatchesApplication(v: nat)
    requires v < Power(256, 16)
    ensures UuidToBin(EventKeys.Decimal(v)) == Some(Migrated(v))
  {
    ParseOfDecimal(v);
    UnhexIsBigEndian(v, 16);
  }

  /* ---------- foreign keys ---------- */

  lemma {:induction false} BigEndianInjective(v: nat, w: nat, n: nat)
    requires v < Power(256, n) && w < Power(256, n)
    ensures BigEndian(v, n) == BigEndian(w, n) <==> v == w
  {
    if n > 0 {
      PowerStep(v, n);
      PowerStep(w, n);
      BigEndianInjective(v / 256, w / 256, n - 1);
      var bv, bw := BigEndian(v, n), BigEndian(w, n);
      assert bv[..n - 1] == BigEndian(v / 256, n - 1) && bw[..n - 1] == BigEndian(w / 256, n - 1);
      assert bv[n - 1] == v % 256 && bw[n - 1] == w % 256;
    }
  }

  lemma MigratedInjective(v: nat, w: nat)
    requires v < Power(256, 16) && w < Power(256, 16)
    ensures Migrated(v) == Migrated(w) <==> v == w
  {
    UnhexIsBigEndian(v, 16);
    UnhexIsBigEndian(w, 16);
    BigEndianInjective(v, w, 16);
  }

  /** A column of ids; a nullable one may have gaps. */
  type Ids = seq<Option<nat>>

  predicate InRange(ids: Ids) {
    forall i :: 0 <= i < |ids| && ids[i].Some? ==> ids[i].value < Power(256, 16)
  }

  /** The column after its conversion, row by row. */
  function MigratedColumn(ids: Ids): (column: seq<Option<Bytes>>)
    ensures |column| == |ids|
    ensures forall i :: 0 <= i < |ids| ==> column[i] == match ids[i] case None => None case Some(v) => Some(Migrated(v))
  {
    seq(|ids|, i requires 0 <= i < |ids| => match ids[i] case None => None case Some(v) => Some(Migrated(v)))
  }

  /** A foreign key: every id that is present refers to a parent. */
  ghost predicate Refers<T>(children: seq<Option<T>>, parents: seq<Option<T>>) {
    forall i :: 0 <= i < |children| && children[i].Some? ==> children[i] in parents
  }

  /** No two rows have the same id. */
  ghost predicate Unique<T(!new)>(ids: seq<Option<T>>) {
    forall i, j :: 0 <= i < j < |ids| && ids[i].Some? ==> ids[i] != ids[j]
  }

  lemma MigratedMember(id: nat, ids: Ids)
    requires InRange(ids) && id < Power(256, 16)
    ensures Some(Migrated(id)) in MigratedColumn(ids) <==> Some(id) in ids
  {
    if Some(Migrated(id)) in MigratedColumn(ids) {
      var i :| 0 <= i < |ids| && MigratedColumn(ids)[i] == Some(Migrated(id));
      MigratedInjective(id, ids[i].value);
      assert ids[i] == Some(id);
    }
    if Some(id) in ids {
      var i :| 0 <= i < |ids| && ids[i] == Some(id);
      assert MigratedColumn(ids)[i] == Some(Migrated(id));
    }
  }

  /** Every foreign key holds after the migration exactly when it held before. */
  lemma ForeignKeysSurvive(children: Ids, parents: Ids)
    requires InRange(children) && InRange(parents)
    ensures Refers(MigratedColumn(children), MigratedColumn(parents)) <==> Refers(children, parents)
  {
    forall i | 0 <= i < |children| && children[i].Some?
      ensures MigratedColumn(children)[i] in MigratedColumn(parents) <==> children[i] in parents
    {
      MigratedMember(children[i].value, parents);
    }
    if Refers(MigratedColumn(children), MigratedColumn(parents)) {
      forall i | 0 <= i < |children| && children[i].Some? ensures children[i] in parents {
        assert MigratedColumn(children)[i].Some?;
      }
    }
  }

  /** So does uniqueness of a key column. */
  lemma UniqueKeysSurvive(ids: Ids)
    requires InRange(ids)
    ensures Unique(MigratedColumn(ids)) <==> Unique(ids)
  {
    forall i, j | 0 <= i < j < |ids| && ids[i].Some?
      ensures MigratedColumn(ids)[i] == MigratedColumn(ids)[j] <==> ids[i] == ids[j]
    {
      if ids[j].Some? {
        MigratedInjective(ids[i].value, ids[j].value);
      }
    }
    if Unique(MigratedColumn(ids)) {
      forall i, j | 0 <= i < j < |ids| && ids[i].Some? ensures ids[i] != ids[j] {
        assert MigratedColumn(ids)[i] != MigratedColumn(ids)[j];
      }
    }
  }

  /* ---------- new identifiers ---------- */

  /** uuid7: the milliseconds in six bytes, then ten random bytes, with version and variant put
      into the seventh and ninth byte of the result. */
  function Uuid7(millis: nat, random: seq<bv8>): (id: Bytes)
    requires |random| == 10
    ensures |id| == 16
  {
    BigEndian(millis, 6) + [AsByte(Masked(random[0], 0x0F, 0x70)), AsByte(random[2]), AsByte(Masked(random[1], 0x3F, 0x80))]
    + Each(AsByte, random[3..])
  }

  /** The bits of a byte that a mask keeps, with others set. */
  function Masked(v: bv8, keep: bv8, mark: bv8): bv8 {
    (v & keep) | mark
  }

  function AsByte(v: bv8): Byte {
    v as int
  }

  lemma MasksOnBits(v: bv8)
    ensures (v & 0x0F) | 0x70 == v % 16 + 0x70 && v % 16 < 16
    ensures (v & 0x3F) | 0x80 == v % 64 + 0x80 && v % 64 < 64
  {
  }

  lemma LowBits(v: bv8)
    ensures (v % 16) as int == v as int % 16 && (v % 64) as int == v as int % 64
  {
  }

  lemma SumOfBits(v: bv8)
    ensures v < 16 ==> (v + 0x70) as int == v as int + 0x70
    ensures v < 64 ==> (v + 0x80) as int == v as int + 0x80
  {
  }

  lemma MasksAreArithmetic(v: bv8)
    ensures AsByte(Masked(v, 0x0F, 0x70)) == AsByte(v) % 16 + 0x70
    ensures AsByte(Masked(v, 0x3F, 0x80)) == AsByte(v) % 64 + 0x80
  {
    MasksOnBits(v);
    LowBits(v);
    SumOfBits(v % 16);
    SumOfBits(v % 64);
  }

  /** The identifier starts with its time, and has version 7 and the variant of RFC 9562: the
      high four bits of byte 6 are 0111 and the high two bits of byte 8 are 10. */
  lemma Uuid7HasVersionAndVariant(millis: nat, random: seq<bv8>)
    requires |random| == 10
    ensures Uuid7(millis, random)[..6] == BigEndian(millis, 6)
    ensures Uuid7(millis, random)[6] / 16 == 7 && Uuid7(millis, random)[8] / 64 == 2
  {
    MasksAreArithmetic(random[0]);
    MasksAreArithmetic(random[1]);
  }

  /** All random bits but the six that carry version and variant are in the identifier, so that equal
      identifiers of a time before 2^48 milliseconds have equal times and equal random bits. */
  lemma Uuid7KeepsRandomBits(millis: nat, random: seq<bv8>)
    requires |random| == 10
    ensures var id := Uuid7(millis, random);
            && id[6] % 16 == AsByte(random[0]) % 16 && id[7] == AsByte(random[2]) && id[8] % 64 == AsByte(random[1]) % 64
            && forall i :: 3 <= i < 10 ==> id[i + 6] == AsByte(random[i])
  {
    MasksAreArithmetic(random[0]);
    MasksAreArithmetic(random[1]);
  }

  lemma SameIdentifier(millis: nat, millis': nat, random: seq<bv8>, random': seq<bv8>)
    requires |random| == 10 && |random'| == 10 && millis < Power(256, 6) && millis' < Power(256, 6)
    requires Uuid7(millis, random) == Uuid7(millis', random')
    ensures millis == millis' && AsByte(random[0]) % 16 == AsByte(random'[0]) % 16
            && AsByte(random[1]) % 64 == AsByte(random'[1]) % 64 && random[2..] == random'[2..]
  {
    Uuid7KeepsRandomBits(millis, random);
    Uuid7KeepsRandomBits(millis', random');
    Uuid7HasVersionAndVariant(millis, random);
    Uuid7HasVersionAndVariant(millis', random');
    BigEndianInjective(millis, millis', 6);
    forall i | 2 <= i < 10 ensures random[i] == random'[i] {
      var at := if i == 2 then 7 else i + 6;
      assert Uuid7(millis, random)[at] == AsByte(random[i]) && Uuid7(millis', random')[at] == AsByte(random'[i]);
      SameByte(random[i], random'[i]);
    }
    assert forall i :: 0 <= i < 8 ==> random[2..][i] == random[i + 2];
  }

  lemma SameByte(v: bv8, w: bv8)
    requires AsByte(v) == AsByte(w)
    ensures v == w
  {
  }

  /** Bytes compare at the first place where they differ, as BINARY(16) keys do. */
  predicate Less(a: Bytes, b: Bytes)
    requires |a| == |b|
  {
    a != [] && (a[0] < b[0] || (a[0] == b[0] && Less(a[1..], b[1..])))
  }

  lemma {:induction false} LessByPrefix(a: Bytes, b: Bytes, a': Bytes, b': Bytes)
    requires |a| == |b| && |a'| == |b'|
    ensures Less(a + a', b + b') <==> Less(a, b) || (a == b && Less(a', b'))
  {
    if a == [] {
      assert a + a' == a' && b + b' == b';
    } else {
      assert (a + a')[1..] == a[1..] + a' && (b + b')[1..] == b[1..] + b';
      LessByPrefix(a[1..], b[1..], a', b');
      assert a == b <==> a[0] == b[0] && a[1..] == b[1..];
    }
  }

  lemma {:induction false} BigEndianOrder(v: nat, w: nat, n: nat)
    requires v < Power(256, n) && w < Power(256, n)
    ensures Less(BigEndian(v, n), BigEndian(w, n)) <==> v < w
  {
    if n > 0 {
      PowerStep(v, n);
      PowerStep(w, n);
      BigEndianOrder(v / 256, w / 256, n - 1);
      BigEndianInjective(v / 256, w / 256, n - 1);
      LessByPrefix(BigEndian(v / 256, n - 1), BigEndian(w / 256, n - 1), [v % 256], [w % 256]);
    }
  }

  /** Identifiers of different milliseconds sort by time, whatever their random parts. */
  lemma Uuid7SortsByTime(millis: nat, millis': nat, random: seq<bv8>, random': seq<bv8>)
    requires |random| == 10 && |random'| == 10 && millis < Power(256, 6) && millis' < Power(256, 6) && millis != millis'
    ensures Less(Uuid7(millis, random), Uuid7(millis', random')) <==> millis < millis'
  {
    BigEndianOrder(millis, millis', 6);
    BigEndianInjective(millis, millis', 6);
    var rest, rest' := Uuid7(millis, random)[6..], Uuid7(millis', random')[6..];
    assert Uuid7(millis, random) == BigEndian(millis, 6) + rest && Uuid7(millis', random') == BigEndian(millis', 6) + rest';
    LessByPrefix(BigEndian(millis, 6), BigEndian(millis', 6), rest, rest');
  }
}
