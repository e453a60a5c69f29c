/**
 * Shairport Sync's volume: a decibel value on a fixed software range,
 * clamped on receipt and shown to the host as a fraction of that range.
 * Also the reading of a volume message: the text before the first comma,
 * parsed as a decimal number.
 */
module Decibels {
  import opened Wrappers

  const MinDb: real := -30.0
  const MaxDb: real := 0.0
  const DbRange: real := MaxDb - MinDb

  predicate InRange(db: real) {
    MinDb <= db <= MaxDb
  }

  /** The clamp applied to every received decibel value. */
  function Clamp(db: real): (r: real)
    ensures InRange(r)
    ensures InRange(db) ==> r == db
    ensures db > MaxDb ==> r == MaxDb
    ensures db < MinDb ==> r == MinDb
  {
    var capped := if db < MaxDb then db else MaxDb;
    if capped > MinDb then capped else MinDb
  }

  lemma ClampIdempotent(db: real)
    ensures Clamp(Clamp(db)) == Clamp(db)
  {
  }

  lemma ClampMonotone(a: real, b: real)
    requires a <= b
    ensures Clamp(a) <= Clamp(b)
  {
  }

  /** The host-facing volume fraction; absent exactly when no volume is known. */
  function Level(volumeDb: Option<real>): (r: Option<real>)
    ensures r.None? <==> volumeDb.None?
    ensures r.Some? ==> MinDb + r.value * DbRange == volumeDb.value
    ensures r.Some? && InRange(volumeDb.value) ==> 0.0 <= r.value <= 1.0
  {
    match volumeDb
    case None => None
    case Some(db) => Some((db - MinDb) / DbRange)
  }

  lemma LevelMonotone(a: real, b: real)
    requires a <= b
    ensures Level(Some(a)).value <= Level(Some(b)).value
  {
  }

  lemma LevelEndpoints()
    ensures Level(Some(MinDb)) == Some(0.0)
    ensures Level(Some(-15.0)) == Some(0.5)
    ensures Level(Some(MaxDb)) == Some(1.0)
  {
  }

  /** Every fraction in [0, 1] is the level of exactly one in-range decibel value. */
  lemma LevelOnto(f: real)
    requires 0.0 <= f <= 1.0
    ensures InRange(MinDb + f * DbRange) && Level(Some(MinDb + f * DbRange)) == Some(f)
  {
  }

  // ---------------------------------------------------------------------------
  // Reading a volume message
  // ---------------------------------------------------------------------------

  /** The text before the first occurrence of `sep`: element 0 of `s.split(sep)`. */
  function TakeUntil(s: string, sep: char): string {
    if s == [] || s[0] == sep then [] else [s[0]] + TakeUntil(s[1..], sep)
  }

  /**
   * The first field is a prefix of the text, holds no separator, and stops
   * at the first separator or at the end.
   */
  lemma {:induction false} TakeUntilFirstField(s: string, sep: char)
    ensures TakeUntil(s, sep) <= s
    ensures forall i :: 0 <= i < |TakeUntil(s, sep)| ==> TakeUntil(s, sep)[i] != sep
    ensures |TakeUntil(s, sep)| < |s| ==> s[|TakeUntil(s, sep)|] == sep
  {
    if s != [] && s[0] != sep {
      TakeUntilFirstField(s[1..], sep);
    }
  }

  /** Text holding no separator is its own first field. */
  lemma {:induction false} TakeUntilWhole(s: string, sep: char)
    requires sep !in s
    ensures TakeUntil(s, sep) == s
  {
    if s != [] {
      assert s[0] != sep;
      assert sep !in s[1..];
      TakeUntilWhole(s[1..], sep);
    }
  }

  /** Whatever follows the first separator does not change the first field. */
  lemma {:induction false} TakeUntilStops(field: string, sep: char, rest: string)
    requires sep !in field
    ensures TakeUntil(field + [sep] + rest, sep) == field
  {
    if field != [] {
      assert field[0] != sep;
      assert sep !in field[1..];
      assert (field + [sep] + rest)[1..] == field[1..] + [sep] + rest;
      TakeUntilStops(field[1..], sep, rest);
    }
  }

  predicate IsDigit(c: char) {
    '0' <= c <= '9'
  }

  predicate AllDigits(s: string) {
    forall i :: 0 <= i < |s| ==> IsDigit(s[i])
  }

  /**
   * The characters the number conversion skips around a number: space, tab,
   * newline, vertical tab, form feed and carriage return.
   */
  predicate IsSpace(c: char) {
    c == ' ' || '\t' <= c <= '\r'
  }

  function TrimLeft(s: string): string {
    if s != [] && IsSpace(s[0]) then TrimLeft(s[1..]) else s
  }

  function TrimRight(s: string): string {
    if s != [] && IsSpace(s[|s| - 1]) then TrimRight(s[..|s| - 1]) else s
  }

  function Trim(s: string): string {
    TrimRight(TrimLeft(s))
  }

  function DigitValue(c: char): nat
    requires IsDigit(c)
  {
    (c as int) - ('0' as int)
  }

  /** The value of a string of decimal digits, most significant first. */
  function DigitsValue(ds: string): nat
    requires AllDigits(ds)
  {
    if ds == [] then 0 else DigitsValue(ds[..|ds| - 1]) * 10 + DigitValue(ds[|ds| - 1])
  }

  /** The value of the digits after a decimal point: `0.d1d2...dn`. */
  function FractionValue(ds: string): (r: real)
    requires AllDigits(ds)
    ensures 0.0 <= r < 1.0
  {
    if ds == [] then 0.0 else (DigitValue(ds[0]) as real + FractionValue(ds[1..])) / 10.0
  }

  /** The value of decimal text with integer part `whole` and fraction digits `frac`. */
  function Magnitude(whole: nat, frac: string): (r: real)
    requires AllDigits(frac)
    ensures whole as real <= r < whole as real + 1.0
  {
    whole as real + FractionValue(frac)
  }

  /** Digits with an optional decimal point and at least one digit: `15`, `15.`, `.5`, `15.0`. */
  function ParseUnsigned(t: string): (r: Option<real>)
    ensures r.Some? ==> r.value >= 0.0
  {
    var whole := TakeUntil(t, '.');
    var frac := if |whole| < |t| then t[|whole| + 1..] else [];
    if AllDigits(whole) && AllDigits(frac) && |whole| + |frac| > 0 then
      Some(Magnitude(DigitsValue(whole), frac))
    else
      None
  }

  /**
   * The decimal text that the volume handler's number conversion accepts:
   * surrounding whitespace, an optional sign, then an unsigned decimal.
   */
  function ParseDecimal(s: string): Option<real> {
    var t := Trim(s);
    if t != [] && (t[0] == '+' || t[0] == '-') then
      match ParseUnsigned(t[1..])
      case None => None
      case Some(v) => Some(if t[0] == '-' then -v else v)
    else
      ParseUnsigned(t)
  }

  /** The decibel value a volume message sets, or None when the message is dropped. */
  function ReadVolume(payload: string): (r: Option<real>)
    ensures r.Some? ==> InRange(r.value)
    ensures r.None? <==> ParseDecimal(TakeUntil(payload, ',')).None?
    ensures var parsed := ParseDecimal(TakeUntil(payload, ','));
      parsed.Some? && InRange(parsed.value) ==> r == parsed
  {
    match ParseDecimal(TakeUntil(payload, ','))
    case None => None
    case Some(db) => Some(Clamp(db))
  }

  // ---------------------------------------------------------------------------
  // Reading decimal text back
  // ---------------------------------------------------------------------------

  lemma TrimKeeps(s: string)
    requires s != [] && !IsSpace(s[0]) && !IsSpace(s[|s| - 1])
    ensures Trim(s) == s
  {
  }

  /** `<whole>.<frac>` reads as its integer part plus its fraction. */
  lemma UnsignedText(whole: string, frac: string)
    requires whole != [] && AllDigits(whole) && AllDigits(frac)
    ensures ParseUnsigned(whole + "." + frac) == Some(Magnitude(DigitsValue(whole), frac))
  {
    var t := whole + "." + frac;
    assert '.' !in whole by {
      forall i | 0 <= i < |whole| ensures whole[i] != '.' { assert IsDigit(whole[i]); }
    }
    TakeUntilStops(whole, '.', frac);
    assert t[|whole| + 1..] == frac;
  }

  /** Digits alone read as their integer value: `15` is 15. */
  lemma WholeText(whole: string)
    requires whole != [] && AllDigits(whole)
    ensures ParseUnsigned(whole) == Some(DigitsValue(whole) as real)
  {
    assert '.' !in whole by {
      forall i | 0 <= i < |whole| ensures whole[i] != '.' { assert IsDigit(whole[i]); }
    }
    TakeUntilWhole(whole, '.');
  }

  /** A point followed by digits reads as their fraction: `.5` is 0.5. */
  lemma PointText(frac: string)
    requires frac != [] && AllDigits(frac)
    ensures ParseUnsigned("." + frac) == Some(FractionValue(frac))
  {
    var t := "." + frac;
    assert TakeUntil(t, '.') == [];
    assert t[1..] == frac;
  }

  /**
   * The unsigned decimal grammar, stated character by character: only digits
   * and points, at most one point, and not empty or a lone point (so at least
   * one digit).
   */
  predicate UnsignedSyntax(t: string) {
    && t != [] && t != "."
    && (forall i :: 0 <= i < |t| ==> IsDigit(t[i]) || t[i] == '.')
    && (forall i, j :: 0 <= i < j < |t| && t[i] == '.' ==> t[j] != '.')
  }

  /** Unsigned text parses exactly when it follows the grammar: `15x`, `1.2.3` and `.` do not. */
  lemma UnsignedAccepts(t: string)
    ensures ParseUnsigned(t).Some? <==> UnsignedSyntax(t)
  {
    var w := TakeUntil(t, '.');
    TakeUntilFirstField(t, '.');
    var frac := if |w| < |t| then t[|w| + 1..] else [];
    assert forall i :: 0 <= i < |w| ==> t[i] == w[i];
    assert forall k :: 0 <= k < |frac| ==> frac[k] == t[|w| + 1 + k];
    assert |t| == 1 && t[0] == '.' ==> t == ".";
    if ParseUnsigned(t).Some? {
      forall i | 0 <= i < |t| && i > |w|
        ensures IsDigit(t[i])
      {
        assert t[i] == frac[i - |w| - 1];
      }
      forall i, j | 0 <= i < j < |t| && t[i] == '.'
        ensures t[j] != '.'
      {
        if i >= |w| {
          assert t[j] == frac[j - |w| - 1];
        }
      }
    }
    if UnsignedSyntax(t) {
      forall k | 0 <= k < |frac|
        ensures IsDigit(frac[k])
      {
        assert t[|w|] == '.' && t[|w| + 1 + k] != '.';
      }
    }
  }

  /** Unsigned text with no sign or space around it is read as it stands. */
  lemma ParseUnsignedOnly(s: string)
    requires Trim(s) == s && s != [] && s[0] != '+' && s[0] != '-'
    ensures ParseDecimal(s) == ParseUnsigned(s)
  {
  }

  /** Unsigned text that parses starts and ends with a digit or the point. */
  lemma UnsignedEnds(u: string, v: real)
    requires ParseUnsigned(u) == Some(v)
    ensures u != [] && !IsSpace(u[0]) && !IsSpace(u[|u| - 1]) && u[0] != '+' && u[0] != '-'
    ensures Trim(u) == u
  {
    UnsignedAccepts(u);
    assert IsDigit(u[0]) || u[0] == '.';
    assert IsDigit(u[|u| - 1]) || u[|u| - 1] == '.';
    TrimKeeps(u);
  }

  /** A plus sign in front of unsigned text keeps its value. */
  lemma PlusText(u: string, v: real)
    requires ParseUnsigned(u) == Some(v)
    ensures ParseDecimal("+" + u) == Some(v)
  {
    UnsignedEnds(u, v);
    var s := "+" + u;
    assert s[|s| - 1] == u[|u| - 1];
    TrimKeeps(s);
    assert s[1..] == u;
  }

  /** A minus sign in front of unsigned text negates its value. */
  lemma NegateText(u: string, v: real)
    requires ParseUnsigned(u) == Some(v)
    ensures ParseDecimal("-" + u) == Some(-v)
  {
    UnsignedEnds(u, v);
    var s := "-" + u;
    assert s[|s| - 1] == u[|u| - 1];
    TrimKeeps(s);
    assert s[1..] == u;
  }

  /**
   * Reading back signed decimal text: any unsigned text `u` with value `v`
   * (`15`, `.5`, `15.0`) reads as `v`, and as `-v` with a minus sign in front.
   */
  lemma SignedText(negative: bool, u: string, v: real)
    requires ParseUnsigned(u) == Some(v)
    ensures ParseDecimal((if negative then "-" else "") + u) == Some(if negative then -v else v)
  {
    if negative {
      NegateText(u, v);
    } else {
      assert "" + u == u;
      UnsignedEnds(u, v);
      ParseUnsignedOnly(u);
    }
  }

  /** What the left trim leaves is empty or starts with a non-space. */
  lemma {:induction false} TrimLeftNoSpace(s: string)
    ensures TrimLeft(s) == [] || !IsSpace(TrimLeft(s)[0])
  {
    if s != [] && IsSpace(s[0]) {
      TrimLeftNoSpace(s[1..]);
    }
  }

  /** The right trim keeps a prefix, so a non-space first character survives it. */
  lemma {:induction false} TrimRightKeepsLeft(s: string)
    requires s == [] || !IsSpace(s[0])
    ensures TrimRight(s) == [] || !IsSpace(TrimRight(s)[0])
  {
    if s != [] && IsSpace(s[|s| - 1]) {
      var p := s[..|s| - 1];
      assert p == [] || p[0] == s[0];
      TrimRightKeepsLeft(p);
    }
  }

  /** What the right trim leaves is empty or ends with a non-space. */
  lemma {:induction false} TrimRightEnds(s: string)
    ensures TrimRight(s) == [] || !IsSpace(TrimRight(s)[|TrimRight(s)| - 1])
  {
    if s != [] && IsSpace(s[|s| - 1]) {
      TrimRightEnds(s[..|s| - 1]);
    }
  }

  /** Trimming twice is trimming once. */
  lemma TrimIdempotent(s: string)
    ensures Trim(Trim(s)) == Trim(s)
  {
    var l := TrimLeft(s);
    var t := TrimRight(l);
    TrimLeftNoSpace(s);
    TrimRightKeepsLeft(l);
    TrimRightEnds(l);
    assert TrimLeft(t) == t;
    assert TrimRight(t) == t;
  }

  /** Surrounding whitespace never changes the reading: ` -15 ` reads as `-15`. */
  lemma PaddingIgnored(s: string)
    ensures ParseDecimal(s) == ParseDecimal(Trim(s))
  {
    TrimIdempotent(s);
  }

  /** Decimal text: unsigned text, or a sign followed by unsigned text. */
  predicate DecimalSyntax(t: string) {
    UnsignedSyntax(t) || (t != [] && (t[0] == '+' || t[0] == '-') && UnsignedSyntax(t[1..]))
  }

  /** The conversion succeeds exactly on decimal text with optional surrounding space. */
  lemma ParseDecimalAccepts(s: string)
    ensures ParseDecimal(s).Some? <==> DecimalSyntax(Trim(s))
  {
    var t := Trim(s);
    UnsignedAccepts(t);
    if t != [] {
      UnsignedAccepts(t[1..]);
    }
  }

  /** Text that starts with anything other than a sign, a digit or a point is no number. */
  lemma NonNumericRejected(s: string)
    requires Trim(s) != []
    requires var c := Trim(s)[0]; !IsDigit(c) && c != '.' && c != '+' && c != '-'
    ensures ParseDecimal(s) == None
  {
    var t := Trim(s);
    assert TakeUntil(t, '.')[0] == t[0];
  }

  /** The ASCII separators U+001C to U+001F are no whitespace here: `\U{1C}5` is no number. */
  lemma SeparatorRejected()
    ensures ParseDecimal("\U{1C}5") == None
  {
    TrimKeeps("\U{1C}5");
    NonNumericRejected("\U{1C}5");
  }

  lemma ParseMinus15()
    ensures ParseDecimal("-15.0") == Some(-15.0)
  {
    assert Trim("-15.0") == "-15.0";
    assert "-15.0"[1..] == "15.0";
    assert TakeUntil("15.0", '.') == "15";
    assert "15.0"[3..] == "0";
    assert DigitsValue("15") == 15;
    assert FractionValue("0") == 0.0;
    assert ParseUnsigned("15.0") == Some(15.0);
  }

  /** Only the first comma-separated field of a volume message is read; later fields never matter. */
  lemma ReadVolumeFirstField(field: string, rest: string)
    requires ',' !in field
    ensures ReadVolume(field + "," + rest) == ReadVolume(field)
  {
    TakeUntilStops(field, ',', rest);
    TakeUntilWhole(field, ',');
  }

  /** A message whose first field is a number sets that number, clamped. */
  lemma ReadVolumeOfNumber(field: string, rest: string, db: real)
    requires ',' !in field && ParseDecimal(field) == Some(db)
    ensures ReadVolume(field + "," + rest) == Some(Clamp(db))
  {
    TakeUntilStops(field, ',', rest);
  }

  /** A volume message at half scale reads as -15 dB (shown as 0.5, by LevelEndpoints). */
  lemma ReadVolumeHalf()
    ensures ReadVolume("-15.0,0,0,0") == Some(-15.0)
  {
    assert "-15.0" + "," + "0,0,0" == "-15.0,0,0,0";
    ParseMinus15();
    ReadVolumeOfNumber("-15.0", "0,0,0", -15.0);
  }

  /** A volume message that is no number is dropped. */
  lemma ReadVolumeBanana()
    ensures ReadVolume("banana") == None
  {
    assert TakeUntil("banana", ',') == "banana";
    TrimKeeps("banana");
    NonNumericRejected("banana");
  }
}
