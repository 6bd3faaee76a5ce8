/**
 * The plaintext formats the health-data codec puts through the cipher:
 * `str(bool)` and `text.lower() == "true"`, `date.isoformat()` and
 * `date.fromisoformat`, and `str(float)` / `float(text)` for floats written
 * without an exponent. A parse that Python would reject with `ValueError`
 * returns `None` here.
 */
module TextFormats {
  import opened Wrappers

  type Digit = d: nat | d < 10

  function DigitChar(d: Digit): char
  {
    (48 + d) as char
  }

  predicate IsDigitChar(c: char)
  {
    '0' <= c <= '9'
  }

  function DigitOf(c: char): Digit
    requires IsDigitChar(c)
  {
    c as int - 48
  }

  predicate AllDigits(s: string)
  {
    forall i :: 0 <= i < |s| ==> IsDigitChar(s[i])
  }

  function Pow10(n: nat): nat
  {
    if n == 0 then 1 else 10 * Pow10(n - 1)
  }

  /** The number a string of decimal digits denotes. */
  function DigitsValue(s: string): nat
    requires AllDigits(s)
  {
    if s == [] then 0 else DigitsValue(s[..|s| - 1]) * 10 + DigitOf(s[|s| - 1])
  }

  /** `n` in exactly `width` digits, zero-padded on the left. */
  function PaddedDigits(n: nat, width: nat): (s: string)
    ensures |s| == width && AllDigits(s)
  {
    if width == 0 then "" else PaddedDigits(n / 10, width - 1) + [DigitChar(n % 10)]
  }

  /** `str(n)` for a natural number: its digits without leading zeros. */
  function NatText(n: nat): (s: string)
    ensures |s| > 0 && AllDigits(s)
  {
    if n < 10 then [DigitChar(n)] else NatText(n / 10) + [DigitChar(n % 10)]
  }

  lemma {:induction false} PaddedDigitsRoundTrip(n: nat, width: nat)
    requires n < Pow10(width)
    ensures DigitsValue(PaddedDigits(n, width)) == n
  {
    if width > 0 {
      var s := PaddedDigits(n, width);
      assert s[..|s| - 1] == PaddedDigits(n / 10, width - 1);
      assert n / 10 < Pow10(width - 1);
      PaddedDigitsRoundTrip(n / 10, width - 1);
    }
  }

  /** Conversely, padding the value of a digit string to its own length gives the string back. */
  lemma {:induction false} DigitsValueRoundTrip(s: string)
    requires AllDigits(s)
    ensures DigitsValue(s) < Pow10(|s|)
    ensures PaddedDigits(DigitsValue(s), |s|) == s
  {
    if s != [] {
      var t := s[..|s| - 1];
      DigitsValueRoundTrip(t);
      var v := DigitsValue(s);
      assert v / 10 == DigitsValue(t) && v % 10 == DigitOf(s[|s| - 1]);
      assert s == t + [s[|s| - 1]];
    }
  }

  lemma {:induction false} NatTextRoundTrip(n: nat)
    ensures DigitsValue(NatText(n)) == n
  {
    if n >= 10 {
      var s := NatText(n);
      assert s[..|s| - 1] == NatText(n / 10);
      NatTextRoundTrip(n / 10);
    }
  }

  // ---------------------------------------------------------------------
  // Booleans: str(b) and text.lower() == "true"
  // ---------------------------------------------------------------------

  /** `str(b)` */
  function BoolText(b: bool): string
  {
    if b then "True" else "False"
  }

  /** Lower-casing of one character; only A to Z are mapped. */
  function LowerChar(c: char): char
  {
    if 'A' <= c <= 'Z' then (c as int + 32) as char else c
  }

  /**
   * `text.lower()` on the characters A to Z: no capital is left, each
   * capital becomes its small letter, and every other character is kept.
   */
  function Lower(s: string): (r: string)
    ensures |r| == |s|
    ensures forall i :: 0 <= i < |s| ==> !('A' <= r[i] <= 'Z')
    ensures forall i :: 0 <= i < |s| && 'A' <= s[i] <= 'Z' ==> r[i] as int == s[i] as int + 32
    ensures forall i :: 0 <= i < |s| && !('A' <= s[i] <= 'Z') ==> r[i] == s[i]
  {
    seq(|s|, i requires 0 <= i < |s| => LowerChar(s[i]))
  }

  /** Lower-casing twice is lower-casing once. */
  lemma LowerIdempotent(s: string)
    ensures Lower(Lower(s)) == Lower(s)
  {
    var once := Lower(s);
    assert forall i :: 0 <= i < |once| ==> Lower(once)[i] == once[i];
  }

  /** `text.lower() == "true"` */
  predicate ParseBool(text: string)
  {
    Lower(text) == "true"
  }

  /** Reading back what `str(b)` wrote gives b. */
  lemma BoolTextRoundTrip(b: bool)
    ensures ParseBool(BoolText(b)) == b
  {
    if !b {
      assert |Lower(BoolText(b))| == 5;
    }
  }

  /** Exactly the four-letter spellings of "true" in any mix of cases read as true; everything else is false. */
  lemma ParseBoolIsCaseInsensitiveTrue(text: string)
    ensures ParseBool(text) <==>
      && |text| == 4
      && (text[0] == 't' || text[0] == 'T')
      && (text[1] == 'r' || text[1] == 'R')
      && (text[2] == 'u' || text[2] == 'U')
      && (text[3] == 'e' || text[3] == 'E')
  {
    if ParseBool(text) {
      assert Lower(text)[0] == 't' && Lower(text)[1] == 'r' && Lower(text)[2] == 'u' && Lower(text)[3] == 'e';
    }
  }

  // ---------------------------------------------------------------------
  // Calendar dates: isoformat() and fromisoformat()
  // ---------------------------------------------------------------------

  datatype Date = Date(year: nat, month: nat, day: nat)

  predicate IsLeapYear(year: nat)
  {
    year % 4 == 0 && (year % 100 != 0 || year % 400 == 0)
  }

  function DaysInMonth(year: nat, month: nat): nat
  {
    if month == 2 then (if IsLeapYear(year) then 29 else 28)
    else if month == 4 || month == 6 || month == 9 || month == 11 then 30
    else 31
  }

  /** The dates Python's `date` can hold: years 1 to 9999 of the proleptic Gregorian calendar. */
  predicate ValidDate(d: Date)
  {
    1 <= d.year <= 9999 && 1 <= d.month <= 12 && 1 <= d.day <= DaysInMonth(d.year, d.month)
  }

  /** `date.isoformat()`: YYYY-MM-DD. */
  function IsoFormat(d: Date): string
  {
    PaddedDigits(d.year, 4) + "-" + PaddedDigits(d.month, 2) + "-" + PaddedDigits(d.day, 2)
  }

  /** `date.fromisoformat(text)` on the YYYY-MM-DD form; `None` is its `ValueError`. */
  function FromIsoFormat(text: string): (r: Option<Date>)
    ensures r.Some? ==> ValidDate(r.value) && IsoFormat(r.value) == text
  {
    if |text| == 10 && text[4] == '-' && text[7] == '-'
       && AllDigits(text[..4]) && AllDigits(text[5..7]) && AllDigits(text[8..])
    then
      var d := Date(DigitsValue(text[..4]), DigitsValue(text[5..7]), DigitsValue(text[8..]));
      if ValidDate(d) then
        IsoFieldsRoundTrip(text);
        Some(d)
      else None
    else None
  }

  /** A YYYY-MM-DD text is the isoformat of the date its three digit groups denote. */
  lemma IsoFieldsRoundTrip(text: string)
    requires |text| == 10 && text[4] == '-' && text[7] == '-'
    requires AllDigits(text[..4]) && AllDigits(text[5..7]) && AllDigits(text[8..])
    ensures IsoFormat(Date(DigitsValue(text[..4]), DigitsValue(text[5..7]), DigitsValue(text[8..]))) == text
  {
    DigitsValueRoundTrip(text[..4]);
    DigitsValueRoundTrip(text[5..7]);
    DigitsValueRoundTrip(text[8..]);
    assert text == text[..4] + "-" + text[5..7] + "-" + text[8..];
  }

  /** Every valid date survives isoformat followed by fromisoformat. */
  lemma IsoFormatRoundTrip(d: Date)
    requires ValidDate(d)
    ensures FromIsoFormat(IsoFormat(d)) == Some(d)
  {
    var text := IsoFormat(d);
    var y, m, dd := PaddedDigits(d.year, 4), PaddedDigits(d.month, 2), PaddedDigits(d.day, 2);
    assert text[..4] == y && text[5..7] == m && text[8..] == dd;
    assert Pow10(4) == 10000 && Pow10(2) == 100;
    PaddedDigitsRoundTrip(d.year, 4);
    PaddedDigitsRoundTrip(d.month, 2);
    PaddedDigitsRoundTrip(d.day, 2);
  }

  // ---------------------------------------------------------------------
  // Floats: str(x) and float(text), without exponent notation
  // ---------------------------------------------------------------------

  /** A float as `str` writes it: a sign, the integer digits and at least one fraction digit. */
  datatype Decimal = Decimal(negative: bool, whole: nat, fraction: seq<Digit>)

  predicate WellFormedDecimal(d: Decimal)
  {
    |d.fraction| > 0
  }

  function FractionText(f: seq<Digit>): (s: string)
    ensures |s| == |f| && AllDigits(s)
    ensures forall i :: 0 <= i < |f| ==> s[i] == DigitChar(f[i])
  {
    if f == [] then "" else [DigitChar(f[0])] + FractionText(f[1..])
  }

  function FractionDigits(s: string): (f: seq<Digit>)
    requires AllDigits(s)
    ensures |f| == |s|
    ensures forall i :: 0 <= i < |s| ==> f[i] == DigitOf(s[i])
  {
    if s == [] then [] else [DigitOf(s[0])] + FractionDigits(s[1..])
  }

  lemma FractionTextRoundTrip(f: seq<Digit>)
    ensures FractionDigits(FractionText(f)) == f
  {
    var g := FractionDigits(FractionText(f));
    assert forall i :: 0 <= i < |f| ==> g[i] == f[i];
  }

  /** `str(x)` */
  function DecimalText(d: Decimal): string
  {
    (if d.negative then "-" else "") + NatText(d.whole) + "." + FractionText(d.fraction)
  }

  /** The position of the first occurrence of `c` in `s`. */
  function IndexOf(s: string, c: char): (r: Option<nat>)
    ensures r.Some? ==> r.value < |s| && s[r.value] == c && forall i :: 0 <= i < r.value ==> s[i] != c
    ensures r.None? ==> forall i :: 0 <= i < |s| ==> s[i] != c
  {
    if s == [] then None
    else if s[0] == c then Some(0)
    else match IndexOf(s[1..], c)
      case None => None
      case Some(i) => Some(i + 1)
  }

  /** `float(text)` on texts of the shape `str` writes; `None` is its `ValueError`. */
  function ParseDecimal(text: string): (r: Option<Decimal>)
    ensures r.Some? ==> WellFormedDecimal(r.value)
  {
    var negative := |text| > 0 && text[0] == '-';
    var body := if negative then text[1..] else text;
    match IndexOf(body, '.')
    case None => None
    case Some(i) =>
      var whole, frac := body[..i], body[i + 1..];
      if |whole| > 0 && AllDigits(whole) && |frac| > 0 && AllDigits(frac)
      then Some(Decimal(negative, DigitsValue(whole), FractionDigits(frac)))
      else None
  }

  /** In digits, a dot, anything: the first dot is the one after the digits. */
  lemma IndexOfDotAfterDigits(w: string, rest: string)
    requires AllDigits(w)
    ensures IndexOf(w + "." + rest, '.') == Some(|w|)
  {
    var body := w + "." + rest;
    assert body[|w|] == '.';
    assert forall i :: 0 <= i < |w| ==> body[i] == w[i];
  }

  /** A sign, digits, a dot and digits parse to the number they spell. */
  lemma ParseDecimalOfParts(negative: bool, w: string, f: string)
    requires |w| > 0 && AllDigits(w) && |f| > 0 && AllDigits(f)
    ensures ParseDecimal((if negative then "-" else "") + w + "." + f) ==
      Some(Decimal(negative, DigitsValue(w), FractionDigits(f)))
  {
    var body := w + "." + f;
    var text := (if negative then "-" else "") + w + "." + f;
    assert text == (if negative then "-" else "") + body;
    assert body[0] == w[0] && IsDigitChar(w[0]);
    assert (|text| > 0 && text[0] == '-') == negative;
    assert (if negative then text[1..] else text) == body;
    IndexOfDotAfterDigits(w, f);
    assert body[..|w|] == w && body[|w| + 1..] == f;
  }

  /** Every well-formed float survives `str` followed by `float`. */
  lemma DecimalTextRoundTrip(d: Decimal)
    requires WellFormedDecimal(d)
    ensures ParseDecimal(DecimalText(d)) == Some(d)
  {
    ParseDecimalOfParts(d.negative, NatText(d.whole), FractionText(d.fraction));
    NatTextRoundTrip(d.whole);
    FractionTextRoundTrip(d.fraction);
  }
}
