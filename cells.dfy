/** The values a spreadsheet cell can hold once pandas has read it, and the
    two Python conversions the quote tools apply to them: `str(v)` and
    `float(text)`. */
module Cells {
  import opened Strings

  datatype Option<+T> = None | Some(value: T)

  /** A Python float as far as the quote tools use one: NaN or a finite value.
      Binary rounding is not modelled; the finite values are exact reals. */
  datatype Float = NotANumber | Finite(value: real)

  /** A calendar date; `ValidDate` in QuoteDates says which ones exist. */
  datatype Ymd = Ymd(year: nat, month: nat, day: nat)

  /** One cell of a data frame. Python mixes these freely in one column:
      `None`, a float NaN, pandas' missing date-time `NaT` (a blank in a
      column of dates), a number, a string, or a date-time (at midnight).
      `repr` is the text Python's `str()` gives for the number. */
  datatype Cell =
    | Null
    | NaN
    | NaT
    | Num(value: real, repr: string)
    | Text(text: string)
    | Date(date: Ymd)

  function FAdd(a: Float, b: Float): (r: Float)
    ensures r.NotANumber? <==> a.NotANumber? || b.NotANumber?
  {
    if a.Finite? && b.Finite? then Finite(a.value + b.value) else NotANumber
  }

  function FSub(a: Float, b: Float): (r: Float)
    ensures r.NotANumber? <==> a.NotANumber? || b.NotANumber?
  {
    if a.Finite? && b.Finite? then Finite(a.value - b.value) else NotANumber
  }

  function FMul(a: Float, b: Float): (r: Float)
    ensures r.NotANumber? <==> a.NotANumber? || b.NotANumber?
  {
    if a.Finite? && b.Finite? then Finite(a.value * b.value) else NotANumber
  }

  /** `pd.isna(v)`: true of `None`, NaN and `NaT`. */
  predicate IsNa(c: Cell) {
    c.Null? || c.NaN? || c.NaT?
  }

  /** The result of a Python expression that may raise. */
  datatype Outcome<T> = Raises | Returns(value: T)

  /** `YYYY-MM-DD` with each part zero-padded, as `strftime("%Y-%m-%d")`
      prints it. */
  function Iso(d: Ymd): string {
    ZeroPad(NatToString(d.year), 4) + "-" + ZeroPad(NatToString(d.month), 2) + "-"
      + ZeroPad(NatToString(d.day), 2)
  }

  /** `str(v)` of a cell. A date-time prints with its time of day. */
  function Str(c: Cell): string {
    match c
    case Null => "None"
    case NaN => "nan"
    case NaT => "NaT"
    case Num(_, repr) => repr
    case Text(t) => t
    case Date(d) => Iso(d) + " 00:00:00"
  }

  function Pow10(n: nat): (r: real)
    ensures r >= 1.0
  {
    if n == 0 then 1.0 else 10.0 * Pow10(n - 1)
  }

  /** Digits with an optional decimal point, at least one digit in all:
      `12`, `12.`, `12.5`, `.5`. */
  function ParseMantissa(m: string): (r: Option<real>)
    ensures r.Some? ==> r.value >= 0.0
  {
    var dot := Find(m, c => c == '.');
    var whole := m[..dot];
    var frac := if dot < |m| then m[dot + 1..] else "";
    if AllDigits(whole) && AllDigits(frac) && |whole| + |frac| > 0 then
      Some(DigitsValue(whole) as real + DigitsValue(frac) as real / Pow10(|frac|))
    else
      None
  }

  /** An exponent after `e`: an optional sign and at least one digit. */
  function ParseExponent(x: string): Option<int> {
    var neg := |x| > 0 && x[0] == '-';
    var digits := if |x| > 0 && (x[0] == '+' || x[0] == '-') then x[1..] else x;
    if digits != [] && AllDigits(digits) then
      Some(if neg then -(DigitsValue(digits) as int) else DigitsValue(digits))
    else
      None
  }

  function Scale(x: real, e: int): real {
    if e >= 0 then x * Pow10(e) else x / Pow10(-e)
  }

  /** An unsigned decimal literal with an optional exponent. */
  function ParseUnsigned(s: string): Option<real> {
    var e := Find(s, c => c == 'e' || c == 'E');
    var mantissa := ParseMantissa(s[..e]);
    var exponent := if e < |s| then ParseExponent(s[e + 1..]) else Some(0);
    if mantissa.Some? && exponent.Some? then Some(Scale(mantissa.value, exponent.value)) else None
  }

  /** `t` without its leading sign, if it has one. */
  function Unsigned(t: string): string {
    if |t| > 0 && (t[0] == '+' || t[0] == '-') then t[1..] else t
  }

  /** `body.lower() == "nan"`. */
  predicate IsNanWord(body: string) {
    |body| == 3 && LowerChar(body[0]) == 'n' && LowerChar(body[1]) == 'a' && LowerChar(body[2]) == 'n'
  }

  /** Python's `float(s)` on text: surrounding whitespace is ignored, then an
      optional sign and either `nan` (any case) or a decimal literal. `None`
      stands for the `ValueError` Python raises. */
  function ParseFloat(s: string): Option<Float> {
    var t := Strip(s);
    var neg := |t| > 0 && t[0] == '-';
    var body := Unsigned(t);
    if IsNanWord(body) then Some(NotANumber)
    else match ParseUnsigned(body)
      case None => None
      case Some(x) => Some(Finite(if neg then -x else x))
  }

  /** `float(str(n))` of the decimal digits of `n` gives `n` back. */
  lemma ParseFloatOfDigits(n: nat)
    ensures ParseFloat(NatToString(n)) == Some(Finite(n as real))
  {
    ParseFloatOfDigitRun(NatToString(n));
    NatToStringRoundTrip(n);
  }

  /** Surrounding whitespace does not matter to `float`. */
  lemma ParseFloatOfStripped(s: string)
    ensures ParseFloat(s) == ParseFloat(Strip(s))
  {
    StripIdempotent(s);
  }

  /** A run of decimal digits reads as its decimal value. */
  lemma ParseFloatOfDigitRun(s: string)
    requires s != [] && AllDigits(s)
    ensures ParseFloat(s) == Some(Finite(DigitsValue(s) as real))
  {
    assert !IsSpace(s[0]) && !IsSpace(s[|s| - 1]);
    StripUnchanged(s);
    assert Unsigned(s) == s;
    assert !IsNanWord(s) by {
      assert IsDigit(LowerChar(s[0]));
    }
    ParseUnsignedOfDigits(s);
  }

  lemma ParseUnsignedOfDigits(s: string)
    requires s != [] && AllDigits(s)
    ensures ParseUnsigned(s) == Some(DigitsValue(s) as real)
  {
    DigitsAvoid(s, c => c == 'e' || c == 'E');
    assert s[..|s|] == s;
    ParseMantissaOfDigits(s);
  }

  lemma ParseMantissaOfDigits(s: string)
    requires s != [] && AllDigits(s)
    ensures ParseMantissa(s) == Some(DigitsValue(s) as real)
  {
    DigitsAvoid(s, c => c == '.');
    assert s[..|s|] == s;
  }

  /** `nan` in any case, with or without a sign and surrounding space, is
      read as NaN. */
  lemma ParseFloatOfNan(t: string)
    requires IsNanWord(Unsigned(Strip(t)))
    ensures ParseFloat(t) == Some(NotANumber)
  {
  }

  predicate NoDigit(s: string) {
    forall i :: 0 <= i < |s| ==> !IsDigit(s[i])
  }

  /** Text without a digit is never a finite number: it is rejected or it
      is a spelling of `nan`. */
  lemma ParseFloatNeedsDigit(u: string)
    requires NoDigit(u)
    ensures ParseFloat(u).None? || ParseFloat(u) == Some(NotANumber)
  {
    StripKeepsNoDigit(u);
    UnsignedKeepsNoDigit(Strip(u));
    NoDigitNoNumber(Unsigned(Strip(u)));
  }

  /** A word without digits, other than a spelling of `nan`, is rejected. */
  lemma ParseFloatRejectsWord(t: string)
    requires NoDigit(t) && t != [] && !IsSpace(t[0]) && !IsSpace(t[|t| - 1])
    requires t[0] != '+' && t[0] != '-' && !IsNanWord(t)
    ensures ParseFloat(t).None?
  {
    StripUnchanged(t);
    NoDigitNoNumber(t);
  }

  lemma StripKeepsNoDigit(u: string)
    requires NoDigit(u)
    ensures NoDigit(Strip(u))
  {
    var t := Strip(u);
    var i, j := StripShape(u);
    forall k | 0 <= k < |t|
      ensures !IsDigit(t[k])
    {
      assert t[k] == u[i + k];
    }
  }

  lemma UnsignedKeepsNoDigit(t: string)
    requires NoDigit(t)
    ensures NoDigit(Unsigned(t))
  {
    var body := Unsigned(t);
    forall k | 0 <= k < |body|
      ensures !IsDigit(body[k])
    {
      assert body[k] == t[k + |t| - |body|];
    }
  }

  lemma NoDigitNoNumber(body: string)
    requires NoDigit(body)
    ensures ParseUnsigned(body).None?
  {
    var e := Find(body, c => c == 'e' || c == 'E');
    var m := body[..e];
    var dot := Find(m, c => c == '.');
    var whole := m[..dot];
    var frac := if dot < |m| then m[dot + 1..] else "";
    assert |whole| > 0 ==> whole[0] == body[0];
    assert |frac| > 0 ==> frac[0] == body[dot + 1];
  }
}
