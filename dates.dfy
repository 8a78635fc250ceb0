/** `_fmt_date` of `fire_a_quote.py`: rendering a date-like cell as
    `YYYY-MM-DD`, including spreadsheet serial numbers counted in days from
    1899-12-30, over the proleptic Gregorian calendar that Python's `date`
    uses (day 1 is 0001-01-01). */
module QuoteDates {
  import opened Strings
  import opened Cells

  // ---------------------------------------------------------------- calendar

  predicate IsLeap(y: int) {
    y % 4 == 0 && (y % 100 != 0 || y % 400 == 0)
  }

  function DaysInMonth(y: int, m: int): nat
    requires 1 <= m <= 12
  {
    if m == 2 then (if IsLeap(y) then 29 else 28)
    else if m == 4 || m == 6 || m == 9 || m == 11 then 30
    else 31
  }

  function DaysInYear(y: int): nat {
    if IsLeap(y) then 366 else 365
  }

  predicate ValidDate(d: Ymd) {
    d.year >= 1 && 1 <= d.month <= 12 && 1 <= d.day <= DaysInMonth(d.year, d.month)
  }

  /** Days in the years before `y`. */
  function DaysBeforeYear(y: nat): nat
    requires y >= 1
  {
    var k := y - 1;
    365 * k + k / 4 - k / 100 + k / 400
  }

  /** Days in the months of `y` before `m`; `m == 13` counts the whole year. */
  function DaysBeforeMonth(y: int, m: int): nat
    requires 1 <= m <= 13
  {
    if m == 1 then 0 else DaysBeforeMonth(y, m - 1) + DaysInMonth(y, m - 1)
  }

  /** `date.toordinal()`: 0001-01-01 is day 1. */
  function Ordinal(d: Ymd): nat
    requires ValidDate(d)
  {
    DaysBeforeYear(d.year) + DaysBeforeMonth(d.year, d.month) + d.day
  }

  lemma YearStep(y: nat)
    requires y >= 1
    ensures DaysBeforeYear(y + 1) == DaysBeforeYear(y) + DaysInYear(y)
  {
    DivStep4(y);
    DivStep100(y);
    DivStep400(y);
    ModChain(y);
  }

  lemma ModChain(y: nat)
    ensures y % 400 == 0 ==> y % 100 == 0
    ensures y % 100 == 0 ==> y % 4 == 0
  {
    if y % 400 == 0 {
      var q := y / 400;
      assert y == 100 * (4 * q);
    }
    if y % 100 == 0 {
      var q := y / 100;
      assert y == 4 * (25 * q);
    }
  }

  lemma DivStep4(y: nat)
    requires y >= 1
    ensures y / 4 == (y - 1) / 4 + (if y % 4 == 0 then 1 else 0)
  {
  }

  lemma DivStep100(y: nat)
    requires y >= 1
    ensures y / 100 == (y - 1) / 100 + (if y % 100 == 0 then 1 else 0)
  {
  }

  lemma DivStep400(y: nat)
    requires y >= 1
    ensures y / 400 == (y - 1) / 400 + (if y % 400 == 0 then 1 else 0)
  {
  }

  lemma WholeYear(y: int)
    ensures DaysBeforeMonth(y, 13) == DaysInYear(y)
  {
    var leap := if IsLeap(y) then 1 else 0;
    assert DaysBeforeMonth(y, 2) == 31;
    assert DaysBeforeMonth(y, 3) == 59 + leap;
    assert DaysBeforeMonth(y, 4) == 90 + leap;
    assert DaysBeforeMonth(y, 5) == 120 + leap;
    assert DaysBeforeMonth(y, 6) == 151 + leap;
    assert DaysBeforeMonth(y, 7) == 181 + leap;
    assert DaysBeforeMonth(y, 8) == 212 + leap;
    assert DaysBeforeMonth(y, 9) == 243 + leap;
    assert DaysBeforeMonth(y, 10) == 273 + leap;
    assert DaysBeforeMonth(y, 11) == 304 + leap;
    assert DaysBeforeMonth(y, 12) == 334 + leap;
    assert DaysBeforeMonth(y, 13) == 365 + leap;
  }

  /** The month lengths before `m` grow with `m`. */
  lemma {:induction false} MonthsMonotone(y: int, m: int, m': int)
    requires 1 <= m <= m' <= 13
    ensures DaysBeforeMonth(y, m) <= DaysBeforeMonth(y, m')
    ensures m < m' ==> DaysBeforeMonth(y, m) + DaysInMonth(y, m) <= DaysBeforeMonth(y, m')
    decreases m' - m
  {
    if m < m' {
      MonthsMonotone(y, m + 1, m');
    }
  }

  /** The days before a year grow with the year. */
  lemma {:induction false} YearsMonotone(y: nat, y': nat)
    requires 1 <= y <= y'
    ensures DaysBeforeYear(y) <= DaysBeforeYear(y')
    ensures y < y' ==> DaysBeforeYear(y) + DaysInYear(y) <= DaysBeforeYear(y')
    decreases y' - y
  {
    if y < y' {
      YearStep(y);
      YearsMonotone(y + 1, y');
    }
  }

  /** A valid date falls inside its own year and month. */
  lemma OrdinalWithin(d: Ymd)
    requires ValidDate(d)
    ensures DaysBeforeYear(d.year) < Ordinal(d) <= DaysBeforeYear(d.year) + DaysInYear(d.year)
    ensures DaysBeforeMonth(d.year, d.month) < Ordinal(d) - DaysBeforeYear(d.year)
      <= DaysBeforeMonth(d.year, d.month) + DaysInMonth(d.year, d.month)
  {
    MonthsMonotone(d.year, d.month, 13);
    WholeYear(d.year);
  }

  /** The year holding day `n`, searching upwards from year `y`. */
  function YearFrom(n: nat, y: nat): (r: nat)
    requires y >= 1 && DaysBeforeYear(y) < n
    ensures r >= y && DaysBeforeYear(r) < n <= DaysBeforeYear(r) + DaysInYear(r)
    decreases n - DaysBeforeYear(y)
  {
    YearStep(y);
    if n <= DaysBeforeYear(y) + DaysInYear(y) then y else YearFrom(n, y + 1)
  }

  /** The month of year `y` holding its day `r`, searching upwards from `m`. */
  function MonthFrom(y: int, r: nat, m: int): (res: int)
    requires 1 <= m <= 12 && DaysBeforeMonth(y, m) < r <= DaysInYear(y)
    ensures m <= res <= 12
    ensures DaysBeforeMonth(y, res) < r <= DaysBeforeMonth(y, res) + DaysInMonth(y, res)
    decreases 12 - m
  {
    WholeYear(y);
    if r <= DaysBeforeMonth(y, m) + DaysInMonth(y, m) || m == 12 then m else MonthFrom(y, r, m + 1)
  }

  /** `date.fromordinal(n)`: the date whose ordinal is `n`. */
  function FromOrdinal(n: nat): (d: Ymd)
    requires n >= 1
    ensures ValidDate(d) && Ordinal(d) == n
  {
    var y := YearFrom(n, 1);
    var r := n - DaysBeforeYear(y);
    var m := MonthFrom(y, r, 1);
    Ymd(y, m, r - DaysBeforeMonth(y, m))
  }

  /** Different dates have different ordinals, so `FromOrdinal` inverts
      `Ordinal`. */
  lemma FromOrdinalOfOrdinal(d: Ymd)
    requires ValidDate(d)
    ensures FromOrdinal(Ordinal(d)) == d
  {
    var e := FromOrdinal(Ordinal(d));
    OrdinalInjective(d, e);
  }

  lemma OrdinalInjective(d: Ymd, e: Ymd)
    requires ValidDate(d) && ValidDate(e) && Ordinal(d) == Ordinal(e)
    ensures d == e
  {
    OrdinalWithin(d);
    OrdinalWithin(e);
    if d.year < e.year {
      YearsMonotone(d.year, e.year);
    } else if e.year < d.year {
      YearsMonotone(e.year, d.year);
    }
    assert d.year == e.year;
    if d.month < e.month {
      MonthsMonotone(d.year, d.month, e.month);
    } else if e.month < d.month {
      MonthsMonotone(d.year, e.month, d.month);
    }
  }

  // ---------------------------------------------------------------- serial numbers

  /** The ordinal of 1899-12-30, the origin of spreadsheet serial numbers. */
  const SerialOrigin: nat := 693594

  lemma SerialOriginIsDate()
    ensures ValidDate(Ymd(1899, 12, 30)) && Ordinal(Ymd(1899, 12, 30)) == SerialOrigin
  {
    assert DaysBeforeYear(1899) == 693230;
    assert DaysBeforeMonth(1899, 12) == 334 by {
      WholeYear(1899);
    }
  }

  /** Nanoseconds per day, and the largest count of nanoseconds from
      1970-01-01 that a pandas `Timestamp` holds (a signed 64-bit count). */
  const NanosPerDay: real := 86400000000000.0
  const MaxNanos: real := 9223372036854775807.0

  /** `pd.to_datetime(v, unit="D", origin="1899-12-30")` succeeds: the
      instant, counted in nanoseconds from 1970-01-01 (serial 25569), fits
      a `Timestamp`. */
  predicate InTimestampRange(v: real) {
    -MaxNanos <= (v - 25569.0) * NanosPerDay <= MaxNanos
  }

  /** The calendar date of serial `v`: the fraction is the time of day,
      so the date is that of the whole days before it. */
  function SerialDate(v: real): (d: Ymd)
    requires InTimestampRange(v)
    ensures ValidDate(d) && Ordinal(d) == v.Floor + SerialOrigin
    ensures 1677 <= d.year <= 2262
  {
    assert -81183.0 < v < 132321.0;
    var n := v.Floor + SerialOrigin;
    var d := FromOrdinal(n);
    SerialYears(d);
    d
  }

  lemma SerialYears(d: Ymd)
    requires ValidDate(d) && 612411 <= Ordinal(d) <= 825914
    ensures 1677 <= d.year <= 2262
  {
    OrdinalWithin(d);
    YearStep(d.year);
  }

  // ---------------------------------------------------------------- rendering

  /** Reads back `YYYY-MM-DD`: four, two and two digits between dashes. */
  function ParseIso(s: string): Option<Ymd> {
    if |s| == 10 && s[4] == '-' && s[7] == '-'
      && AllDigits(s[..4]) && AllDigits(s[5..7]) && AllDigits(s[8..])
    then Some(Ymd(DigitsValue(s[..4]), DigitsValue(s[5..7]), DigitsValue(s[8..])))
    else None
  }

  /** A number below `10^k` has at most `k` decimal digits. */
  lemma {:induction false} NatToStringShort(n: nat, k: nat)
    requires 1 <= k && (n as real) < Pow10(k)
    ensures |NatToString(n)| <= k
  {
    if n >= 10 {
      assert Pow10(1) == 10.0;
      assert k >= 2;
      NatToStringShort(n / 10, k - 1);
    }
  }

  lemma PaddedField(n: nat, width: nat)
    requires 1 <= width && (n as real) < Pow10(width)
    ensures |ZeroPad(NatToString(n), width)| == width
    ensures AllDigits(ZeroPad(NatToString(n), width))
    ensures DigitsValue(ZeroPad(NatToString(n), width)) == n
  {
    NatToStringShort(n, width);
    ZeroPadValue(NatToString(n), width);
    NatToStringRoundTrip(n);
  }

  /** A date with a four-digit year is printed in ten characters, dashes at
      positions 4 and 7. */
  lemma IsoShape(d: Ymd)
    requires ValidDate(d) && d.year <= 9999
    ensures |Iso(d)| == 10 && Iso(d)[4] == '-' && Iso(d)[7] == '-'
  {
    IsoRoundTrip(d);
  }

  /** A date with a four-digit year can be read back from its printed form. */
  lemma IsoRoundTrip(d: Ymd)
    requires ValidDate(d) && d.year <= 9999
    ensures ParseIso(Iso(d)) == Some(d)
  {
    var y := ZeroPad(NatToString(d.year), 4);
    var m := ZeroPad(NatToString(d.month), 2);
    var dd := ZeroPad(NatToString(d.day), 2);
    assert |y| == 4 && AllDigits(y) && DigitsValue(y) == d.year by {
      Pow10Values();
      PaddedField(d.year, 4);
    }
    assert |m| == 2 && AllDigits(m) && DigitsValue(m) == d.month by {
      Pow10Values();
      PaddedField(d.month, 2);
    }
    assert |dd| == 2 && AllDigits(dd) && DigitsValue(dd) == d.day by {
      Pow10Values();
      PaddedField(d.day, 2);
    }
    ParseIsoOfFields(y, m, dd);
  }

  lemma Pow10Values()
    ensures Pow10(2) == 100.0 && Pow10(4) == 10000.0
  {
  }

  lemma ParseIsoOfFields(y: string, m: string, dd: string)
    requires |y| == 4 && |m| == 2 && |dd| == 2 && AllDigits(y) && AllDigits(m) && AllDigits(dd)
    ensures var s := y + "-" + m + "-" + dd;
      && |s| == 10 && s[4] == '-' && s[7] == '-'
      && ParseIso(s) == Some(Ymd(DigitsValue(y), DigitsValue(m), DigitsValue(dd)))
  {
    var s := y + "-" + m + "-" + dd;
    assert s[..4] == y;
    assert s[5..7] == m;
    assert s[8..] == dd;
  }

  /** The text path of lines 112-122: a string the parser reads as a date
      is printed as that date; any other string is returned as it is. */
  function TextDate(s: string, parseText: string -> Option<Ymd>): (r: string)
    ensures parseText(s).None? ==> r == s
    ensures parseText(s).Some? ==> r == Iso(parseText(s).value)
  {
    match parseText(s)
    case Some(d) => Iso(d)
    case None => s
  }

  /** `_fmt_date`, with a missing date-time `NaT` rendered as the empty
      string like the other missing values of lines 87-93. `parseText`
      stands for `pd.to_datetime` on free text: `Some(date)` where it
      yields a timestamp, `None` where it raises. A date, and a serial in
      the timestamp range, print as ISO text that reads back as the date. */
  function FmtDate(v: Cell, parseText: string -> Option<Ymd>): (r: string)
    ensures v.Date? && ValidDate(v.date) && v.date.year <= 9999 ==> ParseIso(r) == Some(v.date)
    ensures v.Num? && InTimestampRange(v.value) ==> ParseIso(r) == Some(SerialDate(v.value))
  {
    match v
    case Null => ""
    case NaN => ""
    case NaT => ""
    case Text(t) => if Strip(t) == [] then "" else TextDate(Strip(t), parseText)
    case Date(d) =>
      if ValidDate(d) && d.year <= 9999 then IsoRoundTrip(d); Iso(d) else Iso(d)
    case Num(x, repr) =>
      if InTimestampRange(x) then
        IsoRoundTrip(SerialDate(x));
        Iso(SerialDate(x))
      else TextDate(Strip(repr), parseText)
  }

  /** `_fmt_date` as written. `NaT` is not `None`, not a float and not a
      string, so lines 88-93 let it through; it is an instance of
      `datetime`, so line 97 calls its `strftime`, which raises
      `ValueError`. Every other cell renders as `FmtDate` says. */
  function FmtDateAsWritten(v: Cell, parseText: string -> Option<Ymd>): (r: Outcome<string>)
    ensures r.Raises? <==> v.NaT?
    ensures r.Returns? ==> r.value == FmtDate(v, parseText)
  {
    if v.NaT? then Raises else Returns(FmtDate(v, parseText))
  }

  lemma IsoNotEmpty(d: Ymd)
    ensures Iso(d) != []
  {
  }

  /** A cell renders as the empty string exactly when it is empty: `None`,
      NaN, `NaT` or blank text (a number always prints as something). */
  lemma FmtDateEmpty(v: Cell, parseText: string -> Option<Ymd>)
    requires v.Num? ==> Strip(v.repr) != []
    ensures FmtDate(v, parseText) == "" <==> IsNa(v) || (v.Text? && Strip(v.text) == [])
  {
    match v
    case Date(d) => IsoNotEmpty(d);
    case Num(x, repr) =>
      if InTimestampRange(x) {
        IsoNotEmpty(SerialDate(x));
      } else if parseText(Strip(repr)).Some? {
        IsoNotEmpty(parseText(Strip(repr)).value);
      }
    case Text(t) =>
      if Strip(t) != [] && parseText(Strip(t)).Some? {
        IsoNotEmpty(parseText(Strip(t)).value);
      }
    case _ =>
  }

  /** A serial number inside the timestamp range is the date that many
      days after 1899-12-30 (the fraction, a time of day, is dropped), and
      prints as a ten-character ISO date that reads back as that date. */
  lemma FmtDateOfSerial(x: real, repr: string, parseText: string -> Option<Ymd>)
    requires InTimestampRange(x)
    ensures var d := SerialDate(x);
      && FmtDate(Num(x, repr), parseText) == Iso(d)
      && Ordinal(d) - SerialOrigin == x.Floor
      && |Iso(d)| == 10 && ParseIso(Iso(d)) == Some(d)
  {
    IsoShape(SerialDate(x));
    IsoRoundTrip(SerialDate(x));
  }

  /** Serial 44197 is New Year's Day 2021. */
  lemma Serial44197()
    ensures InTimestampRange(44197.0) && SerialDate(44197.0) == Ymd(2021, 1, 1)
  {
    assert DaysBeforeYear(2021) == 737790;
    assert Ordinal(Ymd(2021, 1, 1)) == 737791;
    FromOrdinalOfOrdinal(Ymd(2021, 1, 1));
  }

  /** Text the parser cannot read comes back stripped but otherwise
      unchanged, and so does a number outside the timestamp range. */
  lemma FmtDateFallback(v: Cell, parseText: string -> Option<Ymd>)
    requires v.Text? || (v.Num? && !InTimestampRange(v.value))
    requires var s := Strip(if v.Text? then v.text else v.repr); s != [] && parseText(s).None?
    ensures FmtDate(v, parseText) == Strip(if v.Text? then v.text else v.repr)
  {
  }
}
