/** The helpers of `utils/fire_a_quote_utils.py`: header normalisation and
    resolution, numeric coercion of a cell, sheet choice, file-name
    sanitising, and the persisted quote-number counter. */
module QuoteUtils {
  import opened Strings
  import opened Cells

  // ---------------------------------------------------------------- headers

  /** `_norm_cols`: every header is stripped and lower-cased, header by
      header, order kept. */
  function NormCols(cols: seq<string>): (r: seq<string>)
    ensures |r| == |cols|
    ensures forall i :: 0 <= i < |cols| ==> r[i] == Lower(Strip(cols[i]))
  {
    seq(|cols|, i requires 0 <= i < |cols| => Lower(Strip(cols[i])))
  }

  /** A normalised header has no surrounding whitespace and no upper-case
      letter, so normalising twice changes nothing. */
  lemma NormColsIdempotent(cols: seq<string>)
    ensures forall i :: 0 <= i < |cols| ==>
      NoUpperCase(NormCols(cols)[i]) && Strip(NormCols(cols)[i]) == NormCols(cols)[i]
    ensures NormCols(NormCols(cols)) == NormCols(cols)
  {
    forall i | 0 <= i < |cols|
      ensures NoUpperCase(NormCols(cols)[i]) && Strip(NormCols(cols)[i]) == NormCols(cols)[i]
      ensures Lower(Strip(NormCols(cols)[i])) == NormCols(cols)[i]
    {
      var t := Strip(cols[i]);
      LowerIdempotent(t);
      LowerStripCommute(t);
      StripIdempotent(cols[i]);
    }
  }

  /** `names[k]` is the first name, in preference order, equal to a header. */
  predicate FirstExact(cols: seq<string>, names: seq<string>, k: int) {
    && 0 <= k < |names| && names[k] in cols
    && forall k' :: 0 <= k' < k ==> names[k'] !in cols
  }

  /** `names[k]` is the first name that occurs inside some header, and
      `cols[j]` is the first header, in column order, it occurs in. */
  predicate FirstContained(cols: seq<string>, names: seq<string>, k: int, j: int) {
    && 0 <= k < |names| && 0 <= j < |cols| && Contains(cols[j], names[k])
    && (forall k', j' :: 0 <= k' < k && 0 <= j' < |cols| ==> !Contains(cols[j'], names[k']))
    && (forall j' :: 0 <= j' < j ==> !Contains(cols[j'], names[k]))
  }

  /** The first loop of `_pick`: the position of the first name that is a header. */
  function ExactIndex(cols: seq<string>, names: seq<string>): (r: Option<nat>)
    ensures r.Some? ==> FirstExact(cols, names, r.value)
    ensures r.None? ==> forall k :: 0 <= k < |names| ==> names[k] !in cols
  {
    if names == [] then None
    else if names[0] in cols then Some(0)
    else match ExactIndex(cols, names[1..])
      case None => None
      case Some(k) => Some(k + 1)
  }

  /** The inner loop of the second loop of `_pick`: the first header that
      contains `name`. */
  function ContainingIndex(cols: seq<string>, name: string): (r: Option<nat>)
    ensures r.Some? ==> (r.value < |cols| && Contains(cols[r.value], name)
      && forall j :: 0 <= j < r.value ==> !Contains(cols[j], name))
    ensures r.None? ==> forall j :: 0 <= j < |cols| ==> !Contains(cols[j], name)
  {
    if cols == [] then None
    else if Contains(cols[0], name) then Some(0)
    else match ContainingIndex(cols[1..], name)
      case None => None
      case Some(j) => Some(j + 1)
  }

  /** The second loop of `_pick`: names in preference order, headers in
      column order, the first (name, header) pair where the name occurs in
      the header. */
  function SubstringIndex(cols: seq<string>, names: seq<string>): (r: Option<(nat, nat)>)
    ensures r.Some? ==> FirstContained(cols, names, r.value.0, r.value.1)
    ensures r.None? ==> forall k, j :: 0 <= k < |names| && 0 <= j < |cols| ==> !Contains(cols[j], names[k])
  {
    if names == [] then None
    else match ContainingIndex(cols, names[0])
      case Some(j) => Some((0, j))
      case None =>
        match SubstringIndex(cols, names[1..])
        case None => None
        case Some(p) =>
          assert FirstContained(cols, names[1..], p.0, p.1);
          Some((p.0 + 1, p.1))
  }

  /** `_pick`: the header a ranked list of aliases resolves to. An exact
      match on any alias beats every substring match; among substring
      matches the earliest alias wins, then the earliest header. */
  function Pick(cols: seq<string>, names: seq<string>): (r: Option<string>)
    ensures r.Some? ==> r.value in cols
    ensures (exists k :: FirstExact(cols, names, k)) ==>
      exists k :: FirstExact(cols, names, k) && r == Some(names[k])
    ensures (forall k :: 0 <= k < |names| ==> names[k] !in cols) ==>
      (r.None? <==> forall k, j :: 0 <= k < |names| && 0 <= j < |cols| ==> !Contains(cols[j], names[k]))
    ensures (forall k :: 0 <= k < |names| ==> names[k] !in cols) && r.Some? ==>
      exists k, j :: FirstContained(cols, names, k, j) && r == Some(cols[j])
  {
    match ExactIndex(cols, names)
    case Some(k) => Some(names[k])
    case None =>
      match SubstringIndex(cols, names)
      case Some(p) => Some(cols[p.1])
      case None => None
  }

  /** An exact alias later in the list beats an earlier alias that only
      occurs inside another header. */
  lemma PickPrefersExact()
    ensures Pick(["unit price extended", "price"], ["unit price", "price"]) == Some("price")
  {
  }

  // ---------------------------------------------------------------- numbers

  /** `_num`: `float(str(x).replace(",", "").replace("$", ""))`, with `None`
      for a value Python cannot convert. A number keeps its value (Python's
      `str` of a float reads back to the same float). */
  function NumValue(c: Cell): (r: Option<Float>)
    ensures c.Num? ==> r == Some(Finite(c.value))
  {
    match c
    case Num(v, _) => Some(Finite(v))
    case _ => ParseFloat(RemoveChar(RemoveChar(Str(c), ','), '$'))
  }

  /** A NaN cell is read as NaN: `str(nan)` is `nan`, which `float`
      accepts. */
  lemma NumOfNaN()
    ensures NumValue(NaN) == Some(NotANumber)
  {
    assert Str(NaN) == "nan";
    assert ',' !in "nan" && '$' !in "nan";
    assert RemoveChar(RemoveChar("nan", ','), '$') == "nan";
    NanTextIsNaN();
  }

  lemma NanTextIsNaN()
    ensures ParseFloat("nan") == Some(NotANumber)
  {
    StripUnchanged("nan");
    assert Unsigned("nan") == "nan";
    NanIsANanWord();
    ParseFloatOfNan("nan");
  }

  lemma NanIsANanWord()
    ensures IsNanWord("nan")
  {
    assert LowerChar('n') == 'n' && LowerChar('a') == 'a';
  }

  /** An empty (`None`) cell is no number: `float("None")` raises. */
  lemma NumOfNull()
    ensures NumValue(Null).None?
  {
    NoneIsAWord();
    NoneParsesToNothing();
    assert Str(Null) == "None";
  }

  lemma NoneParsesToNothing()
    ensures ParseFloat("None").None?
  {
    NoneIsAWord();
    ParseFloatRejectsWord("None");
  }

  lemma NoneIsAWord()
    ensures NoDigit("None") && !IsSpace('N') && !IsSpace('e') && !IsNanWord("None")
    ensures RemoveChar(RemoveChar("None", ','), '$') == "None"
  {
  }

  /** Text without any digit never parses to a finite number. */
  lemma NumNeedsDigit(s: string)
    requires NoDigit(s)
    ensures NumValue(Text(s)).None? || NumValue(Text(s)) == Some(NotANumber)
  {
    RemoveCharKeepsNoDigit(s, ',');
    RemoveCharKeepsNoDigit(RemoveChar(s, ','), '$');
    ParseFloatNeedsDigit(RemoveChar(RemoveChar(s, ','), '$'));
  }

  lemma {:induction false} RemoveCharKeepsNoDigit(s: string, c: char)
    requires NoDigit(s)
    ensures NoDigit(RemoveChar(s, c))
  {
    if s != [] {
      RemoveCharKeepsNoDigit(s[1..], c);
    }
  }

  /** Text with no separator and no currency sign is parsed as it is. */
  lemma NumValueOfPlainText(s: string)
    requires ',' !in s && '$' !in s
    ensures NumValue(Text(s)) == ParseFloat(s)
  {
  }

  /** Every character of `s` is a digit, `a` or `b`. */
  predicate DigitsWith(s: string, a: char, b: char) {
    forall i :: 0 <= i < |s| ==> IsDigit(s[i]) || s[i] == a || s[i] == b
  }

  predicate HasDigit(s: string) {
    exists i :: 0 <= i < |s| && IsDigit(s[i])
  }

  /** `_num` reads text by dropping `,` and `$` and handing the rest to `float`. */
  lemma NumValueOfText(s: string)
    ensures NumValue(Text(s)) == ParseFloat(RemoveChar(RemoveChar(s, ','), '$'))
  {
  }

  /** Digits written with thousands separators and currency signs anywhere
      among them, such as `$1,234`, read as the number the digits spell. */
  lemma NumOfSeparatedDigits(s: string)
    requires DigitsWith(s, ',', '$') && HasDigit(s)
    ensures AllDigits(RemoveChar(RemoveChar(s, ','), '$'))
    ensures NumValue(Text(s)) == Some(Finite(DigitsValue(RemoveChar(RemoveChar(s, ','), '$')) as real))
  {
    var u := RemoveChar(s, ',');
    RemoveCharKeepsDigits(s, ',', '$');
    var v := RemoveChar(u, '$');
    RemoveCharKeepsDigits(u, '$', '$');
    assert AllDigits(v) && v != [];
    NumValueOfText(s);
    ParseFloatOfDigitRun(v);
  }

  /** Removing a non-digit `c` keeps every digit and lets nothing else in. */
  lemma {:induction false} RemoveCharKeepsDigits(s: string, c: char, other: char)
    requires !IsDigit(c) && DigitsWith(s, c, other)
    ensures DigitsWith(RemoveChar(s, c), other, other)
    ensures HasDigit(s) ==> HasDigit(RemoveChar(s, c))
  {
    if s != [] {
      RemoveCharKeepsDigits(s[1..], c, other);
      var head := if s[0] == c then [] else [s[0]];
      var rest := RemoveChar(s[1..], c);
      assert RemoveChar(s, c) == head + rest;
      if HasDigit(s) {
        if IsDigit(s[0]) {
          assert IsDigit(RemoveChar(s, c)[0]);
        } else {
          var i :| 0 <= i < |s| && IsDigit(s[i]);
          assert IsDigit(s[1..][i - 1]);
          var k :| 0 <= k < |rest| && IsDigit(rest[k]);
          assert RemoveChar(s, c)[|head| + k] == rest[k];
        }
      }
    }
  }

  // ---------------------------------------------------------------- sheets

  /** `lowers.index(want.lower())`: the first sheet whose lower-cased name
      is `want` lower-cased. */
  function SheetIndex(sheets: seq<string>, want: string): (r: Option<nat>)
    ensures r.Some? ==> (r.value < |sheets| && Lower(sheets[r.value]) == Lower(want)
      && forall i :: 0 <= i < r.value ==> Lower(sheets[i]) != Lower(want))
    ensures r.None? ==> forall i :: 0 <= i < |sheets| ==> Lower(sheets[i]) != Lower(want)
  {
    if sheets == [] then None
    else if Lower(sheets[0]) == Lower(want) then Some(0)
    else match SheetIndex(sheets[1..], want)
      case None => None
      case Some(i) => Some(i + 1)
  }

  predicate SheetMatches(sheets: seq<string>, want: string) {
    exists i :: 0 <= i < |sheets| && Lower(sheets[i]) == Lower(want)
  }

  /** `candidates[k]` is the first candidate that names some sheet. */
  predicate FirstSheetMatch(sheets: seq<string>, candidates: seq<string>, k: int) {
    && 0 <= k < |candidates| && SheetMatches(sheets, candidates[k])
    && forall k' :: 0 <= k' < k ==> !SheetMatches(sheets, candidates[k'])
  }

  /** `_prefer_sheet`: the original-cased name of the first sheet matching the
      earliest candidate that matches any sheet, ignoring case; otherwise the
      first sheet. A workbook always has at least one sheet. */
  function PreferSheet(sheets: seq<string>, candidates: seq<string>): (r: string)
    requires |sheets| > 0
    ensures r in sheets
    ensures (forall k :: 0 <= k < |candidates| ==> !SheetMatches(sheets, candidates[k])) ==> r == sheets[0]
    ensures forall k :: FirstSheetMatch(sheets, candidates, k) ==>
        (exists i :: 0 <= i < |sheets| && r == sheets[i] && Lower(sheets[i]) == Lower(candidates[k])
          && forall i' :: 0 <= i' < i ==> Lower(sheets[i']) != Lower(candidates[k]))
  {
    if candidates == [] then sheets[0]
    else match SheetIndex(sheets, candidates[0])
      case Some(i) =>
        assert SheetMatches(sheets, candidates[0]);
        sheets[i]
      case None =>
        var r := PreferSheet(sheets, candidates[1..]);
        FirstSheetMatchTail(sheets, candidates);
        r
  }

  /** When the first candidate names no sheet, the first matching candidate
      is the first matching one of the rest. */
  lemma FirstSheetMatchTail(sheets: seq<string>, candidates: seq<string>)
    requires candidates != [] && !SheetMatches(sheets, candidates[0])
    ensures forall k :: 1 <= k < |candidates| ==> candidates[k] == candidates[1..][k - 1]
    ensures forall k :: FirstSheetMatch(sheets, candidates, k) ==> k >= 1 && FirstSheetMatch(sheets, candidates[1..], k - 1)
  {
    forall k | FirstSheetMatch(sheets, candidates, k)
      ensures k >= 1 && FirstSheetMatch(sheets, candidates[1..], k - 1)
    {
      assert k != 0;
      forall k' | 0 <= k' < k - 1
        ensures !SheetMatches(sheets, candidates[1..][k'])
      {
        assert candidates[1..][k'] == candidates[k' + 1];
      }
    }
  }

  /** Candidates are compared without regard to case. */
  lemma {:induction false} PreferSheetIgnoresCase(sheets: seq<string>, a: seq<string>, b: seq<string>)
    requires |sheets| > 0 && |a| == |b|
    requires forall k :: 0 <= k < |a| ==> Lower(a[k]) == Lower(b[k])
    ensures PreferSheet(sheets, a) == PreferSheet(sheets, b)
  {
    if a != [] {
      SheetIndexIgnoresCase(sheets, a[0], b[0]);
      PreferSheetIgnoresCase(sheets, a[1..], b[1..]);
    }
  }

  lemma {:induction false} SheetIndexIgnoresCase(sheets: seq<string>, x: string, y: string)
    requires Lower(x) == Lower(y)
    ensures SheetIndex(sheets, x) == SheetIndex(sheets, y)
  {
    if sheets != [] {
      SheetIndexIgnoresCase(sheets[1..], x, y);
    }
  }

  // ---------------------------------------------------------------- file names

  predicate Illegal(c: char) {
    c == '\\' || c == '/' || c == '*' || c == '?' || c == ':' || c == '"' || c == '<' || c == '>' || c == '|'
  }

  /** The Windows device names that cannot be used as a file name. */
  const Reserved: set<string> := {
    "CON", "PRN", "AUX", "NUL",
    "COM1", "COM2", "COM3", "COM4", "COM5", "COM6", "COM7", "COM8", "COM9",
    "LPT1", "LPT2", "LPT3", "LPT4", "LPT5", "LPT6", "LPT7", "LPT8", "LPT9"
  }

  /** The `re.sub` of line 31: each illegal character becomes `_`. */
  function ReplaceIllegal(s: string): (r: string)
    ensures |r| == |s|
    ensures forall i :: 0 <= i < |s| ==> r[i] == if Illegal(s[i]) then '_' else s[i]
  {
    seq(|s|, i requires 0 <= i < |s| => if Illegal(s[i]) then '_' else s[i])
  }

  predicate SpaceOrDot(c: char) {
    c == ' ' || c == '.'
  }

  /** `_safe_filename`: a name that is never empty, holds none of
      `\ / * ? : " < > |`, does not end in a space or a dot, and whose
      upper-case form is not a reserved device name. */
  function SafeFilename(s: string): (r: string)
    ensures r != []
    ensures forall i :: 0 <= i < |r| ==> !Illegal(r[i])
    ensures !SpaceOrDot(r[|r| - 1])
    ensures Upper(r) !in Reserved
  {
    AvoidReserved(CleanName(s))
  }

  /** Lines 30-32: strip, replace illegal characters, drop trailing spaces
      and dots. */
  function CleanName(s: string): (r: string)
    ensures forall i :: 0 <= i < |r| ==> !Illegal(r[i])
    ensures r == [] || !SpaceOrDot(r[|r| - 1])
  {
    var replaced := ReplaceIllegal(Strip(s));
    var r := TrimEnd(replaced, SpaceOrDot);
    TrimEndShape(replaced, SpaceOrDot);
    assert forall i :: 0 <= i < |r| ==> r[i] == replaced[i];
    r
  }

  /** Lines 38-40: prefix a device name with `_`, and fall back to `file`
      for an empty name. */
  function AvoidReserved(cleaned: string): (r: string)
    requires forall i :: 0 <= i < |cleaned| ==> !Illegal(cleaned[i])
    requires cleaned == [] || !SpaceOrDot(cleaned[|cleaned| - 1])
    ensures r != []
    ensures forall i :: 0 <= i < |r| ==> !Illegal(r[i])
    ensures !SpaceOrDot(r[|r| - 1])
    ensures Upper(r) !in Reserved
  {
    if Upper(cleaned) in Reserved then
      PrefixedNotReserved(cleaned);
      "_" + cleaned
    else if cleaned == [] then
      FileNotReserved();
      "file"
    else
      cleaned
  }

  lemma PrefixedNotReserved(name: string)
    ensures Upper("_" + name) !in Reserved
  {
    ReservedInitials();
    assert Upper("_" + name)[0] == '_';
  }

  lemma FileNotReserved()
    ensures Upper("file") !in Reserved
  {
    ReservedInitials();
    assert Upper("file")[0] == 'F';
  }

  /** Every device name begins with one of `A C L N P`. */
  lemma ReservedInitials()
    ensures forall w :: w in Reserved ==> |w| > 0 && w[0] in "ACLNP"
  {
  }

  /** A name that is already safe comes back unchanged. */
  lemma SafeFilenameKeepsSafeNames(s: string)
    requires s != [] && !IsSpace(s[0]) && !IsSpace(s[|s| - 1])
    requires forall i :: 0 <= i < |s| ==> !Illegal(s[i])
    requires !SpaceOrDot(s[|s| - 1])
    requires Upper(s) !in Reserved
    ensures SafeFilename(s) == s
  {
    StripUnchanged(s);
    assert ReplaceIllegal(s) == s;
  }

  /** Device names are upper-case letters and digits. */
  lemma ReservedAlphanumeric()
    ensures forall w :: w in Reserved ==>
      forall i :: 0 <= i < |w| ==> 'A' <= w[i] <= 'Z' || '1' <= w[i] <= '9'
  {
  }

  /** A reserved name, in any case, is kept but prefixed with `_`. */
  lemma SafeFilenameOfReserved(s: string)
    requires Upper(s) in Reserved
    ensures SafeFilename(s) == "_" + s
  {
    ReservedNameChars(s);
    StripUnchanged(s);
    assert ReplaceIllegal(s) == s;
    assert TrimEnd(s, SpaceOrDot) == s;
    assert CleanName(s) == s;
  }

  /** A name whose upper case is reserved is made of letters and digits. */
  lemma ReservedNameChars(s: string)
    requires Upper(s) in Reserved
    ensures s != []
    ensures forall i :: 0 <= i < |s| ==> 'A' <= s[i] <= 'Z' || 'a' <= s[i] <= 'z' || '1' <= s[i] <= '9'
  {
    ReservedInitials();
    ReservedAlphanumeric();
    forall i | 0 <= i < |s|
      ensures 'A' <= s[i] <= 'Z' || 'a' <= s[i] <= 'z' || '1' <= s[i] <= '9'
    {
      assert UpperChar(s[i]) == Upper(s)[i];
    }
  }

  // ---------------------------------------------------------------- counter

  /** `re.search(r"(\d+)", s)`: the first maximal run of decimal digits. */
  function FirstDigitRun(s: string): (r: Option<string>)
    ensures r.None? <==> forall i :: 0 <= i < |s| ==> !IsDigit(s[i])
    ensures r.Some? ==> (r.value != [] && AllDigits(r.value)
      && exists i :: (OccursAt(s, r.value, i) && (forall k :: 0 <= k < i ==> !IsDigit(s[k]))
        && (i + |r.value| == |s| || !IsDigit(s[i + |r.value|]))))
  {
    var i := Find(s, IsDigit);
    if i == |s| then None
    else
      var n := Find(s[i..], c => !IsDigit(c));
      assert OccursAt(s, s[i..][..n], i);
      Some(s[i..][..n])
  }

  /** The number the counter file holds (lines 86-96): the first run of
      digits in the stripped text, or 1 when the file is missing, empty or
      holds no digit. */
  function ReadCounter(stored: Option<string>): nat {
    match stored
    case None => 1
    case Some(text) =>
      var raw := Strip(text);
      var m := if raw != [] then FirstDigitRun(raw) else None;
      if m.Some? then DigitsValue(m.value) else 1
  }

  /** What the counter writes back is read as exactly that number. */
  lemma ReadCounterOfWritten(n: nat)
    ensures ReadCounter(Some(NatToString(n))) == n
  {
    var s := NatToString(n);
    StripUnchanged(s);
    assert Find(s, IsDigit) == 0;
    DigitsAvoid(s, c => !IsDigit(c));
    assert s[0..][..|s|] == s;
    NatToStringRoundTrip(n);
  }

  /** A missing file, or one holding only whitespace, starts the count at 1. */
  lemma ReadCounterOfBlank(text: string)
    requires forall i :: 0 <= i < |text| ==> IsSpace(text[i])
    ensures ReadCounter(None) == 1
    ensures ReadCounter(Some(text)) == 1
  {
    var i, j := StripShape(text);
    assert i == j;
  }

  /** A file holding a prefixed value such as `Q-1234` reads as the number. */
  lemma ReadCounterOfPrefixed(prefix: string, n: nat)
    requires NoDigit(prefix) && (prefix == [] || !IsSpace(prefix[0]))
    ensures ReadCounter(Some(prefix + NatToString(n))) == n
  {
    var d := NatToString(n);
    var s := prefix + d;
    assert !IsSpace(s[0]) && !IsSpace(s[|s| - 1]);
    StripUnchanged(s);
    FirstDigitRunPastPrefix(prefix, d);
    NatToStringRoundTrip(n);
  }

  lemma FirstDigitRunPastPrefix(prefix: string, d: string)
    requires NoDigit(prefix) && d != [] && AllDigits(d)
    ensures FirstDigitRun(prefix + d) == Some(d)
  {
    FindPastPrefix(prefix, d);
    assert (prefix + d)[|prefix|..] == d;
    DigitsAvoid(d, c => !IsDigit(c));
    assert d[..|d|] == d;
  }

  lemma {:induction false} FindPastPrefix(prefix: string, d: string)
    requires NoDigit(prefix) && d != [] && IsDigit(d[0])
    ensures Find(prefix + d, IsDigit) == |prefix|
  {
    if prefix != [] {
      FindPastPrefix(prefix[1..], d);
      assert (prefix + d)[1..] == prefix[1..] + d;
    } else {
      assert prefix + d == d;
    }
  }

  /** The persisted quote counter: the text of the counter file, `None`
      while the file does not exist. */
  class QuoteCounter {
    var stored: Option<string>

    constructor (initial: Option<string>)
      ensures stored == initial
    {
      stored := initial;
    }

    /** `pop_and_increment_quote_number`: issues the stored number with the
        prefix and stores the next one, so the following call issues exactly
        one more. */
    method PopAndIncrement(prefix: string) returns (id: string)
      modifies this
      ensures id == prefix + NatToString(ReadCounter(old(stored)))
      ensures stored == Some(NatToString(ReadCounter(old(stored)) + 1))
      ensures ReadCounter(stored) == ReadCounter(old(stored)) + 1
    {
      var current := ReadCounter(stored);
      var next := current + 1;
      stored := Some(NatToString(next));
      ReadCounterOfWritten(next);
      id := prefix + NatToString(current);
    }
  }

  /** From a missing counter file, two runs issue `Q-1` and then `Q-2`. */
  method IssueTwiceFromMissing() returns (first: string, second: string)
    ensures first == "Q-1" && second == "Q-2"
  {
    var counter := new QuoteCounter(None);
    first := counter.PopAndIncrement("Q-");
    second := counter.PopAndIncrement("Q-");
    OneAndTwo();
  }

  lemma OneAndTwo()
    ensures NatToString(1) == "1" && NatToString(2) == "2"
  {
  }
}
