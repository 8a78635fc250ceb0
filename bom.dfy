/** The BOM sheet writer: the row-numbered formula strings, the data frame
    `build_dataframe` assembles from item records, the sheet-name limit and
    the placement of the totals footer. */
module BomSpitter {
  import opened Strings
  import opened Cells
  import QuoteItems

  // ------------------------------------------------------ cell references

  predicate IsColumnLetter(c: char) {
    'A' <= c <= 'Z'
  }

  predicate NotDigit(c: char) {
    !IsDigit(c)
  }

  /** A cell reference such as `B7`: a column letter and a 1-based row. */
  datatype Ref = Ref(column: char, row: nat)

  /** The text of a reference, as an f-string `{col}{row}` prints it. */
  function RefText(column: char, row: nat): string {
    [column] + NatToString(row)
  }

  /** The cell references a formula mentions, left to right: every column
      letter immediately followed by a run of digits, read as a row number.
      This is how a spreadsheet reads the formula, independently of how it
      was printed. */
  function Refs(f: string): seq<Ref>
    decreases |f|
  {
    if f == [] then []
    else if |f| > 1 && IsColumnLetter(f[0]) && IsDigit(f[1]) then
      var n := Find(f[1..], NotDigit);
      [Ref(f[0], DigitsValue(f[1..n + 1]))] + Refs(f[n + 1..])
    else Refs(f[1..])
  }

  /** Text that holds no reference of its own. */
  predicate NoRef(t: string) {
    forall i :: 0 <= i < |t| - 1 ==> !(IsColumnLetter(t[i]) && IsDigit(t[i + 1]))
  }

  predicate StartsNonDigit(s: string) {
    s == [] || !IsDigit(s[0])
  }

  lemma {:induction false} FindPastDigits(d: string, s: string)
    requires AllDigits(d) && StartsNonDigit(s)
    ensures Find(d + s, NotDigit) == |d|
  {
    if d != [] {
      assert (d + s)[1..] == d[1..] + s;
      FindPastDigits(d[1..], s);
    } else {
      assert d + s == s;
    }
  }

  lemma {:induction false} FindAppend(a: string, b: string, p: char -> bool)
    requires b == [] || p(b[0])
    ensures Find(a + b, p) == Find(a, p)
  {
    if a == [] {
      assert a + b == b;
    } else {
      assert (a + b)[1..] == a[1..] + b;
      FindAppend(a[1..], b, p);
    }
  }

  /** References never straddle a join whose right side starts with a
      non-digit, so the references of the whole are those of the parts. */
  lemma {:induction false} RefsAppend(a: string, b: string)
    requires StartsNonDigit(b)
    ensures Refs(a + b) == Refs(a) + Refs(b)
    decreases |a|, 1
  {
    if a == [] {
      assert a + b == b;
    } else if |a| > 1 && IsColumnLetter(a[0]) && IsDigit(a[1]) {
      RefsAppendAtRef(a, b);
    } else {
      RefsAppendPast(a, b);
    }
  }

  /** `RefsAppend` when `a` starts with a reference. */
  lemma {:induction false} RefsAppendAtRef(a: string, b: string)
    requires StartsNonDigit(b) && |a| > 1 && IsColumnLetter(a[0]) && IsDigit(a[1])
    ensures Refs(a + b) == Refs(a) + Refs(b)
    decreases |a|, 0
  {
    var n := Find(a[1..], NotDigit);
    AppendSlices(a, b, n + 1);
    FindAppend(a[1..], b, NotDigit);
    RefsAppend(a[n + 1..], b);
    RefsStep(a + b, a, b, n);
  }

  /** Both `f` and `a` start with the same reference, ending at `n + 1`;
      what follows it in `f` reads as what follows it in `a`, then `b`. */
  lemma RefsStep(f: string, a: string, b: string, n: nat)
    requires |a| > 1 && IsColumnLetter(a[0]) && IsDigit(a[1])
    requires |f| > 1 && f[0] == a[0] && f[1] == a[1]
    requires Find(a[1..], NotDigit) == n && Find(f[1..], NotDigit) == n
    requires n + 1 <= |a| && n + 1 <= |f| && f[1..n + 1] == a[1..n + 1]
    requires Refs(f[n + 1..]) == Refs(a[n + 1..]) + Refs(b)
    ensures Refs(f) == Refs(a) + Refs(b)
  {
    RefsUnfold(f, n);
    RefsUnfold(a, n);
    var r := Ref(a[0], DigitsValue(a[1..n + 1]));
    assert Ref(f[0], DigitsValue(f[1..n + 1])) == r;
    ConcatAssoc([r], Refs(a[n + 1..]), Refs(b));
  }

  lemma ConcatAssoc(x: seq<Ref>, y: seq<Ref>, z: seq<Ref>)
    ensures x + (y + z) == (x + y) + z
  {
  }

  /** One step of `Refs` at a reference whose digits end at `n + 1`. */
  lemma RefsUnfold(f: string, n: nat)
    requires |f| > 1 && IsColumnLetter(f[0]) && IsDigit(f[1]) && Find(f[1..], NotDigit) == n
    ensures n + 1 <= |f|
    ensures Refs(f) == [Ref(f[0], DigitsValue(f[1..n + 1]))] + Refs(f[n + 1..])
  {
  }

  lemma AppendSlices(a: string, b: string, k: nat)
    requires 1 <= k <= |a|
    ensures (a + b)[1..] == a[1..] + b
    ensures (a + b)[1..k] == a[1..k] && (a + b)[k..] == a[k..] + b
  {
  }

  /** `RefsAppend` when `a` does not start with a reference. */
  lemma {:induction false} RefsAppendPast(a: string, b: string)
    requires StartsNonDigit(b) && a != [] && !(|a| > 1 && IsColumnLetter(a[0]) && IsDigit(a[1]))
    ensures Refs(a + b) == Refs(a) + Refs(b)
    decreases |a|, 0
  {
    var f := a + b;
    assert !(|f| > 1 && IsColumnLetter(f[0]) && IsDigit(f[1])) by {
      if |a| > 1 {
        assert f[1] == a[1];
      } else if |f| > 1 {
        assert f[1] == b[0];
      }
    }
    assert f[1..] == a[1..] + b;
    RefsAppend(a[1..], b);
  }

  lemma {:induction false} RefsOfNoRef(t: string)
    requires NoRef(t)
    ensures Refs(t) == []
  {
    if t != [] {
      assert !(|t| > 1 && IsColumnLetter(t[0]) && IsDigit(t[1]));
      RefsOfNoRef(t[1..]);
    }
  }

  /** A reference on its own reads back as itself. */
  lemma RefsOfRef(column: char, row: nat)
    requires IsColumnLetter(column)
    ensures Refs(RefText(column, row)) == [Ref(column, row)]
  {
    var d := NatToString(row);
    var f := RefText(column, row);
    assert f[1..] == d + [];
    assert f[1] == d[0];
    FindPastDigits(d, []);
    assert f[1..|d| + 1] == d;
    assert f[|d| + 1..] == [];
    NatToStringRoundTrip(row);
  }

  /** Text with one reference. */
  lemma RefsOfOne(p: string, a: char, x: nat, s: string)
    requires NoRef(p) && NoRef(s) && StartsNonDigit(s) && IsColumnLetter(a)
    ensures Refs(p + RefText(a, x) + s) == [Ref(a, x)]
  {
    RefsAppend(p, RefText(a, x));
    RefsAppend(p + RefText(a, x), s);
    RefsOfNoRef(p);
    RefsOfNoRef(s);
    RefsOfRef(a, x);
  }

  /** A formula with two references. */
  lemma RefsOfTwo(p: string, a: char, x: nat, q: string, b: char, y: nat, s: string)
    requires NoRef(p) && NoRef(q) && NoRef(s)
    requires StartsNonDigit(q) && StartsNonDigit(s)
    requires IsColumnLetter(a) && IsColumnLetter(b)
    ensures Refs(p + RefText(a, x) + q + RefText(b, y) + s) == [Ref(a, x), Ref(b, y)]
  {
    var w := p + RefText(a, x) + q;
    RefsOfOne(p, a, x, q);
    RefsAppend(w, RefText(b, y));
    RefsAppend(w + RefText(b, y), s);
    RefsOfNoRef(s);
    RefsOfRef(b, y);
  }

  /** A formula with three references. */
  lemma RefsOfThree(p: string, a: char, x: nat, q: string, b: char, y: nat,
                    r: string, c: char, z: nat, s: string)
    requires NoRef(p) && NoRef(q) && NoRef(r) && NoRef(s)
    requires StartsNonDigit(q) && StartsNonDigit(r) && StartsNonDigit(s)
    requires IsColumnLetter(a) && IsColumnLetter(b) && IsColumnLetter(c)
    ensures Refs(p + RefText(a, x) + q + RefText(b, y) + r + RefText(c, z) + s)
      == [Ref(a, x), Ref(b, y), Ref(c, z)]
  {
    var w := p + RefText(a, x) + q + RefText(b, y) + r;
    RefsOfTwo(p, a, x, q, b, y, r);
    RefsAppend(w, RefText(c, z));
    RefsAppend(w + RefText(c, z), s);
    RefsOfNoRef(s);
    RefsOfRef(c, z);
  }

  // ------------------------------------------------------------ formulas

  /** `_f_extended`: quantity times price times term. */
  function ExtendedFormula(n: nat): string {
    "=((" + RefText('B', n) + "*" + RefText('G', n) + ")*" + RefText('H', n) + ")"
  }

  /** `_f_your_price`: extended less the sell discount. */
  function YourPriceFormula(n: nat): string {
    "=(" + RefText('I', n) + "-(" + RefText('I', n) + "*" + RefText('J', n) + "))"
  }

  /** `_f_our_cost`: extended less the buy discount. */
  function OurCostFormula(n: nat): string {
    "=(" + RefText('I', n) + "-(" + RefText('I', n) + "*" + RefText('L', n) + "))"
  }

  /** `_f_margin`: (your price - our cost) / your price, or 0 on error. */
  function MarginFormula(n: nat): string {
    "=IFERROR(((" + RefText('K', n) + "-" + RefText('M', n) + ")/" + RefText('K', n) + "),0)"
  }

  lemma ExtendedRefs(n: nat)
    ensures Refs(ExtendedFormula(n)) == [Ref('B', n), Ref('G', n), Ref('H', n)]
  {
    RefsOfThree("=((", 'B', n, "*", 'G', n, ")*", 'H', n, ")");
  }

  lemma YourPriceRefs(n: nat)
    ensures Refs(YourPriceFormula(n)) == [Ref('I', n), Ref('I', n), Ref('J', n)]
  {
    RefsOfThree("=(", 'I', n, "-(", 'I', n, "*", 'J', n, "))");
  }

  lemma OurCostRefs(n: nat)
    ensures Refs(OurCostFormula(n)) == [Ref('I', n), Ref('I', n), Ref('L', n)]
  {
    RefsOfThree("=(", 'I', n, "-(", 'I', n, "*", 'L', n, "))");
  }

  lemma MarginRefs(n: nat)
    ensures Refs(MarginFormula(n)) == [Ref('K', n), Ref('M', n), Ref('K', n)]
  {
    RefsOfThree("=IFERROR(((", 'K', n, "-", 'M', n, ")/", 'K', n, "),0)");
  }

  // ------------------------------------------------------------- columns

  /** The 14 keys of every row dict, in insertion order: the columns of the
      sheet, A to N. */
  const Header: seq<string> := [" ", "QTY", "Product Type", "SKU", "Partner SKU",
    "Description", "Price", "Term", "Extended", "Discount", "Your Price",
    "Buy Discount", "Our Cost", "Margin"]

  /** The header of sheet column `c`. */
  function HeaderAt(c: char): string
    requires 'A' <= c <= 'N'
  {
    Header[c as int - 'A' as int]
  }

  /** The formulas compute what their columns are named for: Extended from
      QTY, Price and Term; Your Price from Extended and Discount; Our Cost
      from Extended and Buy Discount; Margin from Your Price and Our Cost. */
  lemma FormulaColumns()
    ensures HeaderAt('B') == "QTY" && HeaderAt('G') == "Price" && HeaderAt('H') == "Term"
    ensures HeaderAt('I') == "Extended" && HeaderAt('J') == "Discount"
    ensures HeaderAt('K') == "Your Price" && HeaderAt('L') == "Buy Discount"
    ensures HeaderAt('M') == "Our Cost" && HeaderAt('N') == "Margin"
  {
  }

  predicate IsUnnamed(col: string) {
    |col| >= 6 && col[..6] == "Unname"
  }

  /** `df.drop(df.filter(regex="^Unname"))`: drops the columns whose name
      starts with `Unname`, keeping the order of the others. */
  function DropUnnamed(cols: seq<string>): (r: seq<string>)
    ensures forall c :: c in r <==> c in cols && !IsUnnamed(c)
    ensures |r| <= |cols|
  {
    if cols == [] then []
    else if IsUnnamed(cols[0]) then DropUnnamed(cols[1..])
    else [cols[0]] + DropUnnamed(cols[1..])
  }

  /** A single column survives exactly when its name does not start with
      `Unname`. */
  lemma DropUnnamedOne(col: string)
    ensures DropUnnamed([col]) == if IsUnnamed(col) then [] else [col]
  {
    assert [col][1..] == [];
  }

  /** The drop works column by column: the survivors of consecutive runs
      of columns are the survivors of each run, in the same order. */
  lemma {:induction false} DropUnnamedAppend(a: seq<string>, b: seq<string>)
    ensures DropUnnamed(a + b) == DropUnnamed(a) + DropUnnamed(b)
  {
    if a == [] {
      assert a + b == b;
    } else {
      assert (a + b)[0] == a[0];
      assert (a + b)[1..] == a[1..] + b;
      DropUnnamedAppend(a[1..], b);
    }
  }

  /** No key of a built row looks like an `Unnamed` column, so the drop in
      `build_dataframe` keeps all 14 columns. */
  lemma {:induction false} DropUnnamedKeepsHeader()
    ensures DropUnnamed(Header) == Header
  {
    forall i | 0 <= i < |Header|
      ensures !IsUnnamed(Header[i])
    {
      var c := Header[i];
      assert |c| >= 6 ==> c[..6][0] == c[0];
    }
    KeepsNamed(Header);
  }

  lemma {:induction false} KeepsNamed(cols: seq<string>)
    requires forall i :: 0 <= i < |cols| ==> !IsUnnamed(cols[i])
    ensures DropUnnamed(cols) == cols
  {
    if cols != [] {
      KeepsNamed(cols[1..]);
      assert [cols[0]] + cols[1..] == cols;
    }
  }

  /** The header row as written: `Price` is shown as `List Price`. */
  function DisplayHeaders(cols: seq<string>): (r: seq<string>)
    ensures |r| == |cols| && "Price" !in r
    ensures forall i :: 0 <= i < |cols| && cols[i] != "Price" ==> r[i] == cols[i]
    ensures forall i :: 0 <= i < |cols| && cols[i] == "Price" ==> r[i] == "List Price"
  {
    if cols == [] then []
    else [if cols[0] == "Price" then "List Price" else cols[0]] + DisplayHeaders(cols[1..])
  }

  // ---------------------------------------------------------------- rows

  /** The value of one cell of the BOM sheet. */
  datatype Value = Empty | Label(text: string) | Number(x: real) | Formula(text: string)

  /** One item record: a key the caller leaves out is `None`. */
  datatype BomInput = BomInput(
    qty: Option<real>,
    productType: Option<string>,
    sku: Option<string>,
    ptSku: Option<string>,
    description: Option<string>,
    price: Option<real>,
    term: Option<real>,
    sellDisc: Option<real>,
    buyDisc: Option<real>)

  /** One row dict of `build_dataframe`, a field per key. */
  datatype BomRow = BomRow(
    blank: Value,
    qty: Value,
    productType: Value,
    sku: Value,
    partnerSku: Value,
    description: Value,
    price: Value,
    term: Value,
    extended: Value,
    discount: Value,
    yourPrice: Value,
    buyDiscount: Value,
    ourCost: Value,
    margin: Value)

  /** The row dict as key/value pairs in insertion order: the keys are
      `Header`, so the row fills the sheet columns A to N. */
  function Entries(row: BomRow): (r: seq<(string, Value)>)
    ensures |r| == |Header|
    ensures forall j :: 0 <= j < |r| ==> r[j].0 == Header[j]
  {
    [ (" ", row.blank), ("QTY", row.qty), ("Product Type", row.productType),
      ("SKU", row.sku), ("Partner SKU", row.partnerSku),
      ("Description", row.description), ("Price", row.price), ("Term", row.term),
      ("Extended", row.extended), ("Discount", row.discount),
      ("Your Price", row.yourPrice), ("Buy Discount", row.buyDiscount),
      ("Our Cost", row.ourCost), ("Margin", row.margin) ]
  }

  function Keys(entries: seq<(string, Value)>): (r: seq<string>)
    ensures |r| == |entries|
    ensures forall i :: 0 <= i < |entries| ==> r[i] == entries[i].0
  {
    if entries == [] then [] else [entries[0].0] + Keys(entries[1..])
  }

  /** The keys of every row, in order, are the 14 columns of `Header`. */
  lemma EntriesKeys(row: BomRow)
    ensures Keys(Entries(row)) == Header
  {
    var k := Keys(Entries(row));
    assert |k| == |Header|;
    assert forall j :: 0 <= j < |k| ==> k[j] == Header[j];
  }

  function RealOr(v: Option<real>, default: real): real {
    if v.Some? then v.value else default
  }

  function TextOr(v: Option<string>): string {
    if v.Some? then v.value else ""
  }

  /** Python's `int(x)` on a float: truncation toward zero. */
  function Trunc(x: real): (r: int)
    ensures 0.0 <= x ==> r as real <= x < r as real + 1.0
    ensures x < 0.0 ==> r as real - 1.0 < x <= r as real
  {
    if x >= 0.0 then x.Floor else -((-x).Floor)
  }

  /** Whole months of the term: 12 when absent or when it truncates to 0. */
  function TermMonths(term: Option<real>): (r: int)
    ensures r != 0
    ensures term.None? ==> r == 12
    ensures term.Some? && Trunc(term.value) != 0 ==> r == Trunc(term.value)
    ensures term.Some? && -1.0 < term.value < 1.0 ==> r == 12
  {
    var m := Trunc(RealOr(term, 12.0));
    if m == 0 then 12 else m
  }

  /** The row dict for one item at spreadsheet row `n`. */
  function RowFor(it: BomInput, n: nat): BomRow {
    BomRow(
      Label(""),
      Number(RealOr(it.qty, 1.0)),
      Label(TextOr(it.productType)),
      Label(TextOr(it.sku)),
      Label(TextOr(it.ptSku)),
      Label(TextOr(it.description)),
      Number(RealOr(it.price, 0.0)),
      Number(TermMonths(it.term) as real / 12.0),
      Formula(ExtendedFormula(n)),
      Number(RealOr(it.sellDisc, 0.0) / 100.0),
      Formula(YourPriceFormula(n)),
      Number(RealOr(it.buyDisc, 0.0) / 100.0),
      Formula(OurCostFormula(n)),
      Formula(MarginFormula(n)))
  }

  /** The formula cells of the row at spreadsheet row `n` reference that
      row and no other: Extended reads B, G and H; Your Price reads I and
      J; Our Cost reads I and L; Margin reads K and M. */
  lemma RowFormulas(it: BomInput, n: nat)
    ensures RowFor(it, n).extended.Formula?
    ensures Refs(RowFor(it, n).extended.text) == [Ref('B', n), Ref('G', n), Ref('H', n)]
    ensures RowFor(it, n).yourPrice.Formula?
    ensures Refs(RowFor(it, n).yourPrice.text) == [Ref('I', n), Ref('I', n), Ref('J', n)]
    ensures RowFor(it, n).ourCost.Formula?
    ensures Refs(RowFor(it, n).ourCost.text) == [Ref('I', n), Ref('I', n), Ref('L', n)]
    ensures RowFor(it, n).margin.Formula?
    ensures Refs(RowFor(it, n).margin.text) == [Ref('K', n), Ref('M', n), Ref('K', n)]
  {
    ExtendedRefs(n);
    YourPriceRefs(n);
    OurCostRefs(n);
    MarginRefs(n);
  }

  /** Rows at different spreadsheet rows get different formulas. */
  lemma RowFormulasDiffer(it: BomInput, m: nat, n: nat)
    requires m != n
    ensures RowFor(it, m).extended != RowFor(it, n).extended
    ensures RowFor(it, m).yourPrice != RowFor(it, n).yourPrice
    ensures RowFor(it, m).ourCost != RowFor(it, n).ourCost
    ensures RowFor(it, m).margin != RowFor(it, n).margin
  {
    RowFormulas(it, m);
    RowFormulas(it, n);
  }

  /** The item with no keys at all. */
  const NoKeys := BomInput(None, None, None, None, None, None, None, None, None)

  /** The defaults of `build_dataframe`: one unit, empty texts, price 0,
      a 12-month (one-year) term and no discounts. */
  lemma Defaults(n: nat)
    ensures RowFor(NoKeys, n).qty == Number(1.0)
    ensures RowFor(NoKeys, n).productType == Label("") && RowFor(NoKeys, n).sku == Label("")
    ensures RowFor(NoKeys, n).partnerSku == Label("") && RowFor(NoKeys, n).description == Label("")
    ensures RowFor(NoKeys, n).price == Number(0.0)
    ensures RowFor(NoKeys, n).term == Number(1.0)
    ensures RowFor(NoKeys, n).discount == Number(0.0) && RowFor(NoKeys, n).buyDiscount == Number(0.0)
  {
    assert TermMonths(None) == 12;
  }

  /** Months become years and percentages become fractions: scaled back,
      the Term, Discount and Buy Discount cells give the record's values;
      a term under one month in size counts as a year. */
  lemma Conversions(it: BomInput, n: nat)
    ensures RowFor(it, n).term.x * 12.0 == TermMonths(it.term) as real
    ensures it.term.Some? && it.term.value == it.term.value.Floor as real && it.term.value != 0.0 ==>
      RowFor(it, n).term.x * 12.0 == it.term.value
    ensures it.term.Some? && -1.0 < it.term.value < 1.0 ==> RowFor(it, n).term == Number(1.0)
    ensures RowFor(it, n).discount.x * 100.0 == RealOr(it.sellDisc, 0.0)
    ensures RowFor(it, n).buyDiscount.x * 100.0 == RealOr(it.buyDisc, 0.0)
  {
  }

  /** What `build_dataframe` returns: its columns and its rows. */
  datatype BomFrame = BomFrame(columns: seq<string>, rows: seq<BomRow>)

  /** `build_dataframe`: one row per item, in order, the item at index k on
      spreadsheet row k + 2 (row 1 is the header). An empty list gives a
      frame without columns. */
  method BuildDataframe(items: seq<BomInput>) returns (frame: BomFrame)
    ensures |frame.rows| == |items|
    ensures forall k :: 0 <= k < |items| ==> frame.rows[k] == RowFor(items[k], k + 2)
    ensures frame.columns == if items == [] then [] else Header
  {
    var rows: seq<BomRow> := [];
    var idx := 2;
    for k := 0 to |items|
      invariant idx == k + 2
      invariant |rows| == k
      invariant forall j :: 0 <= j < k ==> rows[j] == RowFor(items[j], j + 2)
    {
      rows := rows + [RowFor(items[k], idx)];
      idx := idx + 1;
    }
    var columns := if rows == [] then [] else Keys(Entries(rows[0]));
    if rows != [] {
      EntriesKeys(rows[0]);
    }
    DropUnnamedKeepsHeader();
    frame := BomFrame(DropUnnamed(columns), rows);
  }

  // ---------------------------------------------------------- the sheet

  /** Excel's 31-character limit on sheet names: longer names keep their
      first 29 characters and end in `..`. */
  function SheetName(s: string): (r: string)
    ensures |r| <= 31
    ensures |s| <= 31 ==> r == s
    ensures |s| > 31 ==> |r| == 31 && r[..29] == s[..29] && r[29..] == ".."
  {
    if |s| <= 31 then s else s[..29] + ".."
  }

  /** The sheet columns, A to N. */
  const Letters: string := "ABCDEFGHIJKLMN"

  /** The footer row, one row below the last data row; `lastRow` is the
      0-based index of the last written row (the header is row 0). */
  function TotalsRow(lastRow: nat): nat {
    lastRow + 2
  }

  /** `=SUM(X2:X{last})`: a column summed over the data rows. */
  function SumFormula(column: char, last: nat): string {
    "=SUM(" + RefText(column, 2) + ":" + RefText(column, last) + ")"
  }

  /** `=SUM((A{t}-B{t})/A{t})`: a footer ratio of two footer cells. */
  function RatioFormula(a: char, b: char, t: nat): string {
    "=SUM((" + RefText(a, t) + "-" + RefText(b, t) + ")/" + RefText(a, t) + ")"
  }

  /** What `write_bom` puts in footer column `j` (0 is A): `Totals`, blanks
      up to H, then the sums of I, K and M and the ratios in J, L and N. */
  function FooterValue(j: nat, lastRow: nat): Value
    requires j < 14
  {
    var t := TotalsRow(lastRow);
    var last := lastRow + 1;
    if j == 0 then Label("Totals")
    else if j <= 7 then Empty
    else if j == 8 then Formula(SumFormula('I', last))
    else if j == 9 then Formula(RatioFormula('I', 'K', t))
    else if j == 10 then Formula(SumFormula('K', last))
    else if j == 11 then Formula(RatioFormula('I', 'M', t))
    else if j == 12 then Formula(SumFormula('M', last))
    else Formula(RatioFormula('K', 'M', t))
  }

  /** The footer cells by address. */
  function Footer(lastRow: nat): (r: seq<(string, Value)>)
    ensures |r| == 14
  {
    seq(14, j requires 0 <= j < 14 => (RefText(Letters[j], TotalsRow(lastRow)), FooterValue(j, lastRow)))
  }

  lemma SumRefs(column: char, last: nat)
    requires IsColumnLetter(column)
    ensures Refs(SumFormula(column, last)) == [Ref(column, 2), Ref(column, last)]
  {
    RefsOfTwo("=SUM(", column, 2, ":", column, last, ")");
  }

  lemma RatioRefs(a: char, b: char, t: nat)
    requires IsColumnLetter(a) && IsColumnLetter(b)
    ensures Refs(RatioFormula(a, b, t)) == [Ref(a, t), Ref(b, t), Ref(a, t)]
  {
    RefsOfThree("=SUM((", a, t, "-", b, t, ")/", a, t, ")");
  }

  /** Every footer address is in the totals row, columns A to N in order,
      and column A holds the `Totals` label. */
  lemma FooterAddresses(lastRow: nat)
    ensures forall j :: 0 <= j < 14 ==> Refs(Footer(lastRow)[j].0) == [Ref(Letters[j], lastRow + 2)]
    ensures Footer(lastRow)[0].1 == Label("Totals")
    ensures forall j :: 1 <= j <= 7 ==> Footer(lastRow)[j].1 == Empty
  {
    forall j | 0 <= j < 14
      ensures Refs(Footer(lastRow)[j].0) == [Ref(Letters[j], lastRow + 2)]
    {
      RefsOfRef(Letters[j], lastRow + 2);
    }
  }

  /** The footer sums of I, K and M run from row 2, the first data row,
      to `lastRow + 1`, the last one. */
  lemma FooterSums(lastRow: nat)
    ensures Refs(Footer(lastRow)[8].1.text) == [Ref('I', 2), Ref('I', lastRow + 1)]
    ensures Refs(Footer(lastRow)[10].1.text) == [Ref('K', 2), Ref('K', lastRow + 1)]
    ensures Refs(Footer(lastRow)[12].1.text) == [Ref('M', 2), Ref('M', lastRow + 1)]
  {
    assert Footer(lastRow)[8].1 == FooterValue(8, lastRow);
    assert Footer(lastRow)[10].1 == FooterValue(10, lastRow);
    assert Footer(lastRow)[12].1 == FooterValue(12, lastRow);
    SumRefs('I', lastRow + 1);
    SumRefs('K', lastRow + 1);
    SumRefs('M', lastRow + 1);
  }

  /** The footer ratios in J, L and N read the totals row itself: the
      overall discount (I - K) / I, buy discount (I - M) / I and margin
      (K - M) / K. */
  lemma FooterRatios(lastRow: nat)
    ensures Refs(Footer(lastRow)[9].1.text) == [Ref('I', lastRow + 2), Ref('K', lastRow + 2), Ref('I', lastRow + 2)]
    ensures Refs(Footer(lastRow)[11].1.text) == [Ref('I', lastRow + 2), Ref('M', lastRow + 2), Ref('I', lastRow + 2)]
    ensures Refs(Footer(lastRow)[13].1.text) == [Ref('K', lastRow + 2), Ref('M', lastRow + 2), Ref('K', lastRow + 2)]
  {
    assert Footer(lastRow)[9].1 == FooterValue(9, lastRow);
    assert Footer(lastRow)[11].1 == FooterValue(11, lastRow);
    assert Footer(lastRow)[13].1 == FooterValue(13, lastRow);
    RatioRefs('I', 'K', lastRow + 2);
    RatioRefs('I', 'M', lastRow + 2);
    RatioRefs('K', 'M', lastRow + 2);
  }

  /** Written below the frame of `items` (the header is row 0, so the last
      row index is the number of items), the footer's sums run over the
      rows of the first and the last item, and every item row lies in that
      range and above the totals row. */
  lemma FooterCoversItems(items: seq<BomInput>, frame: BomFrame)
    requires |frame.rows| == |items|
    requires forall k :: 0 <= k < |items| ==> frame.rows[k] == RowFor(items[k], k + 2)
    ensures Refs(Footer(|frame.rows|)[8].1.text) == [Ref('I', 2), Ref('I', |items| + 1)]
    ensures forall k :: 0 <= k < |items| ==>
      && frame.rows[k].extended.Formula?
      && Refs(frame.rows[k].extended.text) == [Ref('B', k + 2), Ref('G', k + 2), Ref('H', k + 2)]
      && 2 <= k + 2 <= |items| + 1 < TotalsRow(|frame.rows|)
  {
    FooterSums(|frame.rows|);
    FrameRowRefs(items, frame);
  }

  lemma FrameRowRefs(items: seq<BomInput>, frame: BomFrame)
    requires |frame.rows| == |items|
    requires forall k :: 0 <= k < |items| ==> frame.rows[k] == RowFor(items[k], k + 2)
    ensures forall k :: 0 <= k < |items| ==>
      && frame.rows[k].extended.Formula?
      && Refs(frame.rows[k].extended.text) == [Ref('B', k + 2), Ref('G', k + 2), Ref('H', k + 2)]
  {
    forall k | 0 <= k < |items|
      ensures frame.rows[k].extended.Formula?
      ensures Refs(frame.rows[k].extended.text) == [Ref('B', k + 2), Ref('G', k + 2), Ref('H', k + 2)]
    {
      assert frame.rows[k] == RowFor(items[k], k + 2);
      RowFormulas(items[k], k + 2);
    }
  }

  lemma TotalsIsALabel()
    ensures QuoteItems.IsTotalsLabel(Text("Totals"))
  {
    StripUnchanged("Totals");
    assert Lower("Totals") == "totals";
  }

  /** The footer row as pandas reads it back: the label of column A as a
      text cell, then whatever the other columns read as. */
  function ReadBack(lastRow: nat, rest: seq<Cell>): seq<Cell> {
    [Text(Footer(lastRow)[0].1.text)] + rest
  }

  /** Read back by the quote generator, the footer row gives no line item:
      the `Totals` label in its first column makes the row be skipped, and
      appending it after the item rows leaves the items unchanged. */
  lemma FooterSkippedOnReadBack(c: QuoteItems.Columns, lastRow: nat, rest: seq<Cell>,
                               parseText: string -> Option<Ymd>)
    ensures QuoteItems.DeriveRow(c, ReadBack(lastRow, rest), parseText).None?
    ensures forall rows ::
      QuoteItems.ItemsOf(c, rows + [ReadBack(lastRow, rest)], parseText) == QuoteItems.ItemsOf(c, rows, parseText)
  {
    FooterAddresses(lastRow);
    TotalsIsALabel();
    QuoteItems.TotalsRowSkipped(c, [Text("Totals")] + rest, parseText);
  }
}
