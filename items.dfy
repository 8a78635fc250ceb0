/** `parse_items` of `fire_a_quote.py`: the rows of the items sheet become
    quote line items. Headers are normalised and resolved to columns by
    ranked aliases, blank and `Totals` rows are skipped, and each remaining
    row yields one item with its quantity, unit price and line total. */
module QuoteItems {
  import opened Strings
  import opened Cells
  import opened QuoteUtils
  import opened QuoteDates

  // ---------------------------------------------------------------- aliases

  const SkuNames: seq<string> :=
    ["sku", "part", "item", "product", "pn", "part number", "mpn", "partner sku"]
  const QtyNames: seq<string> := ["qty", "quantity", "qnty", "q'ty"]
  const DescriptionNames: seq<string> :=
    ["description", "desc", "product description", "item description"]
  const UnitPriceNames: seq<string> :=
    ["unit price", "price", "list price", "unitprice", "price ea", "each"]
  const DiscountNames: seq<string> := ["discount"]
  const DiscountPriceNames: seq<string> :=
    ["discount price", "discounted price", "sell price", "your price", "net price"]
  /** Listed with the other aliases but never picked: a provided extended
      total is ignored on purpose. */
  const ExtendedNames: seq<string> :=
    ["extended", "extended price", "ext", "subtotal", "line total", "amount"]
  const NotesNames: seq<string> := ["notes", "note", "comments", "line notes"]
  const CategoryNames: seq<string> := ["product type", "category", "product category", "type"]
  const StartDateNames: seq<string> := ["start date", "start", "service start", "begin", "term start"]
  const EndDateNames: seq<string> := ["end date", "end", "service end", "finish", "term end"]

  /** `[c.lower() for c in names]`. */
  function LowerAll(names: seq<string>): (r: seq<string>)
    ensures |r| == |names|
    ensures forall i :: 0 <= i < |names| ==> r[i] == Lower(names[i])
  {
    seq(|names|, i requires 0 <= i < |names| => Lower(names[i]))
  }

  // ---------------------------------------------------------------- frames

  /** A sheet as pandas reads it: a header per column and the data rows,
      each row a cell per column. */
  datatype Frame = Frame(headers: seq<string>, rows: seq<seq<Cell>>)

  predicate AllNa(row: seq<Cell>) {
    forall i :: 0 <= i < |row| ==> IsNa(row[i])
  }

  /** `dropna(how="all")`: the rows that hold at least one value, in order. */
  function DropAllNa(rows: seq<seq<Cell>>): (r: seq<seq<Cell>>)
    ensures |r| <= |rows|
    ensures forall i :: 0 <= i < |r| ==> r[i] in rows && !AllNa(r[i])
    ensures forall i :: 0 <= i < |rows| && !AllNa(rows[i]) ==> rows[i] in r
  {
    if rows == [] then []
    else
      var rest := DropAllNa(rows[1..]);
      assert forall i :: 1 <= i < |rows| ==> rows[i] == rows[1..][i - 1];
      if AllNa(rows[0]) then rest else [rows[0]] + rest
  }

  /** A single row survives exactly when it holds a value. */
  lemma DropAllNaOne(row: seq<Cell>)
    ensures DropAllNa([row]) == if AllNa(row) then [] else [row]
  {
    assert [row][1..] == [];
  }

  /** Dropping works row by row: the survivors of consecutive runs of rows
      are the survivors of each run, in the same order. */
  lemma {:induction false} DropAllNaAppend(a: seq<seq<Cell>>, b: seq<seq<Cell>>)
    ensures DropAllNa(a + b) == DropAllNa(a) + DropAllNa(b)
  {
    if a == [] {
      assert a + b == b;
    } else {
      assert (a + b)[0] == a[0];
      assert (a + b)[1..] == a[1..] + b;
      DropAllNaAppend(a[1..], b);
    }
  }

  /** The first position of `name` among the headers: the column
      `r.get(name)` reads. */
  function IndexOf(cols: seq<string>, name: string): (i: nat)
    requires name in cols
    ensures i < |cols| && cols[i] == name
    ensures forall j :: 0 <= j < i ==> cols[j] != name
  {
    if cols[0] == name then 0 else 1 + IndexOf(cols[1..], name)
  }

  /** The column `_pick` resolves a list of aliases to, as a position. */
  function Locate(cols: seq<string>, names: seq<string>): (r: Option<nat>)
    ensures r.Some? <==> Pick(cols, names).Some?
    ensures r.Some? ==> r.value < |cols| && cols[r.value] == Pick(cols, names).value
  {
    match Pick(cols, names)
    case None => None
    case Some(name) => Some(IndexOf(cols, name))
  }

  /** The columns `parse_items` reads, each one absent or a position. */
  datatype Columns = Columns(
    sku: Option<nat>, qty: Option<nat>, description: Option<nat>,
    yourPrice: Option<nat>, listPrice: Option<nat>, discount: Option<nat>,
    startDate: Option<nat>, endDate: Option<nat>,
    notes: Option<nat>, category: Option<nat>)

  predicate Below(o: Option<nat>, width: nat) {
    o.Some? ==> o.value < width
  }

  /** Every picked column exists in a row of `width` cells. */
  predicate Fits(c: Columns, width: nat) {
    && Below(c.sku, width) && Below(c.qty, width) && Below(c.description, width)
    && Below(c.yourPrice, width) && Below(c.listPrice, width) && Below(c.discount, width)
    && Below(c.startDate, width) && Below(c.endDate, width)
    && Below(c.notes, width) && Below(c.category, width)
  }

  /** The columns the item of a row is read from, besides the first. */
  function PickedColumns(c: Columns): seq<Option<nat>> {
    [c.sku, c.qty, c.description, c.yourPrice, c.listPrice, c.discount,
     c.startDate, c.endDate, c.notes, c.category]
  }

  /** The column `o` is the one `_pick` resolves `names` to: present
      exactly when a header matches, and then at that header. */
  predicate Resolves(cols: seq<string>, o: Option<nat>, names: seq<string>) {
    && (o.Some? <==> Pick(cols, LowerAll(names)).Some?)
    && (o.Some? ==> o.value < |cols| && cols[o.value] == Pick(cols, LowerAll(names)).value)
  }

  /** Lines 131-147: each field resolved by its lower-cased aliases. */
  function ResolveColumns(cols: seq<string>): (c: Columns)
    ensures Fits(c, |cols|)
    ensures Resolves(cols, c.sku, SkuNames) && Resolves(cols, c.qty, QtyNames)
    ensures Resolves(cols, c.description, DescriptionNames)
    ensures Resolves(cols, c.yourPrice, DiscountPriceNames)
    ensures Resolves(cols, c.listPrice, UnitPriceNames) && Resolves(cols, c.discount, DiscountNames)
    ensures Resolves(cols, c.startDate, StartDateNames) && Resolves(cols, c.endDate, EndDateNames)
    ensures Resolves(cols, c.notes, NotesNames) && Resolves(cols, c.category, CategoryNames)
  {
    Columns(
      Locate(cols, LowerAll(SkuNames)), Locate(cols, LowerAll(QtyNames)),
      Locate(cols, LowerAll(DescriptionNames)), Locate(cols, LowerAll(DiscountPriceNames)),
      Locate(cols, LowerAll(UnitPriceNames)), Locate(cols, LowerAll(DiscountNames)),
      Locate(cols, LowerAll(StartDateNames)), Locate(cols, LowerAll(EndDateNames)),
      Locate(cols, LowerAll(NotesNames)), Locate(cols, LowerAll(CategoryNames)))
  }

  /** `r.get(col)`: the cell of a picked column, `None` for a column that
      is absent. */
  function Get(row: seq<Cell>, col: Option<nat>): (r: Option<Cell>)
    ensures col.None? ==> r.None?
    ensures col.Some? && col.value < |row| ==> r == Some(row[col.value])
  {
    if col.Some? && col.value < |row| then Some(row[col.value]) else None
  }

  /** The cells of a row that `parse_items` looks at: the first cell and
      the cell of each picked column. */
  datatype RowView = RowView(
    first: Option<Cell>,
    sku: Option<Cell>, qty: Option<Cell>, description: Option<Cell>,
    yourPrice: Option<Cell>, listPrice: Option<Cell>, discount: Option<Cell>,
    startDate: Option<Cell>, endDate: Option<Cell>,
    notes: Option<Cell>, category: Option<Cell>)

  function View(c: Columns, row: seq<Cell>): (v: RowView)
    ensures v.first == if |row| > 0 then Some(row[0]) else None
  {
    RowView(
      if |row| > 0 then Some(row[0]) else None,
      Get(row, c.sku), Get(row, c.qty), Get(row, c.description),
      Get(row, c.yourPrice), Get(row, c.listPrice), Get(row, c.discount),
      Get(row, c.startDate), Get(row, c.endDate), Get(row, c.notes), Get(row, c.category))
  }

  // ---------------------------------------------------------------- one row

  /** A quote line item, the dictionary built at lines 192-206. */
  datatype Item = Item(
    ptSku: string, qty: nat, description: string,
    listPrice: Option<Float>, unitPrice: Float, subtotal: Float,
    notes: string, category: string, startDate: string, endDate: string)

  /** `(str(r.get(col)) if col else "").strip()`. */
  function TextOf(cell: Option<Cell>): string {
    if cell.Some? then Strip(Str(cell.value)) else ""
  }

  /** `not s or s.lower() == "nan"`. */
  predicate Blank(s: string) {
    s == [] || Lower(s) == "nan"
  }

  /** A string that reads `totals` in any case, around any space. */
  predicate IsTotalsLabel(c: Cell) {
    c.Text? && Lower(Strip(c.text)) == "totals"
  }

  /** The value `_num` gives a present cell, or `default` for an absent
      column. */
  function NumOr(cell: Option<Cell>, default: Option<Float>): Option<Float> {
    if cell.Some? then NumValue(cell.value) else default
  }

  /** The value `_num` reads from the quantity cell is a positive number. */
  predicate PositiveQty(cell: Option<Cell>) {
    var q := NumOr(cell, Some(Finite(1.0)));
    q.Some? && q.value.Finite? && q.value.value > 0.0
  }

  /** Lines 163-164: `int(q) if q and q > 0 else 1`, where `q` is the
      parsed quantity (1 for an absent column). */
  function Qty(cell: Option<Cell>): (r: nat)
    ensures PositiveQty(cell) ==>
      var x := NumOr(cell, Some(Finite(1.0))).value.value;
      r as real <= x < r as real + 1.0
    ensures !PositiveQty(cell) ==> r == 1
  {
    var q := NumOr(cell, Some(Finite(1.0)));
    if q.Some? && q.value.Finite? && q.value.value > 0.0 then q.value.value.Floor as nat else 1
  }

  /** `disc or 0`: no value and zero both become 0; NaN is truthy and stays. */
  function OrZero(disc: Option<Float>): Float {
    if disc.Some? then disc.value else Finite(0.0)
  }

  /** Lines 166-185: the unit price and the line total of a row. */
  function Pricing(v: RowView, qty: nat): (Float, Float) {
    var your := NumOr(v.yourPrice, None);
    if your.Some? && your.value.Finite? then
      YourPricePricing(your.value.value, qty)
    else
      ListPricing(NumOr(v.listPrice, None), OrZero(NumOr(v.discount, Some(Finite(0.0)))), qty)
  }

  /** Lines 172-175: the your-price value is the line total, and the unit
      price is that total spread over the quantity. */
  function YourPricePricing(total: real, qty: nat): (r: (Float, Float))
    ensures r.1 == Finite(total)
    ensures qty != 0 ==> r.1 == FMul(r.0, Finite(qty as real))
    ensures qty == 0 ==> r.0 == Finite(total)
  {
    if qty != 0 then
      DivTimes(total, qty);
      (Finite(total / qty as real), Finite(total))
    else
      (Finite(total), Finite(total))
  }

  lemma DivTimes(v: real, q: nat)
    requires q != 0
    ensures v / q as real * q as real == v
  {
  }

  /** Lines 176-185: the list price less the discount fraction, times the
      quantity; both 0 without a list price. */
  function ListPricing(list: Option<Float>, disc: Float, qty: nat): (r: (Float, Float))
    ensures r.1 == FMul(r.0, Finite(qty as real))
    ensures list.None? ==> r == (Finite(0.0), Finite(0.0))
    ensures list.Some? ==> r.0 == FMul(list.value, FSub(Finite(1.0), disc))
    ensures list.Some? && list.value.Finite? && disc == Finite(0.0) ==> r.0 == list.value
  {
    if list.Some? then
      var unit := FMul(list.value, FSub(Finite(1.0), disc));
      (unit, FMul(unit, Finite(qty as real)))
    else
      (Finite(0.0), Finite(0.0))
  }

  /** Lines 187-190: the stripped text of a present, non-missing cell. */
  function NoteOf(cell: Option<Cell>): (r: string)
    ensures Strip(r) == r
    ensures cell.None? || IsNa(cell.value) ==> r == ""
    ensures cell.Some? && cell.value.Text? ==> r == Strip(cell.value.text)
  {
    if cell.Some? && !IsNa(cell.value) then
      StripIdempotent(Str(cell.value));
      Strip(Str(cell.value))
    else ""
  }

  /** Line 197 as intended: the list price undiscounted, `None` when the
      column is absent, the cell is missing, or the text is no number. */
  function ListPrice(cell: Option<Cell>): (r: Option<Float>)
    ensures cell.None? || IsNa(cell.value) ==> r.None?
    ensures cell.Some? && !IsNa(cell.value) ==> r == NumValue(cell.value)
  {
    if cell.Some? && !IsNa(cell.value) then NumValue(cell.value) else None
  }

  /** Lines 204-205. */
  function DateOf(cell: Option<Cell>, parseText: string -> Option<Ymd>): string {
    if cell.Some? then FmtDate(cell.value, parseText) else ""
  }

  /** `"" if s.lower() == "nan" else s`. */
  function NotNan(s: string): (r: string)
    ensures Lower(r) != "nan"
    ensures Lower(s) != "nan" ==> r == s
    ensures Lower(s) == "nan" ==> r == ""
  {
    if Lower(s) == "nan" then "" else s
  }

  /** The item of a row that is kept. */
  function MakeItem(v: RowView, parseText: string -> Option<Ymd>): Item {
    var qty := Qty(v.qty);
    var prices := Pricing(v, qty);
    Item(
      NotNan(TextOf(v.sku)), qty, NotNan(TextOf(v.description)),
      ListPrice(v.listPrice), prices.0, prices.1,
      NoteOf(v.notes), NoteOf(v.category),
      DateOf(v.startDate, parseText), DateOf(v.endDate, parseText))
  }

  /** The rule of lines 151-160: a row is skipped when it names no product
      or when its first cell is a `Totals` label. */
  predicate Skipped(v: RowView) {
    || (Blank(TextOf(v.sku)) && Blank(TextOf(v.description)))
    || (v.first.Some? && IsTotalsLabel(v.first.value))
  }

  /** The body of the loop of `parse_items` for one row. */
  function DeriveRow(c: Columns, row: seq<Cell>, parseText: string -> Option<Ymd>): (r: Option<Item>)
    ensures r.None? <==> Skipped(View(c, row))
    ensures r.Some? ==> r.value == MakeItem(View(c, row), parseText)
  {
    var v := View(c, row);
    if Blank(TextOf(v.sku)) && Blank(TextOf(v.description)) then None
    else if v.first.Some? && IsTotalsLabel(v.first.value) then None
    else Some(MakeItem(v, parseText))
  }

  // ---------------------------------------------------------------- all rows

  function AsSeq(o: Option<Item>): seq<Item> {
    if o.Some? then [o.value] else []
  }

  /** The results of `derive` on `rows`, in row order, leaving out the
      rows it gives nothing for. */
  function Collect(rows: seq<seq<Cell>>, derive: seq<Cell> -> Option<Item>): (r: seq<Item>)
    ensures |r| <= |rows|
  {
    if rows == [] then []
    else Collect(rows[..|rows| - 1], derive) + AsSeq(derive(rows[|rows| - 1]))
  }

  /** The items of `rows`: one for each row that is kept. */
  function ItemsOf(c: Columns, rows: seq<seq<Cell>>, parseText: string -> Option<Ymd>): seq<Item> {
    Collect(rows, row => DeriveRow(c, row, parseText))
  }

  /** One more row extends the items by that row's item, if any. */
  lemma ItemsOfNext(c: Columns, rows: seq<seq<Cell>>, i: nat, parseText: string -> Option<Ymd>)
    requires i < |rows|
    ensures ItemsOf(c, rows[..i + 1], parseText)
      == ItemsOf(c, rows[..i], parseText) + AsSeq(DeriveRow(c, rows[i], parseText))
  {
    assert rows[..i + 1][..i] == rows[..i];
    assert rows[..i + 1][i] == rows[i];
  }

  lemma {:induction false} CollectAppend(a: seq<seq<Cell>>, b: seq<seq<Cell>>,
                                         derive: seq<Cell> -> Option<Item>)
    ensures Collect(a + b, derive) == Collect(a, derive) + Collect(b, derive)
  {
    if b == [] {
      assert a + b == a;
    } else {
      var b' := b[..|b| - 1];
      assert (a + b)[..|a + b| - 1] == a + b';
      assert (a + b)[|a + b| - 1] == b[|b| - 1];
      CollectAppend(a, b', derive);
    }
  }

  /** The items of consecutive runs of rows are the items of each run,
      one after the other. */
  lemma ItemsOfAppend(c: Columns, a: seq<seq<Cell>>, b: seq<seq<Cell>>,
                      parseText: string -> Option<Ymd>)
    ensures ItemsOf(c, a + b, parseText) == ItemsOf(c, a, parseText) + ItemsOf(c, b, parseText)
  {
    CollectAppend(a, b, row => DeriveRow(c, row, parseText));
  }

  /** A single row yields its item, or nothing when it is skipped. */
  lemma ItemsOfRow(c: Columns, row: seq<Cell>, parseText: string -> Option<Ymd>)
    ensures Skipped(View(c, row)) ==> ItemsOf(c, [row], parseText) == []
    ensures !Skipped(View(c, row)) ==> ItemsOf(c, [row], parseText) == [MakeItem(View(c, row), parseText)]
  {
    assert [row][..0] == [];
  }

  lemma {:induction false} CollectTotal(rows: seq<seq<Cell>>, derive: seq<Cell> -> Option<Item>)
    requires forall i :: 0 <= i < |rows| ==> derive(rows[i]).Some?
    ensures |Collect(rows, derive)| == |rows|
    ensures forall i :: 0 <= i < |rows| ==> Collect(rows, derive)[i] == derive(rows[i]).value
  {
    if rows != [] {
      var init := rows[..|rows| - 1];
      assert forall i :: 0 <= i < |init| ==> init[i] == rows[i];
      CollectTotal(init, derive);
    }
  }

  /** When no row is skipped, the items are the rows' items one for one,
      in row order. */
  lemma ItemsOfUnskipped(c: Columns, rows: seq<seq<Cell>>, parseText: string -> Option<Ymd>)
    requires forall i :: 0 <= i < |rows| ==> !Skipped(View(c, rows[i]))
    ensures |ItemsOf(c, rows, parseText)| == |rows|
    ensures forall i :: 0 <= i < |rows| ==>
      ItemsOf(c, rows, parseText)[i] == MakeItem(View(c, rows[i]), parseText)
  {
    var derive := row => DeriveRow(c, row, parseText);
    assert forall i :: 0 <= i < |rows| ==> derive(rows[i]) == Some(MakeItem(View(c, rows[i]), parseText));
    CollectTotal(rows, derive);
  }

  // ---------------------------------------------------------------- item facts

  /** What every item satisfies: it names a product (a SKU or a
      description, neither of them `nan`), its notes and category carry no
      surrounding space, and its line total is the unit price times the
      quantity whenever the quantity is not 0. */
  predicate WellFormedItem(it: Item) {
    && (it.ptSku != "" || it.description != "")
    && Lower(it.ptSku) != "nan" && Lower(it.description) != "nan"
    && Strip(it.notes) == it.notes && Strip(it.category) == it.category
    && (it.qty != 0 ==> it.subtotal == FMul(it.unitPrice, Finite(it.qty as real)))
  }

  /** The item of a row that is not skipped is well formed. */
  lemma KeptRowItem(v: RowView, parseText: string -> Option<Ymd>)
    requires !Skipped(v)
    ensures WellFormedItem(MakeItem(v, parseText))
  {
  }

  /** The texts of an item are the row's own: a SKU or description that
      does not read `nan` is kept as the stripped cell text, text notes and
      categories are kept stripped, and missing ones become empty. */
  lemma ItemKeepsTexts(v: RowView, parseText: string -> Option<Ymd>)
    ensures Lower(TextOf(v.sku)) != "nan" ==> MakeItem(v, parseText).ptSku == TextOf(v.sku)
    ensures Lower(TextOf(v.description)) != "nan" ==>
      MakeItem(v, parseText).description == TextOf(v.description)
    ensures v.notes.Some? && v.notes.value.Text? ==>
      MakeItem(v, parseText).notes == Strip(v.notes.value.text)
    ensures v.category.Some? && v.category.value.Text? ==>
      MakeItem(v, parseText).category == Strip(v.category.value.text)
    ensures v.notes.None? || IsNa(v.notes.value) ==> MakeItem(v, parseText).notes == ""
    ensures v.category.None? || IsNa(v.category.value) ==> MakeItem(v, parseText).category == ""
  {
  }

  lemma {:induction false} CollectKeeps(rows: seq<seq<Cell>>, derive: seq<Cell> -> Option<Item>,
                                        ok: Item -> bool)
    requires forall row :: derive(row).Some? ==> ok(derive(row).value)
    ensures forall k :: 0 <= k < |Collect(rows, derive)| ==> ok(Collect(rows, derive)[k])
  {
    if rows != [] {
      CollectKeeps(rows[..|rows| - 1], derive, ok);
    }
  }

  /** Every item `parse_items` returns is well formed. */
  lemma ItemsWellFormed(c: Columns, rows: seq<seq<Cell>>, parseText: string -> Option<Ymd>)
    ensures forall k :: 0 <= k < |ItemsOf(c, rows, parseText)| ==> WellFormedItem(ItemsOf(c, rows, parseText)[k])
  {
    forall row | DeriveRow(c, row, parseText).Some?
      ensures WellFormedItem(DeriveRow(c, row, parseText).value)
    {
      KeptRowItem(View(c, row), parseText);
    }
    CollectKeeps(rows, row => DeriveRow(c, row, parseText), WellFormedItem);
  }

  // ---------------------------------------------------------------- row rules

  lemma {:induction false} ShortNotContains(hay: string, needle: string)
    requires |hay| < |needle|
    ensures !Contains(hay, needle)
  {
    if hay != [] {
      ShortNotContains(hay[1..], needle);
    }
  }

  /** An `Extended` column is read as the end date: no end-date alias is a
      header, and `end` is a substring of `extended`. */
  lemma ExtendedReadAsEndDate()
    ensures ResolveColumns(["sku", "qty", "extended"]).endDate == Some(2)
  {
    var cols := ["sku", "qty", "extended"];
    EndAliasInExtended();
    assert ResolveColumns(cols).endDate == Locate(cols, LowerAll(EndDateNames));
    assert IndexOf(cols, "extended") == 2 by {
      assert cols[0] != "extended" && cols[1] != "extended";
    }
  }

  lemma EndAliasInExtended()
    ensures Pick(["sku", "qty", "extended"], LowerAll(EndDateNames)) == Some("extended")
  {
    var cols := ["sku", "qty", "extended"];
    EndAliasesLower();
    assert ExactIndex(cols, EndDateNames) == None;
    EndFoundInExtended();
    NoEndDateHeader();
    assert SubstringIndex(cols, EndDateNames) == Some((1, 2));
  }

  lemma EndAliasesLower()
    ensures LowerAll(EndDateNames) == EndDateNames
  {
    assert Lower("end date") == "end date" && Lower("end") == "end";
    assert Lower("service end") == "service end" && Lower("finish") == "finish";
    assert Lower("term end") == "term end";
  }

  lemma EndFoundInExtended()
    ensures ContainingIndex(["sku", "qty", "extended"], "end") == Some(2)
  {
    ShortNotContains("ku", "end");
    ShortNotContains("ty", "end");
    assert "sku"[1..] == "ku" && "qty"[1..] == "ty";
    assert "sku"[0] != 'e' && "qty"[0] != 'e';
    assert Contains("extended", "end") by {
      assert "end" <= "extended"[3..];
      assert "extended"[1..][1..][1..] == "extended"[3..];
    }
    var cols := ["sku", "qty", "extended"];
    assert cols[1..][1..] == ["extended"];
  }

  lemma NoEndDateHeader()
    ensures ContainingIndex(["sku", "qty", "extended"], "end date") == None
  {
    ShortNotContains("sku", "end date");
    ShortNotContains("qty", "end date");
    ShortNotContains("xtended", "end date");
    assert "extended"[1..] == "xtended";
    assert "extended"[1] != "end date"[1];
  }

  /** An absent column and missing cells count as a quantity of 1. */
  lemma QtyOfMissing()
    ensures Qty(None) == 1
    ensures Qty(Some(Null)) == 1 && Qty(Some(NaN)) == 1
  {
    NumOfNull();
    NumOfNaN();
  }

  /** A quantity written in digits, with thousands separators or currency
      signs among them, is that number, or 1 when it is 0. */
  lemma QtyOfDigits(s: string)
    requires DigitsWith(s, ',', '$') && HasDigit(s)
    ensures var u := RemoveChar(RemoveChar(s, ','), '$');
      AllDigits(u) && Qty(Some(Text(s))) == if DigitsValue(u) > 0 then DigitsValue(u) else 1
  {
    NumOfSeparatedDigits(s);
  }

  /** Primary path (lines 166-175): a your-price value V is the line
      total, and the unit price is V over the quantity, or V itself when
      the quantity is 0. */
  lemma PrimaryPath(v: RowView, parseText: string -> Option<Ymd>)
    requires NumOr(v.yourPrice, None).Some? && NumOr(v.yourPrice, None).value.Finite?
    ensures var it := MakeItem(v, parseText);
      var total := NumOr(v.yourPrice, None).value.value;
      && it.subtotal == Finite(total)
      && (it.qty != 0 ==> it.unitPrice == Finite(total / it.qty as real))
      && (it.qty == 0 ==> it.unitPrice == Finite(total))
  {
  }

  /** Fallback path (lines 176-185): without a your-price value the unit
      price is the list price less the discount fraction (a missing or
      zero discount leaves the list price as it is), and the line total is
      the unit price times the quantity; without a list price both are 0.
      The list price itself is kept undiscounted. */
  lemma FallbackPath(v: RowView, parseText: string -> Option<Ymd>)
    requires NumOr(v.yourPrice, None).None? || NumOr(v.yourPrice, None).value.NotANumber?
    ensures var it := MakeItem(v, parseText);
      var list := NumOr(v.listPrice, None);
      var disc := OrZero(NumOr(v.discount, Some(Finite(0.0))));
      && it.subtotal == FMul(it.unitPrice, Finite(it.qty as real))
      && (list.None? ==> it.unitPrice == Finite(0.0) && it.subtotal == Finite(0.0))
      && (list.Some? ==> it.unitPrice == FMul(list.value, FSub(Finite(1.0), disc)))
      && (list.Some? && list.value.Finite? && disc == Finite(0.0) ==> it.unitPrice == list.value)
      && it.listPrice == ListPrice(v.listPrice)
  {
  }

  /** Changing a cell outside the picked columns and the first column
      leaves the row's outcome unchanged: an "extended" column, or any
      other column that is not picked, is never read. */
  lemma UnpickedIgnored(c: Columns, row: seq<Cell>, j: nat, x: Cell, parseText: string -> Option<Ymd>)
    requires 0 < j < |row| && Some(j) !in PickedColumns(c)
    ensures DeriveRow(c, row[j := x], parseText) == DeriveRow(c, row, parseText)
  {
    assert View(c, row[j := x]) == View(c, row);
  }

  /** A row whose first cell is a `Totals` label gives no item, whatever
      it holds elsewhere, and adds nothing after any rows before it. */
  lemma TotalsRowSkipped(c: Columns, row: seq<Cell>, parseText: string -> Option<Ymd>)
    requires |row| > 0 && IsTotalsLabel(row[0])
    ensures DeriveRow(c, row, parseText).None?
    ensures forall rows :: ItemsOf(c, rows + [row], parseText) == ItemsOf(c, rows, parseText)
  {
    forall rows
      ensures ItemsOf(c, rows + [row], parseText) == ItemsOf(c, rows, parseText)
    {
      ItemsOfAppend(c, rows, [row], parseText);
      ItemsOfRow(c, row, parseText);
    }
  }

  /** NaN names are blank: a row with NaN (or no column) for both its SKU
      and its description is skipped. */
  lemma NaNNamesSkipped(v: RowView)
    requires v.sku == Some(NaN) || v.sku.None?
    requires v.description == Some(NaN) || v.description.None?
    ensures Skipped(v)
  {
    assert Strip("nan") == "nan";
    assert Lower("nan") == "nan";
  }

  /** `str(None)` is `None`, which the blank test does not catch: a row
      whose SKU and description cells are `None` is kept, and its item
      carries the name `None`. */
  lemma NoneNamesKept(v: RowView, parseText: string -> Option<Ymd>)
    requires v.sku == Some(Null) && v.description == Some(Null)
    requires v.first.Some? ==> !IsTotalsLabel(v.first.value)
    ensures !Skipped(v) && MakeItem(v, parseText).ptSku == "None"
  {
    assert Strip("None") == "None";
    assert Lower("None") == "none";
  }

  // ---------------------------------------------------------------- list price as written

  /** Line 197 as written: `float(_num(cell))` for a present, non-missing
      cell. `_num` gives `None` for text it cannot read, and `float(None)`
      raises `TypeError`, which ends `parse_items`. Whenever it returns, it
      agrees with the corrected `ListPrice`. */
  function ListPriceAsWritten(cell: Option<Cell>): (r: Outcome<Option<Float>>)
    ensures r.Returns? ==> r.value == ListPrice(cell)
    ensures r.Raises? <==> cell.Some? && !IsNa(cell.value) && NumValue(cell.value).None?
  {
    if cell.Some? && !IsNa(cell.value) then
      match NumValue(cell.value)
      case None => Raises
      case Some(f) => Returns(Some(f))
    else Returns(None)
  }

  /** Lines 204-205 as written: `_fmt_date` of a present cell, which
      raises on `NaT`. */
  function DateOfAsWritten(cell: Option<Cell>, parseText: string -> Option<Ymd>): (r: Outcome<string>)
    ensures r.Raises? <==> cell == Some(NaT)
    ensures r.Returns? ==> r.value == DateOf(cell, parseText)
  {
    if cell.Some? then FmtDateAsWritten(cell.value, parseText) else Returns("")
  }

  /** The row step with lines 197 and 204-205 as written: it raises exactly
      for a kept row whose list price cell is present, not missing, and not
      a number, or whose start or end date is `NaT`, and otherwise gives
      what the corrected row step gives. */
  function DeriveRowAsWritten(v: RowView, parseText: string -> Option<Ymd>): (r: Outcome<Option<Item>>)
    ensures r.Returns? ==> r.value == if Skipped(v) then None else Some(MakeItem(v, parseText))
    ensures r.Raises? <==>
      && !Skipped(v)
      && (|| (v.listPrice.Some? && !IsNa(v.listPrice.value) && NumValue(v.listPrice.value).None?)
          || v.startDate == Some(NaT) || v.endDate == Some(NaT))
  {
    if Skipped(v) then Returns(None)
    else if ListPriceAsWritten(v.listPrice).Raises? then Raises
    else if DateOfAsWritten(v.startDate, parseText).Raises? then Raises
    else if DateOfAsWritten(v.endDate, parseText).Raises? then Raises
    else Returns(Some(MakeItem(v, parseText)))
  }

  /** A blank cell in a date column that pandas read as `NaT` makes a kept
      row raise, where the corrected row gives an empty date. */
  lemma NaTDateRaises(v: RowView, parseText: string -> Option<Ymd>)
    requires !Skipped(v) && v.startDate == Some(NaT)
    ensures DeriveRowAsWritten(v, parseText).Raises?
    ensures MakeItem(v, parseText).startDate == ""
  {
  }

  /** A list price of `N/A` in a kept row makes line 197 raise, where the
      corrected list price is simply absent. */
  lemma ListPriceOfNotApplicable(v: RowView, parseText: string -> Option<Ymd>)
    requires v.listPrice == Some(Text("N/A")) && !Skipped(v)
    ensures DeriveRowAsWritten(v, parseText).Raises?
    ensures ListPrice(v.listPrice).None? && MakeItem(v, parseText).listPrice.None?
  {
    NotApplicableIsNoNumber();
  }

  /** `_num("N/A")` is `None`. */
  lemma NotApplicableIsNoNumber()
    ensures NumValue(Text("N/A")).None?
  {
    NotApplicableIsAWord();
    NumValueOfText("N/A");
    ParseFloatRejectsWord("N/A");
  }

  lemma NotApplicableIsAWord()
    ensures NoDigit("N/A") && !IsSpace('N') && !IsSpace('A') && !IsNanWord("N/A")
    ensures RemoveChar(RemoveChar("N/A", ','), '$') == "N/A"
  {
  }

  // ---------------------------------------------------------------- the frame

  /** `parse_items` as a value: the items of a frame. */
  function ParsedItems(f: Frame, parseText: string -> Option<Ymd>): (r: seq<Item>)
    ensures DropAllNa(f.rows) == [] ==> r == []
  {
    var rows := DropAllNa(f.rows);
    if rows == [] then [] else ItemsOf(ResolveColumns(NormCols(f.headers)), rows, parseText)
  }

  /** The items of a frame are the items of its rows taken in runs: rows
      keep their order and each row contributes on its own. */
  lemma ParsedItemsAppend(h: seq<string>, a: seq<seq<Cell>>, b: seq<seq<Cell>>,
                          parseText: string -> Option<Ymd>)
    ensures ParsedItems(Frame(h, a + b), parseText)
      == ParsedItems(Frame(h, a), parseText) + ParsedItems(Frame(h, b), parseText)
  {
    var c := ResolveColumns(NormCols(h));
    DropAllNaAppend(a, b);
    ItemsOfAppend(c, DropAllNa(a), DropAllNa(b), parseText);
    assert ItemsOf(c, [], parseText) == [];
  }

  /** `parse_items`: normalise the headers, drop the empty rows, resolve
      the columns and collect the items. */
  method ParseItems(f: Frame, parseText: string -> Option<Ymd>) returns (items: seq<Item>)
    ensures items == ParsedItems(f, parseText)
  {
    var cols := NormCols(f.headers);
    var rows := DropAllNa(f.rows);
    if rows == [] {
      return [];
    }
    items := CollectItems(ResolveColumns(cols), rows, parseText);
  }

  /** The loop of `parse_items`: one item appended per row not skipped. */
  method CollectItems(c: Columns, rows: seq<seq<Cell>>, parseText: string -> Option<Ymd>)
    returns (items: seq<Item>)
    ensures items == ItemsOf(c, rows, parseText)
  {
    items := [];
    var i := 0;
    while i < |rows|
      invariant 0 <= i <= |rows|
      invariant items == ItemsOf(c, rows[..i], parseText)
    {
      var item := DeriveRow(c, rows[i], parseText);
      if item.Some? {
        items := items + [item.value];
      }
      ItemsOfNext(c, rows, i, parseText);
      i := i + 1;
    }
    assert rows[..i] == rows;
  }
}
