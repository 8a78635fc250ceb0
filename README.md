# BOMSpitter quote pipeline, modelled in Dafny

This project models the spreadsheet-to-quote pipeline of BOMSpitter. It proves properties of that model in Dafny.

The pipeline has three parts:

1. **Reading an items sheet** (`fire_a_quote.py`, helpers in `utils/fire_a_quote_utils.py`).
   - Headers are trimmed and lower-cased.
   - Each field is resolved to a column through a ranked list of aliases: exact match first, then substring.
   - Cells are coerced to numbers: every `,` and `$` is removed, then the text is parsed as a Python `float`.
   - Each row that names a product, and is not a `Totals` row, becomes one quote line item with:
     - a quantity;
     - a unit price and a line total, taken from the "your price" column, or else from the list price less the discount;
     - the notes and the category;
     - the start and end dates as `YYYY-MM-DD` text.
   - The items are then grouped by category in first-seen order. Each group has a subtotal, and the quote has a grand total.
   - The helpers also cover:
     - the sheet choice without regard to case;
     - the filename sanitiser;
     - the persisted quote counter, which issues `Q-<n>` and stores `n+1`.
2. **Building the BOM sheet** (`bom_spitter.py`).
   - Each input item becomes one row of 14 named columns.
   - Four columns hold formulas that refer to cells of their own spreadsheet row: Extended, Your Price, Our Cost and Margin.
   - The sheet name is cut to Excel's 31-character limit.
   - A `Totals` footer row is placed below the data. Its `SUM` formulas span the data rows, and its ratio formulas refer to the footer row itself.
3. **The link between the two.** The footer's `Totals` label is exactly what the item reader skips. A BOM sheet read back as an items sheet therefore yields no item for its footer.

## How the model is organised

- **`strings.dfy` (module `Strings`).** The Python string methods the core uses: `strip`, `rstrip`, `lower`, `upper`, `in`, `replace`, the search for the first digit and `str(n)` of a natural number.
- **`cells.dfy` (module `Cells`).** The values a spreadsheet cell can hold:
  - `None`, a NaN float, pandas' missing date-time `NaT`, a number with its `str()` text, a string, or a date.
  - NaN-propagating arithmetic.
  - Python's `float()` parser on text: sign, digits, a fraction, an exponent, and the word `nan` in any case.
- **`quote_utils.dfy` (module `QuoteUtils`).**
  - `_norm_cols`, `_pick`, `_num`, `_prefer_sheet` and `_safe_filename`.
  - The quote counter, as the class `QuoteCounter`. Its one field is the stored text, where `None` means the file is missing.
- **`dates.dfy` (module `QuoteDates`).** `_fmt_date`.
  - The proleptic Gregorian calendar, with a proved conversion from day number to date.
  - Excel day serials counted from 1899-12-30.
  - The full-date form of section 5.6 of RFC 3339, `YYYY-MM-DD`, with a parser proved to invert it.
- **`items.dfy` (module `QuoteItems`).**
  - The alias table `CANDIDATES`.
  - `parse_items`: one row as a function, and the loop over the rows as a method proved against the function for all rows.
- **`grouping.dfy` (module `QuoteGroups`).** The category grouping block of `main`. Three loops, each proved against a specification function:
  1. ordering the categories;
  2. creating the groups;
  3. filling the groups and their subtotals.
- **`bom.dfy` (module `BomSpitter`).**
  - The formula builders, with a reader of A1-style cell references that proves which cells each formula refers to.
  - The `build_dataframe` loop.
  - The header rename and the sheet name.
  - The totals footer.

Money is `real`. A float that may be NaN is `Float = NotANumber | Finite(real)`, so NaN is modelled explicitly. `np.nansum`, which skips NaN, is the grand total.

Free-text date parsing (`pd.to_datetime` on a string) is a library heuristic. It is the function parameter `parseText` throughout.

Where the code and its documentation disagree, the model follows the code:

- `_num` removes `$` anywhere in the text, not only a leading one.
- A quantity between 0 and 1 is truncated to 0 by `int()`. Line 174 of `fire_a_quote.py` then uses the line total as the unit price. So quantities are not claimed to be at least 1.
- The docstring of `build_dataframe` says terms are given in months. The code truncates the term with `int()` and uses 12 for 0. The `Term` column is months / 12, so a term that is not a whole number of months is truncated first.

## Model

| member | source | states |
|---|---|---|
| QuoteUtils.NormCols | utils/fire_a_quote_utils.py:46-49 | same number and order of headers, each one the trimmed lower-case form of the original |
| QuoteUtils.NormColsIdempotent | utils/fire_a_quote_utils.py:46-49 | normalised headers have no upper case and no surrounding space, and normalising again changes nothing |
| QuoteUtils.ExactIndex | utils/fire_a_quote_utils.py:52-54 | finds the earliest alias that is a column, or reports that no alias is a column |
| QuoteUtils.ContainingIndex | utils/fire_a_quote_utils.py:56-58 | finds the first column, in column order, that contains the alias, or reports that none does |
| QuoteUtils.SubstringIndex | utils/fire_a_quote_utils.py:55-58 | finds the earliest alias contained in some column and the first such column, or reports that no alias is contained in any column |
| QuoteUtils.Pick | utils/fire_a_quote_utils.py:51-59 | an exact match wins, and the earliest such alias is chosen. Otherwise the result is the first column that contains the earliest alias found inside any column. It is `None` exactly when no alias occurs in any column, and any other result is one of the columns |
| QuoteUtils.PickPrefersExact | utils/fire_a_quote_utils.py:52-54 | an exact match of a later alias beats an earlier alias that only occurs inside another column |
| QuoteUtils.NumValue | utils/fire_a_quote_utils.py:61-65 | a numeric cell gives its own value |
| QuoteUtils.NumValueOfPlainText | utils/fire_a_quote_utils.py:63 | text without `,` or `$` is parsed unchanged |
| QuoteUtils.NumOfSeparatedDigits | utils/fire_a_quote_utils.py:63 | digits mixed with `,` and `$` anywhere read as the number the digits spell |
| QuoteUtils.NumNeedsDigit | utils/fire_a_quote_utils.py:61-65 | text with no digit never gives a finite number, only no value or NaN |
| QuoteUtils.NumOfNaN | utils/fire_a_quote_utils.py:61-65 | a NaN cell gives NaN, because `str(nan)` parses back |
| QuoteUtils.NumOfNull | utils/fire_a_quote_utils.py:61-65 | a `None` cell gives no value, not 0 |
| QuoteUtils.SheetIndex | utils/fire_a_quote_utils.py:68-71 | the first sheet whose lower-case name equals the wanted one, or reports that there is none |
| QuoteUtils.PreferSheet | utils/fire_a_quote_utils.py:67-72 | the result is one of the sheets. For the earliest candidate that matches some sheet ignoring case, it is the first sheet matching that candidate. It is the first sheet when no candidate matches |
| QuoteUtils.PreferSheetIgnoresCase | utils/fire_a_quote_utils.py:67-72 | candidate lists that differ only in case choose the same sheet |
| QuoteUtils.SheetIndexIgnoresCase | utils/fire_a_quote_utils.py:68-71 | the lookup does not depend on the case of the wanted name |
| QuoteUtils.ReplaceIllegal | utils/fire_a_quote_utils.py:31 | each of `\ / * ? : " < > \|` becomes `_`, and every other character is kept in place |
| QuoteUtils.CleanName | utils/fire_a_quote_utils.py:30-32 | after strip, replace and `rstrip(" .")`, no illegal character remains and the name does not end in a space or dot |
| QuoteUtils.AvoidReserved | utils/fire_a_quote_utils.py:33-40 | the result is non-empty, has no illegal character, does not end in a space or dot, and its upper case is not a reserved device name |
| QuoteUtils.SafeFilename | utils/fire_a_quote_utils.py:26-40 | never empty, no illegal character, no trailing space or dot, never a reserved device name in any case |
| QuoteUtils.PrefixedNotReserved | utils/fire_a_quote_utils.py:38-39 | a name with the `_` prefix is never reserved |
| QuoteUtils.FileNotReserved | utils/fire_a_quote_utils.py:40 | the fallback `file` is not reserved |
| QuoteUtils.SafeFilenameKeepsSafeNames | utils/fire_a_quote_utils.py:26-40 | a name that is already safe is returned unchanged |
| QuoteUtils.SafeFilenameOfReserved | utils/fire_a_quote_utils.py:38-39 | a reserved device name, in any case, gets exactly a `_` prefix |
| QuoteUtils.FirstDigitRun | utils/fire_a_quote_utils.py:90 | no match iff the text has no digit. Otherwise the match is a maximal run of digits with no digit before it |
| QuoteUtils.ReadCounterOfWritten | utils/fire_a_quote_utils.py:86-101 | `ReadCounter` reads back exactly the number the counter wrote |
| QuoteUtils.ReadCounterOfBlank | utils/fire_a_quote_utils.py:87-96 | `ReadCounter` of a missing file, or of one holding only whitespace, is 1 |
| QuoteUtils.ReadCounterOfPrefixed | utils/fire_a_quote_utils.py:89-91 | `ReadCounter` of a stored value with a digit-free prefix, like `Q-1234`, is its number |
| QuoteUtils.FirstDigitRunPastPrefix | utils/fire_a_quote_utils.py:89-90 | the digit search skips a digit-free prefix and takes the whole run of digits |
| QuoteUtils.QuoteCounter.constructor | utils/fire_a_quote_utils.py:75-77 | the counter starts with the given stored text |
| QuoteUtils.QuoteCounter.PopAndIncrement | utils/fire_a_quote_utils.py:77-104 | returns the prefix and the current number. It stores `str(current + 1)`, so the next read gives one more |
| QuoteUtils.IssueTwiceFromMissing | utils/fire_a_quote_utils.py:80-104 | from a missing file, two calls issue `Q-1` and then `Q-2` |
| Cells.FMul | fire_a_quote.py:181-182 | a product is NaN iff either factor is NaN |
| Cells.FSub | fire_a_quote.py:181 | a difference is NaN iff either operand is NaN |
| Cells.FAdd | fire_a_quote.py:336 | a sum is NaN iff either operand is NaN |
| Cells.ParseFloatOfStripped | utils/fire_a_quote_utils.py:63 | `float()` ignores surrounding whitespace |
| Cells.ParseFloatOfDigitRun | utils/fire_a_quote_utils.py:63 | a run of digits parses as its decimal value |
| Cells.ParseFloatOfNan | utils/fire_a_quote_utils.py:63 | the word `nan` in any case, with or without a sign and surrounding whitespace, parses as NaN |
| Cells.ParseFloatRejectsWord | utils/fire_a_quote_utils.py:64-65 | a trimmed, unsigned word with no digit that is not `nan` does not parse |
| Strings.NatToStringRoundTrip | utils/fire_a_quote_utils.py:91-101 | the decimal text written for a number reads back as that number |
| QuoteDates.FromOrdinal | fire_a_quote.py:104-105 | every day number from 1 on is the day number of exactly this valid date |
| QuoteDates.FromOrdinalOfOrdinal | fire_a_quote.py:104-105 | converting a valid date to its day number and back gives the same date |
| QuoteDates.OrdinalInjective | fire_a_quote.py:104-105 | distinct valid dates have distinct day numbers |
| QuoteDates.SerialOriginIsDate | fire_a_quote.py:103-105 | the origin 1899-12-30 is a valid date with the day number used as the serial origin |
| QuoteDates.SerialDate | fire_a_quote.py:104-106 | a serial within the pandas timestamp range is the valid date whose day number is the origin plus the whole days. Its year lies between 1677 and 2262 |
| QuoteDates.SerialYears | fire_a_quote.py:104-105 | day numbers inside the timestamp range fall in the years 1677 to 2262 |
| QuoteDates.PaddedField | fire_a_quote.py:106 | a zero-padded field has its full width, is all digits, and reads back as the number |
| QuoteDates.IsoShape | fire_a_quote.py:106 | a date with a four-digit year formats as ten characters with `-` at positions 4 and 7 |
| QuoteDates.IsoRoundTrip | fire_a_quote.py:106 | parsing the `YYYY-MM-DD` text of a date gives the date back |
| QuoteDates.ParseIsoOfFields | fire_a_quote.py:106 | four, two and two digits joined by `-` parse as the date they spell |
| QuoteDates.TextDate | fire_a_quote.py:112-122 | text the date parser accepts becomes `YYYY-MM-DD`, and any other text is returned unchanged |
| QuoteDates.FmtDateEmpty | fire_a_quote.py:87-97 | the result is empty iff the cell is `None`, NaN, `NaT`, or blank text |
| QuoteDates.FmtDate | fire_a_quote.py:82-122 | a valid date with a four-digit year, and a serial within the timestamp range, print as text that parses back as that date |
| QuoteDates.FmtDateAsWritten | fire_a_quote.py:87-97 | as written, it raises iff the cell is `NaT`, and otherwise gives what the corrected function gives |
| QuoteDates.FmtDateOfSerial | fire_a_quote.py:99-106 | a number in range becomes the `YYYY-MM-DD` text of the date that many whole days after 1899-12-30, and that text parses back to the date |
| QuoteDates.Serial44197 | fire_a_quote.py:103-106 | the serial 44197 is 2021-01-01 |
| QuoteDates.FmtDateFallback | fire_a_quote.py:111-122 | when no conversion applies, the stripped text is returned and nothing is raised |
| QuoteDates.IsoNotEmpty | fire_a_quote.py:106 | a formatted date is never empty |
| QuoteItems.LowerAll | fire_a_quote.py:131-147 | a new list of the same length whose every alias is the lower case of the one at the same position |
| QuoteItems.DropAllNa | fire_a_quote.py:126 | keeps exactly the rows that are not entirely missing, and never adds a row. `DropAllNaOne` and `DropAllNaAppend` state that the order and the count of the kept rows are kept too |
| QuoteItems.DropAllNaOne | fire_a_quote.py:126 | a single row is kept iff it holds a value |
| QuoteItems.DropAllNaAppend | fire_a_quote.py:126 | the rows kept from two runs of rows are the rows kept from each run, one after the other, so order and multiplicity are kept |
| QuoteItems.Locate | fire_a_quote.py:131-147 | a field has a column iff `_pick` finds one, and the index is that column's position |
| QuoteItems.ResolveColumns | fire_a_quote.py:130-147 | every resolved index lies inside the row. Each of the ten fields has a column iff `_pick` finds one among the lower-cased aliases, and then its index is the position of that column |
| QuoteItems.Get | fire_a_quote.py:151 | a field without a column reads as absent, and one with a column reads that cell |
| QuoteItems.View | fire_a_quote.py:157-158 | the row's first cell is the one the `Totals` test reads |
| QuoteItems.YourPricePricing | fire_a_quote.py:172-175 | the line total is the your-price value. The unit price times the quantity gives it back, and with quantity 0 the unit price is the total |
| QuoteItems.ListPricing | fire_a_quote.py:176-185 | the total is the unit price times the quantity. The unit price is the list price less the discount fraction, is the list price itself with no discount, and is 0 with no list price |
| QuoteItems.NoteOf | fire_a_quote.py:187-190 | notes and category have no surrounding space. An absent column or a missing cell gives the empty text, and a text cell gives its stripped text |
| QuoteItems.ListPrice | fire_a_quote.py:197 | the list price is absent for an absent column or a missing cell, and is otherwise the undiscounted `_num` value |
| QuoteItems.NotNan | fire_a_quote.py:193-195 | the text `nan` in any case becomes empty, every other text is kept unchanged, so `nan` never reaches the item |
| QuoteItems.DeriveRow | fire_a_quote.py:150-206 | a row gives no item iff it is skipped, and otherwise the item built from its cells |
| QuoteItems.Collect | fire_a_quote.py:149-207 | never more items than rows |
| QuoteItems.ItemsOfNext | fire_a_quote.py:150-206 | each row appends its own item, if any, after the items of the rows before it |
| QuoteItems.CollectAppend | fire_a_quote.py:149-207 | collecting two runs of rows is collecting each and concatenating, so order is kept |
| QuoteItems.ItemsOfAppend | fire_a_quote.py:149-207 | the items of two blocks of rows are the items of each, in order |
| QuoteItems.ItemsOfRow | fire_a_quote.py:150-206 | a skipped row contributes nothing, and any other row contributes exactly its item |
| QuoteItems.CollectTotal | fire_a_quote.py:149-207 | when every row gives an item, there is one item per row at the same position |
| QuoteItems.ItemsOfUnskipped | fire_a_quote.py:150-206 | rows none of which is skipped give exactly one item each, in row order |
| QuoteItems.KeptRowItem | fire_a_quote.py:192-206 | the item `MakeItem` builds for a kept row names a product by SKU or description, neither of them `nan`. Its notes and category have no surrounding space, and its total is the unit price times the quantity whenever the quantity is not 0 |
| QuoteItems.ItemKeepsTexts | fire_a_quote.py:187-196 | the item `MakeItem` builds keeps a SKU or description that does not read `nan` as the stripped cell text, keeps text notes and categories stripped, and gives empty notes and category for absent columns or missing cells |
| QuoteItems.CollectKeeps | fire_a_quote.py:149-207 | a property of every derived item holds of every collected item |
| QuoteItems.ItemsWellFormed | fire_a_quote.py:192-206 | every parsed item is well formed |
| QuoteItems.Qty | fire_a_quote.py:162-164 | a positive parsed quantity is truncated to the whole number at or below it. Anything else, an absent column included, gives 1 |
| QuoteItems.QtyOfMissing | fire_a_quote.py:162-164 | an absent quantity column, a `None` cell and a NaN cell all give 1 |
| QuoteItems.QtyOfDigits | fire_a_quote.py:162-164 | a quantity written in digits, with `,` or `$` anywhere, gives that number, or 1 when it is 0 |
| QuoteItems.PrimaryPath | fire_a_quote.py:166-175 | in `MakeItem` and `Pricing`, a non-NaN your-price value V makes the line total V and the unit price V / qty, or V when qty is 0 |
| QuoteItems.FallbackPath | fire_a_quote.py:176-185 | in `MakeItem` and `Pricing`, without a your-price value the unit price is list × (1 − discount) and the total is unit × qty. Both are 0 without a list price. The list price is kept undiscounted |
| QuoteItems.UnpickedIgnored | fire_a_quote.py:145-147 | changing a cell of a column that no field picked, other than the first column, does not change the derived item |
| QuoteItems.ExtendedReadAsEndDate | fire_a_quote.py:143 | with the headers `sku`, `qty` and `extended`, the end date is read from `extended`: no end-date alias is a header, and `end` occurs inside `extended` |
| QuoteItems.TotalsRowSkipped | fire_a_quote.py:156-160 | a row whose first cell reads `totals` in any case and spacing gives no item, and adding it leaves the items unchanged |
| QuoteItems.NaNNamesSkipped | fire_a_quote.py:151-154 | a row whose SKU and description are both NaN or absent is skipped |
| QuoteItems.NoneNamesKept | fire_a_quote.py:151-154 | a row whose SKU and description cells hold `None` is kept, with the SKU text `None`, because `str(None)` is not blank |
| QuoteItems.ListPriceAsWritten | fire_a_quote.py:197 | as written, it raises exactly for a present, non-missing cell that is not a number, and otherwise agrees with the corrected list price |
| QuoteItems.DeriveRowAsWritten | fire_a_quote.py:192-206 | as written, a kept row raises iff its list price is present, not missing and not a number, or its start or end date is `NaT`. Every other row gives what the corrected row step gives |
| QuoteItems.DateOfAsWritten | fire_a_quote.py:204-205 | as written, a date field raises iff its cell is `NaT`, and otherwise gives the corrected date text |
| QuoteItems.NaTDateRaises | fire_a_quote.py:204 | a kept row whose start-date cell is `NaT` raises as written, while the corrected item has an empty start date |
| QuoteItems.ListPriceOfNotApplicable | fire_a_quote.py:197 | a kept row with list price `N/A` raises as written, while the corrected item has no list price |
| QuoteItems.NotApplicableIsNoNumber | utils/fire_a_quote_utils.py:61-65 | `_num("N/A")` is no value |
| QuoteItems.ParsedItems | fire_a_quote.py:126-128 | a frame with no non-empty row gives no items |
| QuoteItems.ParsedItemsAppend | fire_a_quote.py:125-207 | the items of a frame whose rows are two runs are the items of each run, one after the other: each row contributes on its own, in row order |
| QuoteItems.ParseItems | fire_a_quote.py:125-207 | returns the items of the frame: headers normalised, empty rows dropped, columns resolved, rows collected |
| QuoteItems.CollectItems | fire_a_quote.py:149-207 | the loop appends, in row order, exactly the items of the rows not skipped |
| QuoteGroups.CategoryName | fire_a_quote.py:315-317 | a category name is never empty |
| QuoteGroups.CategoryNameIdempotent | fire_a_quote.py:315-317 | a non-blank category is its stripped text, a blank one is `Uncategorized`, and applying it twice changes nothing |
| QuoteGroups.Categories | fire_a_quote.py:319-326 | the ordered categories have no repeats |
| QuoteGroups.OrderCategories | fire_a_quote.py:319-326 | the loop with its seen-set yields the categories in first-seen order |
| QuoteGroups.CategoriesCover | fire_a_quote.py:319-326 | a category is listed iff some item carries it |
| QuoteGroups.CategoryCarried | fire_a_quote.py:319-326 | every listed category is carried by some item |
| QuoteGroups.CarriedCategory | fire_a_quote.py:319-326 | every item's category is listed |
| QuoteGroups.CategoriesGrow | fire_a_quote.py:322-326 | one more item keeps the categories seen so far, adds its own, and adds nothing else |
| QuoteGroups.CategoriesPrefix | fire_a_quote.py:319-326 | the categories of a prefix of the items come first, in the same order |
| QuoteGroups.GroupsFor | fire_a_quote.py:328-338 | one group per category, in the order of the categories |
| QuoteGroups.Groups | fire_a_quote.py:328-338 | one group per category, in first-seen category order |
| QuoteGroups.StartGroups | fire_a_quote.py:328-330 | creates exactly one empty group with a zero subtotal per category |
| QuoteGroups.FillGroups | fire_a_quote.py:332-336 | after the loop, each category's group holds its items in row order, with their subtotal |
| QuoteGroups.GroupStep | fire_a_quote.py:332-336 | one pass of the loop appends the item to its group and adds its subtotal |
| QuoteGroups.GroupsInOrder | fire_a_quote.py:338 | the group values are listed in category order |
| QuoteGroups.GroupByCategory | fire_a_quote.py:311-338 | the groups are those of the items in first-seen category order, and the grand total is the NaN-skipping sum |
| QuoteGroups.GroupItemsMembers | fire_a_quote.py:332-335 | a group holds only items of its category, and every item of the category |
| QuoteGroups.UnseenGroupEmpty | fire_a_quote.py:332-335 | a category no item carries has no items |
| QuoteGroups.ExactlyOneGroup | fire_a_quote.py:328-338 | the categories of the groups `Groups` builds are distinct, and each item is in exactly the group of its category |
| QuoteGroups.GroupsForAt | fire_a_quote.py:338 | the group at a position is the group of the category at that position |
| QuoteGroups.GroupItemsSnoc | fire_a_quote.py:332-335 | a new item extends only its own group |
| QuoteGroups.CatSumStep | fire_a_quote.py:332-336 | summing over distinct categories grows by the new item's weight when its category is listed |
| QuoteGroups.CatSumIsWeightSum | fire_a_quote.py:328-338 | summing any per-item weight group by group gives the sum over all items, since the groups partition the items |
| QuoteGroups.GroupSizes | fire_a_quote.py:332-335 | the group sizes add up to the number of items |
| QuoteGroups.TotalOf | fire_a_quote.py:336 | a running subtotal is NaN iff some item's subtotal is NaN, and is otherwise the plain sum |
| QuoteGroups.GroupTotals | fire_a_quote.py:311-338 | without NaN subtotals, each group subtotal is the sum of its items, and the group subtotals add up to `BomTotal` |
| QuoteGroups.GroupItemsNoNaN | fire_a_quote.py:332-335 | a group of NaN-free items is NaN-free |
| QuoteGroups.GroupsSumIsCatSum | fire_a_quote.py:328-338 | the group subtotals add up to the sum taken category by category |
| QuoteGroups.NaNGroup | fire_a_quote.py:311-336 | one NaN item subtotal makes its group's subtotal NaN, while `BomTotal` skips it: the grand total equals that of the items without it |
| QuoteGroups.WeightSumOne | fire_a_quote.py:332-335 | counting each item once gives the number of items |
| QuoteGroups.WeightSumAppend | fire_a_quote.py:311-312 | a sum over two runs of items is the sum over each run added together |
| BomSpitter.RefsOfRef | bom_spitter.py:24-38 | the text of a cell address reads back as exactly that one reference |
| BomSpitter.RefsAppend | bom_spitter.py:24-38 | the references of joined text are those of each part, when the second part does not continue a row number |
| BomSpitter.RefsOfThree | bom_spitter.py:24-38 | a formula of three addresses separated by text without references refers to exactly those three cells, in order |
| BomSpitter.ExtendedRefs | bom_spitter.py:24-26 | `ExtendedFormula` refers to exactly B, G and H of its own row. This pins the referenced cells, not the operators between them |
| BomSpitter.YourPriceRefs | bom_spitter.py:28-30 | `YourPriceFormula` refers to exactly I, I and J of its own row. This pins the referenced cells, not the operators between them |
| BomSpitter.OurCostRefs | bom_spitter.py:32-34 | `OurCostFormula` refers to exactly I, I and L of its own row. This pins the referenced cells, not the operators between them |
| BomSpitter.MarginRefs | bom_spitter.py:36-38 | `MarginFormula` refers to exactly K, M and K of its own row. This pins the referenced cells, not the operators between them |
| BomSpitter.FormulaColumns | bom_spitter.py:61-76 | the referenced letters are the intended columns: B QTY, G Price, H Term, I Extended, J Discount, K Your Price, L Buy Discount, M Our Cost, N Margin |
| BomSpitter.Entries | bom_spitter.py:61-76 | every row has exactly the 14 keys, in order |
| BomSpitter.EntriesKeys | bom_spitter.py:61-76 | the keys of any row are the header |
| BomSpitter.DropUnnamed | bom_spitter.py:80-81 | keeps exactly the columns not starting with `Unname`, and never adds one. `DropUnnamedOne` and `DropUnnamedAppend` state that order and count are kept |
| BomSpitter.DropUnnamedOne | bom_spitter.py:80-81 | a single column is kept iff its name does not start with `Unname` |
| BomSpitter.DropUnnamedAppend | bom_spitter.py:80-81 | the columns kept from two runs of columns are those kept from each run, one after the other, so order is kept |
| BomSpitter.DropUnnamedKeepsHeader | bom_spitter.py:79-81 | no built column is dropped |
| BomSpitter.KeepsNamed | bom_spitter.py:80-81 | columns none of which starts with `Unname` are all kept, in order |
| BomSpitter.DisplayHeaders | bom_spitter.py:157-161 | `Price` is shown as `List Price`, every other header unchanged, so no header reads `Price` |
| BomSpitter.Trunc | bom_spitter.py:57 | `int()` truncates toward zero |
| BomSpitter.TermMonths | bom_spitter.py:57 | the months are never 0. A missing term gives 12, a term that truncates to 0 gives 12, and any other term is its truncation |
| BomSpitter.RowFormulas | bom_spitter.py:70-75 | the four formula cells of the row `RowFor` builds at row n refer to exactly the intended cells of row n |
| BomSpitter.RowFormulasDiffer | bom_spitter.py:49-75 | rows with different row numbers get different formulas |
| BomSpitter.Defaults | bom_spitter.py:51-59 | `RowFor` of an item with no keys has qty 1, empty texts, price 0.0, term 1 year and discounts 0 |
| BomSpitter.Conversions | bom_spitter.py:57-59 | in the row `RowFor` builds, Term × 12 is the months, a whole number of months is kept exactly, and a term under one month becomes one year. Discount × 100 and Buy Discount × 100 give back the percentages |
| BomSpitter.BuildDataframe | bom_spitter.py:41-82 | one row per item in input order, where item k refers to spreadsheet row k+2. The columns are the 14 keys, or none when there are no items |
| BomSpitter.SheetName | bom_spitter.py:100-101 | at most 31 characters. A short name is kept, and a long one becomes its first 29 characters followed by `..` |
| BomSpitter.Footer | bom_spitter.py:176-203 | the footer has one cell per column, A to N |
| BomSpitter.SumRefs | bom_spitter.py:182 | a column sum refers to exactly rows 2 and the last row of that column |
| BomSpitter.RatioRefs | bom_spitter.py:186 | a ratio refers to exactly its two cells of the totals row |
| BomSpitter.FooterAddresses | bom_spitter.py:172-178 | each footer address is its column in row last+2. `FooterValue` puts `Totals` in A, and B to H are blank |
| BomSpitter.FooterSums | bom_spitter.py:181-199 | the sums `FooterValue` puts in I, K and M span rows 2 through last+1 of their own column |
| BomSpitter.FooterRatios | bom_spitter.py:185-203 | the ratios `FooterValue` puts in J, L and N refer only to the totals row: I with K, I with M, and K with M |
| BomSpitter.FooterCoversItems | bom_spitter.py:166-183 | the Extended sum spans exactly the rows the built frame writes, each strictly above the totals row |
| BomSpitter.TotalsIsALabel | bom_spitter.py:176 | the footer label is what `parse_items` takes for a `Totals` row |
| BomSpitter.FooterSkippedOnReadBack | bom_spitter.py:176 | the footer row, read back as an items row, gives no item and leaves the items of the rows before it unchanged |

## Left out

- I/O and the rest of the program are not modelled:
  - reading workbooks (`read_with_pandas_values`, `read_with_openpyxl_cached`, `try_excel_recalc`);
  - the HTML template and `render_html`;
  - the PDF renderer and `_b64_png`;
  - the logo;
  - argument parsing, paths and JSON output in `main`.

  A frame is given as headers and rows of cells.
- The quote counter's `mkdir`, temporary file and rename are not modelled, and neither is a race between separate processes. A file that cannot be read is treated like a missing one, as the code does.
- `write_bom`'s formats, widths, conditional format, image and file writing are not modelled. Only its sheet name, header rename and row arithmetic are. The last data row is taken to be the number of data rows, which is what `dim_rowmax` holds after the frame is written.
- `pd.to_datetime` on free text is a library heuristic. It is the parameter `parseText`, and a time of day it might carry is not modelled.
- `strftime` of a year below 1000 is not modelled: `IsoShape` and `IsoRoundTrip` need a four-digit year.
- The float model leaves out several things:
  - binary rounding;
  - `inf`, `infinity`, underscores between digits, hexadecimal and non-ASCII digits, all of which Python's `float()` also accepts. The quote counter's `\d` also matches non-ASCII digits, which the model does not count as digits;
  - the `str()` of a number is carried in the cell as given, rather than computed.
- Unicode case mapping is not modelled: `lower()` and `upper()` act on ASCII letters only. A sheet or column name with other cased letters may match differently.
- Duplicate header names are not modelled. A frame built with `pd.DataFrame(data, columns=headers)` keeps duplicate names, and `_norm_cols` can create them (`SKU` and `sku `). `r.get` then returns a Series of all the cells under that name, which the code goes on to stringify. The model reads the first column with that name.
- A date-typed cell holds a calendar date only. `_fmt_date` formats it as `YYYY-MM-DD`, and its time of day is not modelled.
- BomSpitter.RowFor: the inputs to `build_dataframe` are typed, so text and `None` values that make `int()` or `float()` raise are not modelled.
- BomSpitter.FooterSkippedOnReadBack: only the `Totals` label of the footer is read back. The cached values of the footer formulas are not modelled.
- QuoteGroups.GroupTotals: stated only when no item subtotal is NaN. With a NaN subtotal, `bom_total` skips it and the group subtotal does not; `NaNGroup` states that case.
- QuoteItems.NoneNamesKept: as written, a row whose SKU and description cells hold `None` is kept with the text `None`. This is the code's behaviour and is not corrected.
- An `Extended` column, or any header containing `end`, `start` or another alias as a substring, is picked for that field when no alias matches exactly. This is the code's behaviour, shown by `ExtendedReadAsEndDate`, and is not corrected. A BOM sheet read back as an items sheet therefore takes its end date from the Extended column.
- QuoteItems.Collect: ensures only the length bound. What it collects is stated by `CollectAppend`, `CollectTotal` and `CollectKeeps`.

## Findings

| source | as written | input that shows it | evidently intended | confidence | as-written member | corrected member |
|---|---|---|---|---|---|---|
| fire_a_quote.py:96-97 | `_fmt_date` tests `None`, `float` and blank text, then calls `strftime` on anything that is a `datetime`. pandas' missing date-time `NaT` passes those tests, and its `strftime` raises `ValueError`, which ends `parse_items` | a kept row whose start-date cell is `NaT`, as pandas gives for a blank cell in a column of dates (`QuoteItems.NaTDateRaises`) | a missing date gives the empty text, like `None` and NaN | not executed | QuoteDates.FmtDateAsWritten | QuoteDates.FmtDate |
| fire_a_quote.py:197 | `float(_num(cell))` is applied to any list-price cell that is present and not missing. `_num` gives `None` for text it cannot read, and `float(None)` raises `TypeError`, which ends `parse_items` | a kept row whose list-price cell is the text `N/A` (`QuoteItems.ListPriceOfNotApplicable`) | the item is built with no list price, as for an empty cell | not executed | QuoteItems.DeriveRowAsWritten | QuoteItems.DeriveRow |
