/** The pricelist import wizard: a file-name constraint, the parse of the first worksheet into
    (internal reference, price, row number) records, the lookup of active product templates by
    internal reference, and the upsert of fixed-price pricelist items with created/updated/skipped
    counters. */
module PricelistImport {
  import opened Wrappers
  import opened Text

  datatype ImportError =
    | FileFormat   // "File must be in .xlsx or .xls format."
    | NoFile       // "Please select an Excel file."
    | ReadError    // "Error reading Excel file: ..."
    | NoValidData  // "No valid data found in the Excel file."

  // The file-name constraint

  /** `_check_file_format`: a set file name must end in ".xlsx" or ".xls", ignoring case. */
  function CheckFileFormat(filename: Option<string>): Result<(), ImportError>
  {
    if filename.Some? && filename.value != "" &&
       !(EndsWith(Lower(filename.value), ".xlsx") || EndsWith(Lower(filename.value), ".xls"))
    then Failure(FileFormat)
    else Success(())
  }

  /** A missing or empty name passes; any name with an extension ".xlsx" or ".xls" in any letter
      case passes; a non-empty name whose last character is neither 'x' nor 's' (in either case)
      is rejected. */
  lemma FileFormatCases(stem: string, ext: string)
    requires Lower(ext) == ".xlsx" || Lower(ext) == ".xls"
    ensures CheckFileFormat(None).Success? && CheckFileFormat(Some("")).Success?
    ensures CheckFileFormat(Some(stem + ext)).Success?
    ensures stem != [] && LowerChar(stem[|stem| - 1]) != 'x' && LowerChar(stem[|stem| - 1]) != 's' ==>
              CheckFileFormat(Some(stem)).Failure?
  {
    LowerAppend(stem, ext);
    var low := Lower(stem + ext);
    assert low == Lower(stem) + Lower(ext);
    assert low[|low| - |Lower(ext)|..] == Lower(ext);
    if stem != [] && LowerChar(stem[|stem| - 1]) != 'x' && LowerChar(stem[|stem| - 1]) != 's' {
      var l := Lower(stem);
      assert l[|l| - 1] == LowerChar(stem[|stem| - 1]);
    }
  }

  /** Both directions of the check: a set name passes exactly when it is empty or splits into a
      stem and an extension that lowers to ".xlsx" or ".xls", so "a.docx" or "b.pdfs" is rejected. */
  lemma FileFormatAcceptsExactly(name: string)
    ensures CheckFileFormat(Some(name)).Success? <==>
      name == "" || exists stem, ext :: name == stem + ext && (Lower(ext) == ".xlsx" || Lower(ext) == ".xls")
  {
    if name != "" {
      if CheckFileFormat(Some(name)).Success? {
        var low := Lower(name);
        var k := if EndsWith(low, ".xlsx") then 5 else 4;
        var stem, ext := name[..|name| - k], name[|name| - k..];
        assert name == stem + ext;
        assert Lower(ext) == low[|name| - k..];
      }
      if exists stem, ext :: name == stem + ext && (Lower(ext) == ".xlsx" || Lower(ext) == ".xls") {
        var stem, ext :| name == stem + ext && (Lower(ext) == ".xlsx" || Lower(ext) == ".xls");
        FileFormatCases(stem, ext);
      }
    }
  }

  /** The check ignores letter case: a name and its lower-case form are accepted alike. */
  lemma FileFormatIgnoresCase(name: string)
    ensures CheckFileFormat(Some(name)) == CheckFileFormat(Some(Lower(name)))
  {
    LowerIdempotent(name);
    assert |Lower(name)| == |name|;
    assert name == "" <==> Lower(name) == "";
  }

  // Reading the worksheet

  /** A cell value as the spreadsheet reader returns it: text (empty for a blank cell) or a number. */
  datatype CellValue = Str(s: string) | Number(x: real)

  /** A worksheet as its rows of cell values; `|rows|` is the reader's row count. */
  datatype Worksheet = Worksheet(rows: seq<seq<CellValue>>)

  /** The uploaded file after decoding: unreadable, or a workbook with its worksheets. */
  datatype Upload = Unreadable | Workbook(sheets: seq<Worksheet>)

  /** The configured header row (0-based first data row) and 1-based reference and price columns. */
  datatype Layout = Layout(headerRow: int, refCol: int, priceCol: int)

  /** A parsed record (`data_rows` entry). */
  datatype Row = Row(internalReference: string, price: real, rowNumber: int)

  /** Python's `float(text)`: the number the text denotes, or None where it raises ValueError. */
  type ParseFloat = string -> Option<real>

  /** Python's `str(number)`. */
  type ShowFloat = real -> string

  /** Python list indexing: a negative index counts from the end; anything else out of range
      raises IndexError (None). */
  function PyIndex(n: nat, i: int): (r: Option<nat>)
    ensures r.Some? <==> -(n as int) <= i < n
    ensures r.Some? ==> r.value < n && (0 <= i ==> r.value == i) && (i < 0 ==> r.value == n + i)
  {
    if 0 <= i < n then Some(i) else if -(n as int) <= i < 0 then Some((n + i) as nat) else None
  }

  /** `worksheet.cell_value(r, c)`, None where it raises IndexError. */
  function CellAt(ws: Worksheet, r: int, c: int): Option<CellValue>
  {
    match PyIndex(|ws.rows|, r)
    case None => None
    case Some(ri) => match PyIndex(|ws.rows[ri]|, c)
      case None => None
      case Some(ci) => Some(ws.rows[ri][ci])
  }

  /** `str(value)`. */
  function CellText(v: CellValue, show: ShowFloat): string
  {
    match v
    case Str(s) => s
    case Number(x) => show(x)
  }

  /** The price conversion; None where `float` raises ValueError. */
  function PriceOf(v: CellValue, parse: ParseFloat): Option<real>
  {
    match v
    case Str(s) => if Strip(s) != "" then parse(ReplaceChar(s, ',', '.')) else Some(0.0)
    case Number(x) => if x != 0.0 then Some(x) else Some(0.0)
  }

  /** The three conversion cases: a text cell is parsed with every ',' read as '.', a blank text
      cell gives 0.0, and a number is taken as it is (0.0 for zero). */
  lemma PriceConversion(v: CellValue, parse: ParseFloat)
    ensures v.Str? && !AllSpace(v.s) ==> (PriceOf(v, parse) == parse(ReplaceChar(v.s, ',', '.')) &&
                                          ',' !in ReplaceChar(v.s, ',', '.'))
    ensures v.Str? && AllSpace(v.s) ==> PriceOf(v, parse) == Some(0.0)
    ensures v.Number? ==> PriceOf(v, parse) == Some(v.x)
  {
    if v.Str? {
      StripEmptyIffBlank(v.s);
      ReplaceRemoves(v.s, ',', '.');
    }
  }

  /** What one visited row contributes: a record, nothing, or an IndexError that aborts the parse
      (it is not among the errors the row loop catches). */
  datatype RowOutcome = Emit(row: Row) | Skip | Abort

  /** One iteration of the row loop, for 0-based row index `idx`. */
  function ReadRow(ws: Worksheet, idx: int, lay: Layout, parse: ParseFloat, show: ShowFloat): (o: RowOutcome)
    ensures o.Emit? ==> o.row.rowNumber == idx + 1
  {
    var refCell := CellAt(ws, idx, lay.refCol - 1);
    var priceCell := CellAt(ws, idx, lay.priceCol - 1);
    if refCell.None? || priceCell.None? then Abort
    else
      var internalRef := Strip(CellText(refCell.value, show));
      if internalRef == "" then Skip
      else match PriceOf(priceCell.value, parse)
        case None => Skip
        case Some(price) => Emit(Row(internalRef, price, idx + 1))
  }

  /** A visited row aborts the parse exactly when its reference or price cell lies outside the
      worksheet, after Python's negative-index wrap-around. */
  lemma ReadRowAborts(ws: Worksheet, idx: int, lay: Layout, parse: ParseFloat, show: ShowFloat)
    ensures ReadRow(ws, idx, lay, parse, show).Abort? <==>
            CellAt(ws, idx, lay.refCol - 1).None? || CellAt(ws, idx, lay.priceCol - 1).None?
  {
  }

  /** A row that does not abort is skipped exactly when its reference text is blank or its price
      does not convert. */
  lemma ReadRowSkips(ws: Worksheet, idx: int, lay: Layout, parse: ParseFloat, show: ShowFloat)
    requires CellAt(ws, idx, lay.refCol - 1).Some? && CellAt(ws, idx, lay.priceCol - 1).Some?
    ensures ReadRow(ws, idx, lay, parse, show).Skip? <==>
            AllSpace(CellText(CellAt(ws, idx, lay.refCol - 1).value, show)) ||
            PriceOf(CellAt(ws, idx, lay.priceCol - 1).value, parse).None?
  {
    var text := CellText(CellAt(ws, idx, lay.refCol - 1).value, show);
    var price := PriceOf(CellAt(ws, idx, lay.priceCol - 1).value, parse);
    assert ReadRow(ws, idx, lay, parse, show).Skip? <==> Strip(text) == "" || price.None?;
    StripEmptyIffBlank(text);
  }

  /** A record carries the stripped, non-empty reference text and the converted price of its row. */
  lemma ReadRowEmits(ws: Worksheet, idx: int, lay: Layout, parse: ParseFloat, show: ShowFloat)
    requires ReadRow(ws, idx, lay, parse, show).Emit?
    ensures ReadRow(ws, idx, lay, parse, show).row.internalReference != ""
    ensures ReadRow(ws, idx, lay, parse, show).row.internalReference ==
            Strip(CellText(CellAt(ws, idx, lay.refCol - 1).value, show))
    ensures Some(ReadRow(ws, idx, lay, parse, show).row.price) == PriceOf(CellAt(ws, idx, lay.priceCol - 1).value, parse)
  {
  }

  /** The row loop's body as a function of the row index. */
  function Reader(ws: Worksheet, lay: Layout, parse: ParseFloat, show: ShowFloat): int -> RowOutcome
  {
    idx => ReadRow(ws, idx, lay, parse, show)
  }

  /** Every record a reader yields carries the 1-based number of its row. */
  ghost predicate Numbered(read: int -> RowOutcome)
  {
    forall idx :: read(idx).Emit? ==> read(idx).row.rowNumber == idx + 1
  }

  lemma ReaderNumbered(ws: Worksheet, lay: Layout, parse: ParseFloat, show: ShowFloat)
    ensures Numbered(Reader(ws, lay, parse, show))
  {
  }

  /** The records of the visited rows `from .. to - 1`, or None once one of them aborts. */
  function ScanRows(read: int -> RowOutcome, from: int, to: int): Option<seq<Row>>
    decreases to - from
  {
    if to <= from then Some([])
    else match ScanRows(read, from, to - 1)
      case None => None
      case Some(rows) => match read(to - 1)
        case Abort => None
        case Skip => Some(rows)
        case Emit(row) => Some(rows + [row])
  }

  /** `_parse_excel_file` as a function of the upload: the first worksheet's rows from the header
      row to its last row. */
  function ParseExcel(file: Option<Upload>, lay: Layout, parse: ParseFloat, show: ShowFloat): Result<seq<Row>, ImportError>
  {
    if file.None? then Failure(NoFile)
    else if file.value.Unreadable? || file.value.sheets == [] then Failure(ReadError)
    else
      var ws := file.value.sheets[0];
      match ScanRows(Reader(ws, lay, parse, show), lay.headerRow, |ws.rows|)
      case None => Failure(ReadError)
      case Some(rows) => Success(rows)
  }

  /** Every record comes from a visited row that yields exactly it, and its row number is that
      row's 1-based number. */
  lemma {:induction false} ScanSound(read: int -> RowOutcome, from: int, to: int)
    decreases to - from
    requires Numbered(read) && ScanRows(read, from, to).Some?
    ensures forall k :: 0 <= k < |ScanRows(read, from, to).value| ==>
              (from < ScanRows(read, from, to).value[k].rowNumber <= to &&
               read(ScanRows(read, from, to).value[k].rowNumber - 1) == Emit(ScanRows(read, from, to).value[k]))
  {
    if to > from {
      ScanSound(read, from, to - 1);
    }
  }

  /** The records keep sheet order: row numbers strictly increase. */
  lemma {:induction false} ScanOrdered(read: int -> RowOutcome, from: int, to: int)
    decreases to - from
    requires Numbered(read) && ScanRows(read, from, to).Some?
    ensures forall k, l :: 0 <= k < l < |ScanRows(read, from, to).value| ==>
              ScanRows(read, from, to).value[k].rowNumber < ScanRows(read, from, to).value[l].rowNumber
  {
    if to > from {
      ScanOrdered(read, from, to - 1);
      ScanSound(read, from, to - 1);
    }
  }

  /** No record is lost: every visited row that yields a record has it in the result. */
  lemma {:induction false} ScanComplete(read: int -> RowOutcome, from: int, to: int, idx: int)
    decreases to - from
    requires ScanRows(read, from, to).Some?
    requires from <= idx < to && read(idx).Emit?
    ensures read(idx).row in ScanRows(read, from, to).value
  {
    var prefix := ScanRows(read, from, to - 1);
    var rows := ScanRows(read, from, to).value;
    if idx < to - 1 {
      ScanComplete(read, from, to - 1, idx);
      assert prefix.value <= rows;
    } else {
      assert rows == prefix.value + [read(idx).row];
      assert rows[|rows| - 1] == read(idx).row;
    }
  }

  /** The parse aborts exactly when some visited row aborts; rows that are skipped never abort it. */
  lemma {:induction false} ScanAbortsIff(read: int -> RowOutcome, from: int, to: int)
    decreases to - from
    ensures ScanRows(read, from, to).None? <==> (exists idx :: from <= idx < to && read(idx).Abort?)
  {
    if to > from {
      ScanAbortsIff(read, from, to - 1);
    }
  }

  /** Once the parse has aborted, visiting further rows does not undo it. */
  lemma {:induction false} AbortIsFinal(read: int -> RowOutcome, from: int, to: int, later: int)
    decreases later - to
    requires to <= later && ScanRows(read, from, to).None?
    ensures ScanRows(read, from, later).None?
  {
    if to < later {
      AbortIsFinal(read, from, to, later - 1);
    }
  }

  /** `_parse_excel_file`: the row loop over `header_row .. nrows - 1` of the first worksheet. */
  method ParseExcelFile(file: Option<Upload>, lay: Layout, parse: ParseFloat, show: ShowFloat)
    returns (result: Result<seq<Row>, ImportError>)
    ensures result == ParseExcel(file, lay, parse, show)
  {
    if file.None? {
      return Failure(NoFile);
    }
    if file.value.Unreadable? || file.value.sheets == [] {
      return Failure(ReadError);
    }
    var worksheet := file.value.sheets[0];
    ghost var read := Reader(worksheet, lay, parse, show);
    var nrows := |worksheet.rows|;
    var dataRows: seq<Row> := [];
    var rowIdx := lay.headerRow;
    while rowIdx < nrows
      invariant lay.headerRow <= rowIdx && (rowIdx <= nrows || rowIdx == lay.headerRow)
      invariant ScanRows(read, lay.headerRow, rowIdx) == Some(dataRows)
      decreases nrows - rowIdx
    {
      var outcome := ReadRow(worksheet, rowIdx, lay, parse, show);
      assert read(rowIdx) == outcome;
      if outcome.Abort? {
        AbortIsFinal(read, lay.headerRow, rowIdx + 1, nrows);
        return Failure(ReadError);
      } else if outcome.Emit? {
        dataRows := dataRows + [outcome.row];
      }
      rowIdx := rowIdx + 1;
    }
    return Success(dataRows);
  }

  // Finding the products

  /** A product template: its id, its internal reference (`default_code`) and whether it is active. */
  datatype Template = Template(id: nat, defaultCode: Option<string>, active: bool)

  /** Template t is found by the search and stored under reference `code`. */
  predicate Provides(t: Template, refs: seq<string>, code: string)
  {
    t.active && t.defaultCode == Some(code) && code in refs
  }

  /** Template i is the last one the search finds for reference `code`. */
  predicate LastProvider(templates: seq<Template>, refs: seq<string>, code: string, i: int)
  {
    0 <= i < |templates| && Provides(templates[i], refs, code) &&
    forall j :: i < j < |templates| ==> !Provides(templates[j], refs, code)
  }

  /** `_find_products`: the active templates whose internal reference is among `refs`, keyed by that
      reference; where several share a reference the one found last is kept. */
  function FindProducts(templates: seq<Template>, refs: seq<string>): map<string, Template>
  {
    if templates == [] then map[]
    else
      var m := FindProducts(templates[..|templates| - 1], refs);
      var t := templates[|templates| - 1];
      if t.active && t.defaultCode.Some? && t.defaultCode.value in refs then m[t.defaultCode.value := t] else m
  }

  /** A reference is in the product map exactly when some active template with that internal
      reference is found, and it maps to the last such template. */
  lemma {:induction false} FindProductsSpec(templates: seq<Template>, refs: seq<string>, code: string)
    ensures code in FindProducts(templates, refs) <==>
            (exists i :: 0 <= i < |templates| && Provides(templates[i], refs, code))
    ensures code in FindProducts(templates, refs) ==>
            (exists i :: LastProvider(templates, refs, code, i) && templates[i] == FindProducts(templates, refs)[code])
  {
    if templates != [] {
      var n := |templates| - 1;
      var init := templates[..n];
      assert forall i :: 0 <= i < n ==> init[i] == templates[i];
      FindProductsSpec(init, refs, code);
      var m := FindProducts(init, refs);
      if Provides(templates[n], refs, code) {
        assert LastProvider(templates, refs, code, n);
      } else {
        assert FindProducts(templates, refs) == m || templates[n].defaultCode != Some(code);
        if code in m {
          var i :| LastProvider(init, refs, code, i) && init[i] == m[code];
          assert LastProvider(templates, refs, code, i);
        }
        if exists i :: 0 <= i < |templates| && Provides(templates[i], refs, code) {
          var i :| 0 <= i < |templates| && Provides(templates[i], refs, code);
          assert i < n && Provides(init[i], refs, code);
        }
      }
    }
  }

  // The pricelist items

  /** A `product.pricelist.item` as the import creates it. */
  datatype PricelistItem = PricelistItem(
    appliedOn: string, base: string, computePrice: string,
    companyId: Option<nat>, currencyId: Option<nat>, pricelistId: nat, templateId: nat,
    fixedPrice: real, dateStart: string, dateEnd: Option<string>)

  /** The wizard's pricelist (with its company and currency) and its validity dates, already
      rendered as the stored timestamp strings; an unset end date is None. */
  datatype Settings = Settings(pricelistId: nat, companyId: Option<nat>, currencyId: Option<nat>,
                               dateStart: string, dateEnd: Option<string>)

  /** The upsert key: pricelist, product template, start date and end date. */
  predicate Matches(item: PricelistItem, s: Settings, templateId: nat)
  {
    item.pricelistId == s.pricelistId && item.templateId == templateId &&
    item.dateStart == s.dateStart && item.dateEnd == s.dateEnd
  }

  /** The item search with `limit=1`: the first stored item with the key. */
  function FirstMatch(items: seq<PricelistItem>, s: Settings, templateId: nat): (r: Option<nat>)
    ensures r.None? <==> forall i :: 0 <= i < |items| ==> !Matches(items[i], s, templateId)
    ensures r.Some? ==> r.value < |items| && Matches(items[r.value], s, templateId) &&
                        forall i :: 0 <= i < r.value ==> !Matches(items[i], s, templateId)
  {
    if items == [] then None
    else if Matches(items[0], s, templateId) then Some(0)
    else
      var r := FirstMatch(items[1..], s, templateId);
      assert forall i :: 1 <= i < |items| ==> items[i] == items[1..][i - 1];
      if r.Some? then Some(r.value + 1) else None
  }

  /** The item the import creates for a template without one. */
  function NewItem(s: Settings, templateId: nat, price: real): (item: PricelistItem)
    ensures Matches(item, s, templateId) && item.fixedPrice == price
  {
    PricelistItem("1_product", "list_price", "fixed", s.companyId, s.currencyId, s.pricelistId, templateId,
                  price, s.dateStart, s.dateEnd)
  }

  datatype Counts = Counts(created: nat, updated: nat, skipped: nat)

  /** The item store and the counters after some records. */
  datatype Progress = Progress(items: seq<PricelistItem>, counts: Counts)

  /** The loop body for one record. */
  function Step(p: Progress, products: map<string, Template>, s: Settings, row: Row): Progress
  {
    if row.internalReference !in products then
      p.(counts := p.counts.(skipped := p.counts.skipped + 1))
    else
      var t := products[row.internalReference];
      match FirstMatch(p.items, s, t.id)
      case Some(i) =>
        Progress(p.items[i := p.items[i].(fixedPrice := row.price)], p.counts.(updated := p.counts.updated + 1))
      case None =>
        Progress(p.items + [NewItem(s, t.id, row.price)], p.counts.(created := p.counts.created + 1))
  }

  /** The whole loop over the records. */
  function Run(p: Progress, products: map<string, Template>, s: Settings, rows: seq<Row>): Progress
  {
    if rows == [] then p
    else Step(Run(p, products, s, rows[..|rows| - 1]), products, s, rows[|rows| - 1])
  }

  function References(rows: seq<Row>): (refs: seq<string>)
    ensures |refs| == |rows| && forall k :: 0 <= k < |rows| ==> refs[k] == rows[k].internalReference
  {
    seq(|rows|, k requires 0 <= k < |rows| => rows[k].internalReference)
  }

  function Total(c: Counts): nat
  {
    c.created + c.updated + c.skipped
  }

  /** One record moves exactly one counter by one. An unknown reference touches no item. A known
      one whose key exists changes only that item's price; otherwise exactly one item with the key
      and the price is appended. Either way the key's item then carries the record's price. */
  lemma StepEffect(p: Progress, products: map<string, Template>, s: Settings, row: Row)
    ensures Total(Step(p, products, s, row).counts) == Total(p.counts) + 1
    ensures row.internalReference !in products ==>
              Step(p, products, s, row) == p.(counts := p.counts.(skipped := p.counts.skipped + 1))
    ensures row.internalReference in products ==>
      var t := products[row.internalReference];
      var q := Step(p, products, s, row);
      && (FirstMatch(p.items, s, t.id).Some? ==>
            var i := FirstMatch(p.items, s, t.id).value;
            |q.items| == |p.items| && q.items[i].fixedPrice == row.price &&
            q.items[i] == p.items[i].(fixedPrice := row.price) &&
            (forall j :: 0 <= j < |p.items| && j != i ==> q.items[j] == p.items[j]) &&
            q.counts == p.counts.(updated := p.counts.updated + 1))
      && (FirstMatch(p.items, s, t.id).None? ==>
            q.items == p.items + [q.items[|p.items|]] && Matches(q.items[|p.items|], s, t.id) &&
            q.items[|p.items|].fixedPrice == row.price &&
            q.counts == p.counts.(created := p.counts.created + 1))
      && FirstMatch(q.items, s, t.id).Some? && q.items[FirstMatch(q.items, s, t.id).value].fixedPrice == row.price
  {
    if row.internalReference in products {
      var t := products[row.internalReference];
      var q := Step(p, products, s, row);
      if FirstMatch(p.items, s, t.id).None? {
        assert Matches(q.items[|p.items|], s, t.id);
        assert forall i :: 0 <= i < |p.items| ==> q.items[i] == p.items[i];
      } else {
        var i := FirstMatch(p.items, s, t.id).value;
        assert forall j :: 0 <= j < |p.items| ==> (Matches(q.items[j], s, t.id) <==> Matches(p.items[j], s, t.id));
      }
    }
  }

  /** Every record counts once: after the loop the three counters add up to the number of records. */
  lemma {:induction false} CountsAddUp(p: Progress, products: map<string, Template>, s: Settings, rows: seq<Row>)
    ensures Total(Run(p, products, s, rows).counts) == Total(p.counts) + |rows|
  {
    if rows != [] {
      CountsAddUp(p, products, s, rows[..|rows| - 1]);
      StepEffect(Run(p, products, s, rows[..|rows| - 1]), products, s, rows[|rows| - 1]);
    }
  }

  /** A key that has an item keeps one: records only change prices or append items. */
  lemma {:induction false} KeysPersist(p: Progress, products: map<string, Template>, s: Settings, rows: seq<Row>, templateId: nat)
    requires FirstMatch(p.items, s, templateId).Some?
    ensures FirstMatch(Run(p, products, s, rows).items, s, templateId).Some?
  {
    if rows != [] {
      KeysPersist(p, products, s, rows[..|rows| - 1], templateId);
      var q := Run(p, products, s, rows[..|rows| - 1]);
      var row := rows[|rows| - 1];
      var k := FirstMatch(q.items, s, templateId).value;
      StepEffect(q, products, s, row);
      var q' := Step(q, products, s, row);
      assert k < |q'.items|;
      assert q'.items[k] == q.items[k] || q'.items[k] == q.items[k].(fixedPrice := row.price);
      assert Matches(q'.items[k], s, templateId);
    }
  }

  /** Every known record's key has an item in `items`. */
  ghost predicate Covered(items: seq<PricelistItem>, products: map<string, Template>, s: Settings, rows: seq<Row>)
  {
    forall k :: 0 <= k < |rows| && rows[k].internalReference in products ==>
      FirstMatch(items, s, products[rows[k].internalReference].id).Some?
  }

  /** After the loop, every record with a known reference has an item for its key. */
  lemma {:induction false} RunCovers(p: Progress, products: map<string, Template>, s: Settings, rows: seq<Row>)
    ensures Covered(Run(p, products, s, rows).items, products, s, rows)
  {
    if rows != [] {
      var init := rows[..|rows| - 1];
      var q := Run(p, products, s, init);
      var row := rows[|rows| - 1];
      RunCovers(p, products, s, init);
      StepEffect(q, products, s, row);
      forall k | 0 <= k < |rows| && rows[k].internalReference in products
        ensures FirstMatch(Run(p, products, s, rows).items, s, products[rows[k].internalReference].id).Some?
      {
        if k < |rows| - 1 {
          assert init[k] == rows[k];
          KeysPersist(q, products, s, [row], products[rows[k].internalReference].id);
          assert [row][..0] == [];
        }
      }
    }
  }

  /** When every known record already has an item, the loop creates nothing and the store keeps
      its size. */
  lemma {:induction false} CoveredCreatesNothing(p: Progress, products: map<string, Template>, s: Settings, rows: seq<Row>)
    requires Covered(p.items, products, s, rows)
    ensures Run(p, products, s, rows).counts.created == p.counts.created
    ensures |Run(p, products, s, rows).items| == |p.items|
  {
    if rows != [] {
      var init := rows[..|rows| - 1];
      var row := rows[|rows| - 1];
      assert forall k :: 0 <= k < |init| ==> init[k] == rows[k];
      CoveredCreatesNothing(p, products, s, init);
      var q := Run(p, products, s, init);
      StepEffect(q, products, s, row);
      if row.internalReference in products {
        KeysPersist(p, products, s, init, products[row.internalReference].id);
      }
    }
  }

  /** Importing the same records a second time creates no item: every key they need exists. */
  lemma ReimportCreatesNothing(p: Progress, products: map<string, Template>, s: Settings, rows: seq<Row>)
    ensures var once := Run(p, products, s, rows);
      var twice := Run(once, products, s, rows);
      twice.counts.created == once.counts.created && |twice.items| == |once.items|
  {
    RunCovers(p, products, s, rows);
    CoveredCreatesNothing(Run(p, products, s, rows), products, s, rows);
  }

  /** The stored `product.pricelist.item` records. */
  class ItemStore {
    var items: seq<PricelistItem>

    constructor(initial: seq<PricelistItem>)
      ensures items == initial
    {
      items := initial;
    }

    /** `existing_item.write({'fixed_price': price})`. */
    method SetPrice(i: nat, price: real)
      requires i < |items|
      modifies this
      ensures items == old(items)[i := old(items)[i].(fixedPrice := price)]
    {
      items := items[i := items[i].(fixedPrice := price)];
    }

    /** `create(...)`. */
    method Create(item: PricelistItem)
      modifies this
      ensures items == old(items) + [item]
    {
      items := items + [item];
    }
  }

  /** `_process_pricelist_items`: fails on no records and leaves the store alone; otherwise upserts
      every record and returns the counters. */
  method ProcessPricelistItems(store: ItemStore, s: Settings, templates: seq<Template>, rows: seq<Row>)
    returns (result: Result<Counts, ImportError>)
    modifies store
    ensures rows == [] ==> result == Failure(NoValidData) && store.items == old(store.items)
    ensures rows != [] ==>
      var final := Run(Progress(old(store.items), Counts(0, 0, 0)), FindProducts(templates, References(rows)), s, rows);
      result == Success(final.counts) && store.items == final.items
    ensures result.Success? ==> Total(result.value) == |rows|
  {
    if rows == [] {
      return Failure(NoValidData);
    }
    var products := FindProducts(templates, References(rows));
    ghost var start := Progress(store.items, Counts(0, 0, 0));
    var created, updated, skipped := 0, 0, 0;
    for k := 0 to |rows|
      invariant Run(start, products, s, rows[..k]) == Progress(store.items, Counts(created, updated, skipped))
    {
      var row := rows[k];
      assert rows[..k + 1][..k] == rows[..k];
      if row.internalReference !in products {
        skipped := skipped + 1;
        continue;
      }
      var product := products[row.internalReference];
      var existing := FirstMatch(store.items, s, product.id);
      if existing.Some? {
        store.SetPrice(existing.value, row.price);
        updated := updated + 1;
      } else {
        store.Create(NewItem(s, product.id, row.price));
        created := created + 1;
      }
    }
    assert rows[..|rows|] == rows;
    CountsAddUp(start, products, s, rows);
    return Success(Counts(created, updated, skipped));
  }

  /** `action_import` without its message wrapping: parse, then process. */
  method ActionImport(store: ItemStore, file: Option<Upload>, lay: Layout, s: Settings, templates: seq<Template>,
                      parse: ParseFloat, show: ShowFloat)
    returns (result: Result<Counts, ImportError>)
    modifies store
    ensures ParseExcel(file, lay, parse, show).Failure? ==>
              result == Failure(ParseExcel(file, lay, parse, show).error) && store.items == old(store.items)
    ensures ParseExcel(file, lay, parse, show) == Success([]) ==>
              result == Failure(NoValidData) && store.items == old(store.items)
    ensures ParseExcel(file, lay, parse, show).Success? && ParseExcel(file, lay, parse, show).value != [] ==>
              var rows := ParseExcel(file, lay, parse, show).value;
              var final := Run(Progress(old(store.items), Counts(0, 0, 0)), FindProducts(templates, References(rows)), s, rows);
              result == Success(final.counts) && store.items == final.items && Total(final.counts) == |rows|
  {
    var dataRows := ParseExcelFile(file, lay, parse, show);
    if dataRows.Failure? {
      return Failure(dataRows.error);
    }
    result := ProcessPricelistItems(store, s, templates, dataRows.value);
  }
}
