/** The "Biosfera Polska" transfer export (`action_biosfera_polska_export_xls`): one workbook per
    selected transfer, collected in a ZIP archive. */
module TransferExport {
  import opened Wrappers
  import opened Text
  import opened Dates
  import opened Sheet

  /** A supplier-info line of a product: its company and the supplier's product code. */
  datatype Seller = Seller(companyId: Option<int>, productCode: Option<string>)

  datatype Product = Product(defaultCode: Option<string>, sellers: seq<Seller>)

  /** A stock move of the transfer (`move_ids_without_package`). */
  datatype Move = Move(product: Option<Product>, quantityDone: real)

  /** A transfer; `typeCode` is `picking_type_code` ("incoming", "outgoing", "internal", ...). */
  datatype Picking = Picking(name: string, typeCode: string, scheduledDate: Option<CalendarDate>, moves: seq<Move>)

  /** The header background colours. */
  datatype Fill = Green | Yellow

  /** A written cell; only header cells carry a fill. */
  datatype Entry = Entry(value: Cell, fill: Option<Fill>)

  datatype ArchiveEntry = ArchiveEntry(filename: string, sheet: Grid<Entry>)

  datatype ExportError = NoDocumentSelected

  /** The company whose supplier codes the export uses. */
  const VendorCompany: int := 6

  /** The titles of row 0, in column order. */
  function Headers(): (h: seq<string>)
    ensures |h| == 51
  {
    ["firma", "typ dokumentu", "numer dokumentu", "typ dokumentu erp", "numer dokumentu erp",
     "data utworzenia", "data realizacji", "opis dokumentu", "magazyn", "magazyn docelowy",
     "kod kontrahenta", "l.p.adresu kontrahenta", "operator", "status", "stan",
     "typ dokumentu źródłowego", "numer dokumentu źródłowego", "l.p.pozycji", "kod towaru", "kod jl",
     "ilość do realizacji", "lokalizacja", "ilość zrealizowana",
     "cecha0", "cecha1", "cecha2", "cecha3", "cecha4", "cecha5", "cecha6", "cecha7", "cecha8", "cecha9",
     "cecha10", "cecha11", "cecha12", "cecha13", "cecha14", "cecha15", "cecha16", "cecha17", "cecha18", "cecha19",
     "przelicznik", "kod przelicznika", "lp dokumentu źródłowego",
     "atrybut #1", "atrybut #2", "atrybut #3", "atrybut #4", "atrybut #5"]
  }

  predicate IsYellowColumn(c: nat)
  {
    c == 0 || c == 3 || c == 4 || c == 8 || c == 10 || c == 17 || c == 18 || c == 20
  }

  function HeaderFill(c: nat): Fill
  {
    if IsYellowColumn(c) then Yellow else Green
  }

  /** A supplier line the export may take its code from. */
  predicate UsableSeller(s: Seller)
  {
    s.companyId == Some(VendorCompany) && s.productCode.Some? && s.productCode.value != ""
  }

  /** `seller_ids.filtered(company 6 and product_code)[:1]`: the code of the first usable supplier line. */
  function FirstVendorCode(sellers: seq<Seller>): (r: Option<string>)
    ensures r.None? <==> forall k :: 0 <= k < |sellers| ==> !UsableSeller(sellers[k])
    ensures r.Some? ==> (exists k :: 0 <= k < |sellers| && UsableSeller(sellers[k]) &&
                           sellers[k].productCode == Some(r.value) &&
                           forall j :: 0 <= j < k ==> !UsableSeller(sellers[j]))
  {
    if sellers == [] then None
    else if UsableSeller(sellers[0]) then sellers[0].productCode
    else
      var r := FirstVendorCode(sellers[1..]);
      assert forall k :: 1 <= k < |sellers| ==> sellers[k] == sellers[1..][k - 1];
      r
  }

  /** The item code of column 18: "" without a product, else the first usable supplier code, else the
      product's internal reference (written as the boolean False when the product has none). */
  function ItemCode(m: Move): (r: Cell)
    ensures m.product.None? ==> r == Text("")
    ensures m.product.Some? && FirstVendorCode(m.product.value.sellers).Some? ==>
      r == Text(FirstVendorCode(m.product.value.sellers).value)
    ensures m.product.Some? && FirstVendorCode(m.product.value.sellers).None? ==>
      r == if m.product.value.defaultCode.Some? then Text(m.product.value.defaultCode.value) else Boolean(false)
  {
    if m.product.None? then Text("")
    else
      var code := FirstVendorCode(m.product.value.sellers);
      if code.Some? then Text(code.value)
      else if m.product.value.defaultCode.Some? then Text(m.product.value.defaultCode.value)
      else Boolean(false)
  }

  /** Column c of the data row numbered `n` (its worksheet row), written for move m. */
  function MoveCell(p: Picking, m: Move, n: nat, c: nat): Option<Entry>
  {
    if c == 0 || c == 10 then Some(Entry(Text("Biosfera"), None))
    else if c == 3 then
      (if p.typeCode == "incoming" then Some(Entry(Text("PPM"), None))
       else if p.typeCode == "outgoing" then Some(Entry(Text("PWM"), None))
       else None)
    else if c == 4 then Some(Entry(Text(p.name), None))
    else if c == 8 then Some(Entry(Text("magazyn pruszków"), None))
    else if c == 17 then Some(Entry(Num(n as real), None))
    else if c == 18 then Some(Entry(ItemCode(m), None))
    else if c == 20 then Some(Entry(Num(m.quantityDone), None))
    else None
  }

  /** The worksheet of one transfer: the coloured header row, then row k (from 1) for the k-th move. */
  function TransferCell(p: Picking, r: nat, c: nat): Option<Entry>
  {
    if r == 0 then (if c < 51 then Some(Entry(Text(Headers()[c]), Some(HeaderFill(c)))) else None)
    else if r <= |p.moves| then MoveCell(p, p.moves[r - 1], r, c)
    else None
  }

  /** The header row holds the 51 titles in order; column c is yellow exactly for
      c in {0, 3, 4, 8, 10, 17, 18, 20} and green otherwise. */
  lemma HeaderColouring(p: Picking, c: nat)
    requires c < 51
    ensures TransferCell(p, 0, c) == Some(Entry(Text(Headers()[c]), Some(if IsYellowColumn(c) then Yellow else Green)))
  {
  }

  /** The yellow columns are exactly the ones the data rows fill: a data row writes nothing outside
      them, and writes every one of them except the document type, which it writes only for
      incoming and outgoing transfers. */
  lemma YellowMarksDataColumns(p: Picking, r: nat, c: nat)
    requires 1 <= r <= |p.moves|
    ensures TransferCell(p, r, c).Some? ==> IsYellowColumn(c)
    ensures IsYellowColumn(c) && c != 3 ==> TransferCell(p, r, c).Some?
    ensures TransferCell(p, r, 3).Some? <==> p.typeCode == "incoming" || p.typeCode == "outgoing"
  {
  }

  /** There is one data row per move, in move order, and column 17 holds its number. */
  lemma RowNumbering(p: Picking, k: nat)
    requires k < |p.moves|
    ensures TransferCell(p, k + 1, 17) == Some(Entry(Num((k + 1) as real), None))
    ensures TransferCell(p, k + 1, 18) == Some(Entry(ItemCode(p.moves[k]), None))
    ensures TransferCell(p, k + 1, 20) == Some(Entry(Num(p.moves[k].quantityDone), None))
    ensures forall r: nat, c: nat :: r > |p.moves| ==> TransferCell(p, r, c) == None
  {
  }

  /** `f'{name.replace("/", "-")}_{date_str}.xlsx'` with the scheduled date as DD-MM-YYYY or empty. */
  function Filename(p: Picking): string
  {
    ReplaceChar(p.name, '/', '-') + "_" + (if p.scheduledDate.Some? then DmyFormat(p.scheduledDate.value) else "") + ".xlsx"
  }

  /** The file name is the transfer name with every '/' turned into '-', then '_', then the date
      part (ten characters or none), then ".xlsx"; it contains no '/'. */
  lemma FilenameShape(p: Picking)
    ensures |Filename(p)| == |p.name| + (if p.scheduledDate.Some? then 16 else 6)
    ensures forall i :: 0 <= i < |p.name| ==> Filename(p)[i] == if p.name[i] == '/' then '-' else p.name[i]
    ensures Filename(p)[|p.name|] == '_'
    ensures EndsWith(Filename(p), ".xlsx")
    ensures '/' !in Filename(p)
  {
    ReplaceRemoves(p.name, '/', '-');
    ReplaceCharPointwise(p.name, '/', '-');
    var base := ReplaceChar(p.name, '/', '-');
    if p.scheduledDate.Some? {
      var d := p.scheduledDate.value;
      FormatLengths(d);
      DmyCharacters(d);
      assert Filename(p) == base + "_" + DmyFormat(d) + ".xlsx";
      assert '/' !in DmyFormat(d);
    } else {
      assert Filename(p) == base + "_" + ".xlsx";
    }
  }

  /** The date part of the file name reads back as the transfer's scheduled date. */
  lemma FilenameDate(p: Picking)
    requires p.scheduledDate.Some?
    ensures |Filename(p)| == |p.name| + 16
    ensures ParseDmy(Filename(p)[|p.name| + 1..|p.name| + 11]) == p.scheduledDate
  {
    ReplaceCharPointwise(p.name, '/', '-');
    var d := p.scheduledDate.value;
    FormatLengths(d);
    DmyRoundTrip(d, DmyFormat(d));
    var f := Filename(p);
    assert f == ReplaceChar(p.name, '/', '-') + "_" + DmyFormat(d) + ".xlsx";
    assert f[|p.name| + 1..|p.name| + 11] == DmyFormat(d);
  }

  type Spec = (nat, nat) -> Option<Entry>

  /** The header loop: each title in its colour. */
  method WriteHeaderRow(grid: Grid<Entry>, p: Picking) returns (g: Grid<Entry>)
    requires WrittenUpTo(grid, (r: nat, c: nat) => TransferCell(p, r, c), 0, 0)
    ensures WrittenUpTo(g, (r: nat, c: nat) => TransferCell(p, r, c), 1, 0)
  {
    ghost var spec: Spec := (r: nat, c: nat) => TransferCell(p, r, c);
    var headers := Headers();
    g := grid;
    for col := 0 to |headers|
      invariant WrittenUpTo(g, spec, 0, col)
    {
      if IsYellowColumn(col) {
        g := Write(g, spec, 0, col, Entry(Text(headers[col]), Some(Yellow)));
      } else {
        g := Write(g, spec, 0, col, Entry(Text(headers[col]), Some(Green)));
      }
    }
    NextRow(g, spec, 0, 51);
  }

  /** The writes of one data row, columns 0 to 10. */
  method WriteMoveHead(grid: Grid<Entry>, p: Picking, row: nat) returns (g: Grid<Entry>)
    requires 1 <= row <= |p.moves|
    requires WrittenUpTo(grid, (r: nat, c: nat) => TransferCell(p, r, c), row, 0)
    ensures WrittenUpTo(g, (r: nat, c: nat) => TransferCell(p, r, c), row, 11)
  {
    ghost var spec: Spec := (r: nat, c: nat) => TransferCell(p, r, c);
    assert forall c: nat :: spec(row, c) == MoveCell(p, p.moves[row - 1], row, c);
    g := Write(grid, spec, row, 0, Entry(Text("Biosfera"), None));
    Skip(g, spec, row, 1, 3);
    ghost var at := 3;
    if p.typeCode == "incoming" {
      g := Write(g, spec, row, 3, Entry(Text("PPM"), None));
      at := 4;
    } else if p.typeCode == "outgoing" {
      g := Write(g, spec, row, 3, Entry(Text("PWM"), None));
      at := 4;
    }
    Skip(g, spec, row, at, 4);
    g := Write(g, spec, row, 4, Entry(Text(p.name), None));
    Skip(g, spec, row, 5, 8);
    g := Write(g, spec, row, 8, Entry(Text("magazyn pruszków"), None));
    Skip(g, spec, row, 9, 10);
    g := Write(g, spec, row, 10, Entry(Text("Biosfera"), None));
  }

  /** The writes of one data row, columns 17 to 20. */
  method WriteMoveTail(grid: Grid<Entry>, p: Picking, row: nat) returns (g: Grid<Entry>)
    requires 1 <= row <= |p.moves|
    requires WrittenUpTo(grid, (r: nat, c: nat) => TransferCell(p, r, c), row, 11)
    ensures WrittenUpTo(g, (r: nat, c: nat) => TransferCell(p, r, c), row + 1, 0)
  {
    ghost var spec: Spec := (r: nat, c: nat) => TransferCell(p, r, c);
    var move := p.moves[row - 1];
    assert forall c: nat :: spec(row, c) == MoveCell(p, move, row, c);
    Skip(grid, spec, row, 11, 17);
    g := Write(grid, spec, row, 17, Entry(Num(row as real), None));
    g := Write(g, spec, row, 18, Entry(ItemCode(move), None));
    Skip(g, spec, row, 19, 20);
    g := Write(g, spec, row, 20, Entry(Num(move.quantityDone), None));
    NextRow(g, spec, row, 21);
  }

  /** One transfer's workbook: the header row, then one row per move with a running row counter. */
  method WriteTransferSheet(p: Picking) returns (grid: Grid<Entry>)
    ensures forall r: nat, c: nat :: Get(grid, r, c) == TransferCell(p, r, c)
  {
    ghost var spec: Spec := (r: nat, c: nat) => TransferCell(p, r, c);
    grid := map[];
    Empty(spec);
    grid := WriteHeaderRow(grid, p);
    var row := 1;
    for k := 0 to |p.moves|
      invariant row == k + 1
      invariant WrittenUpTo(grid, spec, row, 0)
    {
      grid := WriteMoveHead(grid, p, row);
      grid := WriteMoveTail(grid, p, row);
      row := row + 1;
    }
    Finished(grid, spec, row);
  }

  /** The export: fails on an empty selection; otherwise one archive entry per transfer, in order. */
  method ExportTransfers(pickings: seq<Picking>) returns (result: Result<seq<ArchiveEntry>, ExportError>)
    ensures result.Failure? <==> pickings == []
    ensures result.Success? ==> |result.value| == |pickings|
    ensures result.Success? ==> forall i :: 0 <= i < |pickings| ==> result.value[i].filename == Filename(pickings[i])
    ensures result.Success? ==> forall i, r: nat, c: nat :: 0 <= i < |pickings| ==>
      Get(result.value[i].sheet, r, c) == TransferCell(pickings[i], r, c)
  {
    if pickings == [] {
      return Failure(NoDocumentSelected);
    }
    var archive: seq<ArchiveEntry> := [];
    for i := 0 to |pickings|
      invariant |archive| == i
      invariant forall j :: 0 <= j < i ==> archive[j].filename == Filename(pickings[j])
      invariant forall j, r: nat, c: nat :: 0 <= j < i ==> Get(archive[j].sheet, r, c) == TransferCell(pickings[j], r, c)
    {
      var picking := pickings[i];
      var sheet := WriteTransferSheet(picking);
      var filename := Filename(picking);
      archive := archive + [ArchiveEntry(filename, sheet)];
    }
    return Success(archive);
  }
}
