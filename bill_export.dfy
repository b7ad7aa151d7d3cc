/** The vendor-bill export wizard (`bio.export.bill.wizard`, action `action_export_excel`):
    one worksheet row per invoice line of the selected bills, with currency-dependent amounts. */
module BillExport {
  import opened Wrappers
  import opened Dates
  import opened Sheet

  datatype Product = Product(defaultCode: Option<string>, name: Option<string>)

  /** An invoice line; `currencyName` is `line.currency_id.name`, None when the line has no currency. */
  datatype InvoiceLine = InvoiceLine(
    product: Option<Product>,
    quantity: real,
    uomName: Option<string>,
    debit: real,
    priceSubtotal: real,
    currencyName: Option<string>)

  datatype Bill = Bill(
    name: string,
    dateOfReceipt: Option<CalendarDate>,
    invoiceDate: Option<CalendarDate>,
    lines: seq<InvoiceLine>)

  /** The titles of row 0, in column order. */
  function Headers(): (h: seq<string>)
    ensures |h| == 11
  {
    ["Vendor bill number", "Date of receipt by buyer",
     "Vendor Bill date", "Internal Reference",
     "Product name", "PCS", "UOM",
     "EUR/HUF", "EUR", "HUF", "Exchange rate"]
  }

  /** `str(date or '')`. */
  function DateText(d: Option<CalendarDate>): (s: string)
    ensures d.None? <==> s == ""
    ensures d.Some? ==> ParseIso(s) == Some(d.value)
  {
    if d.Some? then
      FormatLengths(d.value);
      IsoRoundTrip(d.value, IsoFormat(d.value));
      IsoFormat(d.value)
    else ""
  }

  predicate IsEur(l: InvoiceLine) { l.currencyName == Some("EUR") }
  predicate IsHuf(l: InvoiceLine) { l.currencyName == Some("HUF") }

  /** Column 7, "EUR/HUF": the EUR unit price of the line, guarded against a zero quantity. */
  function UnitRate(l: InvoiceLine): (r: real)
    ensures IsEur(l) && l.quantity != 0.0 ==> r * l.quantity == l.debit
    ensures !IsEur(l) || l.quantity == 0.0 ==> r == 0.0
  {
    if l.quantity != 0.0 && IsEur(l) then l.debit / l.quantity else 0.0
  }

  /** Column 8, "EUR": the subtotal of EUR lines only. */
  function EurAmount(l: InvoiceLine): real
  {
    if IsEur(l) then l.priceSubtotal else 0.0
  }

  /** Column 9, "HUF": the subtotal of HUF lines, the debit (company currency) of every other line. */
  function HufAmount(l: InvoiceLine): real
  {
    if IsHuf(l) then l.priceSubtotal else l.debit
  }

  /** Column 10, "Exchange rate": debit per unit of subtotal, 1 when the subtotal is zero. */
  function ExchangeRate(l: InvoiceLine): (r: real)
    ensures l.priceSubtotal != 0.0 ==> r * l.priceSubtotal == l.debit
    ensures l.priceSubtotal == 0.0 ==> r == 1.0
  {
    if l.priceSubtotal != 0.0 then l.debit / l.priceSubtotal else 1.0
  }

  /** The cell of column c in the row written for line `l` of bill `b`. */
  function LineCell(b: Bill, l: InvoiceLine, c: nat): Option<Cell>
  {
    if c == 0 then Some(Text(b.name))
    else if c == 1 then Some(Text(DateText(b.dateOfReceipt)))
    else if c == 2 then Some(Text(DateText(b.invoiceDate)))
    else if c == 3 then Some(Text(if l.product.Some? then OrEmpty(l.product.value.defaultCode) else ""))
    else if c == 4 then Some(Text(if l.product.Some? then OrEmpty(l.product.value.name) else ""))
    else if c == 5 then Some(Num(l.quantity))
    else if c == 6 then Some(Text(OrEmpty(l.uomName)))
    else if c == 7 then Some(Num(UnitRate(l)))
    else if c == 8 then Some(Num(EurAmount(l)))
    else if c == 9 then Some(Num(HufAmount(l)))
    else if c == 10 then Some(Num(ExchangeRate(l)))
    else None
  }

  function LinesOf(b: Bill): (ps: seq<(Bill, InvoiceLine)>)
    ensures |ps| == |b.lines|
    ensures forall j :: 0 <= j < |ps| ==> ps[j] == (b, b.lines[j])
  {
    seq(|b.lines|, j requires 0 <= j < |b.lines| => (b, b.lines[j]))
  }

  /** Every invoice line with its bill, in bill order and then line order. */
  function AllLines(bills: seq<Bill>): seq<(Bill, InvoiceLine)>
  {
    if bills == [] then [] else AllLines(bills[..|bills| - 1]) + LinesOf(bills[|bills| - 1])
  }

  /** The worksheet the export produces: the header row, then one row per invoice line. */
  function BillCell(bills: seq<Bill>, r: nat, c: nat): Option<Cell>
  {
    if r == 0 then (if c < 11 then Some(Text(Headers()[c])) else None)
    else if r - 1 < |AllLines(bills)| then LineCell(AllLines(bills)[r - 1].0, AllLines(bills)[r - 1].1, c)
    else None
  }

  lemma {:induction false} AllLinesPrefix(bills: seq<Bill>, k: nat)
    requires k <= |bills|
    ensures |AllLines(bills[..k])| <= |AllLines(bills)|
    ensures AllLines(bills[..k]) == AllLines(bills)[..|AllLines(bills[..k])|]
    decreases |bills|
  {
    if k == |bills| {
      assert bills[..k] == bills;
    } else {
      var init := bills[..|bills| - 1];
      AllLinesPrefix(init, k);
      assert init[..k] == bills[..k];
    }
  }

  /** Line j of bill i is the (|lines of bills before i| + j)-th line overall. */
  lemma LineIndex(bills: seq<Bill>, i: nat, j: nat)
    requires i < |bills| && j < |bills[i].lines|
    ensures |AllLines(bills[..i])| + j < |AllLines(bills)|
    ensures AllLines(bills)[|AllLines(bills[..i])| + j] == (bills[i], bills[i].lines[j])
  {
    AllLinesPrefix(bills, i + 1);
    assert bills[..i + 1][..i] == bills[..i];
    assert AllLines(bills[..i + 1]) == AllLines(bills[..i]) + LinesOf(bills[i]);
  }

  /** Rows are numbered from 1 in bill order and then line order: line j of bill i sits in row
      1 + (number of lines of the bills before i) + j, and no row follows the last line. */
  lemma RowOfLine(bills: seq<Bill>, i: nat, j: nat)
    requires i < |bills| && j < |bills[i].lines|
    ensures forall c: nat :: BillCell(bills, 1 + |AllLines(bills[..i])| + j, c) == LineCell(bills[i], bills[i].lines[j], c)
    ensures forall r: nat, c: nat :: r > |AllLines(bills)| ==> BillCell(bills, r, c) == None
  {
    LineIndex(bills, i, j);
  }

  /** The amount columns of the row of line j of bill i, per currency: an EUR line shows its
      unit price, its subtotal in EUR and its debit in HUF; a HUF line shows nothing in EUR and
      its subtotal in HUF; a line in any other currency (or none) shows only its debit. */
  lemma AmountColumns(bills: seq<Bill>, i: nat, j: nat)
    requires i < |bills| && j < |bills[i].lines|
    ensures var row, l := 1 + |AllLines(bills[..i])| + j, bills[i].lines[j];
      (IsEur(l) ==>
        BillCell(bills, row, 8) == Some(Num(l.priceSubtotal)) &&
        BillCell(bills, row, 9) == Some(Num(l.debit)) &&
        (l.quantity != 0.0 ==> exists u :: BillCell(bills, row, 7) == Some(Num(u)) && u * l.quantity == l.debit)) &&
      (IsHuf(l) ==>
        BillCell(bills, row, 7) == Some(Num(0.0)) &&
        BillCell(bills, row, 8) == Some(Num(0.0)) &&
        BillCell(bills, row, 9) == Some(Num(l.priceSubtotal))) &&
      (!IsEur(l) && !IsHuf(l) ==>
        BillCell(bills, row, 7) == Some(Num(0.0)) &&
        BillCell(bills, row, 8) == Some(Num(0.0)) &&
        BillCell(bills, row, 9) == Some(Num(l.debit)))
  {
    var row, l := 1 + |AllLines(bills[..i])| + j, bills[i].lines[j];
    LineIndex(bills, i, j);
    assert AllLines(bills)[row - 1] == (bills[i], l);
    assert BillCell(bills, row, 7) == Some(Num(UnitRate(l)));
  }

  /** Column 10 of a line row: the exchange rate times the subtotal gives back the debit, and a
      zero subtotal shows rate 1. */
  lemma RateColumn(bills: seq<Bill>, i: nat, j: nat)
    requires i < |bills| && j < |bills[i].lines|
    ensures var row, l := 1 + |AllLines(bills[..i])| + j, bills[i].lines[j];
      exists x :: BillCell(bills, row, 10) == Some(Num(x)) &&
        (l.priceSubtotal != 0.0 ==> x * l.priceSubtotal == l.debit) &&
        (l.priceSubtotal == 0.0 ==> x == 1.0)
  {
    var row, l := 1 + |AllLines(bills[..i])| + j, bills[i].lines[j];
    LineIndex(bills, i, j);
    assert AllLines(bills)[row - 1] == (bills[i], l);
    assert BillCell(bills, row, 10) == Some(Num(ExchangeRate(l)));
  }

  /** Each line row fills exactly columns 0..10; the header row has the eleven titles. */
  lemma RowWidth(bills: seq<Bill>, r: nat, c: nat)
    ensures BillCell(bills, r, c).Some? <==> c < 11 && r <= |AllLines(bills)|
    ensures r == 0 && c < 11 ==> BillCell(bills, r, c) == Some(Text(Headers()[c]))
  {
  }

  /** The first seven writes of a line row: bill, dates, product, quantity and unit of measure. */
  method WriteLineItem(grid: Grid<Cell>, bills: seq<Bill>, i: nat, j: nat, row: nat) returns (g: Grid<Cell>)
    requires i < |bills| && j < |bills[i].lines| && row == 1 + |AllLines(bills[..i])| + j
    requires WrittenUpTo(grid, (r: nat, c: nat) => BillCell(bills, r, c), row, 0)
    ensures WrittenUpTo(g, (r: nat, c: nat) => BillCell(bills, r, c), row, 7)
  {
    ghost var spec := (r: nat, c: nat) => BillCell(bills, r, c);
    var bill := bills[i];
    var line := bill.lines[j];
    RowOfLine(bills, i, j);
    assert forall c: nat :: spec(row, c) == LineCell(bill, line, c);
    g := Write(grid, spec, row, 0, Text(bill.name));
    g := Write(g, spec, row, 1, Text(DateText(bill.dateOfReceipt)));
    g := Write(g, spec, row, 2, Text(DateText(bill.invoiceDate)));
    g := Write(g, spec, row, 3, Text(if line.product.Some? then OrEmpty(line.product.value.defaultCode) else ""));
    g := Write(g, spec, row, 4, Text(if line.product.Some? then OrEmpty(line.product.value.name) else ""));
    g := Write(g, spec, row, 5, Num(line.quantity));
    g := Write(g, spec, row, 6, Text(OrEmpty(line.uomName)));
  }

  /** The last four writes of a line row: the currency-dependent amounts. */
  method WriteLineAmounts(grid: Grid<Cell>, bills: seq<Bill>, i: nat, j: nat, row: nat) returns (g: Grid<Cell>)
    requires i < |bills| && j < |bills[i].lines| && row == 1 + |AllLines(bills[..i])| + j
    requires WrittenUpTo(grid, (r: nat, c: nat) => BillCell(bills, r, c), row, 7)
    ensures WrittenUpTo(g, (r: nat, c: nat) => BillCell(bills, r, c), row + 1, 0)
  {
    ghost var spec := (r: nat, c: nat) => BillCell(bills, r, c);
    var line := bills[i].lines[j];
    RowOfLine(bills, i, j);
    assert forall c: nat :: spec(row, c) == LineCell(bills[i], line, c);
    g := Write(grid, spec, row, 7, Num(if line.quantity != 0.0 && IsEur(line) then line.debit / line.quantity else 0.0));
    g := Write(g, spec, row, 8, Num(if IsEur(line) then line.priceSubtotal else 0.0));
    g := Write(g, spec, row, 9, Num(if IsHuf(line) then line.priceSubtotal else line.debit));
    g := Write(g, spec, row, 10, Num(if line.priceSubtotal != 0.0 then line.debit / line.priceSubtotal else 1.0));
    NextRow(g, spec, row, 11);
  }

  /** The export: header row, then for every bill and every one of its lines one row. */
  method ExportBills(bills: seq<Bill>) returns (grid: Grid<Cell>)
    ensures forall r: nat, c: nat :: Get(grid, r, c) == BillCell(bills, r, c)
  {
    ghost var spec := (r: nat, c: nat) => BillCell(bills, r, c);
    grid := map[];
    Empty(spec);
    var headers := Headers();
    for col := 0 to |headers|
      invariant WrittenUpTo(grid, spec, 0, col)
    {
      grid := Write(grid, spec, 0, col, Text(headers[col]));
    }
    NextRow(grid, spec, 0, 11);
    var row := 1;
    for i := 0 to |bills|
      invariant row == 1 + |AllLines(bills[..i])|
      invariant WrittenUpTo(grid, spec, row, 0)
    {
      var bill := bills[i];
      for j := 0 to |bill.lines|
        invariant row == 1 + |AllLines(bills[..i])| + j
        invariant WrittenUpTo(grid, spec, row, 0)
      {
        grid := WriteLineItem(grid, bills, i, j, row);
        grid := WriteLineAmounts(grid, bills, i, j, row);
        row := row + 1;
      }
      assert bills[..i + 1][..i] == bills[..i];
    }
    assert bills[..|bills|] == bills;
    Finished(grid, spec, row);
  }
}
