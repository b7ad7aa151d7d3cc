/** "Export Product Demand" of the master production schedule (`action_export_product_demand`):
    one header row of periods, then a block of five rows per exported schedule. */
module DemandExport {
  import opened Wrappers
  import opened Dates
  import opened Sheet

  datatype Product = Product(id: int, defaultCode: Option<string>, name: Option<string>)

  /** A forecast line of a schedule: its date and its indirect demand. */
  datatype Forecast = Forecast(date: CalendarDate, indirectDemandQty: real)

  datatype Schedule = Schedule(product: Product, forecasts: seq<Forecast>)

  /** One reporting period `(date_start, date_stop)` as the schedule's date range supplies it. */
  datatype Period = Period(start: CalendarDate, stop: CalendarDate)

  /** What the export raises instead of returning a worksheet: the "no data" user error, or
      Python's UnboundLocalError on the name `_`. */
  datatype ExportError = NoDataToExport | UnboundTranslation

  /** How Python resolves a name read inside a function body. A name the body assigns anywhere (a
      `for` target counts) is local to the whole body, and reading it before its first assignment
      raises UnboundLocalError. A name the body never assigns is the module's, and for `_` that
      is the translation function. */
  datatype NameBinding = ModuleLevel | LocalBound | LocalUnbound

  function ResolveName(assignedInBody: bool, assignedBeforeRead: bool): (b: NameBinding)
    ensures b == ModuleLevel <==> !assignedInBody
    ensures b == LocalUnbound <==> assignedInBody && !assignedBeforeRead
  {
    if !assignedInBody then ModuleLevel else if assignedBeforeRead then LocalBound else LocalUnbound
  }

  /** The error an empty selection raises, given how `_` resolves where the message is translated. */
  function EmptySelectionError(translation: NameBinding): ExportError
  {
    if translation == LocalUnbound then UnboundTranslation else NoDataToExport
  }

  /** As written: the reference and name rows loop with `for _ in period_columns`, so `_` is
      assigned in the body, and only after the empty-selection check reads it. */
  function EmptySelectionErrorAsWritten(): ExportError
  {
    EmptySelectionError(ResolveName(true, false))
  }

  /** As intended: `_` is not rebound in the body, so it is the translation function. */
  function EmptySelectionErrorIntended(): ExportError
  {
    EmptySelectionError(ResolveName(false, false))
  }

  /** The loop variable `_` shadows the translation function: as written an empty selection raises
      UnboundLocalError, where the user error was intended. */
  lemma TranslationShadowed()
    ensures EmptySelectionErrorAsWritten() == UnboundTranslation
    ensures EmptySelectionErrorIntended() == NoDataToExport
    ensures EmptySelectionErrorAsWritten() != EmptySelectionErrorIntended()
  {
  }

  predicate Shown(s: Schedule, selected: Option<int>)
  {
    selected.None? || s.product.id == selected.value
  }

  /** The schedules exported: those of the selected product when one is selected, all otherwise,
      in their original order. */
  function SelectSchedules(schedules: seq<Schedule>, selected: Option<int>): (r: seq<Schedule>)
    ensures |r| <= |schedules|
    ensures forall s :: s in r <==> s in schedules && Shown(s, selected)
    ensures selected.None? ==> r == schedules
  {
    if schedules == [] then []
    else
      var init := SelectSchedules(schedules[..|schedules| - 1], selected);
      var last := schedules[|schedules| - 1];
      assert schedules == schedules[..|schedules| - 1] + [last];
      if Shown(last, selected) then init + [last] else init
  }

  /** The filter over a non-empty list: the filter over all but the last, then the last if shown. */
  lemma SelectLast(xs: seq<Schedule>, selected: Option<int>)
    requires xs != []
    ensures SelectSchedules(xs, selected) ==
            SelectSchedules(xs[..|xs| - 1], selected) + (if Shown(xs[|xs| - 1], selected) then [xs[|xs| - 1]] else [])
  {
  }

  /** The filter keeps order and multiplicity: selecting from a concatenation selects from each part
      in turn. */
  lemma {:induction false} SelectAppend(a: seq<Schedule>, b: seq<Schedule>, selected: Option<int>)
    ensures SelectSchedules(a + b, selected) == SelectSchedules(a, selected) + SelectSchedules(b, selected)
    decreases |b|
  {
    if b == [] {
      assert a + b == a;
    } else {
      var init, last, ab := b[..|b| - 1], b[|b| - 1], a + b;
      var tail := if Shown(last, selected) then [last] else [];
      assert ab[..|ab| - 1] == a + init && ab[|ab| - 1] == last;
      calc {
        SelectSchedules(ab, selected);
        { SelectLast(ab, selected); }
        SelectSchedules(a + init, selected) + tail;
        { SelectAppend(a, init, selected); }
        SelectSchedules(a, selected) + SelectSchedules(init, selected) + tail;
        { SelectLast(b, selected); }
        SelectSchedules(a, selected) + SelectSchedules(b, selected);
      }
    }
  }

  /** A single schedule is exported exactly when it belongs to the selected product (or none is
      selected). */
  lemma SelectSingle(s: Schedule, selected: Option<int>)
    ensures SelectSchedules([s], selected) == if Shown(s, selected) then [s] else []
  {
    assert [s][..0] == [];
  }

  /** Python's `sum(...)` over floats, added left to right from 0. */
  function Sum(xs: seq<real>): real
  {
    if xs == [] then 0.0 else Sum(xs[..|xs| - 1]) + xs[|xs| - 1]
  }

  lemma {:induction false} SumAppend(a: seq<real>, b: seq<real>)
    ensures Sum(a + b) == Sum(a) + Sum(b)
    decreases |b|
  {
    if b != [] {
      SumAppend(a, b[..|b| - 1]);
      assert (a + b)[..|a + b| - 1] == a + b[..|b| - 1];
    } else {
      assert a + b == a;
    }
  }

  /** A forecast falls in a period when its date lies between the period's bounds, both included. */
  predicate InPeriod(d: Date, p: Period)
  {
    Le(p.start, d) && Le(d, p.stop)
  }

  /** `forecast_ids.filtered(start <= date <= stop).mapped('indirect_demand_qty')`. */
  function PeriodQuantities(fs: seq<Forecast>, p: Period): seq<real>
  {
    if fs == [] then []
    else
      var last := fs[|fs| - 1];
      PeriodQuantities(fs[..|fs| - 1], p) + (if InPeriod(last.date, p) then [last.indirectDemandQty] else [])
  }

  /** The indirect demand of the forecasts in period p. */
  function PeriodDemand(fs: seq<Forecast>, p: Period): real
  {
    Sum(PeriodQuantities(fs, p))
  }

  /** The per-period demands of a schedule, one per period column. */
  function Demands(s: Schedule, periods: seq<Period>): (ds: seq<real>)
    ensures |ds| == |periods|
  {
    seq(|periods|, k requires 0 <= k < |periods| => PeriodDemand(s.forecasts, periods[k]))
  }

  function PeriodLabel(p: Period): string
  {
    IsoFormat(p.start) + " - " + IsoFormat(p.stop)
  }

  function RowLabel(line: nat): string
  {
    if line == 0 then "Product Internal Reference"
    else if line == 1 then "Product Name"
    else if line == 2 then "Indirect Demand Forecast per period"
    else "Total Indirect Demand Forecast per period"
  }

  /** Column c (0 .. n + 1 for n periods) of row `line` of a schedule's block. */
  function BlockCell(s: Schedule, periods: seq<Period>, line: nat, c: nat): Option<Cell>
    requires c <= |periods| + 1
  {
    var n := |periods|;
    if line >= 4 then None
    else if c == 0 then Some(Text(RowLabel(line)))
    else if line == 0 then Some(Text(OrEmpty(s.product.defaultCode)))
    else if line == 1 then Some(Text(OrEmpty(s.product.name)))
    else if line == 2 then Some(Num(if c <= n then Demands(s, periods)[c - 1] else Sum(Demands(s, periods))))
    else Some(Num(Sum(Demands(s, periods)[..if c <= n then c else n])))
  }

  /** The whole worksheet: row 0 holds an empty corner, one label per period and "Total";
      schedule i occupies rows 1 + 5i .. 5 + 5i. */
  function DemandCell(shown: seq<Schedule>, periods: seq<Period>, r: nat, c: nat): Option<Cell>
  {
    var n := |periods|;
    if c > n + 1 then None
    else if r == 0 then Some(Text(if c == 0 then "" else if c <= n then PeriodLabel(periods[c - 1]) else "Total"))
    else if (r - 1) / 5 < |shown| then BlockCell(shown[(r - 1) / 5], periods, (r - 1) % 5, c)
    else None
  }

  /** Cell c of row 1 + 5i + line is cell c of row `line` of schedule i's block. */
  lemma BlockCellAt(shown: seq<Schedule>, periods: seq<Period>, i: nat, line: nat, c: nat)
    requires i < |shown| && line < 5
    ensures DemandCell(shown, periods, 1 + 5 * i + line, c)
            == (if c > |periods| + 1 then None else BlockCell(shown[i], periods, line, c))
  {
    var r := 1 + 5 * i + line;
    assert (r - 1) / 5 == i && (r - 1) % 5 == line;
  }

  /** Row 1 + 5i + line is row `line` of schedule i's block. */
  lemma BlockRow(shown: seq<Schedule>, periods: seq<Period>, i: nat, line: nat)
    requires i < |shown| && line < 5
    ensures forall c: nat :: DemandCell(shown, periods, 1 + 5 * i + line, c)
                            == (if c > |periods| + 1 then None else BlockCell(shown[i], periods, line, c))
  {
    var r := 1 + 5 * i + line;
    forall c: nat ensures DemandCell(shown, periods, r, c) ==
      (if c > |periods| + 1 then None else BlockCell(shown[i], periods, line, c))
    {
      BlockCellAt(shown, periods, i, line, c);
    }
  }

  /** The code and name rows repeat `default_code or ''` (resp. `name or ''`) in every period
      column and in the Total column. */
  lemma TextRowCells(shown: seq<Schedule>, periods: seq<Period>, i: nat, line: nat, row: nat)
    requires i < |shown| && line < 2 && row == 1 + 5 * i + line
    ensures forall c: nat :: DemandCell(shown, periods, row, c) == (
               if c == 0 then Some(Text(RowLabel(line)))
               else if c <= |periods| + 1 then
                 Some(Text(if line == 0 then OrEmpty(shown[i].product.defaultCode) else OrEmpty(shown[i].product.name)))
               else None)
  {
    BlockRow(shown, periods, i, line);
  }

  /** The demand row holds each period's demand, and in the Total column the sum of them. */
  lemma DemandRowCells(shown: seq<Schedule>, periods: seq<Period>, i: nat, row: nat)
    requires i < |shown| && row == 3 + 5 * i
    ensures forall c: nat :: DemandCell(shown, periods, row, c) == (
               if c == 0 then Some(Text(RowLabel(2)))
               else if c <= |periods| then Some(Num(PeriodDemand(shown[i].forecasts, periods[c - 1])))
               else if c == |periods| + 1 then Some(Num(Sum(Demands(shown[i], periods))))
               else None)
  {
    BlockRow(shown, periods, i, 2);
  }

  /** Cell k of the cumulative row holds the sum of the first k period demands; its Total cell holds
      the sum of all of them. */
  lemma CumulativeRowCells(shown: seq<Schedule>, periods: seq<Period>, i: nat, row: nat)
    requires i < |shown| && row == 4 + 5 * i
    ensures forall c: nat :: DemandCell(shown, periods, row, c) == (
               if c == 0 then Some(Text(RowLabel(3)))
               else if c <= |periods| then Some(Num(Sum(Demands(shown[i], periods)[..c])))
               else if c == |periods| + 1 then Some(Num(Sum(Demands(shown[i], periods))))
               else None)
  {
    BlockRow(shown, periods, i, 3);
    var ds := Demands(shown[i], periods);
    assert ds[..|periods|] == ds;
    forall c: nat | c == |periods| + 1
      ensures DemandCell(shown, periods, row, c) == Some(Num(Sum(ds)))
    {
      assert DemandCell(shown, periods, row, c) == Some(Num(Sum(ds[..|periods|])));
    }
  }

  /** Row 0: an empty corner cell, the label "YYYY-MM-DD - YYYY-MM-DD" of period k in column k, and
      "Total" in column n + 1. */
  lemma HeaderRow(shown: seq<Schedule>, periods: seq<Period>, c: nat)
    ensures c == 0 ==> DemandCell(shown, periods, 0, c) == Some(Text(""))
    ensures 1 <= c <= |periods| ==> DemandCell(shown, periods, 0, c) == Some(Text(PeriodLabel(periods[c - 1])))
    ensures c == |periods| + 1 ==> DemandCell(shown, periods, 0, c) == Some(Text("Total"))
    ensures c > |periods| + 1 ==> DemandCell(shown, periods, 0, c) == None
  {
  }

  /** Schedule i occupies rows 1 + 5i .. 5 + 5i: code, name, per-period demand, cumulative demand
      (labelled in column 0), then an empty row. */
  lemma BlockLayout(shown: seq<Schedule>, periods: seq<Period>, i: nat, c: nat)
    requires i < |shown|
    ensures DemandCell(shown, periods, 1 + 5 * i, 0) == Some(Text("Product Internal Reference"))
    ensures DemandCell(shown, periods, 2 + 5 * i, 0) == Some(Text("Product Name"))
    ensures DemandCell(shown, periods, 3 + 5 * i, 0) == Some(Text("Indirect Demand Forecast per period"))
    ensures DemandCell(shown, periods, 4 + 5 * i, 0) == Some(Text("Total Indirect Demand Forecast per period"))
    ensures DemandCell(shown, periods, 5 + 5 * i, c) == None
  {
    BlockCellAt(shown, periods, i, 0, 0);
    BlockCellAt(shown, periods, i, 1, 0);
    BlockCellAt(shown, periods, i, 2, 0);
    BlockCellAt(shown, periods, i, 3, 0);
    BlockCellAt(shown, periods, i, 4, c);
  }

  /** Nothing is written below the last schedule's block. */
  lemma NothingAfterBlocks(shown: seq<Schedule>, periods: seq<Period>, r: nat, c: nat)
    requires r > 5 * |shown|
    ensures DemandCell(shown, periods, r, c) == None
  {
    var q := r - 1;
    assert q / 5 >= |shown|;
  }

  /** The cumulative row is a running sum of the demand row: its first period cell equals the first
      demand cell, each later cell adds that period's demand to its left neighbour, and its Total
      equals the Total of the demand row. */
  lemma CumulativeRunningSum(shown: seq<Schedule>, periods: seq<Period>, i: nat, k: nat)
    requires i < |shown| && 1 <= k <= |periods|
    ensures var cumulative, demand := DemandCell(shown, periods, 4 + 5 * i, k), DemandCell(shown, periods, 3 + 5 * i, k);
      cumulative.Some? && cumulative.value.Num? && demand.Some? && demand.value.Num? &&
      cumulative.value.v == demand.value.v + (if k == 1 then 0.0 else DemandCell(shown, periods, 4 + 5 * i, k - 1).value.v)
    ensures DemandCell(shown, periods, 4 + 5 * i, |periods| + 1) == DemandCell(shown, periods, 3 + 5 * i, |periods| + 1)
  {
    var ds := Demands(shown[i], periods);
    var n := |periods|;
    BlockCellAt(shown, periods, i, 2, k);
    BlockCellAt(shown, periods, i, 3, k);
    BlockCellAt(shown, periods, i, 3, k - 1);
    BlockCellAt(shown, periods, i, 2, n + 1);
    BlockCellAt(shown, periods, i, 3, n + 1);
    SumPrefixStep(ds, k - 1);
    assert ds[..0] == [];
    assert ds[..n] == ds;
  }

  lemma {:induction false} PeriodQuantitiesAppend(a: seq<Forecast>, b: seq<Forecast>, p: Period)
    ensures PeriodQuantities(a + b, p) == PeriodQuantities(a, p) + PeriodQuantities(b, p)
    decreases |b|
  {
    if b == [] {
      assert a + b == a;
    } else {
      PeriodQuantitiesAppend(a, b[..|b| - 1], p);
      assert (a + b)[..|a + b| - 1] == a + b[..|b| - 1];
    }
  }

  /** The period sums are additive over the forecast list. */
  lemma PeriodDemandAppend(a: seq<Forecast>, b: seq<Forecast>, p: Period)
    ensures PeriodDemand(a + b, p) == PeriodDemand(a, p) + PeriodDemand(b, p)
  {
    PeriodQuantitiesAppend(a, b, p);
    SumAppend(PeriodQuantities(a, p), PeriodQuantities(b, p));
  }

  /** A forecast adds its indirect demand to the sum of every period containing its date and to no other. */
  lemma ForecastContribution(a: seq<Forecast>, f: Forecast, b: seq<Forecast>, p: Period)
    ensures PeriodDemand(a + [f] + b, p) == PeriodDemand(a + b, p) + (if InPeriod(f.date, p) then f.indirectDemandQty else 0.0)
  {
    PeriodDemandAppend(a + [f], b, p);
    PeriodDemandAppend(a, [f], p);
    PeriodDemandAppend(a, b, p);
    assert [f][..0] == [];
    assert PeriodQuantities([f], p) == (if InPeriod(f.date, p) then [f.indirectDemandQty] else []);
    if InPeriod(f.date, p) {
      assert [f.indirectDemandQty][..0] == [];
    }
  }

  /** Both ends of a period are included, so a forecast dated on the day one period stops and the
      next starts is counted in both of them. */
  lemma SharedBoundaryCountedTwice(a: seq<Forecast>, f: Forecast, b: seq<Forecast>, p: Period, q: Period)
    requires Le(p.start, p.stop) && Le(q.start, q.stop)
    requires f.date == p.stop && f.date == q.start
    ensures PeriodDemand(a + [f] + b, p) == PeriodDemand(a + b, p) + f.indirectDemandQty
    ensures PeriodDemand(a + [f] + b, q) == PeriodDemand(a + b, q) + f.indirectDemandQty
  {
    LeTotalOrder(f.date, f.date, f.date);
    ForecastContribution(a, f, b, p);
    ForecastContribution(a, f, b, q);
  }

  type Spec = (nat, nat) -> Option<Cell>

  /** The code row or the name row: the label, then the same text in every period column and in the Total column. */
  method WriteTextRow(grid: Grid<Cell>, shown: seq<Schedule>, periods: seq<Period>, i: nat, line: nat, value: string)
    returns (g: Grid<Cell>)
    requires i < |shown| && line < 2
    requires value == if line == 0 then OrEmpty(shown[i].product.defaultCode) else OrEmpty(shown[i].product.name)
    requires WrittenUpTo(grid, (r: nat, c: nat) => DemandCell(shown, periods, r, c), 1 + 5 * i + line, 0)
    ensures WrittenUpTo(g, (r: nat, c: nat) => DemandCell(shown, periods, r, c), 2 + 5 * i + line, 0)
  {
    ghost var spec: Spec := (r: nat, c: nat) => DemandCell(shown, periods, r, c);
    var row := 1 + 5 * i + line;
    TextRowCells(shown, periods, i, line, row);
    g := Write(grid, spec, row, 0, Text(RowLabel(line)));
    var col := 1;
    for k := 0 to |periods|
      invariant col == k + 1
      invariant WrittenUpTo(g, spec, row, col)
    {
      g := Write(g, spec, row, col, Text(value));
      col := col + 1;
    }
    g := Write(g, spec, row, col, Text(value));
    NextRow(g, spec, row, col + 1);
  }

  lemma SumPrefixStep(xs: seq<real>, k: nat)
    requires k < |xs|
    ensures Sum(xs[..k + 1]) == Sum(xs[..k]) + xs[k]
  {
    assert xs[..k + 1][..k] == xs[..k];
  }

  /** The per-period demand row: each period's sum, then their total. */
  method WriteDemandRow(grid: Grid<Cell>, shown: seq<Schedule>, periods: seq<Period>, i: nat)
    returns (g: Grid<Cell>)
    requires i < |shown|
    requires WrittenUpTo(grid, (r: nat, c: nat) => DemandCell(shown, periods, r, c), 3 + 5 * i, 0)
    ensures WrittenUpTo(g, (r: nat, c: nat) => DemandCell(shown, periods, r, c), 4 + 5 * i, 0)
  {
    ghost var spec: Spec := (r: nat, c: nat) => DemandCell(shown, periods, r, c);
    var s := shown[i];
    var row := 3 + 5 * i;
    DemandRowCells(shown, periods, i, row);
    g := Write(grid, spec, row, 0, Text(RowLabel(2)));
    var col := 1;
    var total := 0.0;
    ghost var ds := Demands(s, periods);
    for k := 0 to |periods|
      invariant col == k + 1
      invariant total == Sum(ds[..k])
      invariant WrittenUpTo(g, spec, row, col)
    {
      var demand := PeriodDemand(s.forecasts, periods[k]);
      g := Write(g, spec, row, col, Num(demand));
      assert demand == ds[k];
      SumPrefixStep(ds, k);
      total := total + demand;
      col := col + 1;
    }
    assert ds[..|periods|] == ds;
    g := Write(g, spec, row, col, Num(total));
    NextRow(g, spec, row, col + 1);
  }

  /** The cumulative row: the running sum of the period demands, then the final running sum. */
  method WriteCumulativeRow(grid: Grid<Cell>, shown: seq<Schedule>, periods: seq<Period>, i: nat)
    returns (g: Grid<Cell>)
    requires i < |shown|
    requires WrittenUpTo(grid, (r: nat, c: nat) => DemandCell(shown, periods, r, c), 4 + 5 * i, 0)
    ensures WrittenUpTo(g, (r: nat, c: nat) => DemandCell(shown, periods, r, c), 5 + 5 * i, 0)
  {
    ghost var spec: Spec := (r: nat, c: nat) => DemandCell(shown, periods, r, c);
    var s := shown[i];
    var row := 4 + 5 * i;
    CumulativeRowCells(shown, periods, i, row);
    g := Write(grid, spec, row, 0, Text(RowLabel(3)));
    var col := 1;
    var cumulative := 0.0;
    ghost var ds := Demands(s, periods);
    for k := 0 to |periods|
      invariant col == k + 1
      invariant cumulative == Sum(ds[..k])
      invariant WrittenUpTo(g, spec, row, col)
    {
      var demand := PeriodDemand(s.forecasts, periods[k]);
      assert demand == ds[k];
      SumPrefixStep(ds, k);
      cumulative := cumulative + demand;
      assert spec(row, col) == Some(Num(Sum(ds[..k + 1])));
      g := Write(g, spec, row, col, Num(cumulative));
      col := col + 1;
    }
    assert ds[..|periods|] == ds;
    g := Write(g, spec, row, col, Num(cumulative));
    NextRow(g, spec, row, col + 1);
  }

  /** Row 0: the empty corner, one label per period, "Total". */
  method WriteHeaderRow(grid: Grid<Cell>, shown: seq<Schedule>, periods: seq<Period>) returns (g: Grid<Cell>)
    requires WrittenUpTo(grid, (r: nat, c: nat) => DemandCell(shown, periods, r, c), 0, 0)
    ensures WrittenUpTo(g, (r: nat, c: nat) => DemandCell(shown, periods, r, c), 1, 0)
  {
    ghost var spec: Spec := (r: nat, c: nat) => DemandCell(shown, periods, r, c);
    var col := 0;
    g := Write(grid, spec, 0, col, Text(""));
    for k := 0 to |periods|
      invariant col == k
      invariant WrittenUpTo(g, spec, 0, col + 1)
    {
      col := col + 1;
      g := Write(g, spec, 0, col, Text(PeriodLabel(periods[k])));
    }
    col := col + 1;
    g := Write(g, spec, 0, col, Text("Total"));
    NextRow(g, spec, 0, col + 1);
  }

  /** The export. Fails, writing nothing, when no schedule passes the product filter. */
  method ExportProductDemand(schedules: seq<Schedule>, selected: Option<int>, periods: seq<Period>)
    returns (result: Result<Grid<Cell>, ExportError>)
    ensures result.Failure? <==> SelectSchedules(schedules, selected) == []
    ensures result.Failure? ==> result.error == NoDataToExport
    ensures result.Success? ==> forall r: nat, c: nat ::
      Get(result.value, r, c) == DemandCell(SelectSchedules(schedules, selected), periods, r, c)
  {
    var shown := SelectSchedules(schedules, selected);
    if shown == [] {
      return Failure(EmptySelectionErrorIntended());
    }
    ghost var spec: Spec := (r: nat, c: nat) => DemandCell(shown, periods, r, c);
    var grid: Grid<Cell> := map[];
    Empty(spec);
    grid := WriteHeaderRow(grid, shown, periods);
    var row := 1;
    for i := 0 to |shown|
      invariant row == 1 + 5 * i
      invariant WrittenUpTo(grid, spec, row, 0)
    {
      var product := shown[i].product;
      grid := WriteTextRow(grid, shown, periods, i, 0, OrEmpty(product.defaultCode));
      grid := WriteTextRow(grid, shown, periods, i, 1, OrEmpty(product.name));
      grid := WriteDemandRow(grid, shown, periods, i);
      grid := WriteCumulativeRow(grid, shown, periods, i);
      BlockRow(shown, periods, i, 4);
      NextRow(grid, spec, row + 4, 0);
      row := row + 5;
    }
    forall r: nat, c: nat | row <= r ensures spec(r, c) == None {
      NothingAfterBlocks(shown, periods, r, c);
    }
    Finished(grid, spec, row);
    return Success(grid);
  }
}
