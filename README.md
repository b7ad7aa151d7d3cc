# bio_excel spreadsheet import and exports, modelled in Dafny

This project models the spreadsheet logic of the Odoo add-on `bio_excel`. It covers four parts.

- **Pricelist import** (`pricelist.import.wizard`). A file-name check accepts `.xlsx`/`.xls` names.
  The parse turns the first worksheet into records of internal reference, price and row number.
  The product lookup maps internal references to active product templates. The upsert writes
  fixed-price pricelist items keyed by pricelist, template, start date and end date, and counts
  items created, updated and skipped.
- **Product-demand export** (`action_export_product_demand` on the master production schedule).
  Row 0 holds one label per period and a Total column. Each exported schedule then gets a block of
  five rows: internal reference, name, per-period indirect demand, running cumulative demand and a
  blank row.
- **Transfer export** (`action_biosfera_polska_export_xls` on transfers). Each selected transfer
  gets one worksheet: a 51-column header row coloured yellow or green, then one numbered row per
  move. The vendor item code falls back from the supplier code of company 6 to the product's
  internal reference. Each worksheet is stored under a file name built from the transfer's name
  and scheduled date.
- **Vendor-bill export** (`action_export_excel` of `bio.export.bill.wizard`). An 11-column header
  row comes first. Every invoice line of the selected bills then gets one row, whose amount
  columns depend on the line's currency.

The model has these modules:
- `Wrappers`: `Option` and `Result`.
- `Text`: Python's `strip`, `lower`, `replace` and zero-padded decimal digits.
- `Dates`: calendar dates, the `%Y-%m-%d` and `%d-%m-%Y` formats and their parses.
- `Sheet`: a worksheet is a map from (row, column) to a cell. `Sheet.Write` records one
  `worksheet.write`. The invariant `WrittenUpTo` says the worksheet agrees with the
  specification on every cell before the cursor in row-major order, and is empty elsewhere.
- `PricelistImport`, `DemandExport`, `TransferExport`, `BillExport`: one module per part.

The exports are methods that write cells one at a time, in the same row-major order as the
source's loops. Each one ensures that the finished worksheet equals a declarative cell function
(`DemandCell`, `TransferCell`, `BillCell`). Lemmas about those cell functions state the layout
the source promises.

The pricelist parse is a loop method, proved equal to a specification by prefix recursion
(`ScanRows`). The item store is a class whose `items` sequence the upsert updates in place. The
upsert method is proved equal to a fold (`Run`), and lemmas about `Run` state what the loop
guarantees.

Python's `float(text)` and `str(number)` are parameters of the model (`ParseFloat`,
`ShowFloat`), because their exact text formats are not modelled. Money and quantities are
`real`.

## Model

| member | source | states |
|---|---|---|
| PricelistImport.FileFormatCases | bio_excel/wizard/pricelist_import_wizard.py:51-55 | An unset or empty file name passes. A name ending in ".xlsx" or ".xls", in any letter case, passes. A non-empty name whose last character is neither x nor s, in either case, is rejected with the format error. |
| PricelistImport.FileFormatAcceptsExactly | bio_excel/wizard/pricelist_import_wizard.py:54-55 | Both directions: a set name passes exactly when it is empty or splits into a stem and an extension that lowers to ".xlsx" or ".xls". Any other name, such as "a.docx" or "b.pdfs", is rejected. |
| PricelistImport.FileFormatIgnoresCase | bio_excel/wizard/pricelist_import_wizard.py:54 | A name and its lower-case form get the same verdict. |
| PricelistImport.PyIndex | bio_excel/wizard/pricelist_import_wizard.py:75-76 | `cell_value` indexes like a Python list. An index in [-n, n) is accepted, and a negative one counts from the end. Any other index is an IndexError. |
| PricelistImport.PriceConversion | bio_excel/wizard/pricelist_import_wizard.py:81-85 | A text price that is not blank is handed to `float` with every ',' replaced by '.', so no comma is left in it. A blank text price gives 0.0. A number is taken as it is. |
| PricelistImport.ReadRow | bio_excel/wizard/pricelist_import_wizard.py:87-91 | A record produced for 0-based row idx carries row number idx + 1. |
| PricelistImport.ReadRowAborts | bio_excel/wizard/pricelist_import_wizard.py:74-99 | A row aborts the whole parse exactly when its reference or price cell is out of range. That IndexError is not caught by the row's handler. |
| PricelistImport.ReadRowSkips | bio_excel/wizard/pricelist_import_wizard.py:78-94 | A row that does not abort is skipped exactly when its reference text is whitespace only, or its price makes `float` raise ValueError. |
| PricelistImport.ReadRowEmits | bio_excel/wizard/pricelist_import_wizard.py:75-91 | A record holds the stripped, non-empty reference text and the converted price of its row. |
| PricelistImport.ReaderNumbered | bio_excel/wizard/pricelist_import_wizard.py:87-91 | Every record the row reader yields is numbered with its own 1-based row. |
| PricelistImport.ScanSound | bio_excel/wizard/pricelist_import_wizard.py:73-94 | Every parsed record comes from a visited row (from the header row up to the last row) that yields exactly that record. |
| PricelistImport.ScanOrdered | bio_excel/wizard/pricelist_import_wizard.py:72-91 | Records keep sheet order: their row numbers strictly increase. |
| PricelistImport.ScanComplete | bio_excel/wizard/pricelist_import_wizard.py:72-91 | No valid row is lost: every visited row that yields a record has that record in the result. |
| PricelistImport.ScanAbortsIff | bio_excel/wizard/pricelist_import_wizard.py:92-99 | The parse fails exactly when some visited row aborts. Skipped rows never fail it. |
| PricelistImport.AbortIsFinal | bio_excel/wizard/pricelist_import_wizard.py:98-99 | Once a row has aborted the parse, visiting more rows does not undo the failure. |
| PricelistImport.ParseExcelFile | bio_excel/wizard/pricelist_import_wizard.py:57-99 | The loop's result equals the parse specification. A missing file gives the "select a file" error. An unreadable file, a workbook without sheets or an aborted row gives the read error. Otherwise the result is the records of the visited rows. |
| PricelistImport.FindProductsSpec | bio_excel/wizard/pricelist_import_wizard.py:101-109 | A reference is in the product map iff some active template has it as internal reference and it is among the requested references. It then maps to the last such template found. |
| PricelistImport.FirstMatch | bio_excel/wizard/pricelist_import_wizard.py:139-144 | The `limit=1` item search yields no item iff no stored item has the key. Otherwise it yields the first item with the key. |
| PricelistImport.NewItem | bio_excel/wizard/pricelist_import_wizard.py:152-164 | A created item carries the key that is searched for and the record's price. |
| PricelistImport.StepEffect | bio_excel/wizard/pricelist_import_wizard.py:128-166 | One record moves exactly one counter by one. An unknown reference changes no item and counts as skipped. A known one with an existing key changes only that item's price and counts as updated. Otherwise exactly one item with the key and price is appended and counted as created. Afterwards the key's first item has the record's price. |
| PricelistImport.CountsAddUp | bio_excel/wizard/pricelist_import_wizard.py:120-166 | After the loop, created + updated + skipped equals the number of records. |
| PricelistImport.KeysPersist | bio_excel/wizard/pricelist_import_wizard.py:146-166 | A key that has an item keeps one: the loop only rewrites prices or appends items. |
| PricelistImport.RunCovers | bio_excel/wizard/pricelist_import_wizard.py:128-166 | After the loop, every record with a known reference has an item for its key. |
| PricelistImport.CoveredCreatesNothing | bio_excel/wizard/pricelist_import_wizard.py:146-166 | If every known record already has an item for its key, the loop creates nothing and the number of items stays the same. |
| PricelistImport.ReimportCreatesNothing | bio_excel/wizard/pricelist_import_wizard.py:111-172 | Importing the same records a second time creates no item and leaves the number of items unchanged. |
| PricelistImport.ItemStore.constructor | bio_excel/wizard/pricelist_import_wizard.py:139-144 | The store starts with the given items. |
| PricelistImport.ItemStore.SetPrice | bio_excel/wizard/pricelist_import_wizard.py:146-151 | Writing `fixed_price` changes that one item's price and nothing else. |
| PricelistImport.ItemStore.Create | bio_excel/wizard/pricelist_import_wizard.py:152-166 | Creating appends the item and changes nothing else. |
| PricelistImport.ProcessPricelistItems | bio_excel/wizard/pricelist_import_wizard.py:111-172 | No records gives the "no valid data" error and leaves the store untouched. Otherwise the store ends as the fold of the records over the initial items. The counters returned are the fold's counters, and they add up to the number of records. |
| PricelistImport.ActionImport | bio_excel/wizard/pricelist_import_wizard.py:174-196 | A parse error is returned and no item changes. An empty parse gives "no valid data". Otherwise the parsed records are upserted. The model also returns the counters, which add up to the number of records; the source discards them. |
| DemandExport.SelectSchedules | bio_excel/models/mrp_production_schedule.py:58-60 | With a product selected, exactly the schedules of that product are exported. Without one, all schedules are exported in their order. |
| DemandExport.SelectAppend | bio_excel/models/mrp_production_schedule.py:58-60 | The filter keeps order and multiplicity: selecting from a concatenation selects from each part in turn, so the blocks follow the schedules' order. |
| DemandExport.SelectSingle | bio_excel/models/mrp_production_schedule.py:58-60 | One schedule is kept exactly when it belongs to the selected product, or when no product is selected. |
| DemandExport.ExportProductDemand | bio_excel/models/mrp_production_schedule.py:58-155 | The export fails iff no schedule passes the filter, with the intended "no data" user error, and then writes no worksheet. Otherwise every cell of the worksheet equals the layout `DemandCell`. |
| DemandExport.TranslationShadowed | bio_excel/models/mrp_production_schedule.py:63-107 | Python makes a name local to the whole function body once the body assigns it, here `_` as the loop variable of `for _ in period_columns`. As written, the empty-selection branch reads that local before any assignment, so it raises UnboundLocalError on `_` instead of the intended "no data" user error. |
| DemandExport.HeaderRow | bio_excel/models/mrp_production_schedule.py:69-84 | Row 0: column 0 is empty, column k (1..n) is the label "start - stop" of period k, column n+1 is "Total", and nothing lies beyond it. |
| DemandExport.BlockLayout | bio_excel/models/mrp_production_schedule.py:91-155 | Schedule i occupies rows 1+5i to 5+5i. They are labelled, in order, internal reference, name, demand per period and cumulative demand, and row 5+5i is blank. |
| DemandExport.BlockCellAt | bio_excel/models/mrp_production_schedule.py:91-155 | Any cell of row 1+5i+line is the cell of row `line` of schedule i's block. |
| DemandExport.NothingAfterBlocks | bio_excel/models/mrp_production_schedule.py:91-155 | No cell is written below the last schedule's block. |
| DemandExport.TextRowCells | bio_excel/models/mrp_production_schedule.py:95-111 | The reference and name rows repeat `default_code or ''` and `name or ''` in every period column and in the Total column. |
| DemandExport.DemandRowCells | bio_excel/models/mrp_production_schedule.py:113-133 | In the demand row, period column k holds the demand of period k and the Total column holds the sum of those demands. |
| DemandExport.CumulativeRowCells | bio_excel/models/mrp_production_schedule.py:135-152 | In the cumulative row, column k holds the sum of the demands of periods 1..k, and the Total column holds the sum of all period demands. |
| DemandExport.CumulativeRunningSum | bio_excel/models/mrp_production_schedule.py:116-152 | Each cumulative cell equals the previous cumulative cell plus the demand cell above it (the demand cell alone for period 1). The cumulative Total equals the demand row's Total. |
| DemandExport.ForecastContribution | bio_excel/models/mrp_production_schedule.py:121-126 | A forecast adds its indirect demand to a period iff its date lies between the period's start and stop, both included. |
| DemandExport.SharedBoundaryCountedTwice | bio_excel/models/mrp_production_schedule.py:121-145 | A forecast dated on the stop of one period and the start of the next is counted in both periods. |
| DemandExport.PeriodDemandAppend | bio_excel/models/mrp_production_schedule.py:121-126 | A period's demand over two groups of forecasts is the sum of the two groups' demands. |
| DemandExport.SumAppend | bio_excel/models/mrp_production_schedule.py:126 | `sum` over two concatenated lists is the sum of the two sums. |
| DemandExport.WriteHeaderRow | bio_excel/models/mrp_production_schedule.py:69-84 | Writing the header row leaves the worksheet equal to the layout up to the end of row 0. |
| DemandExport.WriteTextRow | bio_excel/models/mrp_production_schedule.py:95-111 | Writing a reference or name row extends the agreement with the layout by that row. |
| DemandExport.WriteDemandRow | bio_excel/models/mrp_production_schedule.py:113-133 | Writing the demand row, whose Total is built up as a running total in the loop, extends the agreement with the layout by that row. |
| DemandExport.WriteCumulativeRow | bio_excel/models/mrp_production_schedule.py:135-152 | Writing the cumulative row, whose running total is carried in the loop, extends the agreement with the layout by that row. |
| TransferExport.Headers | bio_excel/models/stock_picking.py:14-67 | There are exactly 51 header titles. |
| TransferExport.FirstVendorCode | bio_excel/models/stock_picking.py:73-75 | No code iff no supplier line belongs to company 6 with a non-empty code. Otherwise the code is that of the first such line. |
| TransferExport.ItemCode | bio_excel/models/stock_picking.py:69-77 | A move without a product gives "". Otherwise the first company-6 supplier code is used. Failing that, the product's internal reference is used, which is the boolean False when unset. |
| TransferExport.HeaderColouring | bio_excel/models/stock_picking.py:89-105 | Header column c holds title c. It is yellow iff c is in {0, 3, 4, 8, 10, 17, 18, 20}, and green otherwise. |
| TransferExport.YellowMarksDataColumns | bio_excel/models/stock_picking.py:89-123 | In a move row only yellow columns are written. Every yellow column except 3 is always written. Column 3 is written iff the transfer is incoming or outgoing. |
| TransferExport.RowNumbering | bio_excel/models/stock_picking.py:108-123 | The k-th move (from 1) fills row k: column 17 holds k, column 18 the item code and column 20 the done quantity. No row follows the last move. |
| TransferExport.FilenameShape | bio_excel/models/stock_picking.py:129-130 | The file name is the transfer name with every '/' turned into '-', then '_', then 10 date characters or none, then ".xlsx". It contains no '/'. |
| TransferExport.FilenameDate | bio_excel/models/stock_picking.py:129 | With a scheduled date, the ten characters after the '_' read back as that date in day-month-year form. |
| TransferExport.WriteHeaderRow | bio_excel/models/stock_picking.py:101-105 | Writing the header loop leaves the worksheet equal to the layout up to the end of row 0. |
| TransferExport.WriteMoveHead | bio_excel/models/stock_picking.py:110-118 | Columns 0 to 10 of a move row are written as the layout says. Column 3 is skipped for a transfer that is neither incoming nor outgoing. |
| TransferExport.WriteMoveTail | bio_excel/models/stock_picking.py:119-123 | Columns 17, 18 and 20 complete the row, and the counter moves to the next row. |
| TransferExport.WriteTransferSheet | bio_excel/models/stock_picking.py:93-123 | Every cell of a transfer's worksheet equals the layout `TransferCell`. |
| TransferExport.ExportTransfers | bio_excel/models/stock_picking.py:79-133 | No selection fails with "No document selected". Otherwise the archive holds exactly one entry per transfer, in order. Each entry is named by `Filename` and holds that transfer's worksheet. |
| BillExport.Headers | bio_excel/wizard/export_bill_wizard.py:24-29 | There are exactly 11 header titles. |
| BillExport.DateText | bio_excel/wizard/export_bill_wizard.py:38-39 | An unset date is written as "". A set date is written as text that parses back to that date in year-month-day form. |
| BillExport.UnitRate | bio_excel/wizard/export_bill_wizard.py:44 | For an EUR line with non-zero quantity, column 7 times the quantity gives the debit. Otherwise it is 0, so no division by zero occurs. |
| BillExport.ExchangeRate | bio_excel/wizard/export_bill_wizard.py:47 | With a non-zero subtotal, column 10 times the subtotal gives the debit. Otherwise it is 1, so no division by zero occurs. |
| BillExport.AmountColumns | bio_excel/wizard/export_bill_wizard.py:44-46 | The row of an EUR line shows its subtotal in column 8 and its debit in column 9, and its unit price in column 7 when the quantity is non-zero. A HUF line shows 0 in columns 7 and 8 and its subtotal in column 9. Any other line shows 0, 0 and its debit. |
| BillExport.RateColumn | bio_excel/wizard/export_bill_wizard.py:47 | The exchange-rate cell of a line row, times a non-zero subtotal, gives the debit. It is 1 for a zero subtotal. |
| BillExport.AllLinesPrefix | bio_excel/wizard/export_bill_wizard.py:35-36 | The lines of the first k bills are a prefix of the lines of all bills. |
| BillExport.LineIndex | bio_excel/wizard/export_bill_wizard.py:34-48 | Line j of bill i is at position (lines of earlier bills) + j of the bill-then-line order. |
| BillExport.RowOfLine | bio_excel/wizard/export_bill_wizard.py:34-48 | Line j of bill i fills row 1 + (lines of earlier bills) + j. No row follows the last line. |
| BillExport.RowWidth | bio_excel/wizard/export_bill_wizard.py:31-47 | Exactly columns 0 to 10 are written in the header row and in each line row. Header cell c is title c. |
| BillExport.WriteLineItem | bio_excel/wizard/export_bill_wizard.py:37-43 | The first seven writes of a line row agree with the layout. |
| BillExport.WriteLineAmounts | bio_excel/wizard/export_bill_wizard.py:44-48 | The four amount writes complete the row, and the counter moves to the next row. |
| BillExport.ExportBills | bio_excel/wizard/export_bill_wizard.py:24-48 | Every cell of the worksheet equals the layout `BillCell`: the header row, then one row per invoice line. |
| Sheet.Write | bio_excel/wizard/export_bill_wizard.py:37 | `worksheet.write` stores one value at one cell. Writes made in row-major order keep the worksheet equal to its specification before the cursor, and empty after it. |
| Text.StripEmptyIffBlank | bio_excel/wizard/pricelist_import_wizard.py:75 | `strip()` gives "" iff the text consists only of Python whitespace. |
| Text.ReplaceRemoves | bio_excel/wizard/pricelist_import_wizard.py:83 | After `replace(a, b)` with a != b, no `a` remains. |
| Text.LowerIdempotent | bio_excel/wizard/pricelist_import_wizard.py:54 | Lowering twice is lowering once. |
| Dates.IsoRoundTrip | bio_excel/models/mrp_production_schedule.py:77 | A valid date's `%Y-%m-%d` text parses back to the date, and it is the only text that parses to it. |
| Dates.DmyRoundTrip | bio_excel/models/stock_picking.py:129 | A valid date's `%d-%m-%Y` text parses back to the date, and it is the only text that parses to it. |
| Dates.LeTotalOrder | bio_excel/models/mrp_production_schedule.py:121-123 | The date comparison used for the period bounds is a total order. |

## Left out

- The onchange handlers that convert the wizard's start and end dates between the user's time
  zone and UTC (pricelist_import_wizard.py:23-49). They depend on the user's time zone setting.
  The model takes both dates as the timestamp strings that are stored.
- Base64 decoding, the xlrd reader, xlsxwriter, cell formats, column widths, the ZIP container,
  `ir.attachment` records and download URLs are I/O. The worksheets are modelled as maps from
  (row, column) to cells. A decoded upload is a list of worksheets, or unreadable.
- The vendor-bill export's file name uses the current clock (export_bill_wizard.py:53). So does
  the ZIP archive's name (stock_picking.py:138-141). Neither is modelled.
- The check for a missing xlsxwriter library (mrp_production_schedule.py:17-19) and
  `ensure_one` are environment guards, not modelled. As written, the xlsxwriter check would raise
  UnboundLocalError on `_` too, for the same reason as the finding below.
- The check that the header row and column settings are not None
  (pricelist_import_wizard.py:67-69) cannot fail: they are Odoo Integer fields, which are never
  None. So it is not modelled.
- Text.Lower: lowers ASCII letters only. Python's `str.lower` also lowers other letters; this
  affects only names whose extension differs from ".xlsx"/".xls" in non-ASCII letters.
- Python floats are modelled as exact reals. `float(text)` and `str(number)` are parameters, so
  rounding and float text formats are not modelled. The xlrd boolean and error cells are folded
  into numbers.
- Dates are valid Gregorian dates with four-digit years. The model does not cover `strftime`
  padding of years before 1000.
- The transfer's `scheduled_date` is a UTC datetime in the source. The model takes its calendar
  date, with no time-zone conversion. The bill's receipt date and invoice date are modelled as
  dates.
- ORM search order: `_find_products` is modelled as a scan of the templates in search order, where
  the last match wins. The `limit=1` item search returns the first stored item with the key.
- `action_import` wraps every error message as "Import failed: ..."
  (pricelist_import_wizard.py:195-196). The model returns the underlying error and leaves out
  the message text and the success notification.
- PricelistImport.ActionImport: returns the created/updated/skipped counters.
  `action_import` (pricelist_import_wizard.py:183-193) computes them and discards them: its
  notification carries no counts. The model keeps them so that the counters can be stated.
- The forecast-import wizard (bio_excel/wizard/mrp_production_schedule_import_wizard.py) only
  declares fields and an action here, with no parsing or demand distribution. It is not modelled.
  The pricelist model (`product_pricelist.py`), the JavaScript and the manifest are not part of
  this model.
- `_get_date_range` (the source of the demand export's periods) is not part of this model.
  The periods are an input.

## Findings

| source | as written | input that shows it | evidently intended | confidence | as-written member | corrected member |
|---|---|---|---|---|---|---|
| bio_excel/models/mrp_production_schedule.py:63 | `for _ in period_columns` (lines 98 and 107) makes `_` a local name of the whole method, so `_('No data available ...')` reads an unbound local and raises UnboundLocalError | a selected product that has no production schedule, so the filter keeps nothing | the "No data available to export" user error | high, not executed | DemandExport.EmptySelectionErrorAsWritten | DemandExport.ExportProductDemand |
