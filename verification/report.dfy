/**
 The data rows of the "Control de Multas" sheet written by `guardar_resultados_en_excel`
 (app.py:411-422): which fill colour a row gets and what its five cells hold.
 */
module Report {
  import opened Plates
  import opened Detector
  import opened Extractor
  import opened Progress
  import opened Batch

  /** The sheet row of the first result (rows 1-4 hold the title, the date and the headers). */
  const FirstDataRow: nat := 5

  const FineFill: string := "FFE6E6"
  const ErrorFill: string := "FFCCCC"
  const BandFill: string := "C6E0B4"
  const PlainFill: string := "FFFFFF"

  const EvidenceCell: string := "Ver imagen adjunta"
  const NoDetails: string := "Sin detalles"

  /**
   The fill of a data row: a fine wins over an error, and the remaining rows are banded
   green on even sheet rows and white on odd ones.
   */
  function RowFill(status: string, outcome: string, sheetRow: nat): (fill: string)
    ensures fill == FineFill <==> status == FineYes
    ensures fill == ErrorFill <==> status != FineYes && outcome == ErrorWord
    ensures fill == BandFill <==> status != FineYes && outcome != ErrorWord && sheetRow % 2 == 0
    ensures fill == PlainFill <==> status != FineYes && outcome != ErrorWord && sheetRow % 2 == 1
  {
    if status == FineYes then FineFill
    else if outcome == ErrorWord then ErrorFill
    else if sheetRow % 2 == 0 then BandFill
    else PlainFill
  }

  /** The details column falls back to "Sin detalles" when a result has no details, so it is never blank. */
  function DetailCell(details: string): (cell: string)
    ensures cell != []
    ensures details != [] ==> cell == details
    ensures details == [] ==> cell == NoDetails
  {
    if details == [] then NoDetails else details
  }

  datatype SheetRow = SheetRow(sheetRow: nat, fill: string, cells: seq<string>)

  /** The sheet row for one result written at row `sheetRow`. */
  function ResultRow(r: PlateResult, sheetRow: nat): SheetRow
  {
    SheetRow(sheetRow, RowFill(r.fineStatus, r.outcome, sheetRow),
             [r.plate, r.fineStatus, r.outcome, EvidenceCell, DetailCell(r.details)])
  }

  /** The data rows, one per result, from sheet row 5 on. */
  function ReportRows(results: seq<PlateResult>): (rows: seq<SheetRow>)
    ensures |rows| == |results|
    ensures forall k :: 0 <= k < |rows| ==> rows[k].sheetRow == FirstDataRow + k && |rows[k].cells| == 5
    ensures forall k :: 0 <= k < |rows| ==> rows[k] == ResultRow(results[k], FirstDataRow + k)
  {
    seq(|results|, k requires 0 <= k < |results| => ResultRow(results[k], FirstDataRow + k))
  }

  /**
   The k-th data row is written from the k-th result: its colour follows that result's status
   and outcome at its sheet row, and its cells are the plate, the status, the outcome, the
   evidence note and the details (or "Sin detalles"), in that order.
   */
  lemma ReportRowContents(results: seq<PlateResult>, k: nat)
    requires k < |results|
    ensures var row := ReportRows(results)[k]; var r := results[k];
      && row.sheetRow == FirstDataRow + k
      && row.fill == RowFill(r.fineStatus, r.outcome, FirstDataRow + k)
      && row.cells == [r.plate, r.fineStatus, r.outcome, EvidenceCell, DetailCell(r.details)]
  {
  }

  /**
   For the results a batch records, the colour tells the outcome: red for a detected fine,
   the error tint for a failed plate, and alternating green and white for plates without
   fines.
   */
  lemma BatchRowColours(plate: string, obs: Observation, sheetRow: nat)
    ensures var r := PlateOutcome(plate, obs);
      && (RowFill(r.fineStatus, r.outcome, sheetRow) == FineFill <==> obs.Loaded? && Detect(obs.page).hasFine)
      && (RowFill(r.fineStatus, r.outcome, sheetRow) == ErrorFill <==> obs.SubmitFailed?)
  {
  }

  /** Two consecutive rows of plates without fines or errors never share a colour. */
  lemma PlainRowsAlternate(a: PlateResult, b: PlateResult, k: nat)
    requires a.fineStatus != FineYes && a.outcome != ErrorWord
    requires b.fineStatus != FineYes && b.outcome != ErrorWord
    ensures RowFill(a.fineStatus, a.outcome, k) != RowFill(b.fineStatus, b.outcome, k + 1)
  {
  }

  /**
   A loaded page shows "Sin detalles" in the details column exactly when no fine was
   detected: a detected fine always has details of its own, even when none could be read.
   */
  lemma DetailsColumn(plate: string, page: Page, screenshot: string)
    ensures DetailCell(PlateOutcome(plate, Loaded(page, screenshot)).details) == NoDetails
      <==> !Detect(page).hasFine
  {
    if Detect(page).hasFine {
      var d := Extract(page);
      ExtractSpec(page);
      if page.table.Some? && DetailRows(page.table.value) != [] {
        assert Header(1)[0] == '=' && d[0] == '=';
      } else {
        assert d == TableMissing || d == NothingFound;
      }
    }
  }

  /** A result whose plate and status words are non-blank fills every cell of its row. */
  lemma ResultCellsFilled(r: PlateResult, sheetRow: nat)
    requires r.plate != [] && r.fineStatus != [] && r.outcome != []
    ensures forall c :: 0 <= c < 5 ==> ResultRow(r, sheetRow).cells[c] != []
  {
    assert ResultRow(r, sheetRow).cells == [r.plate, r.fineStatus, r.outcome, EvidenceCell, DetailCell(r.details)];
  }

  /** The status and outcome words a batch writes are never blank. */
  lemma OutcomeWordsFilled(plate: string, obs: Observation)
    ensures PlateOutcome(plate, obs).fineStatus != [] && PlateOutcome(plate, obs).outcome != []
  {
  }

  /**
   Every cell of every data row is filled in when the plates came from the parser: the
   plate is non-blank and the other cells are fixed words or details text.
   */
  lemma CellsFilled(plates: seq<string>, observe: (nat, string) -> Observation, results: seq<PlateResult>)
    requires |results| == |plates|
    requires forall k :: 0 <= k < |plates| ==> IsPlate(plates[k])
    requires forall k :: 0 <= k < |plates| ==> results[k] == PlateOutcome(plates[k], observe(k, plates[k]))
    ensures forall k, c :: 0 <= k < |results| && 0 <= c < 5 ==> ReportRows(results)[k].cells[c] != []
  {
    var rows := ReportRows(results);
    forall k, c | 0 <= k < |results| && 0 <= c < 5 ensures rows[k].cells[c] != [] {
      OutcomeWordsFilled(plates[k], observe(k, plates[k]));
      ResultCellsFilled(results[k], FirstDataRow + k);
      assert rows[k] == ResultRow(results[k], FirstDataRow + k);
    }
  }
}
