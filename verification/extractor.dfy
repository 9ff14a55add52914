/**
 `extraer_detalles_multas` (app.py:169-235): the text blocks describing each fine
 row of the results table.
 */
module Extractor {
  import opened Text
  import opened Seqs
  import opened Decimal
  import opened Detector

  /** The extractor's own, shorter list of "no results" row phrases. */
  const DetailExclusions: seq<string> := ["no se encontraron", "sin multas"]

  /** The detector's row phrases that the extractor does not check. */
  const DetectorOnlyExclusions: seq<string> := ["no hay multas", "no tiene multas"]

  /** Labels of the positional fields, for cells 0 to 7. */
  const FieldLabels: seq<string> := [
    "Tipo", "Notificación", "Placa", "Secretaría", "Infracción", "Estado", "Valor", "Valor a pagar"]

  /** The number of positional fields a row can contribute. */
  const MaxFields: nat := 8

  const NothingFound: string := "Sin detalles disponibles"
  const TableMissing: string := "No se pudieron extraer detalles específicos"

  /** A table row the extractor describes: non-blank, none of its two phrases, at least six cells. */
  predicate IsDetailRow(r: Row)
  {
    var t := Strip(r.text);
    t != [] && !ContainsAny(Lower(t), DetailExclusions) && |r.cells| >= MinCells
  }

  function DetailRows(rows: seq<Row>): seq<Row>
  {
    Filter(rows, IsDetailRow)
  }

  datatype Field = Field(name: string, value: string)

  /** One `=== MULTA n ===` block before rendering. */
  datatype FineBlock = FineBlock(number: nat, fields: seq<Field>)

  /** The labelled fields of a row read from cell `i` onwards; a field is written only when its cell exists. */
  function RowFields(cells: seq<string>, i: nat): seq<Field>
    requires i <= MaxFields
    decreases MaxFields - i
  {
    if i == MaxFields || |cells| <= i then []
    else [Field(FieldLabels[i], Strip(cells[i]))] + RowFields(cells, i + 1)
  }

  /** How many of the positional fields from `i` onwards a row of `n` cells has. */
  function FieldCount(n: nat, i: nat): nat
    requires i <= MaxFields
  {
    if n <= i then 0 else if n < MaxFields then n - i else MaxFields - i
  }

  lemma {:induction false} RowFieldsLength(cells: seq<string>, i: nat)
    requires i <= MaxFields
    ensures |RowFields(cells, i)| == FieldCount(|cells|, i)
    decreases MaxFields - i
  {
    if i < MaxFields && i < |cells| {
      RowFieldsLength(cells, i + 1);
    }
  }

  /** The field at position `j` of the fields read from cell `i` comes from cell `i + j`. */
  lemma {:induction false} RowFieldAt(cells: seq<string>, i: nat, j: nat)
    requires i <= MaxFields && j < |RowFields(cells, i)|
    ensures i + j < MaxFields && i + j < |cells|
    ensures RowFields(cells, i)[j] == Field(FieldLabels[i + j], Strip(cells[i + j]))
    decreases j
  {
    var rest := RowFields(cells, i + 1);
    assert RowFields(cells, i) == [Field(FieldLabels[i], Strip(cells[i]))] + rest;
    if j > 0 {
      RowFieldAt(cells, i + 1, j - 1);
    }
  }

  /** One field per cell from `i` up to the eighth, each cell's stripped text under its positional label. */
  lemma RowFieldsSpec(cells: seq<string>, i: nat)
    requires i <= MaxFields
    ensures |RowFields(cells, i)| == FieldCount(|cells|, i)
    ensures forall j :: 0 <= j < |RowFields(cells, i)| ==>
      RowFields(cells, i)[j] == Field(FieldLabels[i + j], Strip(cells[i + j]))
  {
    RowFieldsLength(cells, i);
    forall j | 0 <= j < |RowFields(cells, i)|
      ensures RowFields(cells, i)[j] == Field(FieldLabels[i + j], Strip(cells[i + j]))
    {
      RowFieldAt(cells, i, j);
    }
  }

  ghost predicate HasLabel(fs: seq<Field>, name: string)
  {
    exists j :: 0 <= j < |fs| && fs[j].name == name
  }

  lemma LabelsOf(cells: seq<string>)
    ensures var fs := RowFields(cells, 0);
      && |fs| == (if |cells| < MaxFields then |cells| else MaxFields)
      && forall j :: 0 <= j < |fs| ==> fs[j].name == FieldLabels[j]
  {
    RowFieldsSpec(cells, 0);
  }

  /** The two value labels occur only at their own positions. */
  lemma ValueLabelPositions(j: nat)
    requires j < MaxFields
    ensures FieldLabels[j] == "Valor" <==> j == 6
    ensures FieldLabels[j] == "Valor a pagar" <==> j == 7
  {
    assert FieldLabels[6] == "Valor" && FieldLabels[7] == "Valor a pagar";
    if j < 6 {
      assert FieldLabels[j][0] != 'V';
    }
  }

  /**
   A fine row (at least six cells) always carries the first six fields; "Valor" appears
   iff it has more than six cells and "Valor a pagar" iff it has more than seven.
   */
  lemma FieldPresence(cells: seq<string>)
    requires |cells| >= MinCells
    ensures forall j :: 0 <= j < 6 ==> HasLabel(RowFields(cells, 0), FieldLabels[j])
    ensures HasLabel(RowFields(cells, 0), "Valor") <==> |cells| > 6
    ensures HasLabel(RowFields(cells, 0), "Valor a pagar") <==> |cells| > 7
  {
    var fs := RowFields(cells, 0);
    LabelsOf(cells);
    assert forall j :: 0 <= j < |fs| ==> fs[j].name == FieldLabels[j];
    forall j | 0 <= j < 6 ensures HasLabel(fs, FieldLabels[j]) {
      assert fs[j].name == FieldLabels[j];
    }
    if |cells| > 6 { assert fs[6].name == FieldLabels[6]; }
    if |cells| > 7 { assert fs[7].name == FieldLabels[7]; }
    if HasLabel(fs, "Valor") {
      var j :| 0 <= j < |fs| && fs[j].name == "Valor";
      ValueLabelPositions(j);
    }
    if HasLabel(fs, "Valor a pagar") {
      var j :| 0 <= j < |fs| && fs[j].name == "Valor a pagar";
      ValueLabelPositions(j);
    }
  }

  /** The blocks for `rows` when `done` blocks have already been written (`multa_count`): one per detail row. */
  function Blocks(rows: seq<Row>, done: nat): (bs: seq<FineBlock>)
    ensures |bs| == |DetailRows(rows)|
  {
    if rows == [] then []
    else
      var keep := IsDetailRow(rows[0]);
      assert DetailRows(rows) == (if keep then [rows[0]] else []) + DetailRows(rows[1..]);
      if keep then [FineBlock(done + 1, RowFields(rows[0].cells, 0))] + Blocks(rows[1..], done + 1)
      else Blocks(rows[1..], done)
  }

  /** Writes the blocks for rows already known to qualify, numbering them from `done + 1`. */
  function Number(drows: seq<Row>, done: nat): seq<FineBlock>
  {
    if drows == [] then [] else [FineBlock(done + 1, RowFields(drows[0].cells, 0))] + Number(drows[1..], done + 1)
  }

  /** The k-th numbered block describes the k-th row and carries number `done + k + 1`. */
  lemma {:induction false} NumberSpec(drows: seq<Row>, done: nat)
    ensures |Number(drows, done)| == |drows|
    ensures forall k :: 0 <= k < |drows| ==>
      Number(drows, done)[k] == FineBlock(done + k + 1, RowFields(drows[k].cells, 0))
  {
    if drows != [] {
      NumberSpec(drows[1..], done + 1);
      var tail := Number(drows[1..], done + 1);
      var bs := Number(drows, done);
      assert forall k :: 0 < k < |bs| ==> bs[k] == tail[k - 1];
    }
  }

  /** The single pass over the table equals filtering the detail rows and then numbering them. */
  lemma {:induction false} BlocksAreNumberedDetailRows(rows: seq<Row>, done: nat)
    ensures Blocks(rows, done) == Number(DetailRows(rows), done)
  {
    if rows != [] {
      var keep := IsDetailRow(rows[0]);
      var rest := DetailRows(rows[1..]);
      assert DetailRows(rows) == (if keep then [rows[0]] else []) + rest;
      if keep {
        BlocksAreNumberedDetailRows(rows[1..], done + 1);
        var drows := [rows[0]] + rest;
        assert drows[0] == rows[0] && drows[1..] == rest;
        assert Number(drows, done) == [FineBlock(done + 1, RowFields(rows[0].cells, 0))] + Number(rest, done + 1);
      } else {
        BlocksAreNumberedDetailRows(rows[1..], done);
        assert DetailRows(rows) == rest;
      }
    }
  }

  /** The k-th block describes the k-th detail row and is numbered consecutively from `done + 1`. */
  lemma BlocksSpec(rows: seq<Row>, done: nat)
    ensures forall k :: 0 <= k < |Blocks(rows, done)| ==>
      Blocks(rows, done)[k] == FineBlock(done + k + 1, RowFields(DetailRows(rows)[k].cells, 0))
  {
    BlocksAreNumberedDetailRows(rows, done);
    NumberSpec(DetailRows(rows), done);
  }

  /** Rows with fewer than six cells contribute no block. */
  lemma ShortRowNoBlock(r: Row, done: nat)
    requires |r.cells| < MinCells
    ensures Blocks([r], done) == []
  {
    assert |DetailRows([r])| == 0 by {
      assert DetailRows([r]) == [] + Filter([r][1..], IsDetailRow);
    }
  }

  function FieldLine(f: Field): string
  {
    f.name + ": " + f.value + "\n"
  }

  function RenderFields(fs: seq<Field>): string
  {
    if fs == [] then "" else FieldLine(fs[0]) + RenderFields(fs[1..])
  }

  function Header(n: nat): string
  {
    "=== MULTA " + NatToString(n) + " ===\n"
  }

  function RenderBlock(b: FineBlock): string
  {
    Header(b.number) + RenderFields(b.fields) + "\n"
  }

  function Render(bs: seq<FineBlock>): string
  {
    if bs == [] then "" else RenderBlock(bs[0]) + Render(bs[1..])
  }

  /** The collected text without surrounding whitespace, or "Sin detalles disponibles" when nothing is left. */
  function Finish(acc: string): string
  {
    var t := Strip(acc);
    if t != [] then t else NothingFound
  }

  /** The details text `extraer_detalles_multas` returns for a page. */
  function Extract(page: Page): (details: string)
  {
    match page.table
    case None => Finish(TableMissing)
    case Some(rows) => Finish(Render(Blocks(rows, 0)))
  }

  /**
   A missing table gives the "could not extract" sentinel; a table with no detail row gives
   the "no details" sentinel; otherwise the rendered blocks with only trailing whitespace
   removed, starting with the header of fine number 1. In every case the text has no
   whitespace at either end.
   */
  lemma ExtractSpec(page: Page)
    ensures Trimmed(Extract(page))
    ensures page.table.None? ==> Extract(page) == TableMissing
    ensures page.table.Some? ==> (Extract(page) == NothingFound <==> DetailRows(page.table.value) == [])
    ensures page.table.Some? && DetailRows(page.table.value) != [] ==>
      && Header(1) <= Extract(page)
      && exists tail :: Render(Blocks(page.table.value, 0)) == Extract(page) + tail && AllSpace(tail)
  {
    match page.table
    case None =>
      StripTrimmed(TableMissing);
    case Some(rows) =>
      var bs := Blocks(rows, 0);
      if bs != [] {
        FirstBlock(rows);
        RenderedText(bs);
      }
  }

  /** The first block of a table with detail rows is fine number 1 and opens with the "Tipo" field. */
  lemma FirstBlock(rows: seq<Row>)
    requires DetailRows(rows) != []
    ensures var bs := Blocks(rows, 0);
      bs != [] && bs[0].number == 1 && |bs[0].fields| >= 1 && bs[0].fields[0].name == "Tipo"
  {
    BlocksSpec(rows, 0);
    var r := DetailRows(rows)[0];
    assert IsDetailRow(r);
    LabelsOf(r.cells);
  }

  /** The rendering of blocks that start with fine number 1 begins with its header and then the "Tipo" label. */
  lemma RenderStart(bs: seq<FineBlock>)
    requires bs != [] && bs[0].number == 1 && |bs[0].fields| >= 1 && bs[0].fields[0].name == "Tipo"
    ensures |Render(bs)| > |Header(1)|
    ensures Render(bs)[..|Header(1)|] == Header(1)
    ensures Render(bs)[0] == '=' && Render(bs)[|Header(1)|] == 'T'
  {
    var h := Header(1);
    assert NatToString(1) == "1";
    var f := bs[0].fields;
    var body := RenderFields(f) + "\n" + Render(bs[1..]);
    assert RenderFields(f) == FieldLine(f[0]) + RenderFields(f[1..]);
    assert FieldLine(f[0])[0] == 'T';
    assert body[0] == 'T';
    assert Render(bs) == h + body;
  }

  /** Non-empty rendered blocks strip to a prefix that keeps the first header and the first label. */
  lemma RenderedText(bs: seq<FineBlock>)
    requires bs != [] && bs[0].number == 1 && |bs[0].fields| >= 1 && bs[0].fields[0].name == "Tipo"
    ensures var t := Strip(Render(bs));
      && Header(1) <= t && t != NothingFound
      && exists tail :: Render(bs) == t + tail && AllSpace(tail)
  {
    RenderStart(bs);
    StripKeepsPrefix(Render(bs), |Header(1)|);
    assert NothingFound[0] != '=';
  }

  /** The detector's row test is the extractor's plus two more phrases: a counted row is always described. */
  lemma FineRowIsDetailRow(r: Row)
    ensures IsFineRow(r) ==> IsDetailRow(r)
    ensures IsDetailRow(r) ==> (IsFineRow(r) <==> !ContainsAny(Lower(Strip(r.text)), DetectorOnlyExclusions))
  {
    var t := Lower(Strip(r.text));
    assert RowExclusions == DetailExclusions + DetectorOnlyExclusions;
    ContainsAnyAppend(t, DetailExclusions, DetectorOnlyExclusions);
  }

  /**
   On a page with the results table, the extractor writes at least as many blocks as the
   detector counts fines, and exactly as many iff no described row mentions one of the two
   phrases only the detector excludes ("no hay multas", "no tiene multas").
   */
  lemma DetectedCountVersusBlocks(page: Page)
    requires page.table.Some?
    ensures Detect(page).count <= |Blocks(page.table.value, 0)|
    ensures Detect(page).count == |Blocks(page.table.value, 0)| <==>
      forall k :: 0 <= k < |page.table.value| && IsDetailRow(page.table.value[k]) ==>
        !ContainsAny(Lower(Strip(page.table.value[k].text)), DetectorOnlyExclusions)
  {
    var rows := page.table.value;
    DetectSpec(page);
    FilterCount(rows, IsFineRow);
    forall r ensures IsFineRow(r) ==> IsDetailRow(r) {
      FineRowIsDetailRow(r);
    }
    FilterStricter(rows, IsFineRow, IsDetailRow);
    forall k | 0 <= k < |rows| {
      FineRowIsDetailRow(rows[k]);
    }
  }
}
