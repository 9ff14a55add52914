/**
 `detectar_multas_mejorada` (app.py:88-167): decides whether a results page shows
 fines by a cascade of strategies in which the first decisive one wins.
 */
module Detector {
  import opened Optional
  import opened Text
  import opened Seqs

  /** A body row of the results table: its whole text and the text of each `td` cell. */
  datatype Row = Row(text: string, cells: seq<string>)

  /**
   What the browser shows after a search:
   - `table`: the body rows of `#multaTable`, or None when the table or its `tbody` is missing;
   - `noFinesElement`: whether the "no fines" XPath lookup matched any element;
   - `source`: the page source, or None when reading it raised.
   */
  datatype Page = Page(table: Option<seq<Row>>, noFinesElement: bool, source: Option<string>)

  /** The `(tiene_multas, num_multas)` pair. */
  datatype Detection = Detection(hasFine: bool, count: nat)

  /** Phrases that mark a table row as a "no results" message rather than a fine. */
  const RowExclusions: seq<string> := ["no se encontraron", "sin multas", "no hay multas", "no tiene multas"]

  /** Page phrases that settle the question negatively. */
  const NegativePhrases: seq<string> := [
    "no se encontraron multas", "sin multas registradas", "no hay multas",
    "no tiene multas", "sin infracciones", "no se encontraron infracciones"]

  /** Page phrases taken as a sign that at least one fine is shown. */
  const PositivePhrases: seq<string> := ["valor a pagar", "cobro coactivo", "secretaría", "infracción"]

  /** A real fine row has at least this many cells. */
  const MinCells: nat := 6

  /** Some phrase of the list occurs in `text`. */
  ghost predicate Mentions(text: string, phrases: seq<string>)
  {
    exists k, i :: 0 <= k < |phrases| && OccursAt(text, phrases[k], i)
  }

  lemma ContainsAnyMentions(text: string, phrases: seq<string>)
    ensures ContainsAny(text, phrases) <==> Mentions(text, phrases)
  {
    ContainsAnySpec(text, phrases);
  }

  /** A table row the detector counts: non-blank, no exclusion phrase in its lower-cased text, at least six cells. */
  predicate IsFineRow(r: Row)
  {
    var t := Lower(Strip(r.text));
    t != [] && !ContainsAny(t, RowExclusions) && |r.cells| >= MinCells
  }

  /** The rows `filas_con_multas` keeps. */
  function FineRows(rows: seq<Row>): seq<Row>
  {
    Filter(rows, IsFineRow)
  }

  /**
   The cascade. With the table present its qualifying rows decide alone; otherwise the
   "no fines" element, then the negative phrases, then the positive phrases of the
   lower-cased page source, then the default. A failure to read the source is caught
   and yields the default.
   */
  function Detect(page: Page): (d: Detection)
    ensures d.hasFine <==> d.count > 0
  {
    match page.table
    case Some(rows) =>
      var n := |FineRows(rows)|;
      Detection(n > 0, n)
    case None =>
      if page.noFinesElement then Detection(false, 0)
      else
        match page.source
        case None => Detection(false, 0)
        case Some(src) =>
          var text := Lower(src);
          if ContainsAny(text, NegativePhrases) then Detection(false, 0)
          else if ContainsAny(text, PositivePhrases) then Detection(true, 1)
          else Detection(false, 0)
  }

  /**
   With the table present the count is the number of qualifying rows. Without it at most
   one fine is reported, and one is reported exactly when there is no "no fines" element,
   the source could be read, it mentions no negative phrase and it mentions a positive one.
   */
  lemma DetectSpec(page: Page)
    ensures page.table.Some? ==> Detect(page).count == |Positions(page.table.value, IsFineRow)|
    ensures page.table.None? ==> Detect(page).count <= 1
    ensures page.table.None? ==>
      (Detect(page).hasFine <==>
        && !page.noFinesElement
        && page.source.Some?
        && !Mentions(Lower(page.source.value), NegativePhrases)
        && Mentions(Lower(page.source.value), PositivePhrases))
  {
    match page.table
    case Some(rows) =>
      FilterCount(rows, IsFineRow);
    case None =>
      if !page.noFinesElement && page.source.Some? {
        var text := Lower(page.source.value);
        ContainsAnyMentions(text, NegativePhrases);
        ContainsAnyMentions(text, PositivePhrases);
      }
  }

  /** Once the results table is found, the later strategies are never consulted. */
  lemma TableDecides(page: Page, noFinesElement: bool, source: Option<string>)
    requires page.table.Some?
    ensures Detect(page) == Detect(page.(noFinesElement := noFinesElement, source := source))
  {
  }

  /** A negative page phrase outranks every positive one. */
  lemma NegativeOutranksPositive(page: Page)
    requires page.table.None? && page.source.Some?
    requires Mentions(Lower(page.source.value), NegativePhrases)
    ensures Detect(page) == Detection(false, 0)
  {
    ContainsAnyMentions(Lower(page.source.value), NegativePhrases);
  }
}
