# SIMIT fine checker — verified model of the scraping core

The Compa_Simit application takes a list of Colombian licence plates and checks each one on
the public SIMIT traffic-fine site. It is a Flask web page that starts a background worker.
The worker drives a headless Chrome browser and records, per plate, whether fines were found
and what they are. Finally it writes a spreadsheet report. A progress record (`progreso_actual`)
is polled by the page while the job runs.

This project models the deterministic core of `app.py` in Dafny and proves properties about it.
The browser is replaced by the observations it delivers:

- a results page, abstracted as
  - an optional results table of rows (text and cells),
  - a flag for the "no fines" element,
  - an optional page source;
- the outcome of submitting a plate;
- a screenshot path;
- whether the report file was written.

Modules, in dependency order:

- `Optional`, `Text`, `Lines`, `Decimal`, `Seqs`: the pieces of Python's string and list
  behaviour the core relies on.
  - `strip` uses the exact `isspace` set.
  - `lower`/`upper` cover ASCII and Latin-1.
  - `in` is substring search.
  - `split('\n')` and its inverse `join`.
  - Decimal formatting of counters.
  - Order-preserving filters.
- `Plates`: parsing the textarea into plates (`app.py:471`).
- `Progress`: the job record, the percentage rule of `actualizar_progreso` and the start guard
  of `/iniciar_proceso`.
- `Detector`: the four-strategy cascade of `detectar_multas_mejorada`.
- `Extractor`: the `=== MULTA n ===` text of `extraer_detalles_multas`.
- `Batch`: the worker `buscar_placas`, covering
  - one result per plate,
  - the trace of progress updates,
  - the completed/error end states.
- `Report`: the row colour and cell contents of the spreadsheet rows.

The percentage is kept as an integer number of tenths of a percent, where 1000 means 100%. It
is the exact quotient rounded half to even, which is what Python's `round(x, 1)` does on the
exact value.

Two behaviours of the code are easy to misread, and the model keeps them as written:

- A table row with fewer than six cells produces no `=== MULTA n ===` block at all. Every field
  is read under its own per-cell guard, yet the whole block sits under the six-cell test at
  `app.py:188`. `Extractor.ShortRowNoBlock` states this.
- When the report cannot be written, the job ends in `error` with the percentage reset to 0. The
  processed count stays at the batch size, and the results are never published to the progress
  record. `app.py:353-358` only overwrites state, message and percentage.

## Model

| member | source | states |
|---|---|---|
| Plates.ParsePlates | app.py:471 | every plate is non-empty, has no surrounding whitespace and is upper case; the list is empty exactly when the whole text is whitespace |
| Plates.ParsePlatesAppend | app.py:471 | lines are parsed independently and in input order: the plates of `a + "\n" + b` are those of `a` followed by those of `b` |
| Plates.ParsePlatesLine | app.py:471 | a single blank line yields no plate, any other line yields exactly its stripped, upper-cased text |
| Progress.StartJob | app.py:471-489 | a start is rejected with "No se ingresaron placas válidas" when the text has no plate, else with "Ya hay un proceso en ejecución" while processing, and a rejection leaves the record unchanged; an accepted start carries exactly the parsed plates (at least one, all well-formed) and resets the record to state idle, message "Iniciando...", no current plate, total = number of parsed plates, processed 0, percentage 0, no results, no report |
| Progress.PercentTenths | app.py:63-66 | the percentage is 0 when the total is 0, never exceeds 100%, and is exactly 100% once processed reaches the total |
| Progress.PercentClose | app.py:63-66 | within the batch the stored percentage is the exact ratio rounded to the nearest tenth of a percent |
| Progress.RoundHalfEvenSpec | app.py:65 | `round` goes to the nearest value and breaks ties towards the even neighbour |
| Progress.PercentMonotone | app.py:63-66 | with a fixed total, more processed plates never show a smaller percentage |
| Progress.ApplyUpdate | app.py:60-74 | an update overwrites message, current plate, counters and percentage, and leaves the job state, published results and report path untouched |
| Progress.ApplyUpdateConsistent | app.py:60-74 | an update with processed ≤ total leaves a record whose counters are in range and whose percentage follows from them |
| Detector.Detect | app.py:88-167 | a fine is reported exactly when the reported count is positive, whichever strategy decided |
| Detector.DetectSpec | app.py:93-163 | with the table present the count is the number of rows with non-blank lower-cased text, none of the four "no results" phrases and at least six cells; without it at most one fine is reported, and one is reported iff there is no "no fines" element, the source was readable, it contains none of the six negative phrases and contains one of the four positive ones |
| Detector.TableDecides | app.py:94-118 | once the table is found the later strategies are never consulted |
| Detector.NegativeOutranksPositive | app.py:149-159 | a negative phrase in the page wins over every positive indicator |
| Extractor.RowFieldsSpec | app.py:193-223 | a described row contributes one field per cell up to the eighth, the k-th labelled by its positional label and holding the stripped cell text |
| Extractor.FieldPresence | app.py:193-223 | a row with at least six cells always carries the first six fields; "Valor" appears iff it has more than six cells and "Valor a pagar" iff more than seven |
| Extractor.Blocks | app.py:178-225 | the extractor writes exactly one block per row it describes |
| Extractor.BlocksSpec | app.py:178-225 | the k-th block describes the k-th described row and is numbered k + 1, consecutively from 1 |
| Extractor.BlocksAreNumberedDetailRows | app.py:179-190 | the single pass over the rows equals filtering the described rows and then numbering them |
| Extractor.ShortRowNoBlock | app.py:187-188 | a row with fewer than six cells produces no block |
| Extractor.ExtractSpec | app.py:169-235 | a missing table gives "No se pudieron extraer detalles específicos"; a table with no described row gives "Sin detalles disponibles" and only then; otherwise the text begins with "=== MULTA 1 ===" and is the rendered blocks with only trailing whitespace removed; in every case the text has no whitespace at either end |
| Extractor.FineRowIsDetailRow | app.py:103-110 | every row the detector counts is described by the extractor, and a described row is counted iff it mentions neither "no hay multas" nor "no tiene multas" |
| Extractor.DetectedCountVersusBlocks | app.py:101-115 | with the table present the detector's count never exceeds the number of blocks, and the two agree iff no described row mentions a detector-only phrase |
| Batch.PlateOutcome | app.py:310-334 | a failed submission is recorded as (plate, "Error", "Error", "Sin captura", message); a loaded page as (plate, "Sí" or "No", "Éxito", screenshot, details) |
| Batch.LoadedOutcome | app.py:310-323 | a loaded plate is marked "Sí" exactly when a fine was detected, and carries details exactly then: the extractor's text for the page when a fine was detected, the empty string otherwise |
| Batch.ExtractNonEmpty | app.py:231-235 | the extractor never returns an empty text |
| Batch.TableFineHasBlocks | app.py:313-317 | a fine counted from the table always comes with details starting at the first fine's header |
| Batch.PlateUpdates | app.py:283-333 | each plate issues two or three updates, all naming the plate and the batch size; all but the last keep the count at the plate's index, and the last advances it by one |
| Batch.ExtractionAnnounced | app.py:315-317 | the "Extrayendo detalles" update is issued exactly for plates where a fine was detected |
| Batch.PlateUpdatesTrace | app.py:283-333 | a plate's updates stay within the batch and never move the count backwards |
| Batch.ApplyAllLast | app.py:60-74 | a run of updates leaves the record as the last one wrote it |
| Batch.Fail | app.py:353-358 | the error handler sets the state to error, the message to "Error: " plus the exception text and the percentage to 0, and changes nothing else |
| Batch.TraceAppend | app.py:281-337 | traces whose counts continue from where the previous one stopped join into a trace that is still bounded and monotone |
| Batch.OutcomesSpec | app.py:281-334 | the collected results hold one entry per plate, the k-th being the outcome of the k-th plate |
| Batch.HandlePlate | app.py:281-334 | one loop turn appends exactly that plate's updates to the trace and its single result to the results, the record then shows the last of those updates, and the count advances by one |
| Batch.OutcomeAt | app.py:281-334 | the k-th collected result is the outcome of the k-th plate, whatever the later plates do |
| Batch.AllUpdatesTrace | app.py:281-334 | the updates of the first n plates, issued plate by plate, stay within the batch, never move the count backwards, keep it between 0 and n and leave it at n |
| Batch.CheckPlates | app.py:281-334 | a failed plate does not stop the loop: every plate gets exactly one result, in order; the trace is the updates before the loop followed by each plate's updates in plate order; the count ends at the batch size and the record shows the last update |
| Batch.CheckAndReport | app.py:281-358 | after the session opened, the trace is the two start-up updates, every plate's updates in order and then "Generando Excel..." with processed = total; the job completes with the results and the report path exactly when the report was written, and otherwise ends in error at 0% with total and processed at the batch size, no current plate and nothing published |
| Batch.RunBatch | app.py:258-358 | the whole trace per set-up: "Iniciando proceso..." alone when the driver fails, followed by "Navegando a SIMIT..." when navigation fails, and when the session opens those two, every plate's updates in plate order and "Generando Excel..." with processed = total; every update keeps processed ≤ total = number of plates and never decreases; when the session opens there is one result per plate, in order, and no result otherwise; the job ends completed exactly when the session opened and the report was written, and then shows 100%, processed = total, the published results and the report path; otherwise it ends in error at 0% with the exception's message, total = number of plates, no current plate, processed = the batch size if the session opened and 0 if not, and nothing published; the record after every update is in state processing (`app.py:262`) |
| Batch.BusyDuringRun | app.py:471-477 | a start request with at least one plate, made while the worker has the job in processing (set at `app.py:262`), is rejected with "Ya hay un proceso en ejecución" and leaves the record unchanged |
| Batch.PercentNeverDecreases | app.py:63-66 | along the worker's trace the displayed percentage never goes down |
| Report.RowFill | app.py:413-419 | a row with a fine is red, else an error row gets the error tint, else even sheet rows are green and odd ones white |
| Report.DetailCell | app.py:422 | the details column shows the details, or "Sin detalles" when they are empty, and is never blank |
| Report.ReportRows | app.py:412-422 | one sheet row per result, from row 5 on, five cells each, the k-th row written from the k-th result |
| Report.ReportRowContents | app.py:412-422 | the k-th data row sits at sheet row 5 + k, takes its colour from the k-th result's status and outcome, and holds its plate, status, outcome, "Ver imagen adjunta" and its details or "Sin detalles" |
| Report.BatchRowColours | app.py:412-419 | for batch results the red fill marks exactly the plates with a detected fine and the error tint exactly the failed plates |
| Report.PlainRowsAlternate | app.py:418-419 | two consecutive rows without fine or error never share a colour |
| Report.DetailsColumn | app.py:314-317 | a loaded plate shows "Sin detalles" exactly when no fine was detected |
| Report.ResultCellsFilled | app.py:422 | a result with a non-blank plate and status words fills all five cells of its row |
| Report.CellsFilled | app.py:412-422 | every cell of every data row is non-blank for the results of parsed plates |

## Left out

- The browser:
  - the Selenium driver, waits and sleeps;
  - popup dismissal and typing the plate;
  - XPath and element lookups;
  - the page-source download and screenshots (`app.py:19-39`, `app.py:76-86`, `app.py:237-256`, `app.py:266-308`).

  They are foreign I/O. Their results are inputs: `Observation`, `Setup`, the `Page` fields and the screenshot string.
- Closing the driver in `finally` (`app.py:359-364`): it has no effect on the recorded state.
- The spreadsheet library calls: workbook layout, fonts, merges, column widths, image embedding and the file-size check (`app.py:366-457`).
  - The generator is modelled as a function from the results to an optional path.
  - Only the row colour and the five data cells are modelled.
- The Flask routes, JSON replies and file download (`app.py:460-523`), and the HTML/JavaScript page (`app.py:526-929`): HTTP and UI.
- Concurrency:
  - The worker thread and the shared global are not modelled.
  - The start route leaves the state `idle` until the worker sets `processing`, so two quick requests could both start. The model treats each start and each run as one atomic step.
- The live page: the detector (after its two-second wait, `app.py:91`) and the extractor (`app.py:317`) read the browser's page at two different moments.
  - The model gives both calls the same `Page` snapshot, so it assumes the page does not change in between.
  - `Batch.TableFineHasBlocks`, `Batch.LoadedOutcome` and `Report.DetailsColumn` rely on that: a table that vanished in between would give "No se pudieron extraer detalles específicos".
- Timestamps in file names and the report date: clocks.
- Detector.Detect: an exception while reading a table row (`app.py:102-111`, caught at `app.py:120-121`) makes the detector drop the rows counted so far and fall through to the "no fines" element and page-source strategies. The model's `Page` cannot fail in the middle of a table, so a present table always decides.
- Per-row exceptions inside the extractor loop (`app.py:180`, caught at `app.py:227-229`): an abstract row cannot fail to be read, so the model never leaves a row out for that reason. In the code a failure before the cell count is taken skips the row. A failure while a cell is read (`app.py:193-223`) comes after the count and the `=== MULTA n ===` header were written (`app.py:189-190`). It leaves a partial block without its closing blank line, and the next block is numbered one higher.
- Python's full Unicode case mapping:
  - `Text.Lower` and `Text.Upper` map ASCII and Latin-1 letters and ÿ/Ÿ; `Text.Upper` also maps the micro sign µ to the Greek capital mu.
  - Characters that change length (ß → SS) or lie outside Latin-1 are left unchanged, and `Text.Lower` does not map the Greek capital mu back.
- Floating point: the percentage is exact rational rounding in tenths of a percent, not the binary floating-point value `round` sees.
- Exceptions raised from the progress update or the result append: these cannot fail in the model.
