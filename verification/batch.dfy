/**
 `buscar_placas` (app.py:258-358): the worker that opens a browser session, checks every
 plate in turn, records one result per plate and ends the job as completed or failed.
 The browser is replaced by what it lets the worker observe.
 */
module Batch {
  import opened Optional
  import opened Detector
  import opened Extractor
  import opened Progress
  import Text

  /** How the session set-up went: creating the driver, then loading the SIMIT home page. */
  datatype Setup = DriverFailed(error: string) | NavigationFailed(error: string) | Ready

  /**
   What the browser yields for one plate: either the search could not be submitted (the
   exception's text), or the results page was loaded, together with the screenshot path
   (or the "Sin captura" sentinel) `tomar_captura_simple` returned for it.
   */
  datatype Observation = SubmitFailed(error: string) | Loaded(page: Page, screenshot: string)

  const StartingMessage: string := "Iniciando proceso..."
  const NavigatingMessage: string := "Navegando a SIMIT..."
  const GeneratingMessage: string := "Generando Excel..."
  const DoneMessage: string := "Proceso completado. Excel listo para descarga."
  const ReportFailure: string := "Error generando Excel"

  /** The result tuple appended for one plate. */
  function PlateOutcome(plate: string, obs: Observation): (r: PlateResult)
    ensures r.plate == plate
    ensures obs.SubmitFailed? ==> r == PlateResult(plate, ErrorWord, ErrorWord, NoCapture, obs.error)
    ensures obs.Loaded? ==> r.outcome == SuccessWord && r.screenshot == obs.screenshot
    ensures obs.Loaded? ==> r.fineStatus == FineYes || r.fineStatus == FineNo
  {
    match obs
    case SubmitFailed(error) =>
      PlateResult(plate, ErrorWord, ErrorWord, NoCapture, error)
    case Loaded(page, screenshot) =>
      var d := Detect(page);
      if d.hasFine then
        PlateResult(plate, FineYes, SuccessWord, screenshot, Extract(page))
      else
        PlateResult(plate, FineNo, SuccessWord, screenshot, "")
  }

  /**
   A loaded page is marked "Sí" exactly when the detector found a fine, and only then
   carries details, which are then the extractor's text for the same page.
   */
  lemma LoadedOutcome(plate: string, page: Page, screenshot: string)
    ensures var r := PlateOutcome(plate, Loaded(page, screenshot));
      && (r.fineStatus == FineYes <==> Detect(page).hasFine)
      && (r.fineStatus == FineNo <==> !Detect(page).hasFine)
      && (r.details != [] <==> Detect(page).hasFine)
      && r.details == (if Detect(page).hasFine then Extract(page) else "")
  {
    if Detect(page).hasFine {
      ExtractNonEmpty(page);
    }
  }

  /** The details text is never empty, whichever way the table lookup went. */
  lemma ExtractNonEmpty(page: Page)
    ensures Extract(page) != []
  {
    ExtractSpec(page);
    if page.table.Some? && DetailRows(page.table.value) != [] {
      assert Header(1)[0] == '=';
    }
  }

  /**
   A fine counted from the results table always gets a described first block: its details
   begin with the header of fine number 1.
   */
  lemma TableFineHasBlocks(plate: string, page: Page, screenshot: string)
    requires page.table.Some? && Detect(page).hasFine
    ensures Header(1) <= PlateOutcome(plate, Loaded(page, screenshot)).details
  {
    ExtractSpec(page);
    DetectedCountVersusBlocks(page);
  }

  /**
   The progress updates issued while plate number `idx` (from 0) is handled: "Procesando",
   then "Extrayendo detalles" when a fine was detected, then "Completada" with the count
   advanced; a failed submission goes straight from "Procesando" to "Error en".
   */
  function PlateUpdates(plate: string, idx: nat, total: nat, obs: Observation): (us: seq<Update>)
    ensures 2 <= |us| <= 3
    ensures forall k :: 0 <= k < |us| ==> us[k].plate == plate && us[k].total == total
    ensures forall k :: 0 <= k < |us| - 1 ==> us[k].processed == idx
    ensures us[|us| - 1].processed == idx + 1
    ensures us[0].message == "Procesando: " + plate
  {
    var first := Update("Procesando: " + plate, plate, total, idx);
    match obs
    case SubmitFailed(_) =>
      [first, Update("Error en " + plate, plate, total, idx + 1)]
    case Loaded(page, _) =>
      var fine := Detect(page).hasFine;
      var status := if fine then FineYes else FineNo;
      var last := Update("Completada: " + plate + " (" + status + " multas)", plate, total, idx + 1);
      if fine then [first, Update("Extrayendo detalles de " + plate + "...", plate, total, idx), last]
      else [first, last]
  }

  /** The "Extrayendo detalles" step is announced exactly for plates where a fine was detected. */
  lemma ExtractionAnnounced(plate: string, idx: nat, total: nat, obs: Observation)
    ensures |PlateUpdates(plate, idx, total, obs)| == 3 <==> obs.Loaded? && Detect(obs.page).hasFine
  {
  }

  /** Issues the updates one after another. */
  function ApplyAll(p: Progress, us: seq<Update>): Progress
    decreases |us|
  {
    if us == [] then p else ApplyAll(ApplyUpdate(p, us[0]), us[1..])
  }

  /** Each update overwrites everything the previous one wrote, so only the last one shows. */
  lemma {:induction false} ApplyAllLast(p: Progress, us: seq<Update>)
    requires us != []
    ensures ApplyAll(p, us) == ApplyUpdate(p, us[|us| - 1])
    decreases |us|
  {
    var q := ApplyUpdate(p, us[0]);
    if |us| == 1 {
      assert ApplyAll(p, us) == ApplyAll(q, []);
    } else {
      ApplyAllLast(q, us[1..]);
      ApplyUpdateOverwrites(p, us[0], us[|us| - 1]);
    }
  }

  /** A second update hides the first completely. */
  lemma ApplyUpdateOverwrites(p: Progress, u: Update, v: Update)
    ensures ApplyUpdate(ApplyUpdate(p, u), v) == ApplyUpdate(p, v)
  {
  }

  /** The record as the worker leaves it when an exception ends the job. */
  function Fail(p: Progress, error: string): (q: Progress)
    ensures q.state == Error && q.percentTenths == 0 && q.message == "Error: " + error
    ensures q.results == p.results && q.reportPath == p.reportPath
    ensures q.total == p.total && q.processed == p.processed && q.currentPlate == p.currentPlate
  {
    p.(state := Error, message := "Error: " + error, percentTenths := 0)
  }

  /** The report counts as written when the generator handed back a non-empty path to an existing file. */
  predicate ReportReady(report: Option<string>)
  {
    report.Some? && report.value != []
  }

  /** Every update of a trace carries the batch size as its total and a count within it. */
  ghost predicate Bounded(trace: seq<Update>, n: nat)
  {
    forall k :: 0 <= k < |trace| ==> trace[k].total == n && trace[k].processed <= n
  }

  /** The processed count never decreases along a trace. */
  ghost predicate Monotone(trace: seq<Update>)
  {
    forall k, l :: 0 <= k < l < |trace| ==> trace[k].processed <= trace[l].processed
  }

  /** Every update of a trace has its count between `lo` and `hi`. */
  ghost predicate CountsWithin(trace: seq<Update>, lo: nat, hi: nat)
  {
    forall k :: 0 <= k < |trace| ==> lo <= trace[k].processed <= hi
  }

  /**
   The updates of the first `m` plates of a batch of `n`: within the batch, never going
   backwards, counts between 0 and `m`, and ending at `m` once a plate was handled.
   */
  ghost predicate PrefixTrace(trace: seq<Update>, n: nat, m: nat)
  {
    Bounded(trace, n) && Monotone(trace) && CountsWithin(trace, 0, m)
    && (m > 0 ==> trace != [] && trace[|trace| - 1].processed == m)
  }

  /**
   The updates of plate `m` (from 0) of a batch of `n`: within the batch, never going
   backwards, counts between `m` and `m + 1`, and ending at `m + 1`.
   */
  ghost predicate PlateTrace(trace: seq<Update>, n: nat, m: nat)
  {
    Bounded(trace, n) && Monotone(trace) && CountsWithin(trace, m, m + 1)
    && trace != [] && trace[|trace| - 1].processed == m + 1
  }

  /** The updates of the first `m` plates followed by those of plate `m` are those of the first `m + 1`. */
  lemma TraceStep(a: seq<Update>, b: seq<Update>, t: seq<Update>, n: nat, m: nat)
    requires t == a + b && PrefixTrace(a, n, m) && PlateTrace(b, n, m)
    ensures PrefixTrace(t, n, m + 1)
  {
    assert forall k :: 0 <= k < |a| ==> t[k] == a[k];
    assert forall k :: |a| <= k < |t| ==> t[k] == b[k - |a|];
  }

  /** Appending a trace whose counts start where the first one's last count ended keeps both properties. */
  lemma TraceAppend(a: seq<Update>, b: seq<Update>, n: nat, m: nat)
    requires Bounded(a, n) && Monotone(a) && Bounded(b, n) && Monotone(b)
    requires a != [] && a[|a| - 1].processed <= m
    requires forall k :: 0 <= k < |b| ==> m <= b[k].processed
    ensures Bounded(a + b, n) && Monotone(a + b)
  {
    var t := a + b;
    forall k, l | 0 <= k < l < |t| ensures t[k].processed <= t[l].processed {
      if k < |a| && l >= |a| {
        assert t[k] == a[k] && t[l] == b[l - |a|];
        if k < |a| - 1 {
          assert a[k].processed <= a[|a| - 1].processed;
        }
      }
    }
  }

  /** The updates for plate `idx` of a batch of `total` stay within the batch and never go backwards. */
  lemma PlateUpdatesTrace(plate: string, idx: nat, total: nat, obs: Observation)
    requires idx < total
    ensures PlateTrace(PlateUpdates(plate, idx, total, obs), total, idx)
  {
  }

  /** The results of the first `n` plates, in order. */
  function Outcomes(plates: seq<string>, observe: (nat, string) -> Observation, n: nat): seq<PlateResult>
    requires n <= |plates|
  {
    if n == 0 then [] else Outcomes(plates, observe, n - 1) + [PlateOutcome(plates[n - 1], observe(n - 1, plates[n - 1]))]
  }

  /** The k-th collected result is the outcome of the k-th plate. */
  lemma {:induction false} OutcomeAt(plates: seq<string>, observe: (nat, string) -> Observation, n: nat, k: nat)
    requires k < n <= |plates|
    ensures |Outcomes(plates, observe, n)| == n
    ensures Outcomes(plates, observe, n)[k] == PlateOutcome(plates[k], observe(k, plates[k]))
  {
    if k < n - 1 {
      OutcomeAt(plates, observe, n - 1, k);
    } else if n > 1 {
      OutcomeAt(plates, observe, n - 1, 0);
    }
  }

  /** One result per plate, the k-th being the outcome of the k-th plate. */
  lemma OutcomesSpec(plates: seq<string>, observe: (nat, string) -> Observation, n: nat)
    requires n <= |plates|
    ensures |Outcomes(plates, observe, n)| == n
    ensures forall k :: 0 <= k < n ==> Outcomes(plates, observe, n)[k] == PlateOutcome(plates[k], observe(k, plates[k]))
  {
    if n > 0 {
      OutcomeAt(plates, observe, n, 0);
    }
    forall k | 0 <= k < n
      ensures Outcomes(plates, observe, n)[k] == PlateOutcome(plates[k], observe(k, plates[k]))
    {
      OutcomeAt(plates, observe, n, k);
    }
  }

  /** The runs of a sequence of runs, one after another: `f(0)`, then `f(1)`, up to `f(n - 1)`. */
  function Concat(f: nat -> seq<Update>, n: nat): seq<Update>
  {
    if n == 0 then [] else Concat(f, n - 1) + f(n - 1)
  }

  /** Runs that each look like one plate's updates at their position join into a trace of the first `n` plates. */
  lemma {:induction false} ConcatTrace(f: nat -> seq<Update>, total: nat, n: nat)
    requires forall i :: 0 <= i < n ==> PlateTrace(f(i), total, i)
    ensures PrefixTrace(Concat(f, n), total, n)
  {
    if n > 0 {
      ConcatTrace(f, total, n - 1);
      TraceStep(Concat(f, n - 1), f(n - 1), Concat(f, n), total, n - 1);
    }
  }

  /** The updates the worker issues for the plate at position `i`. */
  function PlateStep(plates: seq<string>, observe: (nat, string) -> Observation): nat -> seq<Update>
  {
    (i: nat) => if i < |plates| then PlateUpdates(plates[i], i, |plates|, observe(i, plates[i])) else []
  }

  /** The updates issued for the first `n` plates, plate by plate and in order. */
  function AllUpdates(plates: seq<string>, observe: (nat, string) -> Observation, n: nat): seq<Update>
    requires n <= |plates|
  {
    Concat(PlateStep(plates, observe), n)
  }

  /**
   The updates for the first `n` plates stay within the batch, never move the count
   backwards, keep it between 0 and `n`, and end with it at `n`.
   */
  lemma AllUpdatesTrace(plates: seq<string>, observe: (nat, string) -> Observation, n: nat)
    requires n <= |plates|
    ensures PrefixTrace(AllUpdates(plates, observe, n), |plates|, n)
  {
    var f := PlateStep(plates, observe);
    forall i | 0 <= i < n ensures PlateTrace(f(i), |plates|, i) {
      PlateUpdatesTrace(plates[i], i, |plates|, observe(i, plates[i]));
    }
    ConcatTrace(f, |plates|, n);
  }

  /**
   The loop over the plates with their positions: a failed plate is recorded as an error
   tuple and the loop goes on, so every plate gets exactly one result, in order. The
   updates it issues are each plate's updates in turn, appended to the trace so far, and
   the record shows the last of them.
   */
  method CheckPlates(running: Progress, p0: Progress, plates: seq<string>,
                     observe: (nat, string) -> Observation, trace0: seq<Update>)
    returns (p: Progress, results: seq<PlateResult>, trace: seq<Update>)
    requires trace0 != [] && trace0[|trace0| - 1].processed == 0
    requires p0 == ApplyUpdate(running, trace0[|trace0| - 1])
    ensures results == Outcomes(plates, observe, |plates|)
    ensures trace == trace0 + AllUpdates(plates, observe, |plates|)
    ensures trace[|trace| - 1].processed == |plates|
    ensures p == ApplyUpdate(running, trace[|trace| - 1])
  {
    var n := |plates|;
    p, trace, results := p0, trace0, [];
    var i := 0;
    while i < n
      invariant 0 <= i <= n
      invariant results == Outcomes(plates, observe, i)
      invariant trace == trace0 + AllUpdates(plates, observe, i)
      invariant trace[|trace| - 1].processed == i
      invariant p == ApplyUpdate(running, trace[|trace| - 1])
    {
      p, trace, results := HandlePlate(running, p, plates, observe, i, results, trace0, trace);
      i := i + 1;
    }
  }

  /** Issuing a run of updates on a record that showed an earlier one leaves the record showing the run's last. */
  lemma ShowsLast(running: Progress, last: Update, us: seq<Update>)
    requires us != []
    ensures ApplyAll(ApplyUpdate(running, last), us) == ApplyUpdate(running, us[|us| - 1])
  {
    ApplyAllLast(ApplyUpdate(running, last), us);
    ApplyUpdateOverwrites(running, last, us[|us| - 1]);
  }

  /** Appending plate `idx`'s result to the results of the plates before it. */
  lemma OutcomesStep(plates: seq<string>, observe: (nat, string) -> Observation, idx: nat)
    requires idx < |plates|
    ensures Outcomes(plates, observe, idx) + [PlateOutcome(plates[idx], observe(idx, plates[idx]))]
      == Outcomes(plates, observe, idx + 1)
  {
  }

  /** Appending plate `idx`'s updates to a trace that holds those of the plates before it. */
  lemma AllUpdatesStep(plates: seq<string>, observe: (nat, string) -> Observation, idx: nat, trace0: seq<Update>)
    requires idx < |plates|
    ensures trace0 + AllUpdates(plates, observe, idx) + PlateUpdates(plates[idx], idx, |plates|, observe(idx, plates[idx]))
      == trace0 + AllUpdates(plates, observe, idx + 1)
  {
  }

  /**
   One turn of the loop: the updates for plate `idx` are issued after those already in the
   trace, the record shows the last of them, the count reaches `idx + 1`, and the plate's
   result is appended.
   */
  method HandlePlate(running: Progress, p: Progress, plates: seq<string>, observe: (nat, string) -> Observation,
                     idx: nat, results: seq<PlateResult>, trace0: seq<Update>, trace: seq<Update>)
    returns (q: Progress, trace': seq<Update>, results': seq<PlateResult>)
    requires idx < |plates| && trace != []
    requires results == Outcomes(plates, observe, idx) && trace == trace0 + AllUpdates(plates, observe, idx)
    requires p == ApplyUpdate(running, trace[|trace| - 1])
    ensures trace' == trace + PlateUpdates(plates[idx], idx, |plates|, observe(idx, plates[idx]))
    ensures trace' == trace0 + AllUpdates(plates, observe, idx + 1)
    ensures trace'[|trace'| - 1].processed == idx + 1
    ensures q == ApplyUpdate(running, trace'[|trace'| - 1])
    ensures results' == Outcomes(plates, observe, idx + 1)
  {
    var n := |plates|;
    var plate := plates[idx];
    var obs := observe(idx, plate);
    var us := PlateUpdates(plate, idx, n, obs);
    q := ApplyAll(p, us);
    ShowsLast(running, trace[|trace| - 1], us);
    trace' := trace + us;
    assert trace'[|trace'| - 1] == us[|us| - 1];
    AllUpdatesStep(plates, observe, idx, trace0);
    results' := results + [PlateOutcome(plate, obs)];
    OutcomesStep(plates, observe, idx);
  }

  /**
   The job from the worker's start to its end. `start` is the record `/iniciar_proceso`
   installed, `observe` says what the browser shows for the plate at each position, and
   `report` is the spreadsheet generator's answer for the collected results.

   The run records exactly one result per plate, in order, whenever the session opened;
   every progress update keeps the count within the total and never moves it backwards;
   the job ends completed at 100% with the results and the report published exactly when
   the session opened and the report was written, and otherwise ends in error at 0% with
   nothing published. `shown` is the record the page polls after each update: the job is
   in `processing` throughout, so a second start is turned away (`BusyDuringRun`).
   */
  method RunBatch(start: Progress, plates: seq<string>, setup: Setup,
                  observe: (nat, string) -> Observation, report: seq<PlateResult> -> Option<string>)
    returns (final: Progress, results: seq<PlateResult>, trace: seq<Update>, shown: seq<Progress>)
    ensures |shown| == |trace| && trace != []
    ensures forall k :: 0 <= k < |shown| ==> shown[k] == ApplyUpdate(start.(state := Processing), trace[k])
    ensures forall k :: 0 <= k < |shown| ==> shown[k].state == Processing
    ensures setup.DriverFailed? ==> trace == [Update(StartingMessage, "", |plates|, 0)]
    ensures setup.NavigationFailed? ==>
      trace == [Update(StartingMessage, "", |plates|, 0), Update(NavigatingMessage, "", |plates|, 0)]
    ensures setup.Ready? ==>
      trace == [Update(StartingMessage, "", |plates|, 0), Update(NavigatingMessage, "", |plates|, 0)]
               + AllUpdates(plates, observe, |plates|) + [Update(GeneratingMessage, "", |plates|, |plates|)]
    ensures Bounded(trace, |plates|) && Monotone(trace)
    ensures setup.Ready? ==>
      && |results| == |plates|
      && (forall k :: 0 <= k < |plates| ==> results[k] == PlateOutcome(plates[k], observe(k, plates[k])))
    ensures !setup.Ready? ==> results == []
    ensures final.state == Completed || final.state == Error
    ensures final.state == Completed <==> setup.Ready? && ReportReady(report(results))
    ensures final.state == Completed ==>
      && final.percentTenths == 1000 && final.processed == |plates| && final.total == |plates|
      && final.results == results && final.reportPath == report(results).value
      && final.message == DoneMessage && final.currentPlate == ""
    ensures final.state == Error ==>
      && final.percentTenths == 0
      && final.total == |plates| && final.currentPlate == ""
      && final.processed == (if setup.Ready? then |plates| else 0)
      && final.results == start.results && final.reportPath == start.reportPath
      && final.message == "Error: " + (if setup.Ready? then ReportFailure else setup.error)
  {
    var n := |plates|;
    var running := start.(state := Processing);
    var u := Update(StartingMessage, "", n, 0);
    var p := ApplyUpdate(running, u);
    trace := [u];
    results := [];
    if setup.DriverFailed? {
      final := Fail(p, setup.error);
      shown := Shown(running, trace);
      return;
    }
    u := Update(NavigatingMessage, "", n, 0);
    p := ApplyUpdate(p, u);
    TraceAppend(trace, [u], n, 0);
    trace := trace + [u];
    if setup.NavigationFailed? {
      final := Fail(p, setup.error);
      shown := Shown(running, trace);
      return;
    }
    final, results, trace := CheckAndReport(running, p, plates, observe, report, trace);
    shown := Shown(running, trace);
  }

  /** The record after each update of a trace, issued on a record whose job state is `running.state`. */
  function Shown(running: Progress, trace: seq<Update>): (s: seq<Progress>)
    ensures |s| == |trace|
    ensures forall k :: 0 <= k < |trace| ==> s[k] == ApplyUpdate(running, trace[k]) && s[k].state == running.state
  {
    seq(|trace|, k requires 0 <= k < |trace| => ApplyUpdate(running, trace[k]))
  }

  /**
   While the worker runs, every record the page can poll is in `processing`, so a start
   request with at least one plate is turned away with "Ya hay un proceso en ejecución"
   and leaves that record as it was.
   */
  lemma BusyDuringRun(start: Progress, trace: seq<Update>, k: nat, text: string)
    requires k < |trace| && !Text.AllSpace(text)
    ensures StartJob(Shown(start.(state := Processing), trace)[k], text)
      == Start(Rejected(BusyError), Shown(start.(state := Processing), trace)[k])
  {
  }

  /**
   The part of the job after the session opened: every plate is checked, "Generando Excel..."
   is announced at 100%, and the job ends completed when the report was written and in error
   otherwise.
   */
  method CheckAndReport(running: Progress, p0: Progress, plates: seq<string>,
                        observe: (nat, string) -> Observation, report: seq<PlateResult> -> Option<string>,
                        trace0: seq<Update>)
    returns (final: Progress, results: seq<PlateResult>, trace: seq<Update>)
    requires trace0 == [Update(StartingMessage, "", |plates|, 0), Update(NavigatingMessage, "", |plates|, 0)]
    requires p0 == ApplyUpdate(running, trace0[1])
    ensures |results| == |plates|
    ensures forall k :: 0 <= k < |plates| ==> results[k] == PlateOutcome(plates[k], observe(k, plates[k]))
    ensures trace == trace0 + AllUpdates(plates, observe, |plates|) + [Update(GeneratingMessage, "", |plates|, |plates|)]
    ensures Bounded(trace, |plates|) && Monotone(trace)
    ensures final.state == Completed <==> ReportReady(report(results))
    ensures final.state == Completed ==>
      && final.percentTenths == 1000 && final.processed == |plates| && final.total == |plates|
      && final.results == results && final.reportPath == report(results).value
      && final.message == DoneMessage && final.currentPlate == ""
    ensures final.state != Completed ==>
      && final.state == Error && final.percentTenths == 0
      && final.total == |plates| && final.currentPlate == "" && final.processed == |plates|
      && final.results == running.results && final.reportPath == running.reportPath
      && final.message == "Error: " + ReportFailure
  {
    var n := |plates|;
    var p;
    p, results, trace := CheckPlates(running, p0, plates, observe, trace0);
    OutcomesSpec(plates, observe, n);
    AllUpdatesTrace(plates, observe, n);
    TraceAppend(trace0, AllUpdates(plates, observe, n), n, 0);
    var u := Update(GeneratingMessage, "", n, n);
    p := ApplyUpdate(p, u);
    TraceAppend(trace, [u], n, n);
    trace := trace + [u];
    var path := report(results);
    if ReportReady(path) {
      final := p.(state := Completed, results := results, reportPath := path.value,
                  percentTenths := 1000, processed := n, total := n, message := DoneMessage);
    } else {
      final := Fail(p, ReportFailure);
    }
  }

  /** Along a trace that stays within its batch, the displayed percentage never goes down. */
  lemma PercentNeverDecreases(p: Progress, trace: seq<Update>, n: nat)
    requires Bounded(trace, n) && Monotone(trace)
    ensures forall k, l :: 0 <= k < l < |trace| ==>
      ApplyUpdate(p, trace[k]).percentTenths <= ApplyUpdate(p, trace[l]).percentTenths
  {
    forall k, l | 0 <= k < l < |trace|
      ensures ApplyUpdate(p, trace[k]).percentTenths <= ApplyUpdate(p, trace[l]).percentTenths
    {
      PercentMonotone(trace[k].processed, trace[l].processed, n);
    }
  }
}
