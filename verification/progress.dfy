/**
 The process-wide job record polled by the UI (`progreso_actual`), the percentage
 rule of `actualizar_progreso` and the start-request guard of `/iniciar_proceso`.
 */
module Progress {
  import opened Text
  import opened Plates

  datatype JobState = Idle | Processing | Completed | Error

  /** One row of `resultados`: (plate, fine status, outcome, screenshot, details). */
  datatype PlateResult = PlateResult(plate: string, fineStatus: string, outcome: string, screenshot: string, details: string)

  /** The fine-status and outcome words, and the screenshot sentinel, the runner writes. */
  const FineYes: string := "Sí"
  const FineNo: string := "No"
  const ErrorWord: string := "Error"
  const SuccessWord: string := "Éxito"
  const NoCapture: string := "Sin captura"

  /** The job record. The percentage is kept in tenths of a percent (1000 = 100.0%). */
  datatype Progress = Progress(
    state: JobState,
    message: string,
    currentPlate: string,
    total: nat,
    processed: nat,
    percentTenths: nat,
    results: seq<PlateResult>,
    reportPath: string)

  lemma MulGe(a: int, b: int, t: int)
    requires t > 0 && a >= b
    ensures a * t >= b * t
  {
    assert a * t - b * t == (a - b) * t;
  }

  /** `a * t < b * t` with `t` positive gives `a < b`. */
  lemma MulLess(a: int, b: int, t: int)
    requires t > 0 && a * t < b * t
    ensures a < b
  {
    if a >= b {
      MulGe(a, b, t);
    }
  }

  /** Python's `round` on the exact quotient `n / d` (RoundHalfEvenSpec says how it rounds). */
  function RoundHalfEven(n: nat, d: nat): nat
    requires d > 0
  {
    var q := n / d;
    var rem := n % d;
    var up := 2 * rem > d || (2 * rem == d && q % 2 == 1);
    if up then q + 1 else q
  }

  /** To the nearest integer (twice the error is at most `d`), ties to the even neighbour. */
  lemma RoundHalfEvenSpec(n: nat, d: nat)
    requires d > 0
    ensures var r := RoundHalfEven(n, d);
      && 2 * (r * d) <= 2 * n + d && 2 * n <= 2 * (r * d) + d
      && (2 * (r * d) == 2 * n + d || 2 * n == 2 * (r * d) + d ==> r % 2 == 0)
  {
    var q := n / d;
    var rem := n % d;
    RoundCases(n, d, q, rem, 2 * rem > d || (2 * rem == d && q % 2 == 1));
  }

  lemma RoundCases(n: nat, d: nat, q: nat, rem: nat, up: bool)
    requires d > 0 && q == n / d && rem == n % d
    requires up <==> 2 * rem > d || (2 * rem == d && q % 2 == 1)
    ensures var r := if up then q + 1 else q;
      && 2 * (r * d) <= 2 * n + d && 2 * n <= 2 * (r * d) + d
      && (2 * (r * d) == 2 * n + d || 2 * n == 2 * (r * d) + d ==> r % 2 == 0)
  {
    var x := q * d;
    assert n == x + rem && rem < d;
    if up {
      assert (q + 1) * d == x + d;
    }
  }

  /** Rounding to the nearest integer never reverses the order of its arguments. */
  lemma RoundMonotone(n1: nat, n2: nat, d: nat)
    requires d > 0 && n1 <= n2
    ensures RoundHalfEven(n1, d) <= RoundHalfEven(n2, d)
  {
    var q1, q2 := n1 / d, n2 / d;
    var rem1, rem2 := n1 % d, n2 % d;
    assert n1 == q1 * d + rem1 && n2 == q2 * d + rem2;
    if q1 > q2 {
      MulGe(q1, q2 + 1, d);
      assert false;
    }
    if q1 == q2 {
      assert rem1 <= rem2;
    }
  }

  /** A quotient of at least (at most) 1000 rounds to at least (at most) 1000. */
  lemma RoundAgainstFull(processed: nat, total: nat)
    requires total > 0
    ensures processed >= total ==> RoundHalfEven(processed * 1000, total) >= 1000
    ensures processed <= total ==> RoundHalfEven(processed * 1000, total) <= 1000
  {
    var n := processed * 1000;
    var r := RoundHalfEven(n, total);
    RoundHalfEvenSpec(n, total);
    if processed >= total {
      MulGe(processed, total, 1000);
      assert (r + 1) * total == r * total + total;
      assert 2 * (1000 * total) < 2 * ((r + 1) * total);
      MulLess(1000, r + 1, total);
    }
    if processed <= total {
      MulGe(total, processed, 1000);
      assert 2 * (r * total) < 2 * (1001 * total);
      MulLess(r, 1001, total);
    }
  }

  /**
   The percentage `actualizar_progreso` stores, in tenths: the processed share of the total,
   rounded to one decimal place and capped at 100, and 0 when the total is 0.
   */
  function PercentTenths(processed: nat, total: nat): (r: nat)
    ensures r <= 1000
    ensures total == 0 ==> r == 0
    ensures total > 0 && processed >= total ==> r == 1000
  {
    if total == 0 then 0
    else
      RoundAgainstFull(processed, total);
      var r := RoundHalfEven(processed * 1000, total);
      if r <= 1000 then r else 1000
  }

  /**
   Within the batch the percentage is the exact ratio rounded to the nearest tenth: twice
   its distance from `processed * 1000 / total` is at most one tenth.
   */
  lemma PercentClose(processed: nat, total: nat)
    requires 0 < total && processed <= total
    ensures var r := PercentTenths(processed, total);
      2 * (r * total) <= 2 * (processed * 1000) + total && 2 * (processed * 1000) <= 2 * (r * total) + total
  {
    RoundAgainstFull(processed, total);
    RoundHalfEvenSpec(processed * 1000, total);
  }

  /** The progress bar never moves backwards while the total stays fixed. */
  lemma PercentMonotone(p1: nat, p2: nat, total: nat)
    requires p1 <= p2
    ensures PercentTenths(p1, total) <= PercentTenths(p2, total)
  {
    if total > 0 {
      RoundMonotone(p1 * 1000, p2 * 1000, total);
    }
  }

  /** The arguments of one `actualizar_progreso` call. */
  datatype Update = Update(message: string, plate: string, total: nat, processed: nat)

  /**
   `actualizar_progreso`: overwrites the message, current plate, counters and percentage,
   and leaves the job state, the published results and the report path alone.
   */
  function ApplyUpdate(p: Progress, u: Update): (q: Progress)
    ensures q.state == p.state && q.results == p.results && q.reportPath == p.reportPath
    ensures q.message == u.message && q.currentPlate == u.plate
    ensures q.total == u.total && q.processed == u.processed
    ensures q.percentTenths <= 1000
    ensures u.total == 0 ==> q.percentTenths == 0
    ensures 0 < u.total <= u.processed ==> q.percentTenths == 1000
  {
    p.(message := u.message, currentPlate := u.plate, total := u.total, processed := u.processed,
       percentTenths := PercentTenths(u.processed, u.total))
  }

  /** A snapshot whose counters are in range and whose percentage follows from them. */
  ghost predicate Consistent(p: Progress)
  {
    p.processed <= p.total && p.percentTenths == PercentTenths(p.processed, p.total)
  }

  /** An update whose counters are in range leaves a consistent snapshot. */
  lemma ApplyUpdateConsistent(p: Progress, u: Update)
    requires u.processed <= u.total
    ensures Consistent(ApplyUpdate(p, u))
  {
  }

  datatype StartReply = Rejected(error: string) | Accepted(plates: seq<string>)

  datatype Start = Start(reply: StartReply, progress: Progress)

  const NoPlatesError: string := "No se ingresaron placas válidas"
  const BusyError: string := "Ya hay un proceso en ejecución"

  /** The record `/iniciar_proceso` installs before launching the worker. */
  function Reset(count: nat): Progress
  {
    Progress(Idle, "Iniciando...", "", count, 0, 0, [], "")
  }

  /**
   `/iniciar_proceso` (app.py:471-489): rejects blank input first, then a request made while a job
   is processing, leaving the record untouched; otherwise resets the record for the parsed plates.
   */
  function StartJob(p: Progress, text: string): (s: Start)
    ensures s.reply.Rejected? <==> AllSpace(text) || p.state == Processing
    ensures AllSpace(text) ==> s.reply == Rejected(NoPlatesError)
    ensures !AllSpace(text) && p.state == Processing ==> s.reply == Rejected(BusyError)
    ensures s.reply.Rejected? ==> s.progress == p
    ensures s.reply.Accepted? ==> s.reply.plates == ParsePlates(text)
    ensures s.reply.Accepted? ==>
      && |s.reply.plates| >= 1
      && (forall k :: 0 <= k < |s.reply.plates| ==> IsPlate(s.reply.plates[k]))
      && s.progress.state == Idle
      && s.progress.message == "Iniciando..." && s.progress.currentPlate == ""
      && s.progress.total == |s.reply.plates|
      && s.progress.processed == 0 && s.progress.percentTenths == 0
      && s.progress.results == [] && s.progress.reportPath == ""
  {
    var plates := ParsePlates(text);
    if plates == [] then Start(Rejected(NoPlatesError), p)
    else if p.state == Processing then Start(Rejected(BusyError), p)
    else Start(Accepted(plates), Reset(|plates|))
  }
}
