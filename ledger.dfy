/**
 * The filament ledger: `filaments.pesoUsado` as the print queue writes it. Raising a job's
 * processed count consumes weight with no cap; lowering it refunds weight clamped at 0
 * (SQLite's `MAX(0, pesoUsado - ?)`).
 */
module FilamentLedger {
  import opened Wrappers
  import opened Schema

  function Max0(x: real): real { if x < 0.0 then 0.0 else x }

  /** The weight `units` copies of a line of `weight` grams take. */
  function Charge(weight: real, units: int): real { weight * units as real }

  /** `UPDATE filaments SET pesoUsado = pesoUsado + amount WHERE id = filamentoId`. */
  function Consume(f: map<int, Filament>, filamentoId: int, amount: real): (r: map<int, Filament>)
    ensures r.Keys == f.Keys
  {
    if filamentoId in f then f[filamentoId := f[filamentoId].(pesoUsado := f[filamentoId].pesoUsado + amount)] else f
  }

  /** `UPDATE filaments SET pesoUsado = MAX(0, pesoUsado - amount) WHERE id = filamentoId`. */
  function Refund(f: map<int, Filament>, filamentoId: int, amount: real): (r: map<int, Filament>)
    ensures r.Keys == f.Keys
  {
    if filamentoId in f then f[filamentoId := f[filamentoId].(pesoUsado := Max0(f[filamentoId].pesoUsado - amount))] else f
  }

  /** The material lines of one job, in insertion order (`SELECT * ... WHERE printJobId = ?`). */
  function LinesOf(materials: seq<Material>, jobId: int): (r: seq<Material>)
    ensures forall i :: 0 <= i < |r| ==> r[i].printJobId == jobId
    ensures forall m :: m in materials && m.printJobId == jobId ==> m in r
    ensures forall m :: m in r ==> m in materials
  {
    if materials == [] then []
    else
      var rest := LinesOf(materials[..|materials| - 1], jobId);
      var last := materials[|materials| - 1];
      assert materials == materials[..|materials| - 1] + [last];
      if last.printJobId == jobId then rest + [last] else rest
  }

  /**
   * The lines a processed-count change is charged to: the job's material lines when it has
   * any, otherwise its legacy single filament weighed by the product's `peso` (when the job
   * has a non-zero `filamentoId` and its product still exists), otherwise nothing.
   */
  function ChargedLines(jobId: int, job: Job, lines: seq<Material>, products: map<int, Product>): (r: seq<Material>)
    ensures |lines| > 0 ==> r == lines
    ensures |lines| == 0 ==> |r| <= 1
    ensures |lines| == 0 && |r| == 1 ==>
      && job.filamentoId == Some(r[0].filamentoId) && r[0].filamentoId != 0
      && job.produtoId in products && r[0].pesoGasto == products[job.produtoId].peso
  {
    if |lines| > 0 then lines
    else if job.filamentoId.Some? && job.filamentoId.value != 0 && job.produtoId in products then
      [Material(jobId, job.filamentoId.value, products[job.produtoId].peso)]
    else []
  }

  /** Each line consumes `pesoGasto * units` of its filament, lines applied in order. */
  function ConsumeLines(f: map<int, Filament>, lines: seq<Material>, units: int): (r: map<int, Filament>)
    ensures r.Keys == f.Keys
  {
    if lines == [] then f
    else
      var last := lines[|lines| - 1];
      Consume(ConsumeLines(f, lines[..|lines| - 1], units), last.filamentoId, Charge(last.pesoGasto, units))
  }

  /** Each line refunds `pesoGasto * units` of its filament, clamped at 0, lines applied in order. */
  function RefundLines(f: map<int, Filament>, lines: seq<Material>, units: int): (r: map<int, Filament>)
    ensures r.Keys == f.Keys
  {
    if lines == [] then f
    else
      var last := lines[|lines| - 1];
      Refund(RefundLines(f, lines[..|lines| - 1], units), last.filamentoId, Charge(last.pesoGasto, units))
  }

  /** What a change of `delta` in a job's processed count does to the filaments table. */
  function LedgerAfter(f: map<int, Filament>, charged: seq<Material>, delta: int): map<int, Filament> {
    if delta > 0 then ConsumeLines(f, charged, delta)
    else if delta < 0 then RefundLines(f, charged, -delta)
    else f
  }

  /** The weight the lines charge to filament `k`: the sum of `pesoGasto * units` over its lines. */
  function Total(lines: seq<Material>, k: int, units: int): real {
    if lines == [] then 0.0
    else
      var last := lines[|lines| - 1];
      Total(lines[..|lines| - 1], k, units) + (if last.filamentoId == k then Charge(last.pesoGasto, units) else 0.0)
  }

  /** Whether some line names filament `k`, so that a statement is run against its row. */
  function Mentions(lines: seq<Material>, k: int): (b: bool)
    ensures b <==> exists i :: 0 <= i < |lines| && lines[i].filamentoId == k
  {
    if lines == [] then false
    else
      var prefix := lines[..|lines| - 1];
      assert forall i :: 0 <= i < |prefix| ==> prefix[i] == lines[i];
      lines[|lines| - 1].filamentoId == k || Mentions(prefix, k)
  }

  predicate NonNegativeWeights(lines: seq<Material>) {
    forall i :: 0 <= i < |lines| ==> lines[i].pesoGasto >= 0.0
  }

  predicate NonNegativeStock(f: map<int, Filament>) {
    forall k :: k in f ==> f[k].pesoUsado >= 0.0
  }

  lemma ChargeNonNegative(weight: real, units: int)
    requires weight >= 0.0 && units >= 0
    ensures Charge(weight, units) >= 0.0
  {
  }

  lemma {:induction false} TotalNonNegative(lines: seq<Material>, k: int, units: int)
    requires NonNegativeWeights(lines) && units >= 0
    ensures Total(lines, k, units) >= 0.0
  {
    if lines != [] {
      TotalNonNegative(lines[..|lines| - 1], k, units);
      ChargeNonNegative(lines[|lines| - 1].pesoGasto, units);
    }
  }

  /**
   * Consumption in closed form: every filament's `pesoUsado` grows by exactly the weight its
   * lines charge, with no cap, and nothing else about any filament changes.
   */
  lemma {:induction false} ConsumeLinesExact(f: map<int, Filament>, lines: seq<Material>, units: int)
    ensures forall k :: k in f ==>
      ConsumeLines(f, lines, units)[k] == f[k].(pesoUsado := f[k].pesoUsado + Total(lines, k, units))
  {
    if lines != [] {
      ConsumeLinesExact(f, lines[..|lines| - 1], units);
    }
  }

  /**
   * Refunds in closed form, for non-negative weights: every filament some line names has its
   * `pesoUsado` lowered by the weight its lines charge, clamped at 0; every other filament,
   * and every other column, is left as it was.
   */
  lemma {:induction false} RefundLinesExact(f: map<int, Filament>, lines: seq<Material>, units: int)
    requires NonNegativeWeights(lines) && units >= 0
    ensures forall k :: k in f ==>
      RefundLines(f, lines, units)[k] ==
        if Mentions(lines, k) then f[k].(pesoUsado := Max0(f[k].pesoUsado - Total(lines, k, units))) else f[k]
  {
    if lines != [] {
      var prefix := lines[..|lines| - 1];
      var last := lines[|lines| - 1];
      assert NonNegativeWeights(prefix) by {
        assert forall i :: 0 <= i < |prefix| ==> prefix[i] == lines[i];
      }
      var a := Charge(last.pesoGasto, units);
      RefundLinesExact(f, prefix, units);
      ChargeNonNegative(last.pesoGasto, units);
      var g := RefundLines(f, prefix, units);
      assert RefundLines(f, lines, units) == Refund(g, last.filamentoId, a);
      forall k | k in f
        ensures RefundLines(f, lines, units)[k] ==
          if Mentions(lines, k) then f[k].(pesoUsado := Max0(f[k].pesoUsado - Total(lines, k, units))) else f[k]
      {
        assert Mentions(lines, k) == (last.filamentoId == k || Mentions(prefix, k));
        assert Total(lines, k, units) == Total(prefix, k, units) + (if last.filamentoId == k then a else 0.0);
        if last.filamentoId == k && !Mentions(prefix, k) {
          TotalOfUncharged(prefix, k, units);
        }
      }
    }
  }

  /** A filament no line names is left as it was. */
  lemma UnchargedFilamentUnchanged(f: map<int, Filament>, charged: seq<Material>, delta: int, k: int)
    requires NonNegativeWeights(charged)
    requires k in f && !Mentions(charged, k)
    ensures LedgerAfter(f, charged, delta)[k] == f[k]
  {
    TotalOfUncharged(charged, k, if delta < 0 then -delta else delta);
    if delta > 0 {
      ConsumeLinesExact(f, charged, delta);
    } else if delta < 0 {
      RefundLinesExact(f, charged, -delta);
    }
  }

  lemma {:induction false} TotalOfUncharged(lines: seq<Material>, k: int, units: int)
    requires !Mentions(lines, k)
    ensures Total(lines, k, units) == 0.0
  {
    if lines != [] {
      TotalOfUncharged(lines[..|lines| - 1], k, units);
    }
  }

  /** Refunds never drive `pesoUsado` below 0. */
  lemma RefundKeepsStockNonNegative(f: map<int, Filament>, lines: seq<Material>, units: int)
    requires NonNegativeWeights(lines) && units >= 0 && NonNegativeStock(f)
    ensures NonNegativeStock(RefundLines(f, lines, units))
  {
    RefundLinesExact(f, lines, units);
    forall k | k in f ensures RefundLines(f, lines, units)[k].pesoUsado >= 0.0 {
    }
  }

  /**
   * Raising the processed count by `delta` and then lowering it by the same amount restores
   * every filament, as long as no stock was negative and no weight is negative.
   */
  lemma LedgerRoundTrip(f: map<int, Filament>, charged: seq<Material>, delta: int)
    requires NonNegativeWeights(charged) && NonNegativeStock(f) && delta >= 0
    ensures LedgerAfter(LedgerAfter(f, charged, delta), charged, -delta) == f
  {
    if delta > 0 {
      var g := ConsumeLines(f, charged, delta);
      ConsumeLinesExact(f, charged, delta);
      RefundLinesExact(g, charged, delta);
      var h := RefundLines(g, charged, delta);
      forall k | k in f
        ensures h[k] == f[k]
      {
        if !Mentions(charged, k) {
          TotalOfUncharged(charged, k, delta);
        }
      }
    }
  }
}
