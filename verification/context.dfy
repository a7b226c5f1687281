/** The scan context (`Ctx` in src/lib.rs) and `calculate_point`, the one
    place where a point is evaluated and the observed value range widened. */
module Context {
  import opened PlotPoints

  /** The integer and range fields of `Ctx`. The floating-point viewport
      geometry (centre, spans, bounds) is folded into the evaluator.
      `brightness` and `needsRecalc` are read by src/bin/worker.rs but are not
      declared in the `Ctx` of src/lib.rs; they are plain fields here. */
  datatype Ctx = Ctx(
    winHeight: nat,
    winWidth: nat,
    maxIters: nat,
    minValue: real,
    maxValue: real,
    chunkSize: nat,
    rowsProcessed: nat,
    totalRowsProcessed: nat,
    offset: nat,
    brightness: real,
    needsRecalc: bool)

  /** `ctx'` differs from `ctx` at most in the observed range, which only
      ever widens. */
  predicate RangeWidens(ctx: Ctx, ctx': Ctx)
  {
    && ctx' == ctx.(minValue := ctx'.minValue, maxValue := ctx'.maxValue)
    && ctx'.minValue <= ctx.minValue
    && ctx.maxValue <= ctx'.maxValue
  }

  /** A metric lies within the observed range of `ctx`; NaN has no place in
      any range and is never required to. */
  predicate InRange(ctx: Ctx, m: Metric)
  {
    m.Num? ==> ctx.minValue <= m.v <= ctx.maxValue
  }

  datatype Calc = Calc(ctx: Ctx, point: PlotPoint, wasProcessed: bool)

  /** `calculate_point`: a processed point is left alone and reported with
      `true`; otherwise it is evaluated at pixel (`x`, `row`), the observed
      range is widened to cover its metric (the comparisons are false for
      NaN, so stable points leave it untouched) and `false` is reported. */
  function CalculatePoint(ctx: Ctx, p: PlotPoint, ev: Evaluator, x: nat, row: nat): (r: Calc)
    ensures r.wasProcessed <==> p.Processed()
    ensures p.Processed() ==> r.point == p && r.ctx == ctx
    ensures !p.Processed() ==> r.point == Evaluate(p, ev.escape(x, row), ctx.maxIters, ev.smooth)
    ensures RangeWidens(ctx, r.ctx)
    ensures !p.Processed() ==> InRange(r.ctx, r.point.calcVal.value)
    ensures r.point.calcVal.value.NaN? ==> r.ctx == ctx
    ensures r.point.calcVal.value.Num? ==>
              && (r.ctx.minValue == ctx.minValue || r.ctx.minValue == r.point.calcVal.value.v)
              && (r.ctx.maxValue == ctx.maxValue || r.ctx.maxValue == r.point.calcVal.value.v)
  {
    if p.Processed() then
      Calc(ctx, p, true)
    else
      var q := Evaluate(p, ev.escape(x, row), ctx.maxIters, ev.smooth);
      var v := q.CalculatedValue();
      var ctx1 := if v.Num? && v.v < ctx.minValue then ctx.(minValue := v.v) else ctx;
      var ctx2 := if v.Num? && v.v > ctx1.maxValue then ctx1.(maxValue := v.v) else ctx1;
      Calc(ctx2, q, false)
  }

  lemma RangeWidensTransitive(a: Ctx, b: Ctx, c: Ctx)
    requires RangeWidens(a, b) && RangeWidens(b, c)
    ensures RangeWidens(a, c)
  {
  }
}
