/** The plot grid (`&mut [Vec<PlotPoint>]`), the scan state threaded through
    every operation, and the ways a scan is allowed to change them. */
module Grid {
  import opened PlotPoints
  import opened Context

  function Min(a: int, b: int): int
  {
    if a < b then a else b
  }

  function Max(a: int, b: int): int
  {
    if a < b then b else a
  }

  /** Rows of points, row-major; row 0 is the top of the slice. */
  type Plot = seq<seq<PlotPoint>>

  /** `i16::MAX`: the tracer casts columns, rows and the grid size to `i16`. */
  const I16Max: nat := 32767

  /** The context and the grid slice a scan works on, owned together. */
  datatype State = State(ctx: Ctx, plot: Plot)

  predicate Shaped(g: Plot, w: nat)
  {
    forall y :: 0 <= y < |g| ==> |g[y]| == w
  }

  /** Every row is as wide as the window, and the `i16` casts of the tracer
      do not wrap. */
  predicate Valid(s: State)
  {
    && Shaped(s.plot, s.ctx.winWidth)
    && s.ctx.winWidth <= I16Max
    && |s.plot| <= I16Max
  }

  predicate SameShape(g: Plot, g': Plot)
  {
    && |g'| == |g|
    && forall y :: 0 <= y < |g| ==> |g'[y]| == |g[y]|
  }

  /** The only changes a scan makes to one point at column `x`, global row
      `row`: none, or a first evaluation, or a fast fill. */
  predicate CellAdvances(p: PlotPoint, q: PlotPoint, ev: Evaluator, x: nat, row: nat, maxIters: nat)
  {
    || q == p
    || (&& !p.Processed()
        && (|| q == Evaluate(p, ev.escape(x, row), maxIters, ev.smooth)
            || q == FastFilled(p, maxIters, ev.smooth)))
  }

  /** `g'` arises from `g` by first evaluations and fast fills only; row `y`
      of the slice is global row `y + offset`. */
  predicate Advances(g: Plot, g': Plot, ev: Evaluator, offset: nat, maxIters: nat)
  {
    && SameShape(g, g')
    && forall y, x :: 0 <= y < |g| && 0 <= x < |g[y]| ==>
         CellAdvances(g[y][x], g'[y][x], ev, x, y + offset, maxIters)
  }

  /** Every point first processed between `g` and `g'` has its metric inside
      the observed range of `ctx`. */
  predicate NewInRange(g: Plot, g': Plot, ctx: Ctx)
    requires SameShape(g, g')
  {
    forall y, x :: 0 <= y < |g| && 0 <= x < |g[y]| && !g[y][x].Processed() && g'[y][x].Processed() ==>
      InRange(ctx, g'[y][x].calcVal.value)
  }

  /** `bound` is the metric of some point first processed between `g` and
      `g'`. */
  predicate Attained(g: Plot, g': Plot, bound: real)
    requires SameShape(g, g')
  {
    exists y, x :: 0 <= y < |g| && 0 <= x < |g[y]| && !g[y][x].Processed() && g'[y][x].Processed()
                   && g'[y][x].calcVal.value == Num(bound)
  }

  /** Each bound of the observed range is either the old one or a value
      first computed between `g` and `g'`. */
  predicate BoundsAttained(g: Plot, g': Plot, ctx: Ctx, ctx': Ctx)
    requires SameShape(g, g')
  {
    && (ctx'.minValue == ctx.minValue || Attained(g, g', ctx'.minValue))
    && (ctx'.maxValue == ctx.maxValue || Attained(g, g', ctx'.maxValue))
  }

  /** The contract every scan operation keeps: the grid only advances, the
      context only widens its observed range, that range covers every value
      first computed along the way, and it widens no further than those
      values. */
  predicate Progress(s: State, s': State, ev: Evaluator)
  {
    && Valid(s')
    && RangeWidens(s.ctx, s'.ctx)
    && Advances(s.plot, s'.plot, ev, s.ctx.offset, s.ctx.maxIters)
    && NewInRange(s.plot, s'.plot, s'.ctx)
    && BoundsAttained(s.plot, s'.plot, s.ctx, s'.ctx)
  }

  /** A processed point is never changed again. */
  lemma AdvancesKeepsProcessed(g: Plot, g': Plot, ev: Evaluator, offset: nat, maxIters: nat, x: nat, y: nat)
    requires Advances(g, g', ev, offset, maxIters)
    requires y < |g| && x < |g[y]|
    ensures g[y][x].Processed() ==> g'[y][x] == g[y][x]
  {
    assert CellAdvances(g[y][x], g'[y][x], ev, x, y + offset, maxIters);
  }

  lemma ProgressReflexive(s: State, ev: Evaluator)
    requires Valid(s)
    ensures Progress(s, s, ev)
  {
  }

  lemma {:induction false} ProgressTransitive(s1: State, s2: State, s3: State, ev: Evaluator)
    requires Progress(s1, s2, ev)
    requires Progress(s2, s3, ev)
    requires s2.ctx.offset == s1.ctx.offset
    ensures Progress(s1, s3, ev)
  {
    var g1, g2, g3 := s1.plot, s2.plot, s3.plot;
    forall y, x | 0 <= y < |g1| && 0 <= x < |g1[y]|
      ensures CellAdvances(g1[y][x], g3[y][x], ev, x, y + s1.ctx.offset, s1.ctx.maxIters)
      ensures !g1[y][x].Processed() && g3[y][x].Processed() ==> InRange(s3.ctx, g3[y][x].calcVal.value)
    {
      assert CellAdvances(g1[y][x], g2[y][x], ev, x, y + s1.ctx.offset, s1.ctx.maxIters);
      assert CellAdvances(g2[y][x], g3[y][x], ev, x, y + s1.ctx.offset, s1.ctx.maxIters);
    }
    AttainedComposes(g1, g2, g3, ev, s1.ctx.offset, s1.ctx.maxIters, s3.ctx.minValue);
    AttainedComposes(g1, g2, g3, ev, s1.ctx.offset, s1.ctx.maxIters, s3.ctx.maxValue);
  }

  /** A value first computed in either of two successive advances was first
      computed across both. */
  lemma AttainedComposes(g1: Plot, g2: Plot, g3: Plot, ev: Evaluator, offset: nat, maxIters: nat, bound: real)
    requires Advances(g1, g2, ev, offset, maxIters) && Advances(g2, g3, ev, offset, maxIters)
    ensures SameShape(g1, g3)
    ensures Attained(g1, g2, bound) || Attained(g2, g3, bound) ==> Attained(g1, g3, bound)
  {
    if Attained(g1, g2, bound) {
      var y, x :| 0 <= y < |g1| && 0 <= x < |g1[y]| && !g1[y][x].Processed() && g2[y][x].Processed()
                  && g2[y][x].calcVal.value == Num(bound);
      AdvancesKeepsProcessed(g2, g3, ev, offset, maxIters, x, y);
    } else if Attained(g2, g3, bound) {
      var y, x :| 0 <= y < |g2| && 0 <= x < |g2[y]| && !g2[y][x].Processed() && g3[y][x].Processed()
                  && g3[y][x].calcVal.value == Num(bound);
      AdvancesKeepsProcessed(g1, g2, ev, offset, maxIters, x, y);
    }
  }

  /** Every processed point of `g` has its metric inside the observed range
      of `ctx`; a grid with nothing processed satisfies it for any range. */
  predicate AllInRange(g: Plot, ctx: Ctx)
  {
    forall y, x :: 0 <= y < |g| && 0 <= x < |g[y]| && g[y][x].Processed() ==> InRange(ctx, g[y][x].calcVal.value)
  }

  /** A step that keeps every processed point, widens the range and covers
      the values it computes keeps every processed point in range. */
  lemma InRangeCarries(g: Plot, g': Plot, ctx: Ctx, ctx': Ctx)
    requires SameShape(g, g') && AllInRange(g, ctx) && NewInRange(g, g', ctx')
    requires ctx'.minValue <= ctx.minValue && ctx.maxValue <= ctx'.maxValue
    requires forall y, x :: 0 <= y < |g| && 0 <= x < |g[y]| && g[y][x].Processed() ==> g'[y][x] == g[y][x]
    ensures AllInRange(g', ctx')
  {
    forall y, x | 0 <= y < |g'| && 0 <= x < |g'[y]| && g'[y][x].Processed()
      ensures InRange(ctx', g'[y][x].calcVal.value)
    {
      if g[y][x].Processed() {
        assert InRange(ctx, g[y][x].calcVal.value);
      }
    }
  }

  /** `near_border`: the pixel left of the current one exists and is
      stable. Column -1 stands for the left edge. */
  function NearBorder(g: Plot, x: int, y: nat): (b: bool)
    requires y < |g| && x < |g[y]|
    ensures b <==> 0 <= x && g[y][x].Stable()
  {
    if x < 0 then false else g[y][x].Stable()
  }

  /** The grid with the point at (`x`, `y`) replaced. */
  function Put(g: Plot, x: nat, y: nat, p: PlotPoint): (g': Plot)
    requires y < |g| && x < |g[y]|
    ensures SameShape(g, g')
    ensures g'[y][x] == p
    ensures forall yy, xx :: 0 <= yy < |g| && 0 <= xx < |g[yy]| && (yy, xx) != (y, x) ==> g'[yy][xx] == g[yy][xx]
  {
    g[y := g[y][x := p]]
  }
}
