/** The grid bookkeeping of src/bin/worker.rs: allocation and reset of the
    plot, and the banded, symmetry-aware chunk step of `draw_plot_cpu`. */
module Worker {
  import opened Outcomes
  import opened PlotPoints
  import opened Context
  import opened Grid
  import opened Scan
  import opened Trace
  import opened Bands

  /** `vec![vec![PlotPoint::default(); width]; height]`. */
  function NewPlot(width: nat, height: nat): (g: Plot)
    ensures |g| == height && Shaped(g, width)
    ensures forall y, x :: 0 <= y < height && 0 <= x < width ==> g[y][x] == DefaultPoint
  {
    seq(height, _ => seq(width, _ => DefaultPoint))
  }

  /** The recalculation reset: every point of every row is reset in place. */
  function ResetPlot(g: Plot): (g': Plot)
    ensures SameShape(g, g')
    ensures forall y, x :: 0 <= y < |g| && 0 <= x < |g[y]| ==>
              && !g'[y][x].Processed() && !g'[y][x].filled
              && g'[y][x].val == g[y][x].val && g'[y][x].i == g[y][x].i
  {
    seq(|g|, y requires 0 <= y < |g| => seq(|g[y]|, x requires 0 <= x < |g[y]| => g[y][x].Reset()))
  }

  /** The plot the message handler hands to `draw_plot_cpu`: allocated on the
      first message, reset on a recalculation request, kept otherwise. */
  function PreparePlot(plot: Option<Plot>, ctx: Ctx): (g: Plot)
    ensures plot.None? ==> |g| == ctx.winHeight && Shaped(g, ctx.winWidth)
    ensures plot.Some? ==> SameShape(plot.value, g)
    ensures (plot.None? || ctx.needsRecalc) ==>
              forall y, x :: 0 <= y < |g| && 0 <= x < |g[y]| ==> !g[y][x].Processed() && !g[y][x].filled
    ensures plot.Some? && !ctx.needsRecalc ==> g == plot.value
  {
    if plot.None? then NewPlot(ctx.winWidth, ctx.winHeight)
    else if ctx.needsRecalc then ResetPlot(plot.value)
    else plot.value
  }

  /** A freshly allocated or reset plot has no processed point, so the
      first `draw_plot_cpu` call after it starts with every processed point
      in range, whatever the observed range is. */
  lemma PreparedPlotInRange(plot: Option<Plot>, ctx: Ctx, range: Ctx)
    requires plot.None? || ctx.needsRecalc
    ensures AllInRange(PreparePlot(plot, ctx), range)
  {
  }

  /** Resetting twice is resetting once: a second recalculation request
      before any scan finds nothing more to forget. */
  lemma ResetIdempotent(g: Plot)
    ensures ResetPlot(ResetPlot(g)) == ResetPlot(g)
  {
    var r := ResetPlot(g);
    forall y | 0 <= y < |g|
      ensures ResetPlot(r)[y] == r[y]
    {
      assert forall x :: 0 <= x < |r[y]| ==> ResetPlot(r)[y][x] == r[y][x];
    }
  }

  /** The mirror copy of `draw_plot_cpu`, rows `y2 + i` from rows
      `y1 - i - shift` for the rows of `(y2..=y3)`. The source copies the
      `win_width` pixels of each row one by one; rows are exactly that wide,
      so this is a copy of the whole row. The source skips the loop unless
      `y3 > y2`, which leaves a one-row band uncopied; here the loop runs
      over the whole range. */
  method MirrorCopy(plot: Plot, y0: nat, sym: Symmetry) returns (p': Plot)
    requires 1 <= |plot|
    ensures |p'| == |plot|
    ensures var b := SplitBands(y0, sym, |plot|);
            forall y :: 0 <= y < |plot| ==> p'[y] == if InMirror(b, y) then plot[MirrorOf(b, y)] else plot[y]
  {
    var b := SplitBands(y0, sym, |plot|);
    p' := plot;
    var i := 0;
    while b.y2 + i <= b.y3
      invariant b.y2 + i <= b.y3 + 1 || i == 0
      invariant |p'| == |plot|
      invariant forall y :: 0 <= y < |plot| ==>
                  p'[y] == if b.y2 <= y < b.y2 + i then plot[MirrorOf(b, y)] else plot[y]
    {
      var y := b.y2 + i;
      assert InMirror(b, y);
      p' := p'[y := p'[b.y1 - i - b.shift]];
      i := i + 1;
    }
  }

  /** One `process_plot_cpu` call on the slice of rows `lo..hi-1`, with row
      offset `lo`, spliced back into the full grid. */
  method ScanBand(s: State, ev: Evaluator, lo: nat, hi: nat, fuel: nat) returns (s': State, n: nat, hung: bool)
    requires Valid(s) && lo < hi <= |s.plot|
    ensures Valid(s') && |s'.plot| == |s.plot|
    ensures forall y :: 0 <= y < |s.plot| && !(lo <= y < hi) ==> s'.plot[y] == s.plot[y]
    ensures Advances(s.plot[lo..hi], s'.plot[lo..hi], ev, lo, s.ctx.maxIters)
    ensures RangeWidens(s.ctx.(offset := lo), s'.ctx)
    ensures !hung ==> n == ChunkRows(s.ctx.rowsProcessed, s.ctx.chunkSize, hi - lo)
    ensures !hung ==> forall y, x :: lo + s.ctx.rowsProcessed <= y < lo + s.ctx.rowsProcessed + n && 0 <= x < s.ctx.winWidth ==>
              y < hi && s'.plot[y][x].Processed()
    ensures s'.ctx.winWidth == s.ctx.winWidth
    ensures BoundsAttained(s.plot, s'.plot, s.ctx, s'.ctx)
    ensures hung ==> SomeWalkHangs(s'.plot[lo..hi], s.ctx.winWidth, fuel)
    ensures NewInRange(s.plot, s'.plot, s'.ctx)
    ensures AllInRange(s.plot, s.ctx) ==> AllInRange(s'.plot, s'.ctx)
    ensures ScannedChunk(State(s.ctx.(offset := lo), s.plot[lo..hi]), State(s'.ctx, s'.plot[lo..hi]), ev, fuel, n, hung)
  {
    var sub := State(s.ctx.(offset := lo), s.plot[lo..hi]);
    var sub', rows, h := ProcessPlotCpu(sub, ev, fuel);
    s' := State(sub'.ctx, s.plot[..lo] + sub'.plot + s.plot[hi..]);
    n, hung := rows, h;
    SpliceFrame(s.plot, sub'.plot, lo, hi, s.ctx.winWidth);
    if !hung {
      forall y, x | lo + s.ctx.rowsProcessed <= y < lo + s.ctx.rowsProcessed + n && 0 <= x < s.ctx.winWidth
        ensures y < hi && s'.plot[y][x].Processed()
      {
        assert s'.plot[y] == sub'.plot[y - lo];
      }
    }
    if s'.ctx.minValue != s.ctx.minValue {
      AttainedInSlice(s.plot, s'.plot, lo, hi, s'.ctx.minValue);
    }
    if s'.ctx.maxValue != s.ctx.maxValue {
      AttainedInSlice(s.plot, s'.plot, lo, hi, s'.ctx.maxValue);
    }
    SpliceInRange(s.plot, s'.plot, lo, hi, ev, s.ctx.maxIters, s.ctx, s'.ctx);
  }

  /** Putting `mid` in place of rows `lo..hi` changes those rows only. */
  lemma SpliceFrame(g: Plot, mid: Plot, lo: nat, hi: nat, w: nat)
    requires lo <= hi <= |g| && |mid| == hi - lo && Shaped(g, w) && Shaped(mid, w)
    ensures Shaped(g[..lo] + mid + g[hi..], w) && SameShape(g, g[..lo] + mid + g[hi..])
    ensures (g[..lo] + mid + g[hi..])[lo..hi] == mid
    ensures |g[..lo] + mid + g[hi..]| == |g|
    ensures forall y :: 0 <= y < |g| && !(lo <= y < hi) ==> (g[..lo] + mid + g[hi..])[y] == g[y]
    ensures forall y :: lo <= y < hi ==> (g[..lo] + mid + g[hi..])[y] == mid[y - lo]
  {
    var g' := g[..lo] + mid + g[hi..];
    forall y | 0 <= y < |g| && !(lo <= y < hi)
      ensures g'[y] == g[y]
    {
      if y >= hi {
        assert g'[y] == g[hi..][y - hi];
      }
    }
    forall y | lo <= y < hi
      ensures g'[y] == mid[y - lo]
    {
    }
  }

  /** A slice scan that covers the values it computes covers them in the
      whole grid, since the rows outside the slice are unchanged; and it
      keeps every point processed before in range. */
  lemma SpliceInRange(g: Plot, g': Plot, lo: nat, hi: nat, ev: Evaluator, maxIters: nat, ctx: Ctx, ctx': Ctx)
    requires SameShape(g, g') && lo <= hi <= |g|
    requires forall y :: 0 <= y < |g| && !(lo <= y < hi) ==> g'[y] == g[y]
    requires Advances(g[lo..hi], g'[lo..hi], ev, lo, maxIters) && NewInRange(g[lo..hi], g'[lo..hi], ctx')
    requires ctx'.minValue <= ctx.minValue && ctx.maxValue <= ctx'.maxValue
    ensures NewInRange(g, g', ctx')
    ensures AllInRange(g, ctx) ==> AllInRange(g', ctx')
  {
    forall y, x | 0 <= y < |g| && 0 <= x < |g[y]|
      ensures g[y][x].Processed() ==> g'[y][x] == g[y][x]
      ensures !g[y][x].Processed() && g'[y][x].Processed() ==> InRange(ctx', g'[y][x].calcVal.value)
    {
      if lo <= y < hi {
        assert g[lo..hi][y - lo] == g[y] && g'[lo..hi][y - lo] == g'[y];
        AdvancesKeepsProcessed(g[lo..hi], g'[lo..hi], ev, lo, maxIters, x, y - lo);
      }
    }
    if AllInRange(g, ctx) {
      InRangeCarries(g, g', ctx, ctx');
    }
  }

  /** A value first computed in a slice was first computed in the grid. */
  lemma AttainedInSlice(g: Plot, g': Plot, lo: nat, hi: nat, bound: real)
    requires SameShape(g, g') && lo <= hi <= |g|
    requires Attained(g[lo..hi], g'[lo..hi], bound)
    ensures Attained(g, g', bound)
  {
    var y, x :| 0 <= y < |g[lo..hi]| && 0 <= x < |g[lo..hi][y]| && !g[lo..hi][y][x].Processed()
                && g'[lo..hi][y][x].Processed() && g'[lo..hi][y][x].calcVal.value == Num(bound);
    assert g[lo..hi][y] == g[lo + y] && g'[lo..hi][y] == g'[lo + y];
  }

  /** The counters of `ctx'` are those of `ctx`, except that the observed
      range may have widened and the row offset may differ. */
  predicate Widened(ctx: Ctx, ctx': Ctx)
  {
    RangeWidens(ctx.(offset := ctx'.offset), ctx')
  }

  lemma WidenedTransitive(c1: Ctx, c2: Ctx, c3: Ctx)
    requires Widened(c1, c2) && Widened(c2, c3)
    ensures Widened(c1, c3)
    ensures c3 == c1.(minValue := c3.minValue, maxValue := c3.maxValue, offset := c3.offset)
  {
  }

  /** The evaluated bands of `g'` arise from those of `g` by first
      evaluations and fast fills at their global rows. */
  predicate BandsAdvance(b: Bands, g: Plot, g': Plot, ev: Evaluator, maxIters: nat)
    requires b.y1 < |g| && b.y4 <= |g|
    requires b.y1 < |g'| && b.y4 <= |g'|
  {
    && (b.y1 > 0 ==> Advances(g[0..b.y1 + 1], g'[0..b.y1 + 1], ev, 0, maxIters))
    && (b.y4 <= b.yMax ==> Advances(g[b.y4..], g'[b.y4..], ev, b.y4, maxIters))
  }

  /** The upper-band step of `draw_plot_cpu`: when `y1 > 0`, one
      `process_plot_cpu` chunk over rows `0..=y1` at row offset 0. */
  method UpperPhase(s: State, ev: Evaluator, b: Bands, fuel: nat) returns (s': State, n: nat, hung: bool)
    requires Valid(s) && b.y1 < |s.plot|
    ensures Valid(s') && |s'.plot| == |s.plot| && Widened(s.ctx, s'.ctx)
    ensures forall y :: 0 <= y < |s.plot| && !InUpper(b, y) ==> s'.plot[y] == s.plot[y]
    ensures b.y1 > 0 ==> Advances(s.plot[0..b.y1 + 1], s'.plot[0..b.y1 + 1], ev, 0, s.ctx.maxIters)
    ensures !hung ==> n == UpperRows(b, s.ctx.rowsProcessed, s.ctx.chunkSize)
    ensures !hung ==> UpperDone(b, s'.plot, s.ctx.winWidth, s.ctx.rowsProcessed, s.ctx.chunkSize)
    ensures BoundsAttained(s.plot, s'.plot, s.ctx, s'.ctx)
    ensures hung ==> b.y1 > 0 && SomeWalkHangs(s'.plot[0..b.y1 + 1], s.ctx.winWidth, fuel)
    ensures NewInRange(s.plot, s'.plot, s'.ctx)
    ensures AllInRange(s.plot, s.ctx) ==> AllInRange(s'.plot, s'.ctx)
    ensures b.y1 > 0 ==> ScannedChunk(State(s.ctx.(offset := 0), s.plot[0..b.y1 + 1]), State(s'.ctx, s'.plot[0..b.y1 + 1]),
                                      ev, fuel, n, hung)
    ensures b.y1 == 0 ==> s'.ctx == s.ctx && n == 0 && !hung
  {
    s', n, hung := s, 0, false;
    if b.y1 > 0 {
      s', n, hung := ScanBand(s, ev, 0, b.y1 + 1, fuel);
    }
  }

  /** The lower-band step of `draw_plot_cpu`: when `y4 <= yMax`, one
      `process_plot_cpu` chunk over rows `y4..=yMax` at row offset `y4`. */
  method LowerPhase(s: State, ev: Evaluator, b: Bands, fuel: nat) returns (s': State, n: nat, hung: bool)
    requires Valid(s) && b.yMax + 1 == |s.plot|
    ensures Valid(s') && |s'.plot| == |s.plot| && Widened(s.ctx, s'.ctx)
    ensures forall y :: 0 <= y < b.y4 && y < |s.plot| ==> s'.plot[y] == s.plot[y]
    ensures b.y4 <= b.yMax ==> Advances(s.plot[b.y4..], s'.plot[b.y4..], ev, b.y4, s.ctx.maxIters)
    ensures !hung ==> n == LowerRows(b, s.ctx.rowsProcessed, s.ctx.chunkSize)
    ensures !hung ==> LowerDone(b, s'.plot, s.ctx.winWidth, s.ctx.rowsProcessed, s.ctx.chunkSize)
    ensures BoundsAttained(s.plot, s'.plot, s.ctx, s'.ctx)
    ensures hung ==> b.y4 <= b.yMax && SomeWalkHangs(s'.plot[b.y4..], s.ctx.winWidth, fuel)
    ensures NewInRange(s.plot, s'.plot, s'.ctx)
    ensures AllInRange(s.plot, s.ctx) ==> AllInRange(s'.plot, s'.ctx)
    ensures b.y4 <= b.yMax ==> ScannedChunk(State(s.ctx.(offset := b.y4), s.plot[b.y4..]), State(s'.ctx, s'.plot[b.y4..]),
                                            ev, fuel, n, hung)
    ensures b.y4 > b.yMax ==> s'.ctx == s.ctx && n == 0 && !hung
  {
    s', n, hung := s, 0, false;
    if b.y4 <= b.yMax {
      s', n, hung := ScanBand(s, ev, b.y4, |s.plot|, fuel);
      assert s.plot[b.y4..] == s.plot[b.y4..|s.plot|];
      assert s'.plot[b.y4..] == s'.plot[b.y4..|s.plot|];
    }
  }

  /** `draw_plot_cpu`'s grid step: split the grid at the axis row `y0`,
      scan a chunk of the upper band, copy the mirror band from it, scan a
      chunk of the lower band, advance `rows_processed` by the chunk size
      and credit `total_rows_processed`. Afterwards each mirror row equals
      its source row, the evaluated bands have only advanced (evaluated at
      their global rows), and a first call whose chunk covers the grid
      leaves every pixel processed and credits every row once. */
  method DrawPlotCpu(s: State, ev: Evaluator, y0: nat, sym: Symmetry, fuel: nat) returns (s': State, hung: bool)
    requires Valid(s) && 1 <= |s.plot|
    ensures Valid(s') && |s'.plot| == |s.plot|
    ensures s'.ctx.minValue <= s.ctx.minValue && s.ctx.maxValue <= s'.ctx.maxValue
    ensures var b := SplitBands(y0, sym, |s.plot|);
            !hung ==>
              && s'.ctx == s.ctx.(minValue := s'.ctx.minValue, maxValue := s'.ctx.maxValue, offset := s'.ctx.offset,
                                  rowsProcessed := s.ctx.rowsProcessed + s.ctx.chunkSize,
                                  totalRowsProcessed := s.ctx.totalRowsProcessed + ChunkCredit(b, s.ctx.rowsProcessed, s.ctx.chunkSize))
              && BandsAdvance(b, s.plot, s'.plot, ev, s.ctx.maxIters)
              && MirrorDone(b, s'.plot)
              && UpperDone(b, s'.plot, s.ctx.winWidth, s.ctx.rowsProcessed, s.ctx.chunkSize)
              && LowerDone(b, s'.plot, s.ctx.winWidth, s.ctx.rowsProcessed, s.ctx.chunkSize)
    ensures !hung && s.ctx.rowsProcessed == 0 && s.ctx.chunkSize >= |s.plot| ==>
              && RowsDone(s'.plot, s.ctx.winWidth, 0, |s.plot|)
              && s'.ctx.totalRowsProcessed == s.ctx.totalRowsProcessed + |s.plot|
    ensures s'.ctx.winWidth == s.ctx.winWidth
    ensures BoundsAttained(s.plot, s'.plot, s.ctx, s'.ctx)
    ensures var b := SplitBands(y0, sym, |s.plot|);
            hung ==> || (b.y1 > 0 && SomeWalkHangs(s'.plot[0..b.y1 + 1], s.ctx.winWidth, fuel))
                     || (b.y4 <= b.yMax && SomeWalkHangs(s'.plot[b.y4..], s.ctx.winWidth, fuel))
    ensures EvaluatedInRange(SplitBands(y0, sym, |s.plot|), s.plot, s'.plot, s'.ctx)
    ensures AllInRange(s.plot, s.ctx) ==> AllInRange(s'.plot, s'.ctx)
    ensures !hung ==> BandChunks(SplitBands(y0, sym, |s.plot|), s, s', ev, fuel)
  {
    var b := SplitBands(y0, sym, |s.plot|);
    var rp, chunk := s.ctx.rowsProcessed, s.ctx.chunkSize;
    var credit := if rp == 0 then b.y3 - b.y1 else 0;
    var s3, n1, n2;
    s3, n1, n2, hung := EvaluateBands(s, ev, y0, sym, fuel);
    if hung {
      return s3, true;
    }
    CreditSplits(b, rp, chunk, n1, n2);
    s' := State(s3.ctx.(rowsProcessed := rp + chunk, totalRowsProcessed := s3.ctx.totalRowsProcessed + credit + n1 + n2),
                s3.plot);
    CountersOnly(b, s.plot, s3.plot, s.ctx, s3.ctx, s'.ctx);
    BandChunksCounters(b, s, s3, s', ev, fuel);
    if rp == 0 && chunk >= |s.plot| {
      CreditCountsEveryRowOnce(y0, sym, |s.plot|, chunk);
      FullChunkDone(b, y0, sym, s'.plot, s.ctx.winWidth, chunk);
    }
  }

  /** Updating the row counters leaves every statement about the observed
      range as it was. */
  lemma CountersOnly(b: Bands, g: Plot, g': Plot, c: Ctx, c1: Ctx, c2: Ctx)
    requires SameShape(g, g') && c2.minValue == c1.minValue && c2.maxValue == c1.maxValue
    requires BoundsAttained(g, g', c, c1) && EvaluatedInRange(b, g, g', c1)
    ensures BoundsAttained(g, g', c, c2) && EvaluatedInRange(b, g, g', c2)
    ensures AllInRange(g', c1) ==> AllInRange(g', c2)
  {
  }

  /** The grid part of `draw_plot_cpu`: the upper-band chunk, the mirror
      copy and the lower-band chunk, with the rows each chunk covers. */
  method EvaluateBands(s: State, ev: Evaluator, y0: nat, sym: Symmetry, fuel: nat)
    returns (s': State, n1: nat, n2: nat, hung: bool)
    requires Valid(s) && 1 <= |s.plot|
    ensures Valid(s') && |s'.plot| == |s.plot| && Widened(s.ctx, s'.ctx)
    ensures BoundsAttained(s.plot, s'.plot, s.ctx, s'.ctx)
    ensures var b := SplitBands(y0, sym, |s.plot|);
            !hung ==>
              && n1 == UpperRows(b, s.ctx.rowsProcessed, s.ctx.chunkSize)
              && n2 == LowerRows(b, s.ctx.rowsProcessed, s.ctx.chunkSize)
              && BandsAdvance(b, s.plot, s'.plot, ev, s.ctx.maxIters)
              && MirrorDone(b, s'.plot)
              && UpperDone(b, s'.plot, s.ctx.winWidth, s.ctx.rowsProcessed, s.ctx.chunkSize)
              && LowerDone(b, s'.plot, s.ctx.winWidth, s.ctx.rowsProcessed, s.ctx.chunkSize)
    ensures var b := SplitBands(y0, sym, |s.plot|);
            hung ==> || (b.y1 > 0 && SomeWalkHangs(s'.plot[0..b.y1 + 1], s.ctx.winWidth, fuel))
                     || (b.y4 <= b.yMax && SomeWalkHangs(s'.plot[b.y4..], s.ctx.winWidth, fuel))
    ensures EvaluatedInRange(SplitBands(y0, sym, |s.plot|), s.plot, s'.plot, s'.ctx)
    ensures AllInRange(s.plot, s.ctx) ==> AllInRange(s'.plot, s'.ctx)
    ensures !hung ==> BandChunks(SplitBands(y0, sym, |s.plot|), s, s', ev, fuel)
  {
    var b := SplitBands(y0, sym, |s.plot|);
    var rp, chunk, w := s.ctx.rowsProcessed, s.ctx.chunkSize, s.ctx.winWidth;
    var s1, h1;
    s1, n1, h1 := UpperPhase(s, ev, b, fuel);
    if h1 {
      return s1, n1, 0, true;
    }
    var copied := MirrorCopy(s1.plot, y0, sym);
    var s2 := State(s1.ctx, copied);
    MirrorKeepsBands(b, y0, sym, s1.plot, s2.plot, w, rp, chunk);
    MirrorKeepsInRange(b, y0, sym, s1.plot, s2.plot, s1.ctx);
    var s3, h2;
    s3, n2, h2 := LowerPhase(s2, ev, b, fuel);
    BoundsAttainedAcross(b, y0, sym, s.plot, s1.plot, s2.plot, s3.plot, w, s.ctx, s1.ctx, s3.ctx);
    NewInRangeAcross(b, y0, sym, s.plot, s1.plot, s2.plot, s3.plot, w, s1.ctx, s3.ctx);
    WidenedTransitive(s.ctx, s1.ctx, s3.ctx);
    if h2 {
      return s3, n1, n2, true;
    }
    LowerKeepsBands(b, y0, sym, s2.plot, s3.plot, w, rp, chunk);
    BandChunksIntro(b, y0, sym, s, s1, s2, s3, ev, fuel);
    BandsUntouchedElsewhere(b, y0, sym, s.plot, s1.plot, s2.plot, s3.plot, ev, s.ctx.maxIters);
    s', hung := s3, false;
  }

  /** The two band scans of one `draw_plot_cpu` call, through the context
      `c1` after the upper band's chunk and `c3` after the lower band's.
      When `y1 > 0`, rows `0..=y1` of `s'` are one `process_plot_cpu` chunk
      at offset 0 from `s`, ending in `c1`; otherwise `c1` is `s`'s context.
      When rows lie below the mirror band, rows `y4..=yMax` of `s'` are one
      chunk at offset `y4` from `c1` over those rows as `s` had them,
      ending in `c3`; otherwise `c3` is `c1`. Neither chunk hangs, and `s'`
      carries `c3` up to its row counters. */
  ghost predicate BandChunksVia(b: Bands, s: State, s': State, ev: Evaluator, fuel: nat, c1: Ctx, c3: Ctx)
    requires b.y1 < |s.plot| && b.yMax + 1 == |s.plot| && |s'.plot| == |s.plot|
  {
    var rp, chunk := s.ctx.rowsProcessed, s.ctx.chunkSize;
    && Widened(s.ctx, c1)
    && (b.y1 > 0 ==> ScannedChunk(State(s.ctx.(offset := 0), s.plot[0..b.y1 + 1]), State(c1, s'.plot[0..b.y1 + 1]),
                                  ev, fuel, UpperRows(b, rp, chunk), false))
    && (b.y1 == 0 ==> c1 == s.ctx)
    && (b.y4 <= b.yMax ==> ScannedChunk(State(c1.(offset := b.y4), s.plot[b.y4..]), State(c3, s'.plot[b.y4..]),
                                        ev, fuel, LowerRows(b, rp, chunk), false))
    && (b.y4 > b.yMax ==> c3 == c1)
    && s'.ctx == c3.(rowsProcessed := s'.ctx.rowsProcessed, totalRowsProcessed := s'.ctx.totalRowsProcessed)
  }

  /** `s'` is `s` after the two band scans of one `draw_plot_cpu` call. */
  ghost predicate BandChunks(b: Bands, s: State, s': State, ev: Evaluator, fuel: nat)
    requires b.y1 < |s.plot| && b.yMax + 1 == |s.plot| && |s'.plot| == |s.plot|
  {
    exists c1: Ctx, c3: Ctx :: BandChunksVia(b, s, s', ev, fuel, c1, c3)
  }

  /** The upper scan, the copy and the lower scan make up the two band
      scans: the copy and the lower scan leave rows `0..=y1` as the upper
      scan left them, and the lower band's rows are as they were in `s`
      when its scan starts. */
  lemma BandChunksIntro(b: Bands, y0: nat, sym: Symmetry, s: State, s1: State, s2: State, s3: State, ev: Evaluator,
                        fuel: nat)
    requires 1 <= |s.plot| && b == SplitBands(y0, sym, |s.plot|)
    requires |s1.plot| == |s2.plot| == |s3.plot| == |s.plot|
    requires Widened(s.ctx, s1.ctx) && s2.ctx == s1.ctx
    requires forall y :: 0 <= y < |s.plot| && !InUpper(b, y) ==> s1.plot[y] == s.plot[y]
    requires forall y :: 0 <= y < |s.plot| && !InMirror(b, y) ==> s2.plot[y] == s1.plot[y]
    requires forall y :: 0 <= y < b.y4 && y < |s.plot| ==> s3.plot[y] == s2.plot[y]
    requires b.y1 > 0 ==> ScannedChunk(State(s.ctx.(offset := 0), s.plot[0..b.y1 + 1]), State(s1.ctx, s1.plot[0..b.y1 + 1]),
                                       ev, fuel, UpperRows(b, s.ctx.rowsProcessed, s.ctx.chunkSize), false)
    requires b.y1 == 0 ==> s1.ctx == s.ctx
    requires b.y4 <= b.yMax ==> ScannedChunk(State(s2.ctx.(offset := b.y4), s2.plot[b.y4..]), State(s3.ctx, s3.plot[b.y4..]),
                                             ev, fuel, LowerRows(b, s.ctx.rowsProcessed, s.ctx.chunkSize), false)
    requires b.y4 > b.yMax ==> s3.ctx == s2.ctx
    ensures BandChunks(b, s, s3, ev, fuel)
  {
    if b.y1 > 0 {
      assert s3.plot[0..b.y1 + 1] == s1.plot[0..b.y1 + 1];
    }
    if b.y4 <= b.yMax {
      forall y | b.y4 <= y < |s.plot|
        ensures s2.plot[y] == s.plot[y]
      {
        assert InLower(b, y);
      }
      assert s2.plot[b.y4..] == s.plot[b.y4..];
    }
    assert BandChunksVia(b, s, s3, ev, fuel, s1.ctx, s3.ctx);
  }

  /** Advancing the row counters keeps the record of the band scans. */
  lemma BandChunksCounters(b: Bands, s: State, s3: State, s': State, ev: Evaluator, fuel: nat)
    requires b.y1 < |s.plot| && b.yMax + 1 == |s.plot| && |s3.plot| == |s.plot|
    requires BandChunks(b, s, s3, ev, fuel)
    requires s'.plot == s3.plot
    requires s'.ctx == s3.ctx.(rowsProcessed := s'.ctx.rowsProcessed, totalRowsProcessed := s'.ctx.totalRowsProcessed)
    ensures BandChunks(b, s, s', ev, fuel)
  {
    var c1, c3 :| BandChunksVia(b, s, s3, ev, fuel, c1, c3);
    assert BandChunksVia(b, s, s', ev, fuel, c1, c3);
  }

  /** Every point outside the mirror band that is first processed between
      `g` and `g'` has its metric inside the observed range of `ctx`. Mirror
      rows are copies of upper-band rows, which may have been processed
      before the call. */
  predicate EvaluatedInRange(b: Bands, g: Plot, g': Plot, ctx: Ctx)
    requires SameShape(g, g')
  {
    forall y, x :: 0 <= y < |g| && !InMirror(b, y) && 0 <= x < |g[y]| && !g[y][x].Processed() && g'[y][x].Processed() ==>
      InRange(ctx, g'[y][x].calcVal.value)
  }

  /** The values the two band scans compute are covered by the final range:
      the upper band's stay in place to the end, and the lower band's rows
      are untouched until their own scan. */
  lemma NewInRangeAcross(b: Bands, y0: nat, sym: Symmetry, g: Plot, g1: Plot, g2: Plot, g3: Plot, w: nat, c1: Ctx, c3: Ctx)
    requires 1 <= |g| && b == SplitBands(y0, sym, |g|) && |g1| == |g2| == |g3| == |g|
    requires Shaped(g, w) && Shaped(g1, w) && Shaped(g2, w) && Shaped(g3, w)
    requires forall y :: 0 <= y < |g| && !InUpper(b, y) ==> g1[y] == g[y]
    requires forall y :: 0 <= y < |g| && !InMirror(b, y) ==> g2[y] == g1[y]
    requires forall y :: 0 <= y < b.y4 && y < |g| ==> g3[y] == g2[y]
    requires NewInRange(g, g1, c1) && NewInRange(g2, g3, c3)
    requires c3.minValue <= c1.minValue && c1.maxValue <= c3.maxValue
    ensures EvaluatedInRange(b, g, g3, c3)
  {
    BandsPartitionRowsAll(y0, sym, |g|);
    forall y, x | 0 <= y < |g| && !InMirror(b, y) && 0 <= x < |g[y]| && !g[y][x].Processed() && g3[y][x].Processed()
      ensures InRange(c3, g3[y][x].calcVal.value)
    {
      if InUpper(b, y) {
        assert g3[y] == g1[y];
        assert InRange(c1, g1[y][x].calcVal.value);
      } else {
        assert g2[y] == g[y];
      }
    }
  }

  /** The mirror copy only duplicates rows, so it keeps every processed
      point in range. */
  lemma MirrorKeepsInRange(b: Bands, y0: nat, sym: Symmetry, g: Plot, g': Plot, ctx: Ctx)
    requires 1 <= |g| && b == SplitBands(y0, sym, |g|) && |g'| == |g|
    requires forall y :: 0 <= y < |g| ==> g'[y] == if InMirror(b, y) then g[MirrorOf(b, y)] else g[y]
    ensures AllInRange(g, ctx) ==> AllInRange(g', ctx)
  {
    if AllInRange(g, ctx) {
      forall y, x | 0 <= y < |g'| && 0 <= x < |g'[y]| && g'[y][x].Processed()
        ensures InRange(ctx, g'[y][x].calcVal.value)
      {
        var src := if InMirror(b, y) then MirrorOf(b, y) else y;
        assert g'[y] == g[src];
      }
    }
  }

  /** The credit `draw_plot_cpu` adds is the two chunk results plus the
      first call's mirror rows. */
  lemma CreditSplits(b: Bands, rp: nat, chunk: nat, n1: nat, n2: nat)
    requires b.y1 <= b.y3
    requires n1 == UpperRows(b, rp, chunk) && n2 == LowerRows(b, rp, chunk)
    ensures (if rp == 0 then b.y3 - b.y1 else 0) + n1 + n2 == ChunkCredit(b, rp, chunk)
  {
  }

  /** Each band is written by its own phase only, so the advances of the
      two scans carry over to the final grid. */
  lemma BandsUntouchedElsewhere(b: Bands, y0: nat, sym: Symmetry, g: Plot, g1: Plot, g2: Plot, g3: Plot,
                                ev: Evaluator, maxIters: nat)
    requires 1 <= |g| && b == SplitBands(y0, sym, |g|) && |g1| == |g2| == |g3| == |g|
    requires forall y :: 0 <= y < |g| && !InUpper(b, y) ==> g1[y] == g[y]
    requires b.y1 > 0 ==> Advances(g[0..b.y1 + 1], g1[0..b.y1 + 1], ev, 0, maxIters)
    requires forall y :: 0 <= y < |g| && !InMirror(b, y) ==> g2[y] == g1[y]
    requires forall y :: 0 <= y < b.y4 && y < |g| ==> g3[y] == g2[y]
    requires b.y4 <= b.yMax ==> Advances(g2[b.y4..], g3[b.y4..], ev, b.y4, maxIters)
    ensures BandsAdvance(b, g, g3, ev, maxIters)
  {
    BandsPartitionRowsAll(y0, sym, |g|);
    if b.y1 > 0 {
      assert g3[0..b.y1 + 1] == g1[0..b.y1 + 1];
    }
    if b.y4 <= b.yMax {
      assert g2[b.y4..] == g[b.y4..];
    }
  }

  /** The observed range after the whole call is bounded by values the
      call itself computed: the upper band's are still in place at the end
      (neither the copy nor the lower scan touches those rows), and the
      lower band's rows were never touched before the lower scan. */
  lemma BoundsAttainedAcross(b: Bands, y0: nat, sym: Symmetry, g: Plot, g1: Plot, g2: Plot, g3: Plot, w: nat,
                             c: Ctx, c1: Ctx, c3: Ctx)
    requires 1 <= |g| && b == SplitBands(y0, sym, |g|) && |g1| == |g2| == |g3| == |g|
    requires Shaped(g, w) && Shaped(g1, w) && Shaped(g2, w) && Shaped(g3, w)
    requires forall y :: 0 <= y < |g| && !InUpper(b, y) ==> g1[y] == g[y]
    requires forall y :: 0 <= y < |g| && !InMirror(b, y) ==> g2[y] == g1[y]
    requires forall y :: 0 <= y < b.y4 && y < |g| ==> g3[y] == g2[y]
    requires BoundsAttained(g, g1, c, c1) && BoundsAttained(g2, g3, c1, c3)
    ensures BoundsAttained(g, g3, c, c3)
  {
    BandsPartitionRowsAll(y0, sym, |g|);
    forall bound | Attained(g, g1, bound) ensures Attained(g, g3, bound) {
      AttainedCarried(g, g1, g, g3, bound);
    }
    forall bound | Attained(g2, g3, bound) ensures Attained(g, g3, bound) {
      AttainedCarried(g2, g3, g, g3, bound);
    }
  }

  /** A value first computed on rows that a later grid pair carries
      unchanged is first computed in that pair as well. */
  lemma AttainedCarried(g: Plot, g': Plot, h: Plot, h': Plot, bound: real)
    requires SameShape(g, g') && SameShape(h, h') && |h| == |g|
    requires forall y :: 0 <= y < |g| && g[y] != g'[y] ==> h[y] == g[y] && h'[y] == g'[y]
    requires Attained(g, g', bound)
    ensures Attained(h, h', bound)
  {
    var y, x :| 0 <= y < |g| && 0 <= x < |g[y]| && !g[y][x].Processed() && g'[y][x].Processed()
                && g'[y][x].calcVal.value == Num(bound);
    assert g[y] != g'[y];
  }

  /** Every mirror row equals the upper-band row it is copied from. */
  predicate MirrorDone(b: Bands, g: Plot)
  {
    forall y :: 0 <= y < |g| && InMirror(b, y) && 0 <= MirrorOf(b, y) < |g| ==> g[y] == g[MirrorOf(b, y)]
  }

  /** Every pixel of the upper-band rows this chunk covers is processed. */
  predicate UpperDone(b: Bands, g: Plot, w: nat, rp: nat, chunk: nat)
    requires Shaped(g, w)
  {
    forall y, x :: 0 <= y < |g| && InUpper(b, y) && rp <= y < rp + chunk && 0 <= x < w ==> g[y][x].Processed()
  }

  /** Every pixel of the lower-band rows this chunk covers (counted from
      `y4`) is processed. */
  predicate LowerDone(b: Bands, g: Plot, w: nat, rp: nat, chunk: nat)
    requires Shaped(g, w)
  {
    forall y, x :: 0 <= y < |g| && InLower(b, y) && rp <= y - b.y4 < rp + chunk && 0 <= x < w ==> g[y][x].Processed()
  }

  /** The mirror copy leaves the upper and lower bands alone and makes the
      mirror band a copy. */
  lemma MirrorKeepsBands(b: Bands, y0: nat, sym: Symmetry, g: Plot, g': Plot, w: nat, rp: nat, chunk: nat)
    requires 1 <= |g| && b == SplitBands(y0, sym, |g|) && Shaped(g, w) && |g'| == |g|
    requires forall y :: 0 <= y < |g| ==> g'[y] == if InMirror(b, y) then g[MirrorOf(b, y)] else g[y]
    ensures Shaped(g', w)
    ensures forall y :: 0 <= y < |g| && !InMirror(b, y) ==> g'[y] == g[y]
    ensures MirrorDone(b, g')
    ensures UpperDone(b, g, w, rp, chunk) ==> UpperDone(b, g', w, rp, chunk)
    ensures LowerDone(b, g, w, rp, chunk) ==> LowerDone(b, g', w, rp, chunk)
  {
    BandsPartitionRowsAll(y0, sym, |g|);
  }

  /** Each row of the grid lies in exactly one band. */
  lemma BandsPartitionRowsAll(y0: nat, sym: Symmetry, height: nat)
    requires 1 <= height
    ensures var b := SplitBands(y0, sym, height);
            forall y :: 0 <= y < height ==>
              && (InUpper(b, y) ==> !InMirror(b, y) && !InLower(b, y))
              && (InMirror(b, y) ==> !InLower(b, y))
              && (InUpper(b, y) || InMirror(b, y) || InLower(b, y))
  {
    forall y | 0 <= y < height
      ensures var b := SplitBands(y0, sym, height);
              && (InUpper(b, y) ==> !InMirror(b, y) && !InLower(b, y))
              && (InMirror(b, y) ==> !InLower(b, y))
              && (InUpper(b, y) || InMirror(b, y) || InLower(b, y))
    {
      BandsPartitionRows(y0, sym, height, y);
    }
  }

  /** Scanning the lower band leaves the rows above `y4` alone. */
  lemma LowerKeepsBands(b: Bands, y0: nat, sym: Symmetry, g: Plot, g': Plot, w: nat, rp: nat, chunk: nat)
    requires 1 <= |g| && b == SplitBands(y0, sym, |g|) && Shaped(g, w) && Shaped(g', w) && |g'| == |g|
    requires forall y :: 0 <= y < |g| && !(b.y4 <= y < |g|) ==> g'[y] == g[y]
    ensures MirrorDone(b, g) ==> MirrorDone(b, g')
    ensures UpperDone(b, g, w, rp, chunk) ==> UpperDone(b, g', w, rp, chunk)
  {
    BandsPartitionRowsAll(y0, sym, |g|);
  }

  /** A first chunk that covers the grid leaves no pixel unprocessed. */
  lemma FullChunkDone(b: Bands, y0: nat, sym: Symmetry, g: Plot, w: nat, chunk: nat)
    requires 1 <= |g| && b == SplitBands(y0, sym, |g|) && Shaped(g, w) && chunk >= |g|
    requires MirrorDone(b, g) && UpperDone(b, g, w, 0, chunk) && LowerDone(b, g, w, 0, chunk)
    ensures RowsDone(g, w, 0, |g|)
  {
    BandsPartitionRowsAll(y0, sym, |g|);
    forall r, c | 0 <= r < |g| && 0 <= c < w
      ensures g[r][c].Processed()
    {
      if InMirror(b, r) {
        assert g[r] == g[MirrorOf(b, r)];
      }
    }
  }
}
