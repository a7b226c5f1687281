/** `process_plot_cpu`: one chunk of the row scan over a grid slice. */
module Scan {
  import opened PlotPoints
  import opened Context
  import opened Grid
  import opened FastFill
  import opened Trace

  /** Columns `lo .. hi-1` of row `y` are processed. */
  predicate ColsDone(g: Plot, y: nat, lo: nat, hi: nat)
    requires y < |g| && hi <= |g[y]|
  {
    forall c :: lo <= c < hi ==> g[y][c].Processed()
  }

  /** Every pixel of the rows `lo .. hi-1` that exist is processed. */
  predicate RowsDone(g: Plot, w: nat, lo: nat, hi: nat)
    requires Shaped(g, w)
  {
    forall r, c :: lo <= r < hi && r < |g| && 0 <= c < w ==> g[r][c].Processed()
  }

  /** Processed pixels stay processed. */
  lemma DonePersists(s: State, s': State, ev: Evaluator, lo: nat, hi: nat, y: nat, cl: nat, ch: nat)
    requires Valid(s) && Progress(s, s', ev)
    requires y < |s.plot| && ch <= s.ctx.winWidth
    requires RowsDone(s.plot, s.ctx.winWidth, lo, hi)
    requires ColsDone(s.plot, y, cl, ch)
    ensures RowsDone(s'.plot, s.ctx.winWidth, lo, hi)
    ensures ColsDone(s'.plot, y, cl, ch)
  {
    var g: Plot, g': Plot := s.plot, s'.plot;
    forall r, c | lo <= r < hi && r < |g| && 0 <= c < s.ctx.winWidth
      ensures g'[r][c].Processed()
    {
      AdvancesKeepsProcessed(g, g', ev, s.ctx.offset, s.ctx.maxIters, c, r);
    }
    forall c | cl <= c < ch
      ensures g'[y][c].Processed()
    {
      AdvancesKeepsProcessed(g, g', ev, s.ctx.offset, s.ctx.maxIters, c, y);
    }
  }

  /** A finished row extends the block of finished rows before it. */
  lemma RowsDoneExtend(g: Plot, w: nat, lo: nat, y: nat)
    requires Shaped(g, w) && y < |g| && lo <= y
    requires RowsDone(g, w, lo, y) && ColsDone(g, y, 0, w)
    ensures RowsDone(g, w, lo, y + 1)
  {
  }

  /** Storing the result of `calculate_point` is progress. */
  lemma CalculateProgress(s: State, ev: Evaluator, x: nat, y: nat)
    requires Valid(s) && x < s.ctx.winWidth && y < |s.plot|
    ensures var c := CalculatePoint(s.ctx, s.plot[y][x], ev, x, y + s.ctx.offset);
            Progress(s, State(c.ctx, Put(s.plot, x, y, c.point)), ev)
  {
    var c := CalculatePoint(s.ctx, s.plot[y][x], ev, x, y + s.ctx.offset);
    var s' := State(c.ctx, Put(s.plot, x, y, c.point));
    assert NewInRange(s.plot, s'.plot, s'.ctx);
  }

  /** Pixel (`x`, `y`) is fresh and its escape iteration stays bounded: once
      evaluated it is stable, and the scan starts a fast fill or a trace
      from it. */
  predicate StartsRegion(s: State, ev: Evaluator, x: nat, y: nat)
    requires y < |s.plot| && x < |s.plot[y]|
  {
    !s.plot[y][x].Processed() && ev.escape(x, y + s.ctx.offset).Bounded?
  }

  /** Columns `lo .. hi-1` of row `y` of `g'` are those of `g`, with every
      unprocessed one fast-filled. */
  predicate FilledRun(g: Plot, g': Plot, maxIters: nat, smooth: Smoothing, w: nat, y: nat, lo: nat, hi: nat)
    requires Shaped(g, w) && Shaped(g', w) && y < |g| && y < |g'| && hi <= w
  {
    forall c :: lo <= c < hi ==>
      g'[y][c] == if g[y][c].Processed() then g[y][c] else FastFilled(g[y][c], maxIters, smooth)
  }

  /** `g'` agrees with `g` everywhere except on columns `lo .. hi-1` of row
      `y`. */
  predicate SameOutside(g: Plot, g': Plot, w: nat, y: nat, lo: nat, hi: nat)
    requires Shaped(g, w) && Shaped(g', w) && |g'| == |g|
  {
    forall yy, c :: 0 <= yy < |g| && 0 <= c < w && (yy != y || c < lo || hi <= c) ==> g'[yy][c] == g[yy][c]
  }

  /** Every pixel of `g'` is that of `g`, or its settled form: evaluations
      only, no fast fill. */
  predicate OnlySettled(g: Plot, g': Plot, ev: Evaluator, offset: nat, maxIters: nat, w: nat)
    requires Shaped(g, w) && Shaped(g', w) && |g'| == |g|
  {
    forall yy, c :: 0 <= yy < |g| && 0 <= c < w ==>
      g'[yy][c] == g[yy][c] || g'[yy][c] == Settle(g[yy][c], ev, c, yy + offset, maxIters)
  }

  /** The fast-fill branch of the scan: a fresh stable pixel at column `x`
      whose left neighbour is stable fills the run to its right, up to the
      first processed unstable pixel or the last column. */
  method FillRight(s: State, ev: Evaluator, x: nat, y: nat) returns (s': State, next: nat)
    requires Valid(s) && x < s.ctx.winWidth && y < |s.plot| && s.plot[y][x].Processed()
    ensures Progress(s, s', ev) && s'.ctx == s.ctx
    ensures x < next <= s.ctx.winWidth && ColsDone(s'.plot, y, x, next)
    ensures FilledRun(s.plot, s'.plot, s.ctx.maxIters, ev.smooth, s.ctx.winWidth, y, x + 1, next)
    ensures forall c :: x < c < next - 1 ==> s'.plot[y][c].Stable()
    ensures x + 1 < s.ctx.winWidth ==> !s'.plot[y][next - 1].Stable() || next == s.ctx.winWidth
    ensures SameOutside(s.plot, s'.plot, s.ctx.winWidth, y, x + 1, next)
  {
    var r;
    s', r := ProcessFast(s, ev, x + 1, y);
    AdvancesKeepsProcessed(s.plot, s'.plot, ev, s.ctx.offset, s.ctx.maxIters, x, y);
    next := r + 1;
  }

  /** The trace branch of the scan: a fresh stable pixel whose left
      neighbour is not stable starts a boundary trace. */
  method TraceFrom(s: State, ev: Evaluator, x: nat, y: nat, fuel: nat) returns (s': State, hung: bool)
    requires Valid(s) && x < s.ctx.winWidth && y < |s.plot| && s.plot[y][x].Stable()
    ensures Progress(s, s', ev)
    ensures s'.plot[y][x] == s.plot[y][x]
    ensures OnlySettled(s.plot, s'.plot, ev, s.ctx.offset, s.ctx.maxIters, s.ctx.winWidth)
    ensures TraceRan(s.plot, s'.plot, ev, s.ctx.offset, s.ctx.maxIters, s.ctx.winWidth, x, y, fuel, !hung)
  {
    var closed, path;
    s', closed, path := TraceEdge(s, ev, x, y, fuel);
    AdvancesKeepsProcessed(s.plot, s'.plot, ev, s.ctx.offset, s.ctx.maxIters, x, y);
    hung := !closed;
    assert Traced(s.plot, s'.plot, ev, s.ctx.offset, s.ctx.maxIters, s.ctx.winWidth, x, y, path);
  }

  /** `calculate_point` on pixel (`x`, `y`), stored back into the grid. */
  method SettlePixel(s: State, ev: Evaluator, x: nat, y: nat) returns (s1: State)
    requires Valid(s) && x < s.ctx.winWidth && y < |s.plot|
    ensures Progress(s, s1, ev)
    ensures s1.plot == Put(s.plot, x, y, Settle(s.plot[y][x], ev, x, y + s.ctx.offset, s.ctx.maxIters))
    ensures s.plot[y][x].Processed() ==> s1 == s
    ensures StartsRegion(s, ev, x, y) ==> s1.plot[y][x].Stable()
  {
    var c := CalculatePoint(s.ctx, s.plot[y][x], ev, x, y + s.ctx.offset);
    if c.wasProcessed {
      ProgressReflexive(s, ev);
      assert s.plot[y][x := s.plot[y][x]] == s.plot[y];
      s1 := s;
    } else {
      CalculateProgress(s, ev, x, y);
      s1 := State(c.ctx, Put(s.plot, x, y, c.point));
    }
  }

  /** The fast-fill branch, stated against the grid before the pixel was
      evaluated. */
  method FillBranch(s: State, s1: State, ev: Evaluator, x: nat, y: nat) returns (s': State, next: nat)
    requires Valid(s) && x < s.ctx.winWidth && y < |s.plot| && Progress(s, s1, ev)
    requires s1.plot == Put(s.plot, x, y, Settle(s.plot[y][x], ev, x, y + s.ctx.offset, s.ctx.maxIters))
    ensures Progress(s, s', ev)
    ensures x < next <= s.ctx.winWidth && ColsDone(s'.plot, y, x, next)
    ensures s'.plot[y][x] == Settle(s.plot[y][x], ev, x, y + s.ctx.offset, s.ctx.maxIters)
    ensures FilledRun(s.plot, s'.plot, s.ctx.maxIters, ev.smooth, s.ctx.winWidth, y, x + 1, next)
    ensures forall c :: x < c < next - 1 ==> s'.plot[y][c].Stable()
    ensures x + 1 < s.ctx.winWidth ==> !s'.plot[y][next - 1].Stable() || next == s.ctx.winWidth
    ensures SameOutside(s.plot, s'.plot, s.ctx.winWidth, y, x, next)
  {
    s', next := FillRight(s1, ev, x, y);
    ProgressTransitive(s, s1, s', ev);
    FillFrame(s.plot, s1.plot, s'.plot, s.ctx.winWidth, x, y, next, s1.plot[y][x]);
    assert FilledRun(s1.plot, s'.plot, s.ctx.maxIters, ev.smooth, s.ctx.winWidth, y, x + 1, next);
    forall c | x + 1 <= c < next
      ensures s1.plot[y][c] == s.plot[y][c]
    {
    }
  }

  /** The trace branch, stated against the grid before the pixel was
      evaluated. */
  method TraceBranch(s: State, s1: State, ev: Evaluator, x: nat, y: nat, fuel: nat) returns (s': State, hung: bool)
    requires Valid(s) && x < s.ctx.winWidth && y < |s.plot| && Progress(s, s1, ev)
    requires s1.plot == Put(s.plot, x, y, Settle(s.plot[y][x], ev, x, y + s.ctx.offset, s.ctx.maxIters))
    requires s1.plot[y][x].Stable()
    ensures Progress(s, s', ev)
    ensures !hung ==> ColsDone(s'.plot, y, x, x + 1)
    ensures s'.plot[y][x] == Settle(s.plot[y][x], ev, x, y + s.ctx.offset, s.ctx.maxIters)
    ensures OnlySettled(s.plot, s'.plot, ev, s.ctx.offset, s.ctx.maxIters, s.ctx.winWidth)
    ensures TraceRan(s1.plot, s'.plot, ev, s.ctx.offset, s.ctx.maxIters, s.ctx.winWidth, x, y, fuel, !hung)
    ensures hung ==> RowWalkHangs(s'.plot, s.ctx.winWidth, y, fuel)
  {
    s', hung := TraceFrom(s1, ev, x, y, fuel);
    TraceRanWalks(s1.plot, s'.plot, ev, s.ctx.offset, s.ctx.maxIters, s.ctx.winWidth, x, y, fuel, !hung);
    ProgressTransitive(s, s1, s', ev);
    TraceFrame(s.plot, s1.plot, s'.plot, ev, s.ctx.offset, s.ctx.maxIters, s.ctx.winWidth, x, y);
  }

  /** What scanning column `x` of row `y` does to `s`, moving the scan on
      to column `next`. The pixel is evaluated. A processed pixel, or a
      fresh one that escapes, changes nothing else and the scan moves on by
      one column. A fresh stable pixel whose left neighbour is stable
      (`near_border`) fast-fills the run to its right, up to the first
      processed unstable pixel or the last column, changes nothing outside
      that run, and the scan resumes after it. Any other fresh stable pixel
      starts a boundary trace, which settles exactly the neighbours of its
      walk; `hung` reports that this walk did not return within `fuel`
      steps. */
  ghost predicate PixelStep(s: State, s': State, ev: Evaluator, x: nat, y: nat, fuel: nat, next: nat, hung: bool)
    requires Valid(s) && x < s.ctx.winWidth && y < |s.plot|
  {
    var w, offset, maxIters := s.ctx.winWidth, s.ctx.offset, s.ctx.maxIters;
    var settled := Put(s.plot, x, y, Settle(s.plot[y][x], ev, x, y + offset, maxIters));
    && Progress(s, s', ev)
    && (!hung ==> x < next <= w && ColsDone(s'.plot, y, x, next))
    && s'.plot[y][x] == Settle(s.plot[y][x], ev, x, y + offset, maxIters)
    && (!StartsRegion(s, ev, x, y) ==> !hung && next == x + 1 && s'.plot == settled)
    && (StartsRegion(s, ev, x, y) && NearBorder(s.plot, x - 1, y) ==>
          && !hung
          && FilledRun(s.plot, s'.plot, maxIters, ev.smooth, w, y, x + 1, next)
          && (forall c :: x < c < next - 1 ==> s'.plot[y][c].Stable())
          && (x + 1 < w ==> !s'.plot[y][next - 1].Stable() || next == w)
          && SameOutside(s.plot, s'.plot, w, y, x, next))
    && (StartsRegion(s, ev, x, y) && !NearBorder(s.plot, x - 1, y) ==>
          && next == x + 1
          && TraceRan(settled, s'.plot, ev, offset, maxIters, w, x, y, fuel, !hung))
    && (hung ==> RowWalkHangs(s'.plot, w, y, fuel))
  }

  /** The body of the inner scan loop of `process_plot_cpu` for column `x`
      of row `y`. */
  method ScanPixel(s: State, ev: Evaluator, x: nat, y: nat, fuel: nat) returns (s': State, next: nat, hung: bool)
    requires Valid(s) && x < s.ctx.winWidth && y < |s.plot|
    ensures Progress(s, s', ev)
    ensures PixelStep(s, s', ev, x, y, fuel, next, hung)
  {
    var s1 := SettlePixel(s, ev, x, y);
    s', next, hung := s1, x + 1, false;
    if !StartsRegion(s, ev, x, y) {
      return;
    }
    if NearBorder(s1.plot, x - 1, y) {
      s', next := FillBranch(s, s1, ev, x, y);
    } else {
      s', hung := TraceBranch(s, s1, ev, x, y, fuel);
    }
  }

  /** Setting (`x`, `y`) and then changing only columns after `x` of row `y`
      changes only columns `x ..` of row `y`. */
  lemma FillFrame(g: Plot, g1: Plot, g2: Plot, w: nat, x: nat, y: nat, next: nat, p: PlotPoint)
    requires Shaped(g, w) && y < |g| && x < w && x < next <= w && g1 == Put(g, x, y, p)
    requires Shaped(g2, w) && |g2| == |g|
    requires SameOutside(g1, g2, w, y, x + 1, next)
    ensures SameOutside(g, g2, w, y, x, next)
  {
  }

  /** Settling (`x`, `y`) and then settling more pixels only settles
      pixels. */
  lemma TraceFrame(g: Plot, g1: Plot, g2: Plot, ev: Evaluator, offset: nat, maxIters: nat, w: nat, x: nat, y: nat)
    requires Shaped(g, w) && y < |g| && x < w
    requires g1 == Put(g, x, y, Settle(g[y][x], ev, x, y + offset, maxIters))
    requires Shaped(g2, w) && |g2| == |g| && g2[y][x] == g1[y][x]
    requires OnlySettled(g1, g2, ev, offset, maxIters, w)
    ensures OnlySettled(g, g2, ev, offset, maxIters, w)
  {
    forall yy, c | 0 <= yy < |g| && 0 <= c < w
      ensures g2[yy][c] == g[yy][c] || g2[yy][c] == Settle(g[yy][c], ev, c, yy + offset, maxIters)
    {
      if (yy, c) != (y, x) {
        assert g1[yy][c] == g[yy][c];
        assert g2[yy][c] == g1[yy][c] || g2[yy][c] == Settle(g1[yy][c], ev, c, yy + offset, maxIters);
      }
    }
  }

  /** `states` and `cols` record a scan of row `y`: it starts at column 0,
      and scanning column `cols[i]` takes `states[i]` to `states[i + 1]` and
      moves the scan on to column `cols[i + 1]`. Only the last step may
      hang. */
  ghost predicate RowSteps(states: seq<State>, cols: seq<nat>, ev: Evaluator, y: nat, fuel: nat, hung: bool)
  {
    && |states| == |cols| >= 1
    && cols[0] == 0
    && forall i :: 0 <= i < |states| - 1 ==>
         && Valid(states[i]) && y < |states[i].plot| && cols[i] < states[i].ctx.winWidth
         && PixelStep(states[i], states[i + 1], ev, cols[i], y, fuel, cols[i + 1], hung && i == |states| - 2)
  }

  /** `s'` is `s` after scanning row `y` pixel by pixel from column 0: to the
      end of the row, or until a trace hangs. */
  ghost predicate ScannedRow(s: State, s': State, ev: Evaluator, y: nat, fuel: nat, hung: bool)
  {
    exists states: seq<State>, cols: seq<nat> :: RowRecord(states, cols, s, s', ev, y, fuel, hung)
  }

  /** `states` and `cols` are a record of the scan of row `y` from `s` to
      `s'`: it reaches the row end, or its last step hangs in this row. */
  ghost predicate RowRecord(states: seq<State>, cols: seq<nat>, s: State, s': State, ev: Evaluator, y: nat, fuel: nat,
                            hung: bool)
  {
    && RowSteps(states, cols, ev, y, fuel, hung)
    && states[0] == s && states[|states| - 1] == s'
    && (hung ==> |states| >= 2)
    && (!hung ==> cols[|cols| - 1] >= s.ctx.winWidth)
    && (hung ==> HangsInRow(s'.plot, s.ctx.winWidth, y, fuel))
  }

  /** A scan of one more column extends the record of a row scan. */
  lemma RowStepsExtend(states: seq<State>, cols: seq<nat>, ev: Evaluator, y: nat, fuel: nat,
                       s2: State, next: nat, hung: bool)
    requires RowSteps(states, cols, ev, y, fuel, false)
    requires var last := states[|states| - 1];
             && Valid(last) && y < |last.plot| && cols[|cols| - 1] < last.ctx.winWidth
             && PixelStep(last, s2, ev, cols[|cols| - 1], y, fuel, next, hung)
    ensures RowSteps(states + [s2], cols + [next], ev, y, fuel, hung)
  {
    var states', cols' := states + [s2], cols + [next];
    forall i | 0 <= i < |states'| - 1
      ensures && Valid(states'[i]) && y < |states'[i].plot| && cols'[i] < states'[i].ctx.winWidth
              && PixelStep(states'[i], states'[i + 1], ev, cols'[i], y, fuel, cols'[i + 1], hung && i == |states'| - 2)
    {
      if i < |states| - 1 {
        assert states'[i] == states[i] && states'[i + 1] == states[i + 1];
        assert cols'[i] == cols[i] && cols'[i + 1] == cols[i + 1];
        assert (hung && i == |states'| - 2) == (false && i == |states| - 2);
      }
    }
  }

  /** A complete record of a row scan makes it a scanned row. */
  lemma ScannedRowIntro(s: State, s': State, ev: Evaluator, y: nat, fuel: nat, hung: bool,
                        states: seq<State>, cols: seq<nat>)
    requires RowSteps(states, cols, ev, y, fuel, hung) && states[0] == s && states[|states| - 1] == s'
    requires hung ==> |states| >= 2
    requires !hung ==> cols[|cols| - 1] >= s.ctx.winWidth
    requires hung ==> HangsInRow(s'.plot, s.ctx.winWidth, y, fuel)
    ensures ScannedRow(s, s', ev, y, fuel, hung)
  {
    assert RowRecord(states, cols, s, s', ev, y, fuel, hung);
  }

  /** The loop invariant of `ScanRow` once the scan has reached column `x`:
      the columns before it are processed, and `states` and `cols` record
      the scan so far. */
  ghost predicate RowSoFar(s: State, s': State, ev: Evaluator, y: nat, fuel: nat, x: nat,
                           states: seq<State>, cols: seq<nat>)
    requires Valid(s) && y < |s.plot|
  {
    && x <= s.ctx.winWidth
    && Progress(s, s', ev)
    && ColsDone(s'.plot, y, 0, x)
    && RowSteps(states, cols, ev, y, fuel, false)
    && states[0] == s && states[|states| - 1] == s' && cols[|cols| - 1] == x
  }

  /** One pass of the inner loop of `process_plot_cpu`: scan column `x`. */
  method ScanColumn(s: State, cur: State, ev: Evaluator, y: nat, fuel: nat, x: nat,
                    ghost states: seq<State>, ghost cols: seq<nat>)
    returns (cur': State, next: nat, hung: bool, ghost states': seq<State>, ghost cols': seq<nat>)
    requires Valid(s) && y < |s.plot| && x < s.ctx.winWidth
    requires RowSoFar(s, cur, ev, y, fuel, x, states, cols)
    ensures Progress(s, cur', ev)
    ensures !hung ==> x < next && RowSoFar(s, cur', ev, y, fuel, next, states', cols')
    ensures hung ==> RowWalkHangs(cur'.plot, s.ctx.winWidth, y, fuel)
    ensures hung ==> && RowSteps(states', cols', ev, y, fuel, true)
                     && states'[0] == s && states'[|states'| - 1] == cur' && |states'| >= 2
  {
    cur', next, hung := ScanPixel(cur, ev, x, y, fuel);
    RowStepsExtend(states, cols, ev, y, fuel, cur', next, hung);
    states', cols' := states + [cur'], cols + [next];
    DonePersists(cur, cur', ev, 0, 0, y, 0, x);
    ProgressTransitive(s, cur, cur', ev);
  }

  /** The inner loop of `process_plot_cpu`: scan row `y` left to right, one
      `ScanPixel` per column reached. */
  method ScanRow(s: State, ev: Evaluator, y: nat, fuel: nat) returns (s': State, hung: bool)
    requires Valid(s) && y < |s.plot|
    ensures Progress(s, s', ev)
    ensures !hung ==> ColsDone(s'.plot, y, 0, s.ctx.winWidth)
    ensures hung ==> RowWalkHangs(s'.plot, s.ctx.winWidth, y, fuel)
    ensures ScannedRow(s, s', ev, y, fuel, hung)
  {
    var w := s.ctx.winWidth;
    s', hung := s, false;
    ProgressReflexive(s, ev);
    var x := 0;
    ghost var states, cols := [s], [0];
    while x < w
      invariant RowSoFar(s, s', ev, y, fuel, x, states, cols) && !hung
      decreases w - x
    {
      var next;
      s', next, hung, states, cols := ScanColumn(s, s', ev, y, fuel, x, states, cols);
      if hung {
        ScannedRowIntro(s, s', ev, y, fuel, hung, states, cols);
        return;
      }
      x := next;
    }
    ScannedRowIntro(s, s', ev, y, fuel, hung, states, cols);
  }

  /** The number of rows a chunk scans: `min(rp + chunk, len) - rp`, or 0
      when the scan is already past the end. */
  function ChunkRows(rp: nat, chunk: nat, len: nat): (n: nat)
    ensures n == if rp < len then Min(rp + chunk, len) - rp else 0
    ensures n <= chunk && rp + n <= Max(rp, len)
  {
    if rp + chunk <= len then chunk
    else if rp <= len then len - rp
    else 0
  }

  /** `states` records a chunk scan from row `rp`: scanning row `rp + i`
      takes `states[i]` to `states[i + 1]`. Only the last row may hang. */
  ghost predicate ChunkSteps(states: seq<State>, ev: Evaluator, rp: nat, fuel: nat, hung: bool)
  {
    && |states| >= 1
    && forall i :: 0 <= i < |states| - 1 ==> RowLink(states, i, ev, rp, fuel, hung)
  }

  /** Step `i` of a chunk record: scanning row `rp + i` takes `states[i]` to
      `states[i + 1]`, and only the last step may hang. */
  ghost predicate RowLink(states: seq<State>, i: nat, ev: Evaluator, rp: nat, fuel: nat, hung: bool)
    requires i < |states| - 1
  {
    && Valid(states[i]) && rp + i < |states[i].plot| && states[i].ctx.winWidth == states[0].ctx.winWidth
    && ScannedRow(states[i], states[i + 1], ev, rp + i, fuel, hung && i == |states| - 2)
  }

  /** `s'` is `s` after scanning `rows` whole rows from `rows_processed` on,
      and, when `hung`, part of one more row. */
  ghost predicate ScannedChunk(s: State, s': State, ev: Evaluator, fuel: nat, rows: nat, hung: bool)
  {
    exists states: seq<State> :: ChunkRecord(states, s, s', ev, fuel, rows, hung)
  }

  /** `states` is a record of the chunk scan from `s` to `s'`. */
  ghost predicate ChunkRecord(states: seq<State>, s: State, s': State, ev: Evaluator, fuel: nat, rows: nat, hung: bool)
  {
    && ChunkSteps(states, ev, s.ctx.rowsProcessed, fuel, hung)
    && states[0] == s && states[|states| - 1] == s'
    && |states| == rows + 1 + (if hung then 1 else 0)
  }

  /** A scan of one more row extends the record of a chunk scan. */
  lemma ChunkStepsExtend(states: seq<State>, ev: Evaluator, rp: nat, fuel: nat, s2: State, hung: bool)
    requires ChunkSteps(states, ev, rp, fuel, false)
    requires var last := states[|states| - 1];
             && Valid(last) && rp + |states| - 1 < |last.plot| && last.ctx.winWidth == states[0].ctx.winWidth
             && ScannedRow(last, s2, ev, rp + |states| - 1, fuel, hung)
    ensures ChunkSteps(states + [s2], ev, rp, fuel, hung)
  {
    var states' := states + [s2];
    assert states'[0] == states[0];
    forall i | 0 <= i < |states'| - 1
      ensures RowLink(states', i, ev, rp, fuel, hung)
    {
      if i < |states| - 1 {
        assert RowLink(states, i, ev, rp, fuel, false);
        assert states'[i] == states[i] && states'[i + 1] == states[i + 1];
      }
    }
  }

  /** A hung trace from a pixel of row `y` is a hung trace in the grid. */
  lemma HangInChunk(g: Plot, w: nat, y: nat, fuel: nat)
    requires Shaped(g, w) && y < |g| && RowWalkHangs(g, w, y, fuel)
    ensures SomeWalkHangs(g, w, fuel)
  {
  }

  /** A chunk scan that hangs hangs in the row after the whole rows it
      scanned. */
  lemma ChunkHangsInRow(s: State, s': State, ev: Evaluator, fuel: nat, rows: nat)
    requires ScannedChunk(s, s', ev, fuel, rows, true)
    ensures HangsInRow(s'.plot, s.ctx.winWidth, s.ctx.rowsProcessed + rows, fuel)
  {
    var states :| ChunkRecord(states, s, s', ev, fuel, rows, true);
    assert RowLink(states, rows, ev, s.ctx.rowsProcessed, fuel, true);
  }

  /** A complete record of a chunk scan makes it a scanned chunk. */
  lemma ScannedChunkIntro(s: State, s': State, ev: Evaluator, fuel: nat, rows: nat, hung: bool, states: seq<State>)
    requires ChunkSteps(states, ev, s.ctx.rowsProcessed, fuel, hung) && states[0] == s && states[|states| - 1] == s'
    requires |states| == rows + 1 + (if hung then 1 else 0)
    ensures ScannedChunk(s, s', ev, fuel, rows, hung)
  {
    assert ChunkRecord(states, s, s', ev, fuel, rows, hung);
  }

  /** The loop invariant of `ProcessPlotCpu`, next to `Progress`, once rows
      `rp .. y-1` are scanned: they are processed, and `states` records the
      scan so far. */
  ghost predicate ChunkSoFar(s: State, s': State, ev: Evaluator, fuel: nat, y: nat, states: seq<State>)
    requires Valid(s)
  {
    && s.ctx.rowsProcessed <= y
    && Shaped(s'.plot, s.ctx.winWidth)
    && RowsDone(s'.plot, s.ctx.winWidth, s.ctx.rowsProcessed, y)
    && ChunkSteps(states, ev, s.ctx.rowsProcessed, fuel, false)
    && states[0] == s && states[|states| - 1] == s' && |states| == y - s.ctx.rowsProcessed + 1
  }

  /** One pass of the outer loop of `process_plot_cpu`: scan row `y`. */
  method ScanNextRow(s: State, cur: State, ev: Evaluator, y: nat, fuel: nat, ghost states: seq<State>)
    returns (cur': State, hung: bool, ghost states': seq<State>)
    requires Valid(s) && y < |s.plot| && Progress(s, cur, ev) && ChunkSoFar(s, cur, ev, fuel, y, states)
    ensures Progress(s, cur', ev)
    ensures !hung ==> ChunkSoFar(s, cur', ev, fuel, y + 1, states')
    ensures hung ==> RowWalkHangs(cur'.plot, s.ctx.winWidth, y, fuel)
    ensures hung ==> && ChunkSteps(states', ev, s.ctx.rowsProcessed, fuel, true)
                     && states'[0] == s && states'[|states'| - 1] == cur'
                     && |states'| == y - s.ctx.rowsProcessed + 2
  {
    cur', hung := ScanRow(cur, ev, y, fuel);
    ChunkStepsExtend(states, ev, s.ctx.rowsProcessed, fuel, cur', hung);
    states' := states + [cur'];
    DonePersists(cur, cur', ev, s.ctx.rowsProcessed, y, y, 0, 0);
    ProgressTransitive(s, cur, cur', ev);
    if !hung {
      RowsDoneExtend(cur'.plot, s.ctx.winWidth, s.ctx.rowsProcessed, y);
    }
  }

  /** `process_plot_cpu`: scan rows `rows_processed ..
      min(rows_processed + chunk_size, len) - 1` of the slice, returning how
      many rows were scanned. Every pixel of those rows is processed
      afterwards, nothing already processed changes, `rows_processed` itself
      is not advanced, and the observed range covers every value computed.
      `hung` reports a boundary trace that did not return within `fuel`
      steps, where the source would not terminate: the grid then holds a
      walk of `fuel` steps from a stable pixel that never comes back. */
  method ProcessPlotCpu(s: State, ev: Evaluator, fuel: nat) returns (s': State, rows: nat, hung: bool)
    requires Valid(s)
    ensures Progress(s, s', ev)
    ensures s'.ctx.rowsProcessed == s.ctx.rowsProcessed && s'.ctx.offset == s.ctx.offset
    ensures !hung ==> rows == ChunkRows(s.ctx.rowsProcessed, s.ctx.chunkSize, |s.plot|)
    ensures !hung ==> RowsDone(s'.plot, s.ctx.winWidth, s.ctx.rowsProcessed, s.ctx.rowsProcessed + rows)
    ensures hung ==> rows < ChunkRows(s.ctx.rowsProcessed, s.ctx.chunkSize, |s.plot|)
    ensures ScannedChunk(s, s', ev, fuel, rows, hung)
    ensures hung ==> SomeWalkHangs(s'.plot, s.ctx.winWidth, fuel)
  {
    var rp := s.ctx.rowsProcessed;
    var end := if rp + s.ctx.chunkSize < |s.plot| then rp + s.ctx.chunkSize else |s.plot|;
    s', rows, hung := s, 0, false;
    ProgressReflexive(s, ev);
    var y := rp;
    ghost var states := [s];
    while y < end
      invariant (y <= end || rows == 0) && rows == y - rp && !hung
      invariant Progress(s, s', ev) && ChunkSoFar(s, s', ev, fuel, y, states)
    {
      s', hung, states := ScanNextRow(s, s', ev, y, fuel, states);
      if hung {
        HangInChunk(s'.plot, s.ctx.winWidth, y, fuel);
        ScannedChunkIntro(s, s', ev, fuel, rows, hung, states);
        return;
      }
      y := y + 1;
      rows := rows + 1;
    }
    ScannedChunkIntro(s, s', ev, fuel, rows, hung, states);
  }
}
