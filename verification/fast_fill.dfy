/** `process_fast`: the rightward fill of a row from a known-stable pixel,
    as written in src/lib.rs and with its right edge bounded. */
module FastFill {
  import opened Outcomes
  import opened PlotPoints
  import opened Context
  import opened Grid

  /** The `max` column of `process_fast`: `min(w - ((w - 1) % 1) - 1, w - 1)`,
      which is always the last column. */
  function FastFillLimit(w: nat): (m: nat)
    requires 0 < w
    ensures m == w - 1
  {
    Min(w - (w - 1) % 1 - 1, w - 1)
  }

  /** `process_fast` exactly as written, on one row: from column `x`, stop
      at a processed pixel that is non-stable or in the last column, fill an
      unprocessed pixel, step over a stable one. Reading `row[x]` with
      `x >= |row|` panics in the source. */
  function FastFillAsWritten(row: seq<PlotPoint>, x: nat, maxIters: nat, smooth: Smoothing)
    : Result<(seq<PlotPoint>, nat), Panic>
    decreases |row| - x
  {
    if x >= |row| then
      Err(IndexOutOfBounds(x))
    else
      var p := row[x];
      if p.Processed() && (!p.Stable() || (p.Stable() && x == FastFillLimit(|row|))) then
        Ok((row, x))
      else
        var row' := if !p.Stable() then row[x := FastFilled(p, maxIters, smooth)] else row;
        FastFillAsWritten(row', x + 1, maxIters, smooth)
  }

  /** Where the fill as written ends: when it does not panic, at a processed
      pixel that is non-stable or in the last column, having changed no
      pixel outside the columns it passed; when it panics, by reading the
      column just past the row (or its start column, if that already lies
      past the row). */
  lemma {:induction false} FastFillAsWrittenStops(row: seq<PlotPoint>, x: nat, maxIters: nat, smooth: Smoothing)
    ensures var r := FastFillAsWritten(row, x, maxIters, smooth);
            && (r.Ok? ==>
                  var (row', e) := r.value;
                  && |row'| == |row| && x <= e < |row|
                  && row'[e] == row[e] && row'[e].Processed() && (!row'[e].Stable() || e == |row| - 1)
                  && forall c :: 0 <= c < |row| && !(x <= c < e) ==> row'[c] == row[c])
            && (r.Err? ==> r.error == IndexOutOfBounds(if x < |row| then |row| else x))
    decreases |row| - x
  {
    if x < |row| {
      var p := row[x];
      if !(p.Processed() && (!p.Stable() || (p.Stable() && x == FastFillLimit(|row|)))) {
        var row' := if !p.Stable() then row[x := FastFilled(p, maxIters, smooth)] else row;
        FastFillAsWrittenStops(row', x + 1, maxIters, smooth);
      }
    }
  }

  /** No pixel of `row` in columns `x .. e-1` is processed and non-stable. */
  predicate NoStopBefore(row: seq<PlotPoint>, x: nat, e: nat)
    requires e <= |row|
  {
    forall c :: x <= c < e ==> !(row[c].Processed() && !row[c].Stable())
  }

  /** As written, the fill panics exactly when it starts past the last column,
      or when it meets no processed non-stable pixel before the last column
      and the last column is still unprocessed: it fills that pixel and then
      reads the column after it. */
  lemma {:induction false} FastFillPanicsExactly(row: seq<PlotPoint>, x: nat, maxIters: nat, smooth: Smoothing)
    ensures FastFillAsWritten(row, x, maxIters, smooth).Err? <==>
              || x >= |row|
              || (NoStopBefore(row, x, |row| - 1) && !row[|row| - 1].Processed())
    decreases |row| - x
  {
    if x < |row| {
      var p := row[x];
      if !(p.Processed() && (!p.Stable() || x == |row| - 1)) {
        var row' := if !p.Stable() then row[x := FastFilled(p, maxIters, smooth)] else row;
        FastFillPanicsExactly(row', x + 1, maxIters, smooth);
        if x + 1 < |row| {
          assert NoStopBefore(row, x, |row| - 1) <==> NoStopBefore(row', x + 1, |row| - 1) by {
            if NoStopBefore(row', x + 1, |row| - 1) {
              forall c | x <= c < |row| - 1
                ensures !(row[c].Processed() && !row[c].Stable())
              {
                if c > x { assert row'[c] == row[c]; }
              }
            }
            if NoStopBefore(row, x, |row| - 1) {
              forall c | x + 1 <= c < |row| - 1
                ensures !(row'[c].Processed() && !row'[c].Stable())
              {
                assert row'[c] == row[c];
              }
            }
          }
          assert row'[|row| - 1] == row[|row| - 1];
        }
      }
    }
  }

  /** A one-pixel row whose only pixel is unprocessed: the fill marks it and
      then reads column 1. */
  lemma FastFillOverrunsRightEdge(smooth: Smoothing)
    ensures FastFillAsWritten([DefaultPoint], 0, 500, smooth) == Err(IndexOutOfBounds(1))
  {
    var filled := [FastFilled(DefaultPoint, 500, smooth)];
    assert FastFillAsWritten([DefaultPoint], 0, 500, smooth) == FastFillAsWritten(filled, 1, 500, smooth);
  }

  /** `process_plot_cpu` starts the fill at `cur_x + 1`, which is the row's
      width when the stable pixel is in the last column. */
  lemma FastFillFromPastLastColumn(row: seq<PlotPoint>, maxIters: nat, smooth: Smoothing)
    ensures FastFillAsWritten(row, |row|, maxIters, smooth) == Err(IndexOutOfBounds(|row|))
  {
  }

  /** `process_fast` with the right edge bounded: it behaves as written, except
      that on reaching the end of the row it stops at the last column instead
      of reading past it (and, started one past the last column, it returns
      the last column without touching anything). The returned column `r` is
      the end of a run of stable pixels. */
  method ProcessFast(s: State, ev: Evaluator, x: nat, y: nat) returns (s': State, r: nat)
    requires Valid(s)
    requires y < |s.plot|
    requires 0 < s.ctx.winWidth && x <= s.ctx.winWidth
    ensures s'.ctx == s.ctx
    ensures Progress(s, s', ev)
    ensures r < s.ctx.winWidth
    ensures x == s.ctx.winWidth ==> r == x - 1 && s' == s
    ensures x < s.ctx.winWidth ==> x <= r
    ensures x < s.ctx.winWidth ==>
              && s'.plot[y][r].Processed()
              && (!s'.plot[y][r].Stable() || r == s.ctx.winWidth - 1)
    ensures forall c :: x <= c < r ==> s'.plot[y][c].Stable()
    ensures forall c :: x <= c <= r && c < s.ctx.winWidth ==>
              s'.plot[y][c] == (if s.plot[y][c].Processed() then s.plot[y][c]
                                else FastFilled(s.plot[y][c], s.ctx.maxIters, ev.smooth))
    ensures forall yy, c :: 0 <= yy < |s.plot| && 0 <= c < s.ctx.winWidth && (yy != y || c < x || r < c) ==>
              s'.plot[yy][c] == s.plot[yy][c]
    ensures FastFillAsWritten(s.plot[y], x, s.ctx.maxIters, ev.smooth).Ok? ==>
              FastFillAsWritten(s.plot[y], x, s.ctx.maxIters, ev.smooth).value == (s'.plot[y], r)
  {
    var w := s.ctx.winWidth;
    var maxIters := s.ctx.maxIters;
    var row0 := s.plot[y];
    var row := row0;
    var cur := x;
    while cur < w
      invariant x <= cur <= w
      invariant |row| == w
      invariant forall c :: 0 <= c < w ==>
                  row[c] == (if x <= c < cur && !row0[c].Processed() then FastFilled(row0[c], maxIters, ev.smooth) else row0[c])
      invariant forall c :: x <= c < cur ==> row[c].Stable()
      invariant FastFillAsWritten(row0, x, maxIters, ev.smooth) == FastFillAsWritten(row, cur, maxIters, ev.smooth)
    {
      var p := row[cur];
      if p.Processed() && (!p.Stable() || (p.Stable() && cur == FastFillLimit(w))) {
        s', r := State(s.ctx, s.plot[y := row]), cur;
        FastFillProgress(s, s', ev, y, row);
        return;
      } else if !p.Stable() {
        row := row[cur := FastFilled(p, maxIters, ev.smooth)];
      }
      cur := cur + 1;
    }
    // The source reads column `w` here and panics; the bounded fill stops.
    if x == w {
      assert row == row0;
      assert s.plot[y := row] == s.plot;
    }
    s', r := State(s.ctx, s.plot[y := row]), w - 1;
    FastFillProgress(s, s', ev, y, row);
  }

  /** Replacing row `y` by a copy in which some unprocessed pixels are
      fast-filled is progress. */
  lemma FastFillProgress(s: State, s': State, ev: Evaluator, y: nat, row: seq<PlotPoint>)
    requires Valid(s) && y < |s.plot| && |row| == s.ctx.winWidth
    requires forall c :: 0 <= c < |row| ==>
               row[c] == s.plot[y][c] || (!s.plot[y][c].Processed() && row[c] == FastFilled(s.plot[y][c], s.ctx.maxIters, ev.smooth))
    requires s' == State(s.ctx, s.plot[y := row])
    ensures Progress(s, s', ev)
  {
    forall yy, c | 0 <= yy < |s.plot| && 0 <= c < |s.plot[yy]|
      ensures CellAdvances(s.plot[yy][c], s'.plot[yy][c], ev, c, yy + s.ctx.offset, s.ctx.maxIters)
      ensures !s.plot[yy][c].Processed() && s'.plot[yy][c].Processed() ==> InRange(s'.ctx, s'.plot[yy][c].calcVal.value)
    {
    }
  }
}
