# Mandelbrot grid scan — a Dafny model

This project models the grid algorithm of a WebAssembly Mandelbrot plotter.
The plot is a grid of `PlotPoint`s, one per pixel. Each point is evaluated at
most once. `process_plot_cpu` scans a chunk of rows left to right. A freshly
evaluated stable pixel (one inside the set) whose left neighbour is also stable
starts a fast fill to its right (`process_fast`). Any other freshly evaluated
stable pixel starts a boundary trace (`trace_edge` / `process_neighbours`). The
worker's `draw_plot_cpu` splits the grid at the row of the real axis into three
bands:

- an evaluated upper band;
- a band copied row by row from the mirror image of the upper band;
- an evaluated lower band.

After the split, `draw_plot_cpu` advances the chunk counters. `set_pixel`
writes one RGBA pixel into the image buffer.

The floating-point escape iteration is abstracted into an `Evaluator`:
`escape(x, row)` says whether the iteration at a pixel stays bounded or
escapes, and with which magnitude and iteration count. `smooth` is the
log-smoothing of an escaped magnitude; it gives a finite number or NaN (the
logarithm of a non-positive number, for an escape at a small iteration
count). The stable magnitude 0 is stored with the metric NaN, which never
changes the observed value range. Grids are
immutable `seq<seq<PlotPoint>>` values threaded through the methods.

Modules (one file each):

| file | module | contents |
|---|---|---|
| outcomes.dfy | Outcomes | `Option`, `Result`, the index-out-of-bounds panic |
| plot_point.dfy | PlotPoints | `PlotPoint`, the evaluator, evaluation and fast-fill stores |
| context.dfy | Context | the integer and range fields of `Ctx`, `calculate_point` |
| directions.dfy | Directions | `TraceDirection`, the neighbour table, the probe order |
| grid.dfy | Grid | grids, well-formedness, the progress relation, `near_border` |
| fast_fill.dfy | FastFill | `process_fast` as written and corrected |
| trace.dfy | Trace | `process_point`, `process_neighbours`, `trace_edge` |
| scan.dfy | Scan | `process_plot_cpu` |
| bands.dfy | Bands | the band arithmetic of `draw_plot_cpu` |
| worker.dfy | Worker | plot allocation and reset, the banded chunk step |
| pixels.dfy | Pixels | the RGBA buffer and `set_pixel` |

The central invariant is `Grid.Progress(s, s', ev)`. It holds when the grid
keeps its shape and the observed range only widens. Every cell either stays
as it was, or goes from unprocessed to exactly what the evaluator gives at
its global row, or goes to the fast-fill store. Every newly processed value
lies inside the new range, and each bound of the range is either the old
bound or a value newly computed along the way. Every scanning operation
establishes it, and `Grid.ProgressTransitive` composes it.

The order in which `process_neighbours` probes the eight neighbours follows
the code: `NEIGHBOURS.iter().rev().cycle().skip(8 - d + 3).take(8)`. Slot `k`
therefore probes neighbour index `(d + 4 - k) mod 8`. It starts with the
neighbour opposite the incoming direction and walks the table backwards.

## Model

| member | source | states |
|---|---|---|
| PlotPoints.PlotPoint.Calculate | src/lib.rs:132-139 | allowed only on an unprocessed point; the result is processed, stable exactly when the magnitude is 0, then with a NaN metric and otherwise with the smoothing of magnitude and count (which may itself be NaN), and keeps `filled` |
| PlotPoints.PlotPoint.Reset | src/lib.rs:154-157 | the point is no longer processed or filled; magnitude and iteration count survive |
| PlotPoints.StableMeansProcessedZero | src/lib.rs:141-147 | stable implies processed; a processed point is stable exactly when its magnitude is 0 |
| PlotPoints.ResetUndoesCalculate | src/lib.rs:132-157 | resetting a freshly calculated, unfilled point gives back the original point except for the stored magnitude and count |
| PlotPoints.Evaluate | src/lib.rs:344-357 | the escape iteration's store: processed; stable exactly when the iteration stayed bounded, then at the full iteration budget; an escape stores the smoothed metric of its magnitude and count |
| PlotPoints.FastFilled | src/lib.rs:245-248 | the fast-fill store is stable and flagged as filled |
| PlotPoints.FastFillMatchesBoundedEvaluation | src/lib.rs:245-248 | a fast-filled point is exactly a bounded evaluation plus the `filled` flag |
| Context.CalculatePoint | src/lib.rs:324-342 | reports `true` exactly for a processed point and then changes nothing; otherwise evaluates, widens the range to include the new metric, leaves the range alone for NaN, and each bound either stays or becomes the new value |
| Context.RangeWidensTransitive | src/lib.rs:333-339 | two successive range widenings are one widening |
| Directions.Index | src/lib.rs:174-185 | `get_index` maps each direction into 0..7, and the inverse map gives the direction back |
| Directions.NeighboursTable | src/lib.rs:275-284 | entry `k` of the table is the direction with index `k`, and its offsets lead to an adjacent pixel |
| Directions.OffsetsDetermineDirection | src/lib.rs:275-284 | a direction's offsets lead to an adjacent pixel, and the direction between the two pixels is that direction again, so no two directions share an offset |
| Directions.RotationStartsOppositeAndDescends | src/lib.rs:288-293 | the probe order starts at the neighbour opposite the incoming direction and descends through the table modulo 8 |
| Directions.RotationVisitsEachOnce | src/lib.rs:288-293 | the eight probes visit every neighbour exactly once |
| Directions.DirBetween | src/lib.rs:295-296 | the direction between two adjacent pixels is the table entry whose offsets lead from one to the other |
| Grid.AdvancesKeepsProcessed | src/lib.rs:132-135 | a processed point stays processed and unchanged under progress |
| Grid.ProgressTransitive | src/lib.rs:132-135 | progress composes: no processed point is ever recomputed, the range only widens, and each bound of the final range is the first one or a value newly computed in one of the two steps |
| Grid.InRangeCarries | src/lib.rs:333-339 | when the range only widens and processed points stay, points in range before and newly computed points in the new range leave every processed point in range |
| Grid.AttainedComposes | src/lib.rs:333-339 | a bound first computed in either of two successive advances was first computed over both |
| FastFill.FastFillLimit | src/lib.rs:234-237 | the `max` column of `process_fast` is the last column, `win_width - 1` |
| FastFill.FastFillAsWrittenStops | src/lib.rs:239-251 | the loop as written, when it does not panic, stops at a processed pixel that is unstable or in the last column, keeps that pixel and every column outside those it passed; when it panics, it has read index `win_width` (or its start column, if that lies past the row) |
| FastFill.FastFillPanicsExactly | src/lib.rs:239-251 | the loop as written indexes past the row exactly when no stopping point lies between the start and the row end |
| FastFill.FastFillOverrunsRightEdge | src/lib.rs:239-251 | a row of unprocessed points makes the loop as written read column `win_width` |
| FastFill.FastFillFromPastLastColumn | src/lib.rs:214-215 | a fill started at `cur_x + 1` from the last column reads past the row at once |
| FastFill.ProcessFast | src/lib.rs:231-252 | returns the first column at or after the start that is processed and unstable, or processed and stable in the last column, or else the last column; every column before it is processed, the filled ones are exactly the formerly unprocessed ones, the rest of the grid is unchanged, and the result agrees with the loop as written whenever that one does not panic |
| FastFill.FastFillProgress | src/lib.rs:245-248 | fast-filling unprocessed cells of one row is progress |
| Trace.ProcessPoint | src/lib.rs:311-322 | evaluates the pixel if it is unprocessed and reports whether it is stable: for a processed pixel its stored stability, otherwise whether the iteration stays bounded |
| Trace.LastStableNoHit | src/lib.rs:286-308 | when no probed neighbour is stable, the trace position stays at the pixel with direction `Right` |
| Trace.LastStableIsLastHit | src/lib.rs:295-303 | the position returned is the last stable neighbour in probe order, with that neighbour's direction |
| Trace.LastStableMoves | src/lib.rs:295-303 | the position returned is the pixel itself or an adjacent, stable pixel on the grid |
| Trace.LastStableFrame | src/lib.rs:288-306 | the result only depends on the neighbours probed |
| Trace.ProbeSlot | src/lib.rs:295-305 | one probe: bounds-checks the neighbour, settles it, and updates the running result to the last stable neighbour so far |
| Trace.ProbeOnGrid | src/lib.rs:295-303 | the probe of an on-grid neighbour settles it and makes it the running result when it is stable, and keeps the previous result otherwise |
| Trace.ProcessNeighbours | src/lib.rs:268-309 | every on-grid neighbour is settled and nothing else changes; all eight are processed afterwards; the result is the last stable neighbour in probe order |
| Trace.WalkExtends | src/lib.rs:259-264 | a step of the trace extends the walk, and earlier steps stay valid as the grid advances |
| Trace.TraceStep | src/lib.rs:259-264 | one step of the trace: the new position is the last stable neighbour of the previous one, the walk stays a walk, and the settled cells are still exactly the neighbours of the positions stepped from |
| Trace.TracedExtends | src/lib.rs:259-264 | settling the neighbours of one more position extends the trace's frame: touched cells are settled, all others are as before the trace |
| Trace.TraceRanWalks | src/lib.rs:254-266 | a trace that ran along a walk is a walk that comes back within the fuel when it closed, and a walk of exactly `fuel` steps that never comes back otherwise |
| Trace.TraceEdge | src/lib.rs:254-266 | the walk ends exactly when it returns to the start pixel; each step is on a stable pixel and is what `process_neighbours` returns from the previous one; the cells changed are exactly the settled neighbours of the start and of the positions stepped from, none fast-filled; a walk that does not return within the fuel is reported |
| Grid.NearBorder | src/lib.rs:188-196 | false for column -1, otherwise the stability of the pixel; its role, choosing a fast fill over a trace, is stated by Scan.ScanPixel |
| Scan.DonePersists | src/lib.rs:206-211 | rows and columns already processed stay processed under progress |
| Scan.SettlePixel | src/lib.rs:205-211 | the pixel is settled and nothing else changes; a pixel processed before is left alone, and a fresh pixel whose iteration stays bounded becomes stable |
| Scan.FillBranch | src/lib.rs:213-215 | with a stable left neighbour, the cells right of the pixel up to the returned column are fast-filled exactly where they were unprocessed, the run stops at the first processed unstable cell or the row end, and nothing outside the run changes |
| Scan.TraceBranch | src/lib.rs:216-217 | without a stable left neighbour, a trace from the pixel runs along some walk of at most `fuel` steps on stable pixels: the cells it changes are exactly the settled neighbours of the start and of the positions stepped from, none fast-filled; it reports no hang exactly when the walk comes back to the pixel, and a hang means the walk used up the fuel without coming back |
| Scan.ScanPixel | src/lib.rs:188-221 | settles the pixel; a pixel processed before or escaping changes only itself and moves on one column; a fresh stable pixel with a stable left neighbour (`near_border`, false for column -1) fast-fills the run to its right and resumes after it; any other fresh stable pixel traces its edge along a walk that settles exactly the neighbours of its positions and reports a hang exactly when that walk does not return within the fuel |
| Scan.ScanRow | src/lib.rs:202-222 | the row is scanned pixel by pixel from column 0: a recorded sequence of states and columns in which each step is one `ScanPixel` step at the recorded column, moving on to the next recorded column; without a hang the columns run past the row end and every pixel of the row is processed; only the last step may hang, and then a walk from a stable pixel of this row does not return within the fuel |
| Scan.ScanColumn | src/lib.rs:202-221 | one pass of the inner loop extends the record of the row scan by one `ScanPixel` step and keeps the columns before the next one processed |
| Scan.RowStepsExtend | src/lib.rs:202-221 | a record of a row scan followed by one more pixel step at its last column is a record of the longer scan |
| Scan.ChunkRows | src/lib.rs:201 | the chunk covers `min(rows_processed + chunk_size, len) - rows_processed` rows, none when the scan is already past the end |
| Scan.ProcessPlotCpu | src/lib.rs:198-229 | returns the number of rows scanned; the chunk is a recorded sequence of row scans, row `rows_processed + i` taking state `i` to state `i + 1`, each a `ScanRow` scan; every pixel of those rows is processed, nothing processed changes, `rows_processed` and the offset stay, the range covers every value computed and its bounds are such values; a hang stops the chunk before its last row, inside one more row scan |
| Scan.ScanNextRow | src/lib.rs:202-222 | one pass of the outer loop extends the record of the chunk scan by one row scan and keeps the rows before the next one processed |
| Scan.ChunkStepsExtend | src/lib.rs:202-222 | a record of a chunk scan followed by one more row scan of the next row is a record of the longer chunk |
| Scan.ChunkHangsInRow | src/lib.rs:198-229 | a chunk that hangs after `rows` whole rows hangs in row `rows_processed + rows`: a walk from a stable pixel of that row does not return within the fuel |
| Bands.Shift | src/bin/worker.rs:109-113 | the symmetry shift is at most 2 |
| Bands.SplitBands | src/bin/worker.rs:114-122 | the band bounds are ordered within the grid, the mirror band starts right below the axis row, `y3 - y1` cannot underflow, and every mirror row reads an upper-band row |
| Bands.MirrorSourceInUpperBand | src/bin/worker.rs:136-138 | the copy of row `y2 + i` reads row `y1 - i - shift`, which lies in the upper band above the copied band |
| Bands.BandsPartitionRows | src/bin/worker.rs:130-146 | with the copy over all of `y2..=y3`, every row lies in exactly one band |
| Bands.CreditCountsEveryRowOnce | src/bin/worker.rs:124-128 | the `y3 - y1` credit is the number of mirror rows, and a first call covering the grid credits its height |
| Bands.InMirrorAsWritten | src/bin/worker.rs:135-141 | the copy guarded by `y3 > y2` copies only rows of the mirror band `y2..=y3`, and misses one of them exactly when the band is the single row `y2 == y3` |
| Bands.SingleMirrorRowIsSkipped | src/bin/worker.rs:135-141 | with the guard `y3 > y2`, a row lies in no band exactly when it is a one-row mirror band |
| Bands.FourRowCounterexample | src/bin/worker.rs:135-141 | four rows, axis on row 2, exact symmetry: row 3 lies in no band, yet the first chunk credits four rows |
| Worker.NewPlot | src/bin/worker.rs:59-62 | the fresh plot has `win_height` rows of `win_width` default points |
| Worker.ResetPlot | src/bin/worker.rs:63-70 | the reset keeps the shape and leaves every point unprocessed and unfilled |
| Worker.ResetIdempotent | src/bin/worker.rs:63-70 | resetting twice is resetting once |
| Worker.PreparePlot | src/bin/worker.rs:55-70 | the first message allocates, a recalculation request resets, and otherwise the plot is kept as it is |
| Worker.MirrorCopy | src/bin/worker.rs:135-141 | each row of `y2..=y3` becomes its mirror source row and all other rows are unchanged |
| Worker.ScanBand | src/bin/worker.rs:130-146 | the slice at its row offset goes through exactly the `process_plot_cpu` chunk: its rows one after another, each row column by column through the fill-or-trace pixel step; it changes only the slice, advances it at global rows, and processes the chunk's rows; the new bounds are values first computed in the grid, every point newly computed in the grid lies in the new range and points in range before stay in range; a hang is a non-returning walk inside the slice |
| Worker.SpliceInRange | src/bin/worker.rs:130-146 | a slice scan whose new points lie in the new range leaves every newly computed point of the whole grid in range, and keeps a grid whose points were in range so |
| Worker.AttainedInSlice | src/bin/worker.rs:130-146 | a value first computed in a slice was first computed in the whole grid |
| Worker.UpperPhase | src/bin/worker.rs:130-133 | when the axis row is below row 0, rows `0..=y1` at offset 0 go through exactly one `process_plot_cpu` chunk and no other row changes; otherwise nothing changes and no row is scanned; newly computed points lie in the new range and points in range stay so; a hang is a non-returning walk in rows `0..=y1` |
| Worker.LowerPhase | src/bin/worker.rs:143-146 | when rows remain below the mirror band, rows `y4..=y_max` at offset `y4` go through exactly one `process_plot_cpu` chunk and the rows above stay unchanged; otherwise nothing changes and no row is scanned; newly computed points lie in the new range and points in range stay so; a hang is a non-returning walk in rows `y4..=y_max` |
| Worker.BoundsAttainedAcross | src/bin/worker.rs:130-146 | the bounds after both band scans are values computed by the call, since neither the copy nor the lower scan touches the upper band and the lower band is untouched before its scan |
| Worker.MirrorKeepsInRange | src/bin/worker.rs:135-141 | copying rows from the upper band keeps a grid whose processed points lie in range so |
| Worker.NewInRangeAcross | src/bin/worker.rs:130-146 | every point outside the mirror band newly computed by the upper scan, the copy and the lower scan lies in the final range |
| Worker.EvaluateBands | src/bin/worker.rs:130-146 | the upper scan, the copy and the lower scan: without a hang, the upper band's rows go through one `process_plot_cpu` chunk at offset 0 ending in some context, and the lower band's rows through one chunk at offset `y4` starting from that context; the chunk row counts, both bands advanced, the mirror rows copied, the chunk rows processed, every point newly computed outside the mirror band in the final range and a grid in range kept in range; a hang is a non-returning walk in the band that hung |
| Worker.BandChunksIntro | src/bin/worker.rs:130-146 | the upper chunk, the untouched upper rows across the mirror copy and the lower chunk from the upper chunk's context combine into one record of both band scans over the final grid |
| Worker.BandChunksCounters | src/bin/worker.rs:147-149 | updating only `rows_processed` and `total_rows_processed` after the band scans keeps the record of both band scans |
| Worker.CreditSplits | src/bin/worker.rs:124-149 | the credit added is the mirror rows of a first call plus the two chunk results |
| Worker.DrawPlotCpu | src/bin/worker.rs:104-149 | without a hang, the upper band's rows went through one `process_plot_cpu` chunk at offset 0 and the lower band's rows through one at offset `y4` continuing its context; afterwards the range has widened to bounds that are values computed by this call, `rows_processed` has grown by the chunk size and the total by the credit, each mirror row equals its source, the evaluated bands have only advanced and their chunk rows are processed, every point newly computed outside the mirror band lies in the final range and a grid in range stays in range; a first call whose chunk covers the grid processes every pixel and credits every row once; a hang is a non-returning walk in the upper or lower band |
| Worker.FullChunkDone | src/bin/worker.rs:130-146 | a first chunk covering the grid leaves no pixel unprocessed |
| Pixels.NewImage | src/bin/worker.rs:73 | the image buffer holds `4 * width * height` zero bytes |
| Pixels.SetPixel | src/bin/worker.rs:234-241 | succeeds exactly when the alpha byte's index lies in the buffer, then writes red, green, blue and opaque alpha at `(x + y * width) * 4` and nothing else; otherwise reports the first failing index |
| Pixels.PixelInBuffer | src/bin/worker.rs:234-241 | every pixel of a `width` by `height` image lies inside the buffer of `NewImage` |
| Pixels.PixelsDisjoint | src/bin/worker.rs:235 | distinct in-row pixels own disjoint groups of four bytes |
| Pixels.SetThenGet | src/bin/worker.rs:237-240 | reading a pixel just written gives back its colour with full alpha |
| Pixels.SetKeepsOthers | src/bin/worker.rs:234-241 | writing one pixel leaves every other pixel as it was |

## Left out

- The floating-point geometry is not modelled: `get_coords`, `revert_y`, spans and bounds. The axis row `y0` and its symmetry are parameters of `draw_plot_cpu`, and each pixel's coordinate is folded into the evaluator.
- The escape iteration itself and the log-smoothing are not modelled; they are the abstract `escape` and `smooth`. In particular the model does not check that an escape count is at most `max_iters`, or what the smoothing does for finite inputs.
- PlotPoints.Evaluate: the smoothing is a finite number or NaN. An escape at iteration 0 with magnitude exactly 10 gives negative infinity in the source, which would then become `min_value`; the model has no infinite metric and does not represent that range.
- Colour mapping, `draw_context2d`, the gradient, canvas drawing, message passing, `main.rs` and the JavaScript bindings are not modelled. They are I/O around the grid. Only `set_pixel` and the buffer allocation are modelled.
- The `i16` casts in `near_border` and `process_neighbours` wrap for grids wider or taller than 32767. The model requires both dimensions to be at most 32767 and does not model the wrap.
- `usize` overflow in the row arithmetic and in `(x + y * win_width) * 4` is not modelled; integers are unbounded.
- Trace.TraceEdge: the source loops until the walk returns to its start. The model gives each trace a step budget (`fuel`) and reports a walk that exceeds it (`closed` false, `hung` in the callers) instead of looping forever. It does not prove that every walk returns.
- Worker.PreparePlot: a kept plot whose shape differs from a new message's `win_width` and `win_height` is not modelled; `draw_plot_cpu` requires a grid of the context's width.
- Worker.DrawPlotCpu: the value left in `ctx.offset` is not constrained; each chunk call sets it before each band scan (src/bin/worker.rs:131, 144).
- Worker.DrawPlotCpu: a mirror row copies upper-band points computed before the call, so the claim that newly processed mirror points lie in the new range holds only for a grid whose processed points were in range beforehand (the `AllInRange` clause); a fresh or reset plot is such a grid (`Worker.PreparedPlotInRange`). Worker.EvaluateBands states the same.
- Worker.DrawPlotCpu: a hung trace returns the grid as far as it got; the model states what the hang means (a walk that does not return within the fuel) but makes no claim about the counters after it.
- Worker.EvaluateBands: the record of the two band chunks is stated only when no trace hangs; after a hang, the contract states where the walk hung instead. Worker.DrawPlotCpu states the same.
- Worker.DrawPlotCpu: an empty plot makes `plot.len() - 1` underflow and panic (src/bin/worker.rs:114). The model requires at least one row and does not model that panic.
- The `brightness` and `needs_recalc` fields read by the worker are plain fields of the modelled context; the `Ctx` of src/lib.rs does not declare them.
- `Ctx::default` and the other `Ctx` helpers outside the scan are not modelled.

## Findings

| source | as written | input that shows it | evidently intended | confidence | as-written member | corrected member |
|---|---|---|---|---|---|---|
| src/lib.rs:239-251 | the fill loop indexes `plot[y][cur_x]` without checking `cur_x < win_width`; it stops only at a processed, stable point in the last column, so an unprocessed last column, or a start at `cur_x + 1` from the last column, reads past the row and panics | a row of unprocessed points filled from column 0 (`FastFillOverrunsRightEdge`); a fresh stable pixel in the last column with a stable left neighbour (`FastFillFromPastLastColumn`) | the fill stops at the last column | medium, not executed | FastFill.FastFillPanicsExactly | FastFill.ProcessFast |
| src/bin/worker.rs:135 | `if y3 > y2` skips the mirror copy when the mirror band is one row (`y3 == y2`), yet `y3 - y1` still credits that row | a grid of 4 rows with the axis on row 2 and exact symmetry: row 3 is neither evaluated nor copied, and the first full chunk credits 4 rows (`FourRowCounterexample`) | `if y3 >= y2`, so that every row of `y2..=y3` is copied | high, not executed | Bands.SingleMirrorRowIsSkipped | Worker.MirrorCopy |

The as-written fill is `FastFill.FastFillAsWritten`, and the as-written guard
is `Bands.InMirrorAsWritten`. The rest of the model uses the corrected
`FastFill.ProcessFast` and `Worker.MirrorCopy`. `Bands.BandsPartitionRows`
and `Worker.DrawPlotCpu` prove the intended behaviour of the corrected copy.
