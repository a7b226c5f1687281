/** The row arithmetic of `draw_plot_cpu` (src/bin/worker.rs): the grid is
    split at the row `y0` of the real axis into an evaluated upper band, a
    band copied from the mirror image of the upper one, and an evaluated
    lower band. */
module Bands {
  import opened Grid
  import opened Scan

  /** How far the real axis sits from a pixel row, as `revert_y` classifies
      it. */
  datatype Symmetry = Exact | OverOne | OverTwo

  /** `symmetry_shift`. */
  function Shift(sym: Symmetry): (n: nat)
    ensures n <= 2
  {
    match sym
    case Exact => 0
    case OverOne => 1
    case OverTwo => 2
  }

  /** The band boundaries: rows `0..y1` are evaluated (when `y1 > 0`), rows
      `y2..y3` are mirror copies, rows `y4..yMax` are evaluated with row
      offset `y4`. */
  datatype Bands = Bands(yMax: nat, shift: nat, y1: nat, y2: nat, y3: nat, y4: nat)

  /** The band arithmetic of `draw_plot_cpu` for a grid of `height` rows
      (`plot.len() - 1` would underflow on an empty grid). `y3 - y1`, which
      the source computes in unsigned arithmetic, never underflows. */
  function SplitBands(y0: nat, sym: Symmetry, height: nat): (b: Bands)
    requires 1 <= height
    ensures b.yMax + 1 == height && b.shift == Shift(sym)
    ensures b.y1 <= b.y3 <= b.yMax
    ensures b.y1 <= y0 && (b.y1 == y0 || b.y1 == b.yMax)
    ensures b.y2 == b.y1 + 1
    ensures b.y1 < b.y4 || b.y1 == 0
    ensures forall y :: InMirror(b, y) ==> 0 <= MirrorOf(b, y) <= b.y1 && InUpper(b, MirrorOf(b, y))
    ensures forall y :: InLower(b, y) && b.y1 > 0 ==> b.y3 < y
    ensures b.y1 == 0 ==> b.y4 == 0 && b.y3 < b.y2
  {
    var yMax := height - 1;
    var shift := Shift(sym);
    var y1 := Min(y0, yMax);
    var y2 := y1 + 1;
    var y3 := if y1 > 0 then Min(y1 * 2 + 1 - shift, yMax) else 0;
    var y4 := if y3 > 0 then y3 + 1 else 0;
    Bands(yMax, shift, y1, y2, y3, y4)
  }

  /** Row `y` is evaluated in the upper band. */
  predicate InUpper(b: Bands, y: nat)
  {
    b.y1 > 0 && y <= b.y1
  }

  /** Row `y` is a mirror copy: the rows of `(y2..=y3)`. */
  predicate InMirror(b: Bands, y: nat)
  {
    b.y2 <= y <= b.y3
  }

  /** Row `y` is evaluated in the lower band. */
  predicate InLower(b: Bands, y: nat)
  {
    b.y4 <= y <= b.yMax
  }

  /** The row a mirror row is copied from: for row `y2 + i`, row
      `y1 - i - shift`. */
  function MirrorOf(b: Bands, y: nat): int
  {
    2 * b.y1 + 1 - b.shift - y
  }

  /** The copy only reads rows of the upper band, all of them above the
      copied band, so it never reads a row it has already written. */
  lemma MirrorSourceInUpperBand(y0: nat, sym: Symmetry, height: nat, i: nat)
    requires 1 <= height
    requires var b := SplitBands(y0, sym, height); b.y2 + i <= b.y3
    ensures var b := SplitBands(y0, sym, height);
            && 0 <= b.y1 - i - b.shift <= b.y1 < b.y2
            && MirrorOf(b, b.y2 + i) == b.y1 - i - b.shift
            && InUpper(b, b.y1 - i - b.shift)
  {
  }

  /** With the copy taken over all of `(y2..=y3)`, every row of the grid
      lies in exactly one band. */
  lemma BandsPartitionRows(y0: nat, sym: Symmetry, height: nat, y: nat)
    requires 1 <= height && y < height
    ensures var b := SplitBands(y0, sym, height);
            (if InUpper(b, y) then 1 else 0) + (if InMirror(b, y) then 1 else 0) + (if InLower(b, y) then 1 else 0) == 1
  {
  }

  /** The rows the upper band's chunk scans: none when `y1 == 0`. */
  function UpperRows(b: Bands, rowsProcessed: nat, chunk: nat): nat
  {
    if b.y1 > 0 then ChunkRows(rowsProcessed, chunk, b.y1 + 1) else 0
  }

  /** The rows the lower band's chunk scans: none when no row lies below the
      mirror band. */
  function LowerRows(b: Bands, rowsProcessed: nat, chunk: nat): nat
  {
    if b.y4 <= b.yMax then ChunkRows(rowsProcessed, chunk, b.yMax - b.y4 + 1) else 0
  }

  /** The rows one call credits to `total_rows_processed`: the two chunk
      results plus, on the first call, the `y3 - y1` mirror rows. */
  function ChunkCredit(b: Bands, rowsProcessed: nat, chunk: nat): nat
    requires b.y1 <= b.y3
  {
    UpperRows(b, rowsProcessed, chunk) + (if rowsProcessed == 0 then b.y3 - b.y1 else 0) + LowerRows(b, rowsProcessed, chunk)
  }

  /** Number of rows of `(y2..=y3)`. */
  function MirrorRows(b: Bands): nat
  {
    if b.y3 >= b.y2 then b.y3 - b.y2 + 1 else 0
  }

  /** The `y3 - y1` credit is exactly the number of mirror rows, and a first
      call whose chunk covers the whole grid credits every row once. */
  lemma CreditCountsEveryRowOnce(y0: nat, sym: Symmetry, height: nat, chunk: nat)
    requires 1 <= height
    ensures var b := SplitBands(y0, sym, height); MirrorRows(b) == b.y3 - b.y1
    ensures chunk >= height ==> ChunkCredit(SplitBands(y0, sym, height), 0, chunk) == height
  {
  }

  /** The copy as written: `if y3 > y2` guards the loop over `(y2..=y3)`,
      so a mirror band of a single row is not copied: the guard loses
      exactly that one row of the corrected band. */
  function InMirrorAsWritten(b: Bands, y: nat): (r: bool)
    ensures r ==> InMirror(b, y)
    ensures InMirror(b, y) && !r <==> b.y2 == y && y == b.y3
  {
    b.y3 > b.y2 && b.y2 <= y <= b.y3
  }

  /** As written, a single mirror row (`y3 == y2`) lies in no band at all,
      and this happens exactly then. */
  lemma {:induction false} SingleMirrorRowIsSkipped(y0: nat, sym: Symmetry, height: nat, y: nat)
    requires 1 <= height && y < height
    ensures var b := SplitBands(y0, sym, height);
            (!InUpper(b, y) && !InMirrorAsWritten(b, y) && !InLower(b, y)) <==> (b.y3 == b.y2 && y == b.y2)
  {
    BandsPartitionRows(y0, sym, height, y);
  }

  /** A concrete case: four rows with the axis on row 2. Row 3 is never
      evaluated or copied, yet a first full chunk credits all four rows, so
      the scan reports completion with row 3 blank. */
  lemma FourRowCounterexample()
    ensures var b := SplitBands(2, Exact, 4);
            && b.y2 == 3 && b.y3 == 3
            && !InUpper(b, 3) && !InMirrorAsWritten(b, 3) && !InLower(b, 3)
            && ChunkCredit(b, 0, 4) == 4
  {
  }
}
