/** The boundary trace of src/lib.rs: `process_point`, one step of the walk
    (`process_neighbours`) and the walk itself (`trace_edge`). */
module Trace {
  import opened PlotPoints
  import opened Context
  import opened Grid
  import opened Directions

  /** A point after `process_point` at column `x`, global row `row`: a
      processed point as it was, otherwise its first evaluation. */
  function Settle(p: PlotPoint, ev: Evaluator, x: nat, row: nat, maxIters: nat): (q: PlotPoint)
    ensures q.Processed()
    ensures p.Processed() ==> q == p
    ensures CellAdvances(p, q, ev, x, row, maxIters)
  {
    if p.Processed() then p else Evaluate(p, ev.escape(x, row), maxIters, ev.smooth)
  }

  datatype Probe = Probe(state: State, stable: bool)

  /** `process_point`: evaluate the point if needed (widening the observed
      range) and report whether it is stable. */
  function ProcessPoint(s: State, ev: Evaluator, x: nat, y: nat): (r: Probe)
    requires Valid(s) && x < s.ctx.winWidth && y < |s.plot|
    ensures Progress(s, r.state, ev)
    ensures r.state.plot == Put(s.plot, x, y, Settle(s.plot[y][x], ev, x, y + s.ctx.offset, s.ctx.maxIters))
    ensures r.stable == r.state.plot[y][x].Stable()
    ensures r.stable <==> if s.plot[y][x].Processed() then s.plot[y][x].Stable() else ev.escape(x, y + s.ctx.offset).Bounded?
  {
    var p := s.plot[y][x];
    if p.Processed() then
      assert s.plot[y][x := p] == s.plot[y];
      Probe(s, p.Stable())
    else
      var c := CalculatePoint(s.ctx, p, ev, x, y + s.ctx.offset);
      var s' := State(c.ctx, Put(s.plot, x, y, c.point));
      assert NewInRange(s.plot, s'.plot, s'.ctx);
      Probe(s', c.point.Stable())
  }

  /** A trace position: pixel and the direction it was reached by. */
  datatype Step = Step(x: nat, y: nat, dir: Dir)

  /** The `j`-th neighbour examined from (`x`, `y`) when the current
      direction is `dir` is on the grid and stable. */
  predicate Hit(g: Plot, w: nat, x: nat, y: nat, dir: Dir, j: nat)
    requires Shaped(g, w) && j < 8
  {
    var d := Rotation(dir)[j];
    var nx, ny := x + Dx(d), y + Dy(d);
    0 <= nx < w && 0 <= ny < |g| && g[ny][nx].Stable()
  }

  /** The value of `next` after the first `k` neighbours: the last stable one
      among them, or (`x`, `y`, `Right`) when there is none. */
  function LastStable(g: Plot, w: nat, x: nat, y: nat, dir: Dir, k: nat): Step
    requires Shaped(g, w) && k <= 8
  {
    if k == 0 then
      Step(x, y, Right)
    else if Hit(g, w, x, y, dir, k - 1) then
      var d := Rotation(dir)[k - 1];
      Step(x + Dx(d), y + Dy(d), d)
    else
      LastStable(g, w, x, y, dir, k - 1)
  }

  /** Where slot `j` of the rotation leads from (`x`, `y`). */
  function Target(x: nat, y: nat, dir: Dir, j: nat): (int, int)
    requires j < 8
  {
    (x + Dx(Rotation(dir)[j]), y + Dy(Rotation(dir)[j]))
  }

  /** With no stable neighbour among the first `k`, the walk stays on the
      current pixel heading right. */
  lemma {:induction false} LastStableNoHit(g: Plot, w: nat, x: nat, y: nat, dir: Dir, k: nat)
    requires Shaped(g, w) && k <= 8
    requires forall j :: 0 <= j < k ==> !Hit(g, w, x, y, dir, j)
    ensures LastStable(g, w, x, y, dir, k) == Step(x, y, Right)
  {
    if k > 0 {
      LastStableNoHit(g, w, x, y, dir, k - 1);
    }
  }

  /** Otherwise `LastStable` is the last hit in rotation order: the stable
      neighbour after which no examined neighbour is stable, reached in its
      own direction. */
  lemma {:induction false} LastStableIsLastHit(g: Plot, w: nat, x: nat, y: nat, dir: Dir, k: nat, j: nat)
    requires Shaped(g, w) && j < k <= 8
    requires Hit(g, w, x, y, dir, j)
    requires forall j' :: j < j' < k ==> !Hit(g, w, x, y, dir, j')
    ensures var r := LastStable(g, w, x, y, dir, k);
            (r.x, r.y) == Target(x, y, dir, j) && r.dir == Rotation(dir)[j]
  {
    if j < k - 1 {
      LastStableIsLastHit(g, w, x, y, dir, k - 1, j);
    }
  }

  /** A step goes to a stable neighbour, or stays on the current pixel. */
  lemma {:induction false} LastStableMoves(g: Plot, w: nat, x: nat, y: nat, dir: Dir, k: nat)
    requires Shaped(g, w) && k <= 8
    ensures var r := LastStable(g, w, x, y, dir, k);
            || r == Step(x, y, Right)
            || (Adjacent(x, y, r.x, r.y) && r.x < w && r.y < |g| && g[r.y][r.x].Stable())
  {
    if k > 0 && Hit(g, w, x, y, dir, k - 1) {
      HitMoves(g, w, x, y, dir, k - 1);
    } else if k > 0 {
      LastStableMoves(g, w, x, y, dir, k - 1);
    }
  }

  /** A hit is an adjacent stable pixel on the grid. */
  lemma HitMoves(g: Plot, w: nat, x: nat, y: nat, dir: Dir, j: nat)
    requires Shaped(g, w) && j < 8 && Hit(g, w, x, y, dir, j)
    ensures var (tx, ty) := Target(x, y, dir, j);
            && 0 <= tx < w && 0 <= ty < |g|
            && Adjacent(x, y, tx, ty) && g[ty][tx].Stable()
  {
    OffsetsDetermineDirection(x, y, Rotation(dir)[j]);
  }

  /** The result of a step depends only on the neighbours it examines. */
  lemma {:induction false} LastStableFrame(g: Plot, g': Plot, w: nat, x: nat, y: nat, dir: Dir, k: nat)
    requires Shaped(g, w) && Shaped(g', w) && |g| == |g'| && k <= 8
    requires forall j :: 0 <= j < k ==> Hit(g, w, x, y, dir, j) == Hit(g', w, x, y, dir, j)
    ensures LastStable(g, w, x, y, dir, k) == LastStable(g', w, x, y, dir, k)
  {
    if k > 0 {
      LastStableFrame(g, g', w, x, y, dir, k - 1);
    }
  }

  /** Cell (`cx`, `cy`) of `g` is settled if rotation slot of (`x`, `y`)
      it occupies is among the first `k`, and as in `s.plot` otherwise. */
  predicate SettledCell(s: State, g: Plot, ev: Evaluator, x: nat, y: nat, dir: Dir, k: nat, cx: nat, cy: nat)
    requires Valid(s) && SameShape(s.plot, g) && cy < |s.plot| && cx < s.ctx.winWidth
  {
    g[cy][cx] == (if Adjacent(x, y, cx, cy) && RotationPos(dir, DirBetween(x, y, cx, cy)) < k
                  then Settle(s.plot[cy][cx], ev, cx, cy + s.ctx.offset, s.ctx.maxIters)
                  else s.plot[cy][cx])
  }

  /** After the first `k` neighbours of (`x`, `y`) in rotation order have
      been processed, exactly those cells of `s.plot` are settled in `g`. */
  predicate SettledUpTo(s: State, g: Plot, ev: Evaluator, x: nat, y: nat, dir: Dir, k: nat)
    requires Valid(s) && SameShape(s.plot, g)
  {
    forall cy, cx :: 0 <= cy < |s.plot| && 0 <= cx < s.ctx.winWidth ==> SettledCell(s, g, ev, x, y, dir, k, cx, cy)
  }

  /** Every in-bounds 8-neighbour of (`x`, `y`) is processed in `g`. */
  /** `g'` is `g` with every neighbour of (`x`, `y`) settled and nothing
      else changed. */
  predicate NeighboursSettled(g: Plot, g': Plot, ev: Evaluator, offset: nat, maxIters: nat, w: nat, x: nat, y: nat)
    requires Shaped(g, w) && Shaped(g', w) && |g'| == |g|
  {
    forall cy, cx :: 0 <= cy < |g| && 0 <= cx < w ==>
      g'[cy][cx] == if Adjacent(x, y, cx, cy) then Settle(g[cy][cx], ev, cx, cy + offset, maxIters) else g[cy][cx]
  }

  predicate NeighboursProcessed(g: Plot, w: nat, x: nat, y: nat)
  {
    forall cy, cx :: 0 <= cy < |g| && 0 <= cx < w && cx < |g[cy]| && Adjacent(x, y, cx, cy) ==> g[cy][cx].Processed()
  }

  /** Nothing is settled before the first slot. */
  lemma SettledStart(s: State, ev: Evaluator, x: nat, y: nat, dir: Dir)
    requires Valid(s)
    ensures SameShape(s.plot, s.plot) && SettledUpTo(s, s.plot, ev, x, y, dir, 0)
  {
  }

  /** Settling the cell of rotation slot `k` extends the settled prefix by
      that slot. */
  lemma SettledStep(s: State, g: Plot, g': Plot, ev: Evaluator, x: nat, y: nat, dir: Dir, k: nat, nx: nat, ny: nat,
                    offset: nat, maxIters: nat)
    requires Valid(s) && SameShape(s.plot, g) && k < 8
    requires SettledUpTo(s, g, ev, x, y, dir, k)
    requires (nx, ny) == Target(x, y, dir, k) && nx < s.ctx.winWidth && ny < |s.plot|
    requires offset == s.ctx.offset && maxIters == s.ctx.maxIters
    requires g' == Put(g, nx, ny, Settle(g[ny][nx], ev, nx, ny + offset, maxIters))
    ensures SameShape(s.plot, g')
    ensures SettledUpTo(s, g', ev, x, y, dir, k + 1)
  {
    assert SettledCell(s, g, ev, x, y, dir, k, nx, ny);
    SlotOfTarget(x, y, dir, k, nx, ny);
    var k1 := k + 1;
    forall cy, cx | 0 <= cy < |s.plot| && 0 <= cx < s.ctx.winWidth
      ensures SettledCell(s, g', ev, x, y, dir, k1, cx, cy)
    {
      assert SettledCell(s, g, ev, x, y, dir, k, cx, cy);
      if Adjacent(x, y, cx, cy) {
        SlotOfTarget(x, y, dir, k, cx, cy);
      }
    }
  }

  /** A slot that leads off the grid settles nothing. */
  lemma SettledSkip(s: State, g: Plot, ev: Evaluator, x: nat, y: nat, dir: Dir, k: nat)
    requires Valid(s) && SameShape(s.plot, g) && k < 8
    requires SettledUpTo(s, g, ev, x, y, dir, k)
    requires var (nx, ny) := Target(x, y, dir, k); !(0 <= nx < s.ctx.winWidth && 0 <= ny < |s.plot|)
    ensures SettledUpTo(s, g, ev, x, y, dir, k + 1)
  {
    var k1 := k + 1;
    forall cy, cx | 0 <= cy < |s.plot| && 0 <= cx < s.ctx.winWidth
      ensures SettledCell(s, g, ev, x, y, dir, k1, cx, cy)
    {
      assert SettledCell(s, g, ev, x, y, dir, k, cx, cy);
      if Adjacent(x, y, cx, cy) {
        SlotOfTarget(x, y, dir, k, cx, cy);
      }
    }
  }

  /** Slot `k` leads to neighbour (`cx`, `cy`) exactly when that neighbour's
      direction sits in slot `k`. */
  lemma SlotOfTarget(x: nat, y: nat, dir: Dir, k: nat, cx: int, cy: int)
    requires k < 8
    ensures Adjacent(x, y, cx, cy) ==>
              (RotationPos(dir, DirBetween(x, y, cx, cy)) == k <==> Target(x, y, dir, k) == (cx, cy))
    ensures Target(x, y, dir, k) == (cx, cy) ==> Adjacent(x, y, cx, cy)
  {
    var d := Rotation(dir)[k];
    RotationStartsOppositeAndDescends(dir, k);
    OffsetsDetermineDirection(x, y, d);
    if Adjacent(x, y, cx, cy) {
      RotationVisitsEachOnce(dir, DirBetween(x, y, cx, cy));
    }
  }

  /** All eight slots settled: exactly the neighbours are settled, so all
      of them are processed. */
  lemma SettledAll(s: State, g: Plot, ev: Evaluator, x: nat, y: nat, dir: Dir)
    requires Valid(s) && SameShape(s.plot, g)
    requires SettledUpTo(s, g, ev, x, y, dir, 8)
    ensures Shaped(g, s.ctx.winWidth)
    ensures NeighboursSettled(s.plot, g, ev, s.ctx.offset, s.ctx.maxIters, s.ctx.winWidth, x, y)
    ensures NeighboursProcessed(g, s.ctx.winWidth, x, y)
  {
    forall cy, cx | 0 <= cy < |s.plot| && 0 <= cx < s.ctx.winWidth
      ensures g[cy][cx] == (if Adjacent(x, y, cx, cy)
                            then Settle(s.plot[cy][cx], ev, cx, cy + s.ctx.offset, s.ctx.maxIters)
                            else s.plot[cy][cx])
    {
      assert SettledCell(s, g, ev, x, y, dir, 8, cx, cy);
      if Adjacent(x, y, cx, cy) {
        RotationVisitsEachOnce(dir, DirBetween(x, y, cx, cy));
      }
    }
  }

  /** Slots before `k` reach cells other than the one of slot `k`. */
  lemma EarlierSlotsElsewhere(x: nat, y: nat, dir: Dir, j: nat, k: nat)
    requires j < k < 8
    ensures Target(x, y, dir, j) != Target(x, y, dir, k)
  {
    RotationStartsOppositeAndDescends(dir, j);
    RotationStartsOppositeAndDescends(dir, k);
    OffsetsDetermineDirection(x, y, Rotation(dir)[j]);
    OffsetsDetermineDirection(x, y, Rotation(dir)[k]);
  }

  /** Writing the cell of slot `k` leaves the earlier slots' verdicts alone,
      and slot `k` is a hit exactly when the written point is stable. */
  lemma PutKeepsEarlierSlots(g: Plot, g': Plot, w: nat, x: nat, y: nat, dir: Dir, k: nat, nx: nat, ny: nat, q: PlotPoint)
    requires Shaped(g, w) && k < 8
    requires (nx, ny) == Target(x, y, dir, k) && nx < w && ny < |g|
    requires g' == Put(g, nx, ny, q)
    ensures Shaped(g', w)
    ensures LastStable(g', w, x, y, dir, k) == LastStable(g, w, x, y, dir, k)
    ensures Hit(g', w, x, y, dir, k) == q.Stable()
  {
    forall j | 0 <= j < k
      ensures Hit(g, w, x, y, dir, j) == Hit(g', w, x, y, dir, j)
    {
      EarlierSlotsElsewhere(x, y, dir, j, k);
    }
    LastStableFrame(g, g', w, x, y, dir, k);
  }

  /** Probing slot `k` is progress. */
  lemma ProbeProgress(s: State, cur: State, probe: Probe, ev: Evaluator, x: nat, y: nat, dir: Dir, k: nat, nx: nat, ny: nat)
    requires Valid(s) && x < s.ctx.winWidth && y < |s.plot| && k < 8
    requires Progress(s, cur, ev)
    requires SettledUpTo(s, cur.plot, ev, x, y, dir, k)
    requires (nx, ny) == Target(x, y, dir, k) && nx < s.ctx.winWidth && ny < |s.plot|
    requires probe == ProcessPoint(cur, ev, nx, ny)
    ensures Progress(s, probe.state, ev)
  {
    ProgressTransitive(s, cur, probe.state, ev);
  }

  /** Probing slot `k` settles exactly that slot. */
  lemma ProbeSettles(s: State, cur: State, probe: Probe, ev: Evaluator, x: nat, y: nat, dir: Dir, k: nat, nx: nat, ny: nat)
    requires Valid(s) && x < s.ctx.winWidth && y < |s.plot| && k < 8
    requires Progress(s, cur, ev)
    requires SettledUpTo(s, cur.plot, ev, x, y, dir, k)
    requires (nx, ny) == Target(x, y, dir, k) && nx < s.ctx.winWidth && ny < |s.plot|
    requires probe == ProcessPoint(cur, ev, nx, ny)
    ensures SettledUpTo(s, probe.state.plot, ev, x, y, dir, k + 1)
  {
    SettledStep(s, cur.plot, probe.state.plot, ev, x, y, dir, k, nx, ny, cur.ctx.offset, cur.ctx.maxIters);
  }

  /** Probing slot `k` moves `next` there exactly when the neighbour is
      stable. */
  lemma ProbeNext(s: State, cur: State, probe: Probe, ev: Evaluator, x: nat, y: nat, dir: Dir, k: nat, nx: nat, ny: nat)
    requires Valid(s) && x < s.ctx.winWidth && y < |s.plot| && k < 8
    requires Progress(s, cur, ev)
    requires SettledUpTo(s, cur.plot, ev, x, y, dir, k)
    requires (nx, ny) == Target(x, y, dir, k) && nx < s.ctx.winWidth && ny < |s.plot|
    requires probe == ProcessPoint(cur, ev, nx, ny)
    ensures LastStable(probe.state.plot, s.ctx.winWidth, x, y, dir, k + 1)
            == if probe.stable then Step(nx, ny, Rotation(dir)[k]) else LastStable(cur.plot, s.ctx.winWidth, x, y, dir, k)
  {
    var q := Settle(cur.plot[ny][nx], ev, nx, ny + cur.ctx.offset, cur.ctx.maxIters);
    PutKeepsEarlierSlots(cur.plot, probe.state.plot, s.ctx.winWidth, x, y, dir, k, nx, ny, q);
  }

  /** A slot off the grid is no hit. */
  lemma OffGridNoHit(g: Plot, w: nat, x: nat, y: nat, dir: Dir, k: nat)
    requires Shaped(g, w) && k < 8
    requires var (nx, ny) := Target(x, y, dir, k); !(0 <= nx < w && 0 <= ny < |g|)
    ensures LastStable(g, w, x, y, dir, k + 1) == LastStable(g, w, x, y, dir, k)
  {
  }

  /** Slot `k` on the grid: process the neighbour there and move `next`
      to it when it is stable. */
  method ProbeOnGrid(s: State, cur: State, ev: Evaluator, x: nat, y: nat, dir: Dir, k: nat, nx: nat, ny: nat)
    returns (cur': State, next': Step)
    requires Valid(s) && x < s.ctx.winWidth && y < |s.plot| && k < 8
    requires Progress(s, cur, ev)
    requires SettledUpTo(s, cur.plot, ev, x, y, dir, k)
    requires (nx, ny) == Target(x, y, dir, k) && nx < s.ctx.winWidth && ny < |s.plot|
    ensures Progress(s, cur', ev)
    ensures SettledUpTo(s, cur'.plot, ev, x, y, dir, k + 1)
    ensures next' == if ProcessPoint(cur, ev, nx, ny).stable then Step(nx, ny, Rotation(dir)[k])
                     else LastStable(cur.plot, s.ctx.winWidth, x, y, dir, k)
    ensures next' == LastStable(cur'.plot, s.ctx.winWidth, x, y, dir, k + 1)
  {
    var probe := ProcessPoint(cur, ev, nx, ny);
    ProbeProgress(s, cur, probe, ev, x, y, dir, k, nx, ny);
    ProbeSettles(s, cur, probe, ev, x, y, dir, k, nx, ny);
    ProbeNext(s, cur, probe, ev, x, y, dir, k, nx, ny);
    cur' := probe.state;
    next' := if probe.stable then Step(nx, ny, Rotation(dir)[k]) else LastStable(cur.plot, s.ctx.winWidth, x, y, dir, k);
  }

  /** One iteration of `process_neighbours`: probe slot `k` if it is on
      the grid, moving `next` there when the neighbour is stable. */
  method ProbeSlot(s: State, cur: State, next: Step, ev: Evaluator, x: nat, y: nat, dir: Dir, k: nat)
    returns (cur': State, next': Step)
    requires Valid(s) && x < s.ctx.winWidth && y < |s.plot| && k < 8
    requires Progress(s, cur, ev)
    requires SettledUpTo(s, cur.plot, ev, x, y, dir, k)
    requires next == LastStable(cur.plot, s.ctx.winWidth, x, y, dir, k)
    ensures Progress(s, cur', ev)
    ensures SettledUpTo(s, cur'.plot, ev, x, y, dir, k + 1)
    ensures next' == LastStable(cur'.plot, s.ctx.winWidth, x, y, dir, k + 1)
  {
    var w := s.ctx.winWidth;
    var (nx, ny) := Target(x, y, dir, k);
    cur', next' := cur, next;
    if 0 <= nx < w && 0 <= ny < |cur.plot| {
      cur', next' := ProbeOnGrid(s, cur, ev, x, y, dir, k, nx, ny);
    } else {
      SettledSkip(s, cur.plot, ev, x, y, dir, k);
      OffGridNoHit(cur.plot, w, x, y, dir, k);
    }
  }

  /** `process_neighbours`: examine the eight neighbours of (`x`, `y`) in
      rotation order from the direction opposite `dir`, processing every
      one on the grid, and move to the last stable one. Only the neighbours
      change; each becomes its first evaluation if it was unprocessed. */
  method ProcessNeighbours(s: State, ev: Evaluator, x: nat, y: nat, dir: Dir) returns (s': State, next: Step)
    requires Valid(s) && x < s.ctx.winWidth && y < |s.plot|
    ensures Progress(s, s', ev)
    ensures NeighboursSettled(s.plot, s'.plot, ev, s.ctx.offset, s.ctx.maxIters, s.ctx.winWidth, x, y)
    ensures NeighboursProcessed(s'.plot, s.ctx.winWidth, x, y)
    ensures next == LastStable(s'.plot, s.ctx.winWidth, x, y, dir, 8)
  {
    s' := s;
    next := Step(x, y, Right);
    ProgressReflexive(s, ev);
    SettledStart(s, ev, x, y, dir);
    var k := 0;
    while k < 8
      invariant 0 <= k <= 8
      invariant Progress(s, s', ev)
      invariant SettledUpTo(s, s'.plot, ev, x, y, dir, k)
      invariant next == LastStable(s'.plot, s.ctx.winWidth, x, y, dir, k)
    {
      s', next := ProbeSlot(s, s', next, ev, x, y, dir, k);
      k := k + 1;
    }
    SettledAll(s, s'.plot, ev, x, y, dir);
  }

  /** The trace position before step `i` of `path`: the start, heading
      right, for the first step. */
  function Before(path: seq<Step>, i: nat, x: nat, y: nat): Step
    requires i <= |path|
  {
    if i == 0 then Step(x, y, Right) else path[i - 1]
  }

  /** A trace position on the grid whose pixel is stable. */
  predicate OnStable(g: Plot, w: nat, p: Step)
    requires Shaped(g, w)
  {
    p.x < w && p.y < |g| && g[p.y][p.x].Stable()
  }

  /** Once all neighbours of a position are processed, later progress
      changes neither them nor the step taken from that position. */
  lemma StepSurvives(g: Plot, g': Plot, ev: Evaluator, offset: nat, maxIters: nat, w: nat, p: Step)
    requires Shaped(g, w) && Advances(g, g', ev, offset, maxIters)
    requires NeighboursProcessed(g, w, p.x, p.y)
    ensures Shaped(g', w)
    ensures NeighboursProcessed(g', w, p.x, p.y)
    ensures LastStable(g, w, p.x, p.y, p.dir, 8) == LastStable(g', w, p.x, p.y, p.dir, 8)
  {
    forall cy, cx | 0 <= cy < |g| && 0 <= cx < w && Adjacent(p.x, p.y, cx, cy)
      ensures g'[cy][cx] == g[cy][cx]
    {
      AdvancesKeepsProcessed(g, g', ev, offset, maxIters, cx, cy);
    }
    forall j | 0 <= j < 8
      ensures Hit(g, w, p.x, p.y, p.dir, j) == Hit(g', w, p.x, p.y, p.dir, j)
    {
      OffsetsDetermineDirection(p.x, p.y, Rotation(p.dir)[j]);
    }
    LastStableFrame(g, g', w, p.x, p.y, p.dir, 8);
  }

  /** A stable pixel stays stable as the grid advances. */
  lemma StableSurvives(g: Plot, g': Plot, ev: Evaluator, offset: nat, maxIters: nat, w: nat, p: Step)
    requires Shaped(g, w) && Advances(g, g', ev, offset, maxIters)
    requires OnStable(g, w, p)
    ensures Shaped(g', w) && OnStable(g', w, p)
  {
    AdvancesKeepsProcessed(g, g', ev, offset, maxIters, p.x, p.y);
  }

  /** Step `i` of `path` is a stable pixel reached as the last stable
      neighbour of the position before it, whose neighbours are processed. */
  predicate WalkStep(g: Plot, w: nat, x: nat, y: nat, path: seq<Step>, i: nat)
    requires Shaped(g, w) && i < |path|
  {
    var b := Before(path, i, x, y);
    && OnStable(g, w, path[i])
    && NeighboursProcessed(g, w, b.x, b.y)
    && path[i] == LastStable(g, w, b.x, b.y, b.dir, 8)
  }

  /** `path` is a walk on `g` from (`x`, `y`). */
  predicate Walk(g: Plot, w: nat, x: nat, y: nat, path: seq<Step>)
    requires Shaped(g, w)
  {
    forall i :: 0 <= i < |path| ==> WalkStep(g, w, x, y, path, i)
  }

  /** A walk stays a walk as the grid advances. */
  lemma WalkSurvives(g: Plot, g2: Plot, ev: Evaluator, offset: nat, maxIters: nat, w: nat, x: nat, y: nat, path: seq<Step>)
    requires Shaped(g, w) && Advances(g, g2, ev, offset, maxIters)
    requires Walk(g, w, x, y, path)
    ensures Shaped(g2, w) && Walk(g2, w, x, y, path)
  {
    forall i | 0 <= i < |path|
      ensures WalkStep(g2, w, x, y, path, i)
    {
      assert WalkStep(g, w, x, y, path, i);
      StepSurvives(g, g2, ev, offset, maxIters, w, Before(path, i, x, y));
      StableSurvives(g, g2, ev, offset, maxIters, w, path[i]);
    }
  }

  /** A walk extended by the step taken from its last position. */
  lemma WalkAppend(g: Plot, w: nat, x: nat, y: nat, path: seq<Step>, next: Step)
    requires Shaped(g, w) && Walk(g, w, x, y, path)
    requires var cur := Before(path, |path|, x, y);
             && OnStable(g, w, next)
             && NeighboursProcessed(g, w, cur.x, cur.y)
             && next == LastStable(g, w, cur.x, cur.y, cur.dir, 8)
    ensures Walk(g, w, x, y, path + [next])
  {
    var path' := path + [next];
    forall i | 0 <= i < |path'|
      ensures WalkStep(g, w, x, y, path', i)
    {
      assert Before(path', i, x, y) == Before(path, i, x, y);
      if i < |path| {
        assert WalkStep(g, w, x, y, path, i);
      }
    }
  }

  /** One more `process_neighbours` step extends a walk. */
  lemma WalkExtends(g: Plot, g2: Plot, ev: Evaluator, offset: nat, maxIters: nat, w: nat, x: nat, y: nat,
                    path: seq<Step>, next: Step)
    requires Shaped(g, w) && Advances(g, g2, ev, offset, maxIters)
    requires Walk(g, w, x, y, path)
    requires OnStable(g, w, Before(path, |path|, x, y))
    requires var cur := Before(path, |path|, x, y);
             && NeighboursProcessed(g2, w, cur.x, cur.y)
             && next == LastStable(g2, w, cur.x, cur.y, cur.dir, 8)
    ensures Shaped(g2, w)
    ensures Walk(g2, w, x, y, path + [next])
    ensures OnStable(g2, w, next)
  {
    var cur := Before(path, |path|, x, y);
    StableSurvives(g, g2, ev, offset, maxIters, w, cur);
    LastStableMoves(g2, w, cur.x, cur.y, cur.dir, 8);
    WalkSurvives(g, g2, ev, offset, maxIters, w, x, y, path);
    WalkAppend(g2, w, x, y, path, next);
  }

  /** What a walk says about each of its positions. */
  lemma WalkMeans(g: Plot, w: nat, x: nat, y: nat, path: seq<Step>)
    requires Shaped(g, w) && Walk(g, w, x, y, path)
    ensures forall i :: 0 <= i < |path| ==> OnStable(g, w, path[i])
    ensures forall i :: 0 <= i < |path| ==>
              var b := Before(path, i, x, y);
              path[i] == LastStable(g, w, b.x, b.y, b.dir, 8)
  {
    forall i | 0 <= i < |path|
      ensures OnStable(g, w, path[i])
      ensures var b := Before(path, i, x, y); path[i] == LastStable(g, w, b.x, b.y, b.dir, 8)
    {
      assert WalkStep(g, w, x, y, path, i);
    }
  }

  /** Pixel (`cx`, `cy`) is a neighbour of a position the walk `path` from
      (`x`, `y`) has stepped from: the start or any position but the last. */
  predicate Touched(x: nat, y: nat, path: seq<Step>, cx: int, cy: int)
  {
    exists i :: 0 <= i < |path| && Adjacent(Before(path, i, x, y).x, Before(path, i, x, y).y, cx, cy)
  }

  /** `g` is `g0` after the walk `path` from (`x`, `y`): every neighbour of a
      position stepped from is settled, and no other pixel has changed. */
  predicate Traced(g0: Plot, g: Plot, ev: Evaluator, offset: nat, maxIters: nat, w: nat, x: nat, y: nat, path: seq<Step>)
    requires Shaped(g0, w) && Shaped(g, w) && |g| == |g0|
  {
    forall cy, cx :: 0 <= cy < |g0| && 0 <= cx < w ==>
      g[cy][cx] == if Touched(x, y, path, cx, cy) then Settle(g0[cy][cx], ev, cx, cy + offset, maxIters) else g0[cy][cx]
  }

  /** One more step adds exactly the neighbours of the position it steps
      from. */
  lemma TouchedAppend(x: nat, y: nat, path: seq<Step>, next: Step, cx: int, cy: int)
    ensures var cur := Before(path, |path|, x, y);
            Touched(x, y, path + [next], cx, cy) <==> Touched(x, y, path, cx, cy) || Adjacent(cur.x, cur.y, cx, cy)
  {
    var path' := path + [next];
    var cur := Before(path, |path|, x, y);
    if Touched(x, y, path', cx, cy) {
      var i :| 0 <= i < |path'| && Adjacent(Before(path', i, x, y).x, Before(path', i, x, y).y, cx, cy);
      assert Before(path', i, x, y) == Before(path, i, x, y);
    }
    if Touched(x, y, path, cx, cy) {
      var i :| 0 <= i < |path| && Adjacent(Before(path, i, x, y).x, Before(path, i, x, y).y, cx, cy);
      assert Before(path', i, x, y) == Before(path, i, x, y);
    }
    if Adjacent(cur.x, cur.y, cx, cy) {
      assert Before(path', |path|, x, y) == cur;
    }
  }

  /** The frame of a walk grows by the frame of its next `process_neighbours`
      call. */
  lemma TracedExtends(g0: Plot, g: Plot, g2: Plot, ev: Evaluator, offset: nat, maxIters: nat, w: nat, x: nat, y: nat,
                      path: seq<Step>, next: Step)
    requires Shaped(g0, w) && Shaped(g, w) && Shaped(g2, w) && |g| == |g0| && |g2| == |g0|
    requires Traced(g0, g, ev, offset, maxIters, w, x, y, path)
    requires var cur := Before(path, |path|, x, y);
             NeighboursSettled(g, g2, ev, offset, maxIters, w, cur.x, cur.y)
    ensures Traced(g0, g2, ev, offset, maxIters, w, x, y, path + [next])
  {
    forall cy, cx | 0 <= cy < |g0| && 0 <= cx < w
      ensures g2[cy][cx] == if Touched(x, y, path + [next], cx, cy) then Settle(g0[cy][cx], ev, cx, cy + offset, maxIters) else g0[cy][cx]
    {
      TouchedAppend(x, y, path, next, cx, cy);
      assert g2[cy][cx] == if Adjacent(Before(path, |path|, x, y).x, Before(path, |path|, x, y).y, cx, cy)
                           then Settle(g[cy][cx], ev, cx, cy + offset, maxIters) else g[cy][cx];
    }
  }

  /** The walk from (`x`, `y`) on `g` takes `fuel` steps without coming back
      to (`x`, `y`): a trace with that step budget does not close. */
  ghost predicate WalkHangs(g: Plot, w: nat, x: nat, y: nat, fuel: nat)
    requires Shaped(g, w)
  {
    exists path: seq<Step> :: |path| == fuel && Walk(g, w, x, y, path) && forall i :: 0 <= i < |path| ==> (path[i].x, path[i].y) != (x, y)
  }

  /** The walk from (`x`, `y`) on `g` comes back to (`x`, `y`) within `fuel`
      steps. */
  ghost predicate WalkCloses(g: Plot, w: nat, x: nat, y: nat, fuel: nat)
    requires Shaped(g, w)
  {
    exists path: seq<Step> :: 0 < |path| <= fuel && Walk(g, w, x, y, path) && (path[|path| - 1].x, path[|path| - 1].y) == (x, y)
  }

  /** Some trace from a stable pixel of row `y` of `g` does not close within
      `fuel` steps. */
  ghost predicate RowWalkHangs(g: Plot, w: nat, y: nat, fuel: nat)
    requires Shaped(g, w) && y < |g|
  {
    exists x0 :: 0 <= x0 < w && g[y][x0].Stable() && WalkHangs(g, w, x0, y, fuel)
  }

  /** Row `y` lies in the grid and holds a hanging walk. */
  ghost predicate HangsInRow(g: Plot, w: nat, y: nat, fuel: nat)
  {
    Shaped(g, w) && y < |g| && RowWalkHangs(g, w, y, fuel)
  }

  /** Some trace from a stable pixel of `g` does not close within `fuel`
      steps. */
  ghost predicate SomeWalkHangs(g: Plot, w: nat, fuel: nat)
    requires Shaped(g, w)
  {
    exists y0 :: 0 <= y0 < |g| && RowWalkHangs(g, w, y0, fuel)
  }

  /** `g` is `g0` after a trace from (`x`, `y`) with `fuel` steps: some walk
      of at most `fuel` steps settled exactly the neighbours of the start and
      of the positions it stepped from; it came back to the start exactly
      when `closed`, and otherwise used up the fuel. */
  ghost predicate TraceRan(g0: Plot, g: Plot, ev: Evaluator, offset: nat, maxIters: nat, w: nat, x: nat, y: nat,
                           fuel: nat, closed: bool)
    requires Shaped(g0, w) && Shaped(g, w) && |g| == |g0|
  {
    exists path: seq<Step> ::
      && |path| <= fuel
      && Walk(g, w, x, y, path)
      && Traced(g0, g, ev, offset, maxIters, w, x, y, path)
      && (closed <==> |path| > 0 && (path[|path| - 1].x, path[|path| - 1].y) == (x, y))
      && (!closed ==> |path| == fuel)
      && (forall i :: 0 <= i < |path| - 1 ==> (path[i].x, path[i].y) != (x, y))
  }

  /** A trace that ran is a walk that hangs or closes accordingly. */
  lemma TraceRanWalks(g0: Plot, g: Plot, ev: Evaluator, offset: nat, maxIters: nat, w: nat, x: nat, y: nat,
                      fuel: nat, closed: bool)
    requires Shaped(g0, w) && Shaped(g, w) && |g| == |g0|
    requires TraceRan(g0, g, ev, offset, maxIters, w, x, y, fuel, closed)
    ensures !closed ==> WalkHangs(g, w, x, y, fuel)
    ensures closed ==> WalkCloses(g, w, x, y, fuel)
  {
    var path: seq<Step> :| && |path| <= fuel
                           && Walk(g, w, x, y, path)
                           && Traced(g0, g, ev, offset, maxIters, w, x, y, path)
                           && (closed <==> |path| > 0 && (path[|path| - 1].x, path[|path| - 1].y) == (x, y))
                           && (!closed ==> |path| == fuel)
                           && (forall i :: 0 <= i < |path| - 1 ==> (path[i].x, path[i].y) != (x, y));
    if !closed {
      assert forall i :: 0 <= i < |path| ==> (path[i].x, path[i].y) != (x, y);
    }
  }

  /** What holds of a trace from (`x`, `y`) on `s` after the steps `path`,
      reaching `s'`. */
  predicate Tracing(s: State, s': State, ev: Evaluator, x: nat, y: nat, path: seq<Step>)
    requires Valid(s)
  {
    && Progress(s, s', ev)
    && OnStable(s'.plot, s.ctx.winWidth, Before(path, |path|, x, y))
    && Walk(s'.plot, s.ctx.winWidth, x, y, path)
    && Traced(s.plot, s'.plot, ev, s.ctx.offset, s.ctx.maxIters, s.ctx.winWidth, x, y, path)
  }

  /** The loop body of `trace_edge`: one `process_neighbours` call from the
      current position. */
  method TraceStep(s: State, cur: State, ev: Evaluator, x: nat, y: nat, path: seq<Step>) returns (cur': State, next: Step)
    requires Valid(s) && Tracing(s, cur, ev, x, y, path)
    ensures Tracing(s, cur', ev, x, y, path + [next])
    ensures next == Before(path + [next], |path| + 1, x, y)
  {
    var w := s.ctx.winWidth;
    var b := Before(path, |path|, x, y);
    cur', next := ProcessNeighbours(cur, ev, b.x, b.y, b.dir);
    WalkExtends(cur.plot, cur'.plot, ev, s.ctx.offset, s.ctx.maxIters, w, x, y, path, next);
    TracedExtends(s.plot, cur.plot, cur'.plot, ev, s.ctx.offset, s.ctx.maxIters, w, x, y, path, next);
    ProgressTransitive(s, cur, cur', ev);
  }

  /** `trace_edge`, bounded by `fuel` steps: walk from the stable pixel
      (`x`, `y`), heading right, by repeated `process_neighbours` until the
      walk is back on (`x`, `y`). The walk need not return, so the source may
      loop for ever; here `closed` is false when `fuel` steps did not
      suffice. `path` lists the positions reached: each is the last stable
      neighbour, in rotation order, of the position before it, every one is
      a stable pixel, and only the last may be the start. Exactly the
      neighbours of the start and of the positions stepped from are settled;
      no other pixel changes, and none is fast-filled. */
  method TraceEdge(s: State, ev: Evaluator, x: nat, y: nat, fuel: nat) returns (s': State, closed: bool, path: seq<Step>)
    requires Valid(s) && x < s.ctx.winWidth && y < |s.plot|
    requires s.plot[y][x].Stable()
    ensures Progress(s, s', ev)
    ensures Traced(s.plot, s'.plot, ev, s.ctx.offset, s.ctx.maxIters, s.ctx.winWidth, x, y, path)
    ensures Walk(s'.plot, s.ctx.winWidth, x, y, path)
    ensures |path| <= fuel
    ensures closed <==> |path| > 0 && (path[|path| - 1].x, path[|path| - 1].y) == (x, y)
    ensures !closed ==> |path| == fuel
    ensures forall i :: 0 <= i < |path| - 1 ==> (path[i].x, path[i].y) != (x, y)
    ensures forall i :: 0 <= i < |path| ==> OnStable(s'.plot, s.ctx.winWidth, path[i])
    ensures forall i :: 0 <= i < |path| ==>
              var b := Before(path, i, x, y);
              path[i] == LastStable(s'.plot, s.ctx.winWidth, b.x, b.y, b.dir, 8)
    ensures TraceRan(s.plot, s'.plot, ev, s.ctx.offset, s.ctx.maxIters, s.ctx.winWidth, x, y, fuel, closed)
  {
    var w := s.ctx.winWidth;
    s', closed, path := s, false, [];
    ProgressReflexive(s, ev);
    while |path| < fuel
      invariant |path| <= fuel
      invariant Tracing(s, s', ev, x, y, path)
      invariant forall i :: 0 <= i < |path| ==> (path[i].x, path[i].y) != (x, y)
    {
      var s2, next := TraceStep(s, s', ev, x, y, path);
      path := path + [next];
      s' := s2;
      if (next.x, next.y) == (x, y) {
        closed := true;
        WalkMeans(s'.plot, w, x, y, path);
        return;
      }
    }
    WalkMeans(s'.plot, w, x, y, path);
  }
}
