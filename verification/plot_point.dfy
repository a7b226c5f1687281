/** The per-pixel memoised state of the plot (`PlotPoint` in src/lib.rs) and
    the abstract point evaluator that stands in for the escape iteration. */
module PlotPoints {
  import opened Outcomes

  /** The smoothed escape metric kept by a processed point. The source derives
      it as `log10(i - log2(log10(val)))`. For the stable magnitude 0 that is
      NaN (`log10(0)` is minus infinity). For an escaped magnitude it is a
      number when `i > log2(log10(val))`, and NaN when the escape comes too
      early for its magnitude (at `i = 0` with `val > 10`, say). */
  datatype Metric = NaN | Num(v: real)

  /** A squared magnitude at which the escape iteration stops: the loop only
      leaves early once `re*re + im*im > 4`. */
  type Magnitude = r: real | r > 4.0 witness 5.0

  /** What the escape iteration reports for one complex coordinate. */
  datatype Escape = Bounded | Escaped(magnitude: Magnitude, iters: nat)

  /** The floating-point part of the program, left abstract: `escape(x, row)`
      is the outcome of the escape iteration at pixel column `x` and global
      row `row`, and `smooth(val, i)` is the log-smoothing of an escaped
      magnitude, NaN where the logarithm of a non-positive number is taken. */
  datatype Evaluator = Evaluator(escape: (nat, nat) -> Escape, smooth: Smoothing)

  /** The log-smoothing of an escaped magnitude and its iteration count. */
  type Smoothing = (real, nat) -> Metric

  datatype PlotPoint = PlotPoint(val: real, i: nat, calcVal: Option<Metric>, filled: bool)
  {
    /** A point is processed once a metric has been computed for it. */
    predicate Processed() {
      calcVal.Some?
    }

    /** A point is stable (inside the set) when it is processed and its stored
        magnitude is the sentinel 0. */
    predicate Stable() {
      calcVal.Some? && val == 0.0
    }

    /** Stores an evaluation. Computing a point twice panics in the source, so
        every caller must show the point is still unprocessed. */
    function Calculate(v: real, iters: nat, smooth: Smoothing): (p: PlotPoint)
      requires !Processed()
      ensures p.Processed()
      ensures p.Stable() <==> v == 0.0
      ensures p.Stable() ==> p.calcVal.value.NaN?
      ensures !p.Stable() ==> p.calcVal.value == smooth(v, iters)
      ensures p.val == v && p.i == iters && p.filled == filled
    {
      PlotPoint(v, iters, Some(if v == 0.0 then NaN else smooth(v, iters)), filled)
    }

    function CalculatedValue(): Metric
      requires Processed()
    {
      calcVal.value
    }

    /** Forgets the evaluation: the point may be calculated again. The raw
        magnitude and iteration count are left in place. */
    function Reset(): (p: PlotPoint)
      ensures !p.Processed() && !p.filled
      ensures p.val == val && p.i == i
    {
      this.(calcVal := None, filled := false)
    }
  }

  /** `PlotPoint::default()`. */
  const DefaultPoint := PlotPoint(0.0, 0, None, false)

  /** `mandelbrot_val_at_point` followed by the store: an escaped coordinate
      records its magnitude and iteration count, a bounded one records the
      magnitude 0 at the full iteration budget. */
  function Evaluate(p: PlotPoint, e: Escape, maxIters: nat, smooth: Smoothing): (q: PlotPoint)
    requires !p.Processed()
    ensures q.Processed()
    ensures q.Stable() <==> e.Bounded?
    ensures e.Bounded? ==> q.i == maxIters
    ensures e.Escaped? ==> q.calcVal.value == smooth(e.magnitude, e.iters)
    ensures q.filled == p.filled
  {
    match e
    case Bounded => p.Calculate(0.0, maxIters, smooth)
    case Escaped(m, k) => p.Calculate(m, k, smooth)
  }

  /** The store made by the fast fill: stable at the full budget, flagged as
      filled, without consulting the evaluator. */
  function FastFilled(p: PlotPoint, maxIters: nat, smooth: Smoothing): (q: PlotPoint)
    requires !p.Processed()
    ensures q.Stable() && q.filled
  {
    p.Calculate(0.0, maxIters, smooth).(filled := true)
  }

  /** Stability implies processing, and among processed points stability is
      exactly a stored magnitude of 0. */
  lemma StableMeansProcessedZero(p: PlotPoint)
    ensures p.Stable() ==> p.Processed()
    ensures p.Processed() ==> (p.Stable() <==> p.val == 0.0)
  {
  }

  /** A fast-filled point holds exactly what an evaluation that stayed bounded
      would have stored; only the `filled` flag tells them apart. */
  lemma FastFillMatchesBoundedEvaluation(p: PlotPoint, maxIters: nat, smooth: Smoothing)
    requires !p.Processed()
    ensures FastFilled(p, maxIters, smooth) == Evaluate(p, Bounded, maxIters, smooth).(filled := true)
  {
  }

  /** Resetting an evaluated, never fast-filled point gives back the point
      it was calculated from, except that the raw magnitude and iteration
      count of the evaluation stay behind. */
  lemma ResetUndoesCalculate(p: PlotPoint, v: real, iters: nat, smooth: Smoothing)
    requires !p.Processed() && !p.filled
    ensures p.Calculate(v, iters, smooth).Reset() == p.(val := v, i := iters)
  {
  }
}
