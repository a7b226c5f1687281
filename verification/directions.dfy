/** The eight trace directions (`TraceDirection`), their neighbour offsets
    (the `NEIGHBOURS` table of `process_neighbours`) and the rotation in which
    a trace step visits them. Rows grow downwards, so `Down` is `dy = +1`. */
module Directions {

  datatype Dir = Right | RightDown | Down | LeftDown | Left | LeftUp | Up | RightUp

  /** `TraceDirection::get_index`. */
  function Index(d: Dir): (n: nat)
    ensures n < 8
    ensures FromIndex(n) == d
  {
    match d
    case Right => 0
    case RightDown => 1
    case Down => 2
    case LeftDown => 3
    case Left => 4
    case LeftUp => 5
    case Up => 6
    case RightUp => 7
  }

  function FromIndex(n: nat): Dir
    requires n < 8
  {
    if n == 0 then Right
    else if n == 1 then RightDown
    else if n == 2 then Down
    else if n == 3 then LeftDown
    else if n == 4 then Left
    else if n == 5 then LeftUp
    else if n == 6 then Up
    else RightUp
  }

  /** Column offset of the neighbour in direction `d`. */
  function Dx(d: Dir): int
  {
    match d
    case Right => 1
    case RightDown => 1
    case Down => 0
    case LeftDown => -1
    case Left => -1
    case LeftUp => -1
    case Up => 0
    case RightUp => 1
  }

  /** Row offset of the neighbour in direction `d`. */
  function Dy(d: Dir): int
  {
    match d
    case Right => 0
    case RightDown => 1
    case Down => 1
    case LeftDown => 1
    case Left => 0
    case LeftUp => -1
    case Up => -1
    case RightUp => -1
  }

  /** The static `NEIGHBOURS` table, in declaration order. */
  const Neighbours: seq<Dir> := [Right, RightDown, Down, LeftDown, Left, LeftUp, Up, RightUp]

  /** The order of `NEIGHBOURS.iter().rev().cycle().skip(8 - d + 3).take(8)`:
      the k-th element taken is element `(11 - d + k) mod 8` of the reversed
      table. */
  function Rotation(dir: Dir): (order: seq<Dir>)
    ensures |order| == 8
  {
    var reversed := seq(8, k requires 0 <= k < 8 => Neighbours[7 - k]);
    seq(8, k requires 0 <= k < 8 => reversed[(8 - Index(dir) + 3 + k) % 8])
  }

  /** Position of direction `d` within `Rotation(dir)`. */
  function RotationPos(dir: Dir, d: Dir): nat
  {
    (Index(dir) + 4 - Index(d)) % 8
  }

  /** Two pixels are 8-neighbours: distinct, at most one step apart on each
      axis. */
  predicate Adjacent(x: int, y: int, cx: int, cy: int)
  {
    (cx, cy) != (x, y) && -1 <= cx - x <= 1 && -1 <= cy - y <= 1
  }

  /** The direction that leads from a pixel to one of its neighbours. */
  function DirBetween(x: int, y: int, cx: int, cy: int): (d: Dir)
    requires Adjacent(x, y, cx, cy)
    ensures cx == x + Dx(d) && cy == y + Dy(d)
  {
    var dx, dy := cx - x, cy - y;
    if dy == 0 then (if dx == 1 then Right else Left)
    else if dy == 1 then (if dx == 1 then RightDown else if dx == 0 then Down else LeftDown)
    else (if dx == 1 then RightUp else if dx == 0 then Up else LeftUp)
  }

  /** The table holds the directions in index order, and each offset leads
      to a genuine neighbour. */
  lemma NeighboursTable(k: nat)
    requires k < 8
    ensures Neighbours[k] == FromIndex(k)
    ensures Adjacent(0, 0, Dx(Neighbours[k]), Dy(Neighbours[k]))
  {
  }

  /** A trace step starts with the direction opposite to the current one and
      then visits the directions in decreasing index order. */
  lemma RotationStartsOppositeAndDescends(dir: Dir, k: nat)
    requires k < 8
    ensures Index(Rotation(dir)[k]) == (Index(dir) + 4 - k) % 8
    ensures RotationPos(dir, Rotation(dir)[k]) == k
  {
    var j := Index(dir);
    var m := Mod8(8 - j + 3 + k);
    RotationElement(dir, k);
    NeighboursTable(7 - m);
    IndexOfFromIndex(7 - m);
    assert Index(Rotation(dir)[k]) == 7 - m;
    var t := Mod8(j + 4 - k);
    assert t == 7 - m;
    var u := Mod8(j + 4 - (7 - m));
    assert u == k;
  }

  /** `a % 8` for the small range of arguments the rotation produces. */
  lemma Mod8(a: int) returns (m: int)
    requires -8 <= a < 24
    ensures m == a % 8
    ensures m == if a < 0 then a + 8 else if a < 8 then a else if a < 16 then a - 8 else a - 16
  {
    m := if a < 0 then a + 8 else if a < 8 then a else if a < 16 then a - 8 else a - 16;
  }

  lemma RotationElement(dir: Dir, k: nat)
    requires k < 8
    ensures Rotation(dir)[k] == Neighbours[7 - (8 - Index(dir) + 3 + k) % 8]
  {
  }

  lemma IndexOfFromIndex(n: nat)
    requires n < 8
    ensures Index(FromIndex(n)) == n
  {
  }

  /** Every direction is visited, at position `RotationPos`, so each of the
      eight offsets is examined exactly once per step. */
  lemma RotationVisitsEachOnce(dir: Dir, d: Dir)
    ensures RotationPos(dir, d) < 8
    ensures Rotation(dir)[RotationPos(dir, d)] == d
  {
    var k := Mod8(Index(dir) + 4 - Index(d));
    RotationStartsOppositeAndDescends(dir, k);
    var i := Mod8(Index(dir) + 4 - k);
    assert i == Index(d);
    assert FromIndex(Index(Rotation(dir)[k])) == FromIndex(Index(d));
  }

  /** Distinct directions lead to distinct neighbours, and the direction
      towards a neighbour recovers the direction that produced it. */
  lemma OffsetsDetermineDirection(x: int, y: int, d: Dir)
    ensures Adjacent(x, y, x + Dx(d), y + Dy(d))
    ensures DirBetween(x, y, x + Dx(d), y + Dy(d)) == d
  {
  }
}
