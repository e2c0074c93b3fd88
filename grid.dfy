/** The fixed 80x80 tile grid, its two cell types (occupancy tiles and path costs),
    and the footprint/diamond geometry shared by the map, the router and the predicates. */
module Grid {

  /** MAP_SIZE: the side of the square map. */
  const N: int := 80

  datatype Option<T> = None | Some(value: T)

  /** Vec2Int: a grid coordinate (x is the first array index, y the second). */
  datatype Pos = Pos(x: int, y: int)

  /** tile_t: what occupies a cell of worldMap / buildMap. */
  datatype Tile = Empty | Blocked | Destroyable

  // path_t: sentinels of the router's cost grid; values >= 0 are wave numbers.
  const PATH_EMPTY: int := -5
  const PATH_DESTROYABLE: int := -4
  const PATH_BLOCKED: int := -3
  const PATH_TARGET_FOUND: int := -2
  const PATH_TARGET: int := -1
  const PATH_START: int := 0

  /** The largest value of a C++ `int`: the default search range. */
  const INT_MAX: int := 0x7fff_ffff

  predicate InGrid(x: int, y: int) { 0 <= x < N && 0 <= y < N }

  predicate InGridPos(p: Pos) { InGrid(p.x, p.y) }

  /** A size x size footprint anchored at p lies inside the map. */
  predicate FootprintInGrid(p: Pos, size: int) {
    0 <= size && 0 <= p.x && p.x + size <= N && 0 <= p.y && p.y + size <= N
  }

  predicate InFootprint(x: int, y: int, p: Pos, size: int) {
    p.x <= x < p.x + size && p.y <= y < p.y + size
  }

  /** An N x N array: the shape of every grid of the program. */
  predicate IsMap<T>(a: array2<T>) { a.Length0 == N && a.Length1 == N }

  /** A grid as a value: N rows of N cells. */
  type Grid<T> = seq<seq<T>>

  predicate IsGrid<T>(g: Grid<T>) {
    |g| == N && forall i :: 0 <= i < N ==> |g[i]| == N
  }

  /** The contents of a grid array as a value. */
  ghost function Snapshot<T>(a: array2<T>): (g: Grid<T>)
    requires IsMap(a)
    reads a
    ensures IsGrid(g)
    ensures forall i, j :: InGrid(i, j) ==> g[i][j] == a[i, j]
  {
    seq(N, i requires 0 <= i < N reads a => seq(N, j requires 0 <= j < N reads a => a[i, j]))
  }

  /** Two grids with the same cells are the same grid. */
  lemma GridExt<T>(g: Grid<T>, h: Grid<T>)
    requires IsGrid(g) && IsGrid(h)
    requires forall i, j :: InGrid(i, j) ==> g[i][j] == h[i][j]
    ensures g == h
  {
    forall i | 0 <= i < N ensures g[i] == h[i] {
      assert forall j :: 0 <= j < N ==> g[i][j] == h[i][j];
    }
  }

  /** The grid g with cell p replaced by v. */
  function SetCell<T>(g: Grid<T>, p: Pos, v: T): (h: Grid<T>)
    requires IsGrid(g) && InGridPos(p)
    ensures IsGrid(h)
    ensures h[p.x][p.y] == v
    ensures forall i, j :: InGrid(i, j) && (i != p.x || j != p.y) ==> h[i][j] == g[i][j]
  {
    g[p.x := g[p.x][p.y := v]]
  }

  function Abs(a: int): nat { if a < 0 then -a else a }

  /** |tx - (px + i)| + |ty - (py + j)| <= r: the cell (tx, ty) lies in the diamond of
      radius r around the footprint cell (px + i, py + j). */
  predicate NearFootCell(tx: int, ty: int, px: int, py: int, i: int, j: int, r: int) {
    Abs(tx - (px + i)) + Abs(ty - (py + j)) <= r
  }

  /** Some cell of the size x size footprint at p is within Manhattan distance r of (tx, ty). */
  ghost predicate InReach(tx: int, ty: int, p: Pos, size: int, r: int) {
    exists i, j :: 0 <= i < size && 0 <= j < size && NearFootCell(tx, ty, p.x, p.y, i, j, r)
  }

  /** Manhattan distance from (tx, ty) to the nearest cell of the footprint [lo, lo + size) on one axis. */
  function AxisGap(t: int, lo: int, size: int): nat {
    if t < lo then lo - t else if t > lo + size - 1 then t - (lo + size - 1) else 0
  }

  /** The Manhattan distance from a cell to a non-empty footprint, in closed form. */
  function FootprintDistance(tx: int, ty: int, p: Pos, size: int): nat {
    AxisGap(tx, p.x, size) + AxisGap(ty, p.y, size)
  }

  /** The closed form decides the footprint-aware diamond test. */
  lemma InReachIffDistance(tx: int, ty: int, p: Pos, size: int, r: int)
    ensures InReach(tx, ty, p, size, r) <==> size >= 1 && FootprintDistance(tx, ty, p, size) <= r
  {
    if size >= 1 && FootprintDistance(tx, ty, p, size) <= r {
      var i := if tx < p.x then 0 else if tx > p.x + size - 1 then size - 1 else tx - p.x;
      var j := if ty < p.y then 0 else if ty > p.y + size - 1 then size - 1 else ty - p.y;
      assert NearFootCell(tx, ty, p.x, p.y, i, j, r);
    }
    if InReach(tx, ty, p, size, r) {
      var i, j :| 0 <= i < size && 0 <= j < size && NearFootCell(tx, ty, p.x, p.y, i, j, r);
      assert AxisGap(tx, p.x, size) <= Abs(tx - (p.x + i));
      assert AxisGap(ty, p.y, size) <= Abs(ty - (p.y + j));
    }
  }

  /** The diamond test is monotone in its radius. */
  lemma InReachMonotone(tx: int, ty: int, p: Pos, size: int, r: int, r': int)
    requires r <= r' && InReach(tx, ty, p, size, r)
    ensures InReach(tx, ty, p, size, r')
  {
    InReachIffDistance(tx, ty, p, size, r);
    InReachIffDistance(tx, ty, p, size, r');
  }

  /** Squared Euclidean distance: the exact integer counterpart of Distance(). */
  function SqDist(a: Pos, b: Pos): nat {
    (a.x - b.x) * (a.x - b.x) + (a.y - b.y) * (a.y - b.y)
  }

  /** Distance(a, b) <= r for an integer r. */
  predicate WithinDist(a: Pos, b: Pos, r: int) { r >= 0 && SqDist(a, b) <= r * r }

  /** Distance(a, b) < r for an integer r. */
  predicate CloserThan(a: Pos, b: Pos, r: int) { r > 0 && SqDist(a, b) < r * r }

  // ---------------------------------------------------------------------------------------
  // Diamond stamping: the four wedge loops that MakeMap (sight) and Move (turret fire) share.

  /** Offset of coordinate c from centre along a wedge's direction (positive or negative). */
  function Along(c: int, centre: int, positive: bool): int {
    if positive then c - centre else centre - c
  }

  /** Cell (i, j) belongs to the wedge of radius r at (cx, cy) opening towards (xPos, yPos). */
  predicate InWedge(i: int, j: int, cx: int, cy: int, r: int, xPos: bool, yPos: bool) {
    var a := Along(i, cx, xPos);
    var b := Along(j, cy, yPos);
    0 <= a && 0 <= b && a + b <= r
  }

  /** Writes v to every in-grid cell of one wedge. The source checks only the outward bound
      of each axis (`< MAP_SIZE` going up, `>= 0` going down); with the centre on the grid
      that is the whole clip. The cells of a wedge are visited with the outer offset
      counting up from 0; every write stores the same v, so the order has no effect. */
  method StampWedge<T>(m: array2<T>, cx: int, cy: int, r: int, xPos: bool, yPos: bool, v: T)
    requires IsMap(m) && InGrid(cx, cy)
    modifies m
    ensures forall i, j :: InGrid(i, j) ==>
      m[i, j] == if InWedge(i, j, cx, cy, r, xPos, yPos) then v else old(m[i, j])
  {
    var a := 0;
    while a <= r
      invariant 0 <= a && (r >= 0 ==> a <= r + 1)
      invariant forall i, j :: InGrid(i, j) ==>
        m[i, j] == if InWedge(i, j, cx, cy, r, xPos, yPos) && Along(i, cx, xPos) < a then v else old(m[i, j])
    {
      var b := 0;
      while b <= r - a
        invariant 0 <= b <= r - a + 1
        invariant forall i, j :: InGrid(i, j) ==>
          m[i, j] == if InWedge(i, j, cx, cy, r, xPos, yPos) &&
                        (Along(i, cx, xPos) < a || (Along(i, cx, xPos) == a && Along(j, cy, yPos) < b))
                     then v else old(m[i, j])
      {
        var x := if xPos then cx + a else cx - a;
        var y := if yPos then cy + b else cy - b;
        if (if xPos then x < N else x >= 0) && (if yPos then y < N else y >= 0) {
          m[x, y] := v;
        }
        b := b + 1;
      }
      a := a + 1;
    }
  }

  /** The four wedges together cover exactly the diamond |i - cx| + |j - cy| <= r. */
  lemma WedgesCoverDiamond(i: int, j: int, cx: int, cy: int, r: int)
    ensures (InWedge(i, j, cx, cy, r, true, true) || InWedge(i, j, cx, cy, r, false, true) ||
             InWedge(i, j, cx, cy, r, true, false) || InWedge(i, j, cx, cy, r, false, false))
            <==> Abs(i - cx) + Abs(j - cy) <= r
  {
  }

  /** Writes v to every in-grid cell within Manhattan distance r of (cx, cy). */
  method StampDiamond<T>(m: array2<T>, cx: int, cy: int, r: int, v: T)
    requires IsMap(m) && InGrid(cx, cy)
    modifies m
    ensures forall i, j :: InGrid(i, j) ==>
      m[i, j] == if NearFootCell(i, j, cx, cy, 0, 0, r) then v else old(m[i, j])
  {
    StampWedge(m, cx, cy, r, true, true, v);
    StampWedge(m, cx, cy, r, false, true, v);
    StampWedge(m, cx, cy, r, true, false, v);
    StampWedge(m, cx, cy, r, false, false, v);
    forall i, j | InGrid(i, j)
      ensures (InWedge(i, j, cx, cy, r, true, true) || InWedge(i, j, cx, cy, r, false, true) ||
               InWedge(i, j, cx, cy, r, true, false) || InWedge(i, j, cx, cy, r, false, false))
              <==> NearFootCell(i, j, cx, cy, 0, 0, r)
    {
      WedgesCoverDiamond(i, j, cx, cy, r);
    }
  }

  /** Some footprint cell (pi, pj) that comes before (ci, cj) in row-major order
      (or every cell, when ci == size) is within distance r of (i, j). */
  ghost predicate ReachedBefore(i: int, j: int, p: Pos, size: int, r: int, ci: int, cj: int) {
    exists a, b :: 0 <= a < size && 0 <= b < size && (a < ci || (a == ci && b < cj)) &&
      NearFootCell(i, j, p.x, p.y, a, b, r)
  }

  /** The sight / fire diamond of a footprint: v on every in-grid cell within Manhattan
      distance r of some footprint cell, every other cell unchanged. */
  method StampFootprintDiamond<T>(m: array2<T>, p: Pos, size: int, r: int, v: T)
    requires IsMap(m) && FootprintInGrid(p, size)
    modifies m
    ensures forall i, j :: InGrid(i, j) ==>
      m[i, j] == if InReach(i, j, p, size, r) then v else old(m[i, j])
  {
    var a := 0;
    while a < size
      invariant 0 <= a <= size
      invariant forall i, j :: InGrid(i, j) ==>
        m[i, j] == if ReachedBefore(i, j, p, size, r, a, 0) then v else old(m[i, j])
    {
      var b := 0;
      while b < size
        invariant 0 <= b <= size
        invariant forall i, j :: InGrid(i, j) ==>
          m[i, j] == if ReachedBefore(i, j, p, size, r, a, b) then v else old(m[i, j])
      {
        StampDiamond(m, p.x + a, p.y + b, r, v);
        forall i, j | InGrid(i, j)
          ensures ReachedBefore(i, j, p, size, r, a, b + 1) <==>
                  ReachedBefore(i, j, p, size, r, a, b) || NearFootCell(i, j, p.x + a, p.y + b, 0, 0, r)
        {
          if NearFootCell(i, j, p.x + a, p.y + b, 0, 0, r) {
            assert NearFootCell(i, j, p.x, p.y, a, b, r);
          }
        }
        b := b + 1;
      }
      forall i, j | InGrid(i, j)
        ensures ReachedBefore(i, j, p, size, r, a + 1, 0) <==> ReachedBefore(i, j, p, size, r, a, size)
      {
      }
      a := a + 1;
    }
    forall i, j | InGrid(i, j)
      ensures ReachedBefore(i, j, p, size, r, size, 0) <==> InReach(i, j, p, size, r)
    {
    }
  }

  /** Writes v to the in-grid part of the square [x0, x0 + side) x [y0, y0 + side). */
  method StampSquareClipped<T>(m: array2<T>, x0: int, y0: int, side: int, v: T)
    requires IsMap(m)
    modifies m
    ensures forall i, j :: InGrid(i, j) ==>
      m[i, j] == if InFootprint(i, j, Pos(x0, y0), side) then v else old(m[i, j])
  {
    var a := 0;
    while a < side
      invariant 0 <= a && (side >= 0 ==> a <= side)
      invariant forall i, j :: InGrid(i, j) ==>
        m[i, j] == if x0 <= i < x0 + a && y0 <= j < y0 + side then v else old(m[i, j])
    {
      var b := 0;
      while b < side
        invariant 0 <= b <= side
        invariant forall i, j :: InGrid(i, j) ==>
          m[i, j] == if (x0 <= i < x0 + a || (i == x0 + a && j < y0 + b)) && y0 <= j < y0 + side
                     then v else old(m[i, j])
      {
        if InGrid(x0 + a, y0 + b) {
          m[x0 + a, y0 + b] := v;
        }
        b := b + 1;
      }
      a := a + 1;
    }
  }

  /** Writes v to every cell of a footprint that lies inside the map (no clipping: the
      source indexes the footprint directly). */
  method StampFootprint<T>(m: array2<T>, p: Pos, size: int, v: T)
    requires IsMap(m) && FootprintInGrid(p, size)
    modifies m
    ensures forall i, j :: InGrid(i, j) ==>
      m[i, j] == if InFootprint(i, j, p, size) then v else old(m[i, j])
  {
    var a := 0;
    while a < size
      invariant 0 <= a <= size
      invariant forall i, j :: InGrid(i, j) ==>
        m[i, j] == if p.x <= i < p.x + a && p.y <= j < p.y + size then v else old(m[i, j])
    {
      var b := 0;
      while b < size
        invariant 0 <= b <= size
        invariant forall i, j :: InGrid(i, j) ==>
          m[i, j] == if (p.x <= i < p.x + a || (i == p.x + a && j < p.y + b)) && p.y <= j < p.y + size
                     then v else old(m[i, j])
      {
        m[p.x + a, p.y + b] := v;
        b := b + 1;
      }
      a := a + 1;
    }
  }
}
