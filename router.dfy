/** SearchPath: the flood-fill router. Wave p relabels every sentinel neighbour of a cell
    holding p (empty: p + 1, destroyable: p + 8, target: found); the found targets are then
    relabelled p + 1 and returned. The in-place method is proved equal to the value-level
    function Search, and the router's guarantees are lemmas about Search. */
module Router {
  import opened Grid

  /** A cell value the router may still rewrite. */
  predicate IsOpen(v: int) {
    v == PATH_EMPTY || v == PATH_TARGET || v == PATH_DESTROYABLE || v == PATH_TARGET_FOUND
  }

  /** The value a sentinel cell takes when a neighbour holds wave p. */
  function Relabel(v: int, p: int): int {
    if v == PATH_EMPTY then p + 1
    else if v == PATH_TARGET then PATH_TARGET_FOUND
    else if v == PATH_DESTROYABLE then p + 8
    else v
  }

  /** (a, b) is visited before (i, j) in the row-major sweep. */
  predicate Before(a: int, b: int, i: int, j: int) { a < i || (a == i && b < j) }

  /** A 4-neighbour of (x, y) inside the grid holds v. */
  predicate HasNeighbourValued(g: Grid<int>, x: int, y: int, v: int)
    requires IsGrid(g) && InGrid(x, y)
  {
    (x > 0 && g[x - 1][y] == v) || (x < N - 1 && g[x + 1][y] == v) ||
    (y > 0 && g[x][y - 1] == v) || (y < N - 1 && g[x][y + 1] == v)
  }

  /** A 4-neighbour of (x, y) visited before (i, j) holds wave p. */
  predicate SeededBefore(g: Grid<int>, p: int, x: int, y: int, i: int, j: int)
    requires IsGrid(g) && InGrid(x, y)
  {
    (x > 0 && g[x - 1][y] == p && Before(x - 1, y, i, j)) ||
    (x < N - 1 && g[x + 1][y] == p && Before(x + 1, y, i, j)) ||
    (y > 0 && g[x][y - 1] == p && Before(x, y - 1, i, j)) ||
    (y < N - 1 && g[x][y + 1] == p && Before(x, y + 1, i, j))
  }

  /** Cell (x, y) once the sweep of wave p over g has visited every cell before (i, j). */
  function PartialSweepCell(g: Grid<int>, p: int, x: int, y: int, i: int, j: int): int
    requires IsGrid(g) && InGrid(x, y)
  {
    if SeededBefore(g, p, x, y, i, j) then Relabel(g[x][y], p) else g[x][y]
  }

  function SweepCell(g: Grid<int>, p: int, x: int, y: int): int
    requires IsGrid(g) && InGrid(x, y)
  {
    if HasNeighbourValued(g, x, y, p) then Relabel(g[x][y], p) else g[x][y]
  }

  /** One sweep of wave p. No value it writes equals p, so the in-place sweep of the source
      computes the same grid as this simultaneous one. */
  function Sweep(g: Grid<int>, p: int): (s: Grid<int>)
    requires IsGrid(g)
    ensures IsGrid(s)
    ensures forall x, y :: InGrid(x, y) ==> s[x][y] == SweepCell(g, p, x, y)
  {
    seq(N, x requires 0 <= x < N => seq(N, y requires 0 <= y < N => SweepCell(g, p, x, y)))
  }

  /** The relabelling of found targets to wave p + 1. */
  function Collect(g: Grid<int>, p: int): (c: Grid<int>)
    requires IsGrid(g)
    ensures IsGrid(c)
    ensures forall x, y :: InGrid(x, y) ==> c[x][y] == if g[x][y] == PATH_TARGET_FOUND then p + 1 else g[x][y]
  {
    seq(N, x requires 0 <= x < N => seq(N, y requires 0 <= y < N =>
      if g[x][y] == PATH_TARGET_FOUND then p + 1 else g[x][y]))
  }

  /** The cells before (i, j) holding v, in row-major order. */
  function CellsBefore(g: Grid<int>, v: int, i: int, j: int): seq<Pos>
    requires IsGrid(g) && 0 <= i <= N && 0 <= j <= N && (i == N ==> j == 0)
    decreases i, j
  {
    if j == 0 then (if i == 0 then [] else CellsBefore(g, v, i - 1, N))
    else CellsBefore(g, v, i, j - 1) + (if g[i][j - 1] == v then [Pos(i, j - 1)] else [])
  }

  /** The found targets of g, in the order the collecting sweep pushes them. */
  function FoundCells(g: Grid<int>): seq<Pos>
    requires IsGrid(g)
  {
    CellsBefore(g, PATH_TARGET_FOUND, N, 0)
  }

  /** Some cell holds wave p (the sweep clears stopSearch). */
  predicate HasWave(g: Grid<int>, p: int)
    requires IsGrid(g)
  {
    exists x, y :: 0 <= x < N && 0 <= y < N && g[x][y] == p
  }

  datatype SearchResult = SearchResult(found: bool, targets: seq<Pos>, grid: Grid<int>)

  /** The router from wave p on: stop when the wave passes range (the target list is then
      still empty), succeed on the first sweep that finds targets, fail on the first sweep
      that meets no cell of its wave. */
  function Search(g: Grid<int>, p: int, range: int): (r: SearchResult)
    requires IsGrid(g)
    ensures IsGrid(r.grid)
    decreases range - p
  {
    if p > range then SearchResult(false, [], g)
    else
      var s := Sweep(g, p);
      var t := FoundCells(s);
      var c := Collect(s, p);
      if t != [] then SearchResult(true, t, c)
      else if !HasWave(g, p) then SearchResult(false, [], c)
      else Search(c, p + 1, range)
  }

  // ---------------------------------------------------------------------------------------
  // The in-place router.

  /** (x, y) is one of the four neighbours of (i, j). */
  predicate Adjacent(x: int, y: int, i: int, j: int) {
    (x == i - 1 && y == j) || (x == i + 1 && y == j) || (x == i && y == j - 1) || (x == i && y == j + 1)
  }

  /** `if (inBounds && map[x][y] == from) map[x][y] = to;` for one cell. */
  method ReplaceIf(a: array2<int>, x: int, y: int, from: int, to: int)
    requires IsMap(a)
    modifies a
    ensures forall u, v :: InGrid(u, v) ==>
      a[u, v] == if u == x && v == y && old(a[u, v]) == from then to else old(a[u, v])
  {
    if InGrid(x, y) && a[x, y] == from {
      a[x, y] := to;
    }
  }

  /** One row of the sweep body: the four neighbour tests -x, +x, -y, +y for one sentinel. */
  method ReplaceAround(a: array2<int>, i: int, j: int, from: int, to: int)
    requires IsMap(a) && InGrid(i, j)
    modifies a
    ensures forall x, y :: InGrid(x, y) ==>
      a[x, y] == if Adjacent(x, y, i, j) && old(a[x, y]) == from then to else old(a[x, y])
  {
    ReplaceIf(a, i - 1, j, from, to);
    ReplaceIf(a, i + 1, j, from, to);
    ReplaceIf(a, i, j - 1, from, to);
    ReplaceIf(a, i, j + 1, from, to);
  }

  /** The body of the sweep for one cell holding wave p: empty neighbours become p + 1,
      targets are found, and (it takes about 7 ticks to destroy a resource) destroyable
      neighbours become p + 8. */
  method Expand(a: array2<int>, i: int, j: int, p: int)
    requires IsMap(a) && InGrid(i, j) && p >= 0
    modifies a
    ensures forall x, y :: InGrid(x, y) ==>
      a[x, y] == if Adjacent(x, y, i, j) then Relabel(old(a[x, y]), p) else old(a[x, y])
  {
    ReplaceAround(a, i, j, PATH_EMPTY, p + 1);
    ReplaceAround(a, i, j, PATH_TARGET, PATH_TARGET_FOUND);
    ReplaceAround(a, i, j, PATH_DESTROYABLE, p + 8);
  }

  /** Sweeping past (i, j) relabels the neighbours of (i, j) when it holds wave p. */
  lemma PartialSweepStep(g: Grid<int>, p: int, i: int, j: int, x: int, y: int)
    requires IsGrid(g) && InGrid(i, j) && InGrid(x, y) && p >= 0
    ensures PartialSweepCell(g, p, x, y, i, j + 1) ==
      if g[i][j] == p && Adjacent(x, y, i, j) then Relabel(PartialSweepCell(g, p, x, y, i, j), p)
      else PartialSweepCell(g, p, x, y, i, j)
  {
  }

  /** A cell holds p during the sweep of wave p exactly when it held p before. */
  lemma PartialSweepKeepsWave(g: Grid<int>, p: int, i: int, j: int, x: int, y: int)
    requires IsGrid(g) && InGrid(x, y) && p >= 0
    ensures PartialSweepCell(g, p, x, y, i, j) == p <==> g[x][y] == p
  {
  }

  /** One step of the first double loop: the cell (i, j). */
  method SweepCellAt(a: array2<int>, i: int, j: int, p: int, ghost g: Grid<int>) returns (expanded: bool)
    requires IsMap(a) && IsGrid(g) && InGrid(i, j) && p >= 0
    requires forall x, y :: InGrid(x, y) ==> a[x, y] == PartialSweepCell(g, p, x, y, i, j)
    modifies a
    ensures forall x, y :: InGrid(x, y) ==> a[x, y] == PartialSweepCell(g, p, x, y, i, j + 1)
    ensures expanded == (g[i][j] == p)
  {
    PartialSweepKeepsWave(g, p, i, j, i, j);
    expanded := a[i, j] == p;
    if expanded {
      Expand(a, i, j, p);
    }
    forall x, y | InGrid(x, y) ensures a[x, y] == PartialSweepCell(g, p, x, y, i, j + 1) {
      PartialSweepStep(g, p, i, j, x, y);
    }
  }

  /** The first double loop of a wave: expands every cell holding p, in row-major order. */
  method SweepWave(a: array2<int>, p: int) returns (stopSearch: bool)
    requires IsMap(a) && p >= 0
    modifies a
    ensures Snapshot(a) == Sweep(old(Snapshot(a)), p)
    ensures stopSearch == !HasWave(old(Snapshot(a)), p)
  {
    ghost var g := Snapshot(a);
    stopSearch := true;
    var i := 0;
    while i < N
      invariant 0 <= i <= N
      invariant forall x, y :: InGrid(x, y) ==> a[x, y] == PartialSweepCell(g, p, x, y, i, 0)
      invariant !stopSearch <==> exists x, y :: InGrid(x, y) && x < i && g[x][y] == p
    {
      var seen := SweepRow(a, p, i, g);
      if seen {
        stopSearch := false;
      }
      i := i + 1;
    }
    assert forall x, y :: InGrid(x, y) ==> PartialSweepCell(g, p, x, y, N, 0) == SweepCell(g, p, x, y);
    GridExt(Snapshot(a), Sweep(g, p));
  }

  /** The inner loop of the sweep over row i: the grid moves from the state before (i, 0) to
      the state before (i + 1, 0), and seen says whether the row held wave p. */
  method SweepRow(a: array2<int>, p: int, i: int, ghost g: Grid<int>) returns (seen: bool)
    requires IsMap(a) && IsGrid(g) && p >= 0 && 0 <= i < N
    requires forall x, y :: InGrid(x, y) ==> a[x, y] == PartialSweepCell(g, p, x, y, i, 0)
    modifies a
    ensures forall x, y :: InGrid(x, y) ==> a[x, y] == PartialSweepCell(g, p, x, y, i + 1, 0)
    ensures seen <==> exists y :: 0 <= y < N && g[i][y] == p
  {
    seen := false;
    var j := 0;
    while j < N
      invariant 0 <= j <= N
      invariant forall x, y :: InGrid(x, y) ==> a[x, y] == PartialSweepCell(g, p, x, y, i, j)
      invariant seen <==> exists y :: 0 <= y < j && g[i][y] == p
    {
      var expanded := SweepCellAt(a, i, j, p, g);
      if expanded {
        seen := true;
      }
      j := j + 1;
    }
    assert forall x, y :: InGrid(x, y) ==> PartialSweepCell(g, p, x, y, i, N) == PartialSweepCell(g, p, x, y, i + 1, 0);
  }

  /** The second double loop of a wave: relabels found targets p + 1 and lists them. */
  method CollectFound(a: array2<int>, p: int) returns (found: seq<Pos>)
    requires IsMap(a)
    modifies a
    ensures Snapshot(a) == Collect(old(Snapshot(a)), p)
    ensures found == FoundCells(old(Snapshot(a)))
  {
    ghost var g := Snapshot(a);
    found := [];
    var i := 0;
    while i < N
      invariant 0 <= i <= N
      invariant forall x, y :: InGrid(x, y) ==>
        a[x, y] == if Before(x, y, i, 0) && g[x][y] == PATH_TARGET_FOUND then p + 1 else g[x][y]
      invariant found == CellsBefore(g, PATH_TARGET_FOUND, i, 0)
    {
      found := CollectRow(a, p, i, g, found);
      i := i + 1;
    }
    GridExt(Snapshot(a), Collect(g, p));
  }

  /** The inner loop of the collection over row i: relabels its found targets and appends
      them to found. */
  method CollectRow(a: array2<int>, p: int, i: int, ghost g: Grid<int>, found0: seq<Pos>) returns (found: seq<Pos>)
    requires IsMap(a) && IsGrid(g) && 0 <= i < N
    requires forall x, y :: InGrid(x, y) ==>
      a[x, y] == if Before(x, y, i, 0) && g[x][y] == PATH_TARGET_FOUND then p + 1 else g[x][y]
    requires found0 == CellsBefore(g, PATH_TARGET_FOUND, i, 0)
    modifies a
    ensures forall x, y :: InGrid(x, y) ==>
      a[x, y] == if Before(x, y, i + 1, 0) && g[x][y] == PATH_TARGET_FOUND then p + 1 else g[x][y]
    ensures found == CellsBefore(g, PATH_TARGET_FOUND, i + 1, 0)
  {
    found := found0;
    var j := 0;
    while j < N
      invariant 0 <= j <= N
      invariant forall x, y :: InGrid(x, y) ==>
        a[x, y] == if Before(x, y, i, j) && g[x][y] == PATH_TARGET_FOUND then p + 1 else g[x][y]
      invariant found == CellsBefore(g, PATH_TARGET_FOUND, i, j)
    {
      if a[i, j] == PATH_TARGET_FOUND {
        a[i, j] := p + 1;
        found := found + [Pos(i, j)];
      }
      j := j + 1;
    }
  }

  /** One wave: the sweep, then the collection of the targets it found. */
  method Wave(a: array2<int>, p: int) returns (stopSearch: bool, found: seq<Pos>)
    requires IsMap(a) && p >= 0
    modifies a
    ensures Snapshot(a) == Collect(Sweep(old(Snapshot(a)), p), p)
    ensures found == FoundCells(Sweep(old(Snapshot(a)), p))
    ensures stopSearch == !HasWave(old(Snapshot(a)), p)
  {
    stopSearch := SweepWave(a, p);
    found := CollectFound(a, p);
  }

  /** SearchPath on the cost grid a: its answer and the grid it leaves are those of Search. */
  method SearchPath(a: array2<int>, range: int) returns (ok: bool, targetPositions: seq<Pos>)
    requires IsMap(a)
    modifies a
    ensures Search(old(Snapshot(a)), 0, range) == SearchResult(ok, targetPositions, Snapshot(a))
  {
    ghost var goal := Search(Snapshot(a), 0, range);
    var path := 0;
    targetPositions := [];
    while true
      invariant path >= 0 && targetPositions == []
      invariant Search(Snapshot(a), path, range) == goal
      decreases range - path
    {
      if path > range {
        return |targetPositions| > 0, targetPositions;
      }
      ghost var g := Snapshot(a);
      var stopSearch, found := Wave(a, path);
      SearchUnfold(g, path, range);
      targetPositions := targetPositions + found;
      if found != [] {
        return true, targetPositions;
      }
      if stopSearch {
        return false, targetPositions;
      }
      path := path + 1;
    }
  }

  /** One step of Search, spelled out for the in-place router. */
  lemma SearchUnfold(g: Grid<int>, p: int, range: int)
    requires IsGrid(g) && 0 <= p <= range
    ensures var t := FoundCells(Sweep(g, p)); var c := Collect(Sweep(g, p), p);
      (t != [] ==> Search(g, p, range) == SearchResult(true, t, c)) &&
      (t == [] && !HasWave(g, p) ==> Search(g, p, range) == SearchResult(false, [], c)) &&
      (t == [] && HasWave(g, p) ==> Search(g, p, range) == Search(c, p + 1, range))
  {
  }
}

module RouterFacts {
  import opened Grid
  import opened Router

  /** The cells of CellsBefore(g, v, i, j) are exactly the cells before (i, j) holding v. */
  lemma {:induction false} CellsBeforeMembers(g: Grid<int>, v: int, i: int, j: int, q: Pos)
    requires IsGrid(g) && 0 <= i <= N && 0 <= j <= N && (i == N ==> j == 0)
    ensures q in CellsBefore(g, v, i, j) <==> InGridPos(q) && Before(q.x, q.y, i, j) && g[q.x][q.y] == v
    decreases i, j
  {
    if j == 0 {
      if i > 0 {
        CellsBeforeMembers(g, v, i - 1, N, q);
      }
    } else {
      CellsBeforeMembers(g, v, i, j - 1, q);
    }
  }

  /** FoundCells lists every found target of g and nothing else. */
  lemma FoundCellsMembers(g: Grid<int>)
    requires IsGrid(g)
    ensures forall q :: q in FoundCells(g) <==> InGridPos(q) && g[q.x][q.y] == PATH_TARGET_FOUND
  {
    forall q ensures q in FoundCells(g) <==> InGridPos(q) && g[q.x][q.y] == PATH_TARGET_FOUND {
      CellsBeforeMembers(g, PATH_TARGET_FOUND, N, 0, q);
    }
  }

  /** No found target left: FoundCells is empty exactly then. */
  lemma FoundCellsEmpty(g: Grid<int>)
    requires IsGrid(g)
    ensures FoundCells(g) == [] <==> forall x, y :: InGrid(x, y) ==> g[x][y] != PATH_TARGET_FOUND
  {
    var t := FoundCells(g);
    FoundCellsMembers(g);
    if t != [] {
      var q := t[0];
      assert q in t;
      assert InGrid(q.x, q.y) && g[q.x][q.y] == PATH_TARGET_FOUND;
    } else {
      forall x, y | InGrid(x, y) ensures g[x][y] != PATH_TARGET_FOUND {
        assert Pos(x, y) !in t;
      }
    }
  }

  /** Cell (x, y), if it lies in the grid and is closed in g, holds the same value in f. */
  predicate KeptAt(g: Grid<int>, f: Grid<int>, x: int, y: int)
    requires IsGrid(g) && IsGrid(f)
  {
    InGrid(x, y) && !IsOpen(g[x][y]) ==> f[x][y] == g[x][y]
  }

  /** The four neighbours of (x, y) are kept from g to f. */
  predicate NeighboursKept(g: Grid<int>, f: Grid<int>, x: int, y: int)
    requires IsGrid(g) && IsGrid(f)
  {
    KeptAt(g, f, x - 1, y) && KeptAt(g, f, x + 1, y) && KeptAt(g, f, x, y - 1) && KeptAt(g, f, x, y + 1)
  }

  /** A neighbour holding a closed value still holds it in f. */
  lemma NeighbourKept(g: Grid<int>, f: Grid<int>, x: int, y: int, v: int)
    requires IsGrid(g) && IsGrid(f) && InGrid(x, y) && !IsOpen(v)
    requires NeighboursKept(g, f, x, y) && HasNeighbourValued(g, x, y, v)
    ensures HasNeighbourValued(f, x, y, v)
  {
  }

  /** Why a cell that was v0 now holds f[x][y] after a search from wave p: an empty cell
      or a target sits one wave after a neighbour, a destroyable cell eight waves after one,
      and a target already found is relabelled by the first wave. */
  predicate Justified(v0: int, f: Grid<int>, x: int, y: int, p: int)
    requires IsGrid(f) && InGrid(x, y)
  {
    (v0 == PATH_EMPTY && f[x][y] >= p + 1 && HasNeighbourValued(f, x, y, f[x][y] - 1)) ||
    (v0 == PATH_TARGET && f[x][y] >= p + 1 && HasNeighbourValued(f, x, y, f[x][y] - 1)) ||
    (v0 == PATH_DESTROYABLE && f[x][y] >= p + 8 && HasNeighbourValued(f, x, y, f[x][y] - 8)) ||
    (v0 == PATH_TARGET_FOUND && f[x][y] == p + 1)
  }

  /** Cell (x, y) is unchanged from g to f, or justified as relabelled from wave p on. */
  predicate JustifiedAt(g: Grid<int>, f: Grid<int>, x: int, y: int, p: int)
    requires IsGrid(g) && IsGrid(f) && InGrid(x, y)
  {
    f[x][y] != g[x][y] ==> Justified(g[x][y], f, x, y, p)
  }

  /** One wave keeps the closed cells at and around (x, y), and labels (x, y) as wave
      labelling demands if it rewrites it. */
  lemma WaveFacts(g: Grid<int>, p: int, x: int, y: int)
    requires IsGrid(g) && p >= 0 && InGrid(x, y)
    ensures var c := Collect(Sweep(g, p), p);
      KeptAt(g, c, x, y) && NeighboursKept(g, c, x, y) && JustifiedAt(g, c, x, y, p)
  {
    var c := Collect(Sweep(g, p), p);
    assert NeighboursKept(g, c, x, y);
    if HasNeighbourValued(g, x, y, p) {
      NeighbourKept(g, c, x, y, p);
    }
  }

  /** The facts of SearchCellFacts compose across the first wave and the later ones. */
  lemma ComposeFacts(g: Grid<int>, c: Grid<int>, f: Grid<int>, x: int, y: int, p: int)
    requires IsGrid(g) && IsGrid(c) && IsGrid(f) && InGrid(x, y) && p >= 0
    requires KeptAt(g, c, x, y) && NeighboursKept(g, c, x, y) && JustifiedAt(g, c, x, y, p)
    requires KeptAt(c, f, x, y) && NeighboursKept(c, f, x, y) && JustifiedAt(c, f, x, y, p + 1)
    requires c[x][y] != PATH_TARGET_FOUND
    ensures KeptAt(g, f, x, y) && NeighboursKept(g, f, x, y) && JustifiedAt(g, f, x, y, p)
  {
    if c[x][y] != g[x][y] {
      var d := if g[x][y] == PATH_DESTROYABLE then 8 else 1;
      if g[x][y] != PATH_TARGET_FOUND {
        NeighbourKept(c, f, x, y, c[x][y] - d);
      }
    }
  }

  /** From wave p on, the search keeps the closed cells at and around (x, y) and labels
      (x, y) as wave labelling demands if it rewrites it. */
  lemma {:induction false} SearchCellFacts(g: Grid<int>, p: int, range: int, f: Grid<int>, x: int, y: int)
    requires IsGrid(g) && p >= 0 && InGrid(x, y) && f == Search(g, p, range).grid
    ensures KeptAt(g, f, x, y) && NeighboursKept(g, f, x, y) && JustifiedAt(g, f, x, y, p)
    decreases range - p, 1
  {
    if p <= range {
      if FoundCells(Sweep(g, p)) == [] && HasWave(g, p) {
        LaterWavesFacts(g, p, range, f, x, y);
      } else {
        assert f == Collect(Sweep(g, p), p);
        WaveFacts(g, p, x, y);
      }
    }
  }

  /** The case of SearchCellFacts in which the first wave finds nothing and goes on. */
  lemma {:induction false} LaterWavesFacts(g: Grid<int>, p: int, range: int, f: Grid<int>, x: int, y: int)
    requires IsGrid(g) && p >= 0 && InGrid(x, y) && f == Search(g, p, range).grid
    requires p <= range && FoundCells(Sweep(g, p)) == [] && HasWave(g, p)
    ensures KeptAt(g, f, x, y) && NeighboursKept(g, f, x, y) && JustifiedAt(g, f, x, y, p)
    decreases range - p, 0
  {
    var c := Collect(Sweep(g, p), p);
    assert f == Search(c, p + 1, range).grid;
    SearchCellFacts(c, p + 1, range, f, x, y);
    WaveFacts(g, p, x, y);
    ComposeFacts(g, c, f, x, y, p);
  }

  /** No cell that is blocked, already labelled with a wave, or otherwise closed changes. */
  lemma SearchKeepsClosedCells(g: Grid<int>, p: int, range: int)
    requires IsGrid(g) && p >= 0
    ensures forall x, y :: InGrid(x, y) && !IsOpen(g[x][y]) ==> Search(g, p, range).grid[x][y] == g[x][y]
  {
    forall x, y | InGrid(x, y) && !IsOpen(g[x][y]) ensures Search(g, p, range).grid[x][y] == g[x][y] {
      SearchCellFacts(g, p, range, Search(g, p, range).grid, x, y);
    }
  }

  /** Every cell the search rewrites is labelled as wave labelling demands. */
  lemma SearchLabelsJustified(g: Grid<int>, p: int, range: int)
    requires IsGrid(g) && p >= 0
    ensures forall x, y :: InGrid(x, y) ==> JustifiedAt(g, Search(g, p, range).grid, x, y, p)
  {
    forall x, y | InGrid(x, y) ensures JustifiedAt(g, Search(g, p, range).grid, x, y, p) {
      SearchCellFacts(g, p, range, Search(g, p, range).grid, x, y);
    }
  }

  /** A target cell, found or not yet found. */
  predicate IsTargetValue(v: int) { v == PATH_TARGET || v == PATH_TARGET_FOUND }

  /** What the search says about q: it succeeds exactly when it lists targets, it lists q
      exactly when q is a target cell it rewrote, and every listed target holds the same
      wave, later than p. */
  predicate TargetFactsAt(g: Grid<int>, p: int, r: SearchResult, q: Pos)
    requires IsGrid(g) && IsGrid(r.grid)
  {
    (r.found <==> r.targets != []) &&
    (q in r.targets <==> InGridPos(q) && IsTargetValue(g[q.x][q.y]) && r.grid[q.x][q.y] != g[q.x][q.y]) &&
    (q in r.targets ==> r.grid[q.x][q.y] >= p + 1 &&
                        InGridPos(r.targets[0]) && r.grid[q.x][q.y] == r.grid[r.targets[0].x][r.targets[0].y])
  }

  /** A cell that one sweep does not turn into a found target keeps its target value, or
      its lack of one, through the collecting sweep. */
  lemma QuietWaveKeepsTargets(g: Grid<int>, p: int, q: Pos)
    requires IsGrid(g) && p >= 0 && InGridPos(q) && Sweep(g, p)[q.x][q.y] != PATH_TARGET_FOUND
    ensures var c := Collect(Sweep(g, p), p);
      (IsTargetValue(g[q.x][q.y]) <==> IsTargetValue(c[q.x][q.y])) &&
      (IsTargetValue(g[q.x][q.y]) ==> c[q.x][q.y] == g[q.x][q.y])
  {
    var s := Sweep(g, p);
    var v, sv := g[q.x][q.y], s[q.x][q.y];
    assert Collect(s, p)[q.x][q.y] == sv;
    assert sv == v || sv == Relabel(v, p);
  }

  /** The found targets of one wave are the target cells it rewrites, all at wave p + 1. */
  lemma WaveTargets(g: Grid<int>, p: int, q: Pos)
    requires IsGrid(g) && p >= 0
    ensures var s := Sweep(g, p); var t := FoundCells(s); var c := Collect(s, p);
      (q in t <==> InGridPos(q) && IsTargetValue(g[q.x][q.y]) && c[q.x][q.y] != g[q.x][q.y]) &&
      (q in t ==> c[q.x][q.y] == p + 1) &&
      (t != [] ==> InGridPos(t[0]) && c[t[0].x][t[0].y] == p + 1)
  {
    var t := FoundCells(Sweep(g, p));
    WaveTargetAt(g, p, q);
    if t != [] {
      WaveTargetAt(g, p, t[0]);
    }
  }

  /** WaveTargets for one cell. */
  lemma WaveTargetAt(g: Grid<int>, p: int, q: Pos)
    requires IsGrid(g) && p >= 0
    ensures var s := Sweep(g, p); var t := FoundCells(s); var c := Collect(s, p);
      (q in t <==> InGridPos(q) && IsTargetValue(g[q.x][q.y]) && c[q.x][q.y] != g[q.x][q.y]) &&
      (q in t ==> c[q.x][q.y] == p + 1)
  {
    CellsBeforeMembers(Sweep(g, p), PATH_TARGET_FOUND, N, 0, q);
  }

  lemma {:induction false} SearchTargetsAt(g: Grid<int>, p: int, range: int, r: SearchResult, q: Pos)
    requires IsGrid(g) && p >= 0 && r == Search(g, p, range)
    ensures TargetFactsAt(g, p, r, q)
    decreases range - p, 1
  {
    if p <= range {
      var s := Sweep(g, p);
      var t := FoundCells(s);
      if t == [] && HasWave(g, p) {
        LaterWavesTargets(g, p, range, r, q);
      } else {
        WaveTargets(g, p, q);
      }
    }
  }

  /** The case of SearchTargetsAt in which the first wave finds nothing and goes on. */
  lemma {:induction false} LaterWavesTargets(g: Grid<int>, p: int, range: int, r: SearchResult, q: Pos)
    requires IsGrid(g) && p >= 0 && r == Search(g, p, range)
    requires p <= range && FoundCells(Sweep(g, p)) == [] && HasWave(g, p)
    ensures TargetFactsAt(g, p, r, q)
    decreases range - p, 0
  {
    var c := Collect(Sweep(g, p), p);
    SearchTargetsAt(c, p + 1, range, Search(c, p + 1, range), q);
    assert r == Search(c, p + 1, range);
    if InGridPos(q) {
      CellsBeforeMembers(Sweep(g, p), PATH_TARGET_FOUND, N, 0, q);
      QuietWaveKeepsTargets(g, p, q);
    }
  }

  /** The search answers true exactly when it lists targets, and it lists exactly the
      target cells it rewrote, all with the same final wave. */
  lemma SearchTargets(g: Grid<int>, p: int, range: int)
    requires IsGrid(g) && p >= 0
    ensures var r := Search(g, p, range);
      (r.found <==> r.targets != []) &&
      (forall q :: q in r.targets <==>
         InGridPos(q) && IsTargetValue(g[q.x][q.y]) && r.grid[q.x][q.y] != g[q.x][q.y]) &&
      (forall q :: q in r.targets ==>
         r.grid[q.x][q.y] >= p + 1 && r.grid[q.x][q.y] == r.grid[r.targets[0].x][r.targets[0].y])
  {
    var r := Search(g, p, range);
    SearchTargetsAt(g, p, range, r, Pos(0, 0));
    forall q ensures q in r.targets <==>
      InGridPos(q) && IsTargetValue(g[q.x][q.y]) && r.grid[q.x][q.y] != g[q.x][q.y]
    {
      SearchTargetsAt(g, p, range, r, q);
    }
    forall q | q in r.targets
      ensures r.grid[q.x][q.y] >= p + 1 && r.grid[q.x][q.y] == r.grid[r.targets[0].x][r.targets[0].y]
    {
      SearchTargetsAt(g, p, range, r, q);
    }
  }
}
