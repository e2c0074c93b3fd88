/** Building placement: the free cells around a footprint (GetSpawnPoints), the test of one
    candidate anchor on the build map (checkPlace) and the three scan orders of
    SearchPlaceForBuilding. The builder's own tile does not count as an obstacle: checkPlace
    clears it before testing and blocks it again afterwards. */
module Placement {
  import opened Grid
  import opened Entities

  // ---------------------------------------------------------------------------------------
  // The cells along the sides of a footprint.

  /** The empty cells (cx, y), ..., (cx, y + n - 1), in increasing y. */
  function Column(g: Grid<Tile>, cx: int, y: int, n: int): seq<Pos>
    requires IsGrid(g) && (n > 0 ==> 0 <= cx < N && 0 <= y && y + n <= N)
    decreases n
  {
    if n <= 0 then []
    else Column(g, cx, y, n - 1) + (if g[cx][y + n - 1] == Empty then [Pos(cx, y + n - 1)] else [])
  }

  /** The empty cells (x, cy), ..., (x + n - 1, cy), in increasing x. */
  function Row(g: Grid<Tile>, x: int, cy: int, n: int): seq<Pos>
    requires IsGrid(g) && (n > 0 ==> 0 <= cy < N && 0 <= x && x + n <= N)
    decreases n
  {
    if n <= 0 then []
    else Row(g, x, cy, n - 1) + (if g[x + n - 1][cy] == Empty then [Pos(x + n - 1, cy)] else [])
  }

  /** A side of the scan, or nothing when its guard fails. */
  function ColumnIf(g: Grid<Tile>, guard: bool, cx: int, y: int, n: int): seq<Pos>
    requires IsGrid(g) && (guard && n > 0 ==> 0 <= cx < N && 0 <= y && y + n <= N)
  {
    if guard then Column(g, cx, y, n) else []
  }

  function RowIf(g: Grid<Tile>, guard: bool, x: int, cy: int, n: int): seq<Pos>
    requires IsGrid(g) && (guard && n > 0 ==> 0 <= cy < N && 0 <= x && x + n <= N)
  {
    if guard then Row(g, x, cy, n) else []
  }

  /** The empty cells bordering the size x size footprint at (x, y): the west side, the east
      side, the side above (y - 1) and the side below (y + size), each side skipped when it
      falls off the map. */
  function EdgeScan(g: Grid<Tile>, x: int, y: int, size: int): seq<Pos>
    requires IsGrid(g) && (size > 0 ==> FootprintInGrid(Pos(x, y), size))
  {
    ColumnIf(g, x > 0, x - 1, y, size) + ColumnIf(g, x + size < N, x + size, y, size) +
    RowIf(g, y > 0, x, y - 1, size) + RowIf(g, y + size < N, x, y + size, size)
  }

  /** q lies outside the footprint at p and shares a side with one of its cells. */
  predicate Borders(q: Pos, p: Pos, size: int) {
    !InFootprint(q.x, q.y, p, size) &&
    (InFootprint(q.x - 1, q.y, p, size) || InFootprint(q.x + 1, q.y, p, size) ||
     InFootprint(q.x, q.y - 1, p, size) || InFootprint(q.x, q.y + 1, p, size))
  }

  lemma {:induction false} ColumnMembers(g: Grid<Tile>, cx: int, y: int, n: int, q: Pos)
    requires IsGrid(g) && (n > 0 ==> 0 <= cx < N && 0 <= y && y + n <= N)
    ensures q in Column(g, cx, y, n) <==> q.x == cx && y <= q.y < y + n && g[cx][q.y] == Empty
    decreases n
  {
    if n > 0 {
      ColumnMembers(g, cx, y, n - 1, q);
    }
  }

  lemma {:induction false} RowMembers(g: Grid<Tile>, x: int, cy: int, n: int, q: Pos)
    requires IsGrid(g) && (n > 0 ==> 0 <= cy < N && 0 <= x && x + n <= N)
    ensures q in Row(g, x, cy, n) <==> q.y == cy && x <= q.x < x + n && g[q.x][cy] == Empty
    decreases n
  {
    if n > 0 {
      RowMembers(g, x, cy, n - 1, q);
    }
  }

  /** The four sides of the footprint, each clipped to the map. */
  predicate OnSide(q: Pos, x: int, y: int, size: int) {
    (x > 0 && q.x == x - 1 && y <= q.y < y + size) ||
    (x + size < N && q.x == x + size && y <= q.y < y + size) ||
    (y > 0 && q.y == y - 1 && x <= q.x < x + size) ||
    (y + size < N && q.y == y + size && x <= q.x < x + size)
  }

  lemma BordersOnSide(q: Pos, x: int, y: int, size: int)
    requires size > 0 ==> FootprintInGrid(Pos(x, y), size)
    ensures InGridPos(q) && Borders(q, Pos(x, y), size) <==> OnSide(q, x, y, size)
  {
  }

  lemma EdgeScanOnSide(g: Grid<Tile>, x: int, y: int, size: int, q: Pos)
    requires IsGrid(g) && (size > 0 ==> FootprintInGrid(Pos(x, y), size))
    ensures q in EdgeScan(g, x, y, size) <==> OnSide(q, x, y, size) && g[q.x][q.y] == Empty
  {
    WestMembers(g, x, y, size, q);
    EastMembers(g, x, y, size, q);
    NorthMembers(g, x, y, size, q);
    SouthMembers(g, x, y, size, q);
  }

  lemma WestMembers(g: Grid<Tile>, x: int, y: int, size: int, q: Pos)
    requires IsGrid(g) && (size > 0 ==> FootprintInGrid(Pos(x, y), size))
    ensures q in ColumnIf(g, x > 0, x - 1, y, size) <==>
            x > 0 && q.x == x - 1 && y <= q.y < y + size && g[q.x][q.y] == Empty
  {
    if x > 0 { ColumnMembers(g, x - 1, y, size, q); }
  }

  lemma EastMembers(g: Grid<Tile>, x: int, y: int, size: int, q: Pos)
    requires IsGrid(g) && (size > 0 ==> FootprintInGrid(Pos(x, y), size))
    ensures q in ColumnIf(g, x + size < N, x + size, y, size) <==>
            x + size < N && q.x == x + size && y <= q.y < y + size && g[q.x][q.y] == Empty
  {
    if x + size < N { ColumnMembers(g, x + size, y, size, q); }
  }

  lemma NorthMembers(g: Grid<Tile>, x: int, y: int, size: int, q: Pos)
    requires IsGrid(g) && (size > 0 ==> FootprintInGrid(Pos(x, y), size))
    ensures q in RowIf(g, y > 0, x, y - 1, size) <==>
            y > 0 && q.y == y - 1 && x <= q.x < x + size && g[q.x][q.y] == Empty
  {
    if y > 0 { RowMembers(g, x, y - 1, size, q); }
  }

  lemma SouthMembers(g: Grid<Tile>, x: int, y: int, size: int, q: Pos)
    requires IsGrid(g) && (size > 0 ==> FootprintInGrid(Pos(x, y), size))
    ensures q in RowIf(g, y + size < N, x, y + size, size) <==>
            y + size < N && q.y == y + size && x <= q.x < x + size && g[q.x][q.y] == Empty
  {
    if y + size < N { RowMembers(g, x, y + size, size, q); }
  }

  /** The spawn scan lists exactly the empty map cells that border the footprint. */
  lemma EdgeScanMembers(g: Grid<Tile>, x: int, y: int, size: int, q: Pos)
    requires IsGrid(g) && (size > 0 ==> FootprintInGrid(Pos(x, y), size))
    ensures q in EdgeScan(g, x, y, size) <==>
            InGridPos(q) && Borders(q, Pos(x, y), size) && g[q.x][q.y] == Empty
  {
    BordersOnSide(q, x, y, size);
    EdgeScanOnSide(g, x, y, size, q);
  }

  /** One side loop of the spawn scan, `for (k = 0; guard && k < n; k++)` over the cells
      (cx, y + k), keeping the empty ones. */
  method ScanColumn(m: array2<Tile>, ghost g: Grid<Tile>, guard: bool, cx: int, y: int, n: int) returns (cells: seq<Pos>)
    requires IsMap(m) && g == Snapshot(m) && (guard && n > 0 ==> 0 <= cx < N && 0 <= y && y + n <= N)
    ensures cells == ColumnIf(g, guard, cx, y, n)
  {
    cells := [];
    var k := 0;
    while guard && k < n
      invariant 0 <= k && (k > 0 ==> guard && k <= n)
      invariant cells == if guard then Column(g, cx, y, k) else []
    {
      assert g[cx][y + k] == m[cx, y + k];
      if m[cx, y + k] == Empty {
        cells := cells + [Pos(cx, y + k)];
      }
      k := k + 1;
    }
  }

  /** The same loop along a row: the cells (x + k, cy). */
  method ScanRow(m: array2<Tile>, ghost g: Grid<Tile>, guard: bool, x: int, cy: int, n: int) returns (cells: seq<Pos>)
    requires IsMap(m) && g == Snapshot(m) && (guard && n > 0 ==> 0 <= cy < N && 0 <= x && x + n <= N)
    ensures cells == RowIf(g, guard, x, cy, n)
  {
    cells := [];
    var k := 0;
    while guard && k < n
      invariant 0 <= k && (k > 0 ==> guard && k <= n)
      invariant cells == if guard then Row(g, x, cy, k) else []
    {
      assert g[x + k][cy] == m[x + k, cy];
      if m[x + k, cy] == Empty {
        cells := cells + [Pos(x + k, cy)];
      }
      k := k + 1;
    }
  }

  /** The four side loops around the footprint at (x, y). */
  method ScanEdges(m: array2<Tile>, ghost g: Grid<Tile>, x: int, y: int, size: int) returns (cells: seq<Pos>)
    requires IsMap(m) && g == Snapshot(m) && (size > 0 ==> FootprintInGrid(Pos(x, y), size))
    ensures cells == EdgeScan(g, x, y, size)
  {
    var west := ScanColumn(m, g, x > 0, x - 1, y, size);
    var east := ScanColumn(m, g, x + size < N, x + size, y, size);
    var north := ScanRow(m, g, y > 0, x, y - 1, size);
    var south := ScanRow(m, g, y + size < N, x, y + size, size);
    cells := west + east + north + south;
  }

  /** GetSpawnPoints: the empty cells of m bordering spawnObject's footprint. */
  method GetSpawnPoints(spawnObject: Entity, m: array2<Tile>) returns (spawns: seq<Pos>)
    requires IsMap(m) && FootprintInGrid(spawnObject.position, spawnObject.size)
    ensures forall q :: q in spawns <==>
      InGridPos(q) && Borders(q, spawnObject.position, spawnObject.size) && m[q.x, q.y] == Empty
    ensures spawns == EdgeScan(Snapshot(m), spawnObject.position.x, spawnObject.position.y, spawnObject.size)
  {
    spawns := ScanEdges(m, Snapshot(m), spawnObject.position.x, spawnObject.position.y, spawnObject.size);
    forall q ensures q in spawns <==>
      InGridPos(q) && Borders(q, spawnObject.position, spawnObject.size) && m[q.x, q.y] == Empty
    {
      EdgeScanMembers(Snapshot(m), spawnObject.position.x, spawnObject.position.y, spawnObject.size, q);
    }
  }

  // ---------------------------------------------------------------------------------------
  // checkPlace.

  /** The bounds test of checkPlace. It also rejects x == N - size and y == N - size,
      although a footprint anchored there would still fit on the map. */
  predicate InBounds(x: int, y: int, size: int) {
    !(x < 0 || y < 0 || x >= N - size || y >= N - size)
  }

  /** Every map cell of the footprint at (x, y) is empty in g. */
  ghost predicate FootprintFree(g: Grid<Tile>, x: int, y: int, size: int)
    requires IsGrid(g)
  {
    forall i, j :: InGrid(i, j) && InFootprint(i, j, Pos(x, y), size) ==> g[i][j] == Empty
  }

  /** A building of the given size can be placed with its corner at c. */
  ghost predicate Fits(g: Grid<Tile>, c: Pos, size: int)
    requires IsGrid(g)
  {
    InBounds(c.x, c.y, size) && FootprintFree(g, c.x, c.y, size)
  }

  /** Once placed in bounds the footprint lies on the map, so its border can be scanned. */
  lemma InBoundsFootprint(x: int, y: int, size: int)
    requires InBounds(x, y, size) && size > 0
    ensures FootprintInGrid(Pos(x, y), size) && x + size < N && y + size < N
  {
  }

  /** With the builder's tile cleared, a footprint fits exactly when every other cell of it
      is empty: the builder never stands in its own way. */
  lemma FitsIgnoringBuilder(g: Grid<Tile>, builder: Pos, c: Pos, size: int)
    requires IsGrid(g) && InGridPos(builder)
    ensures Fits(SetCell(g, builder, Empty), c, size) <==>
      InBounds(c.x, c.y, size) &&
      forall i, j :: InGrid(i, j) && InFootprint(i, j, c, size) && Pos(i, j) != builder ==> g[i][j] == Empty
  {
  }

  /** The two loops of checkPlace over the footprint at (x, y), in bounds: every cell of it
      is empty. */
  method FootprintIsFree(b: array2<Tile>, ghost g: Grid<Tile>, x: int, y: int, size: int) returns (free: bool)
    requires IsMap(b) && g == Snapshot(b) && InBounds(x, y, size)
    ensures free == FootprintFree(g, x, y, size)
  {
    free := true;
    var i := x;
    while i < x + size
      invariant x <= i && (size >= 0 ==> i <= x + size)
      invariant free <==> forall u, v :: x <= u < i && y <= v < y + size ==> g[u][v] == Empty
    {
      var j := y;
      while j < y + size
        invariant y <= j <= y + size
        invariant free <==> (forall u, v :: x <= u < i && y <= v < y + size ==> g[u][v] == Empty) &&
                            (forall v :: y <= v < j ==> g[i][v] == Empty)
      {
        if b[i, j] != Empty {
          free := false;
        }
        j := j + 1;
      }
      i := i + 1;
    }
  }

  /** checkPlace: tests the anchor (x, y) on the build map b with the builder's tile cleared.
      Out of bounds it fails without touching b; otherwise it leaves the builder's tile
      blocked. On success it moves position to (x, y) and lists the free border cells. */
  method CheckPlace(builder: Pos, b: array2<Tile>, x: int, y: int, size: int, position: Pos)
    returns (canBuild: bool, newPosition: Pos, spots: seq<Pos>)
    requires IsMap(b) && InGridPos(builder)
    modifies b
    ensures var g := SetCell(old(Snapshot(b)), builder, Empty);
      canBuild == Fits(g, Pos(x, y), size) &&
      newPosition == (if canBuild then Pos(x, y) else position) &&
      spots == (if canBuild then EdgeScan(g, x, y, size) else [])
    ensures Snapshot(b) == if InBounds(x, y, size) then SetCell(old(Snapshot(b)), builder, Blocked)
                           else old(Snapshot(b))
  {
    ghost var g0 := Snapshot(b);
    spots := [];
    newPosition := position;
    if x < 0 || y < 0 || x >= N - size || y >= N - size {
      return false, position, [];
    }
    b[builder.x, builder.y] := Empty;
    ghost var g := Snapshot(b);
    GridExt(g, SetCell(g0, builder, Empty));
    canBuild := FootprintIsFree(b, g, x, y, size);
    if canBuild {
      newPosition := Pos(x, y);
      spots := ScanEdges(b, g, x, y, size);
    }
    b[builder.x, builder.y] := Blocked;
    GridExt(Snapshot(b), SetCell(g0, builder, Blocked));
  }

  // ---------------------------------------------------------------------------------------
  // The scan orders of SearchPlaceForBuilding.

  /** buildingAlign_t. */
  datatype Align = InCorner | InCornerCenter | AroundBuilder

  /** In-corner order: anti-diagonals n = fromBase .. N - 1, each from (0, n) to (n, 0). */
  predicate CornerCand(fromBase: int, n: int, i: int) { fromBase <= n < N && 0 <= i <= n }
  function CornerPos(n: int, i: int): Pos { Pos(i, n - i) }
  predicate CornerBefore(n': int, i': int, n: int, i: int) { n' < n || (n' == n && i' < i) }

  /** Corner-center order: for each n, the cells (h + k, h - k) and then (h - k, h + k), with
      h = n / 2 and k = 0 .. h, so an odd n scans the diagonal of n - 1 again. */
  predicate CenterCand(fromBase: int, n: int, k: int, s: int) {
    fromBase <= n < N && 0 <= n && 0 <= k <= n / 2 && 0 <= s <= 1
  }
  function CenterPos(n: int, k: int, s: int): Pos {
    if s == 0 then Pos(n / 2 + k, n / 2 - k) else Pos(n / 2 - k, n / 2 + k)
  }
  predicate CenterBefore(n': int, k': int, s': int, n: int, k: int, s: int) {
    n' < n || (n' == n && (k' < k || (k' == k && s' < s)))
  }

  /** Around-builder order: squares of radius n = 0 .. N - 1 around the builder, each swept
      row by row (inner cells are visited again by every larger square). */
  predicate AroundCand(builder: Pos, n: int, i: int, j: int) {
    0 <= n < N && builder.x - n <= i <= builder.x + n && builder.y - n <= j <= builder.y + n
  }
  predicate AroundBefore(n': int, i': int, j': int, n: int, i: int, j: int) {
    n' < n || (n' == n && (i' < i || (i' == i && j' < j)))
  }

  /** Some candidate of the in-corner order before (n, i) passes the bounds test. */
  ghost predicate CornerTouched(fromBase: int, size: int, n: int, i: int) {
    exists n', i' :: CornerCand(fromBase, n', i') && CornerBefore(n', i', n, i) && InBounds(i', n' - i', size)
  }

  /** No candidate of the in-corner order before (n, i) fits. */
  ghost predicate CornerNoFit(g: Grid<Tile>, size: int, fromBase: int, n: int, i: int)
    requires IsGrid(g)
  {
    forall n', i' :: CornerCand(fromBase, n', i') && CornerBefore(n', i', n, i) ==> !Fits(g, CornerPos(n', i'), size)
  }

  ghost predicate CenterTouched(fromBase: int, size: int, n: int, k: int, s: int) {
    exists n', k', s' :: CenterCand(fromBase, n', k', s') && CenterBefore(n', k', s', n, k, s) &&
      InBounds(CenterPos(n', k', s').x, CenterPos(n', k', s').y, size)
  }

  ghost predicate CenterNoFit(g: Grid<Tile>, size: int, fromBase: int, n: int, k: int, s: int)
    requires IsGrid(g)
  {
    forall n', k', s' :: CenterCand(fromBase, n', k', s') && CenterBefore(n', k', s', n, k, s) ==>
      !Fits(g, CenterPos(n', k', s'), size)
  }

  ghost predicate AroundTouched(builder: Pos, size: int, n: int, i: int, j: int) {
    exists n', i', j' :: AroundCand(builder, n', i', j') && AroundBefore(n', i', j', n, i, j) && InBounds(i', j', size)
  }

  ghost predicate AroundNoFit(g: Grid<Tile>, size: int, builder: Pos, n: int, i: int, j: int)
    requires IsGrid(g)
  {
    forall n', i', j' :: AroundCand(builder, n', i', j') && AroundBefore(n', i', j', n, i, j) ==>
      !Fits(g, Pos(i', j'), size)
  }

  /** c is the anchor the scan of the given order stops at: the first candidate that fits. */
  ghost predicate FirstPlace(align: Align, g: Grid<Tile>, size: int, fromBase: int, builder: Pos, c: Pos)
    requires IsGrid(g)
  {
    match align
    case InCorner =>
      exists n, i :: CornerCand(fromBase, n, i) && c == CornerPos(n, i) && Fits(g, c, size) &&
        CornerNoFit(g, size, fromBase, n, i)
    case InCornerCenter =>
      exists n, k, s :: CenterCand(fromBase, n, k, s) && c == CenterPos(n, k, s) && Fits(g, c, size) &&
        CenterNoFit(g, size, fromBase, n, k, s)
    case AroundBuilder =>
      exists n, i, j :: AroundCand(builder, n, i, j) && c == Pos(i, j) && Fits(g, c, size) &&
        AroundNoFit(g, size, builder, n, i, j)
  }

  /** No candidate of the order fits. */
  ghost predicate NoPlace(align: Align, g: Grid<Tile>, size: int, fromBase: int, builder: Pos)
    requires IsGrid(g)
  {
    match align
    case InCorner => forall n, i :: CornerCand(fromBase, n, i) ==> !Fits(g, CornerPos(n, i), size)
    case InCornerCenter =>
      forall n, k, s :: CenterCand(fromBase, n, k, s) ==> !Fits(g, CenterPos(n, k, s), size)
    case AroundBuilder => forall n, i, j :: AroundCand(builder, n, i, j) ==> !Fits(g, Pos(i, j), size)
  }

  /** Some candidate of the order passes the bounds test, so the scan stamps the builder's tile. */
  ghost predicate AnyInBounds(align: Align, size: int, fromBase: int, builder: Pos) {
    match align
    case InCorner => exists n, i :: CornerCand(fromBase, n, i) && InBounds(i, n - i, size)
    case InCornerCenter =>
      exists n, k, s :: CenterCand(fromBase, n, k, s) &&
        InBounds(CenterPos(n, k, s).x, CenterPos(n, k, s).y, size)
    case AroundBuilder => exists n, i, j :: AroundCand(builder, n, i, j) && InBounds(i, j, size)
  }

  /** The order has candidates at all (otherwise positionsForBuilding is left as it was). */
  predicate HasCandidates(align: Align, fromBase: int) { align == AroundBuilder || fromBase < N }

  /** What a scan reports: the first fitting anchor and its free border cells, or failure. */
  ghost predicate ScanOutcome(align: Align, g: Grid<Tile>, size: int, fromBase: int, builder: Pos,
                              position: Pos, spots0: seq<Pos>, found: bool, newPosition: Pos, spots: seq<Pos>)
    requires IsGrid(g)
  {
    (found ==> Fits(g, newPosition, size) && FirstPlace(align, g, size, fromBase, builder, newPosition) &&
               spots == EdgeScan(g, newPosition.x, newPosition.y, size)) &&
    (!found ==> NoPlace(align, g, size, fromBase, builder) && newPosition == position &&
                spots == if HasCandidates(align, fromBase) then [] else spots0)
  }

  // The steps of the scans: each candidate extends the visited prefix by one.

  lemma CornerStep(g: Grid<Tile>, size: int, fromBase: int, n: int, i: int)
    requires IsGrid(g) && CornerCand(fromBase, n, i)
    ensures CornerTouched(fromBase, size, n, i + 1) <==> CornerTouched(fromBase, size, n, i) || InBounds(i, n - i, size)
    ensures CornerNoFit(g, size, fromBase, n, i + 1) <==> CornerNoFit(g, size, fromBase, n, i) && !Fits(g, CornerPos(n, i), size)
  {
    assert CornerBefore(n, i, n, i + 1);
  }

  lemma CornerNextDiagonal(g: Grid<Tile>, size: int, fromBase: int, n: int, i: int)
    requires IsGrid(g) && i > n && i >= 0
    ensures CornerTouched(fromBase, size, n + 1, 0) <==> CornerTouched(fromBase, size, n, i)
    ensures CornerNoFit(g, size, fromBase, n + 1, 0) <==> CornerNoFit(g, size, fromBase, n, i)
  {
  }

  lemma CenterStep(g: Grid<Tile>, size: int, fromBase: int, n: int, k: int, s: int, k2: int, s2: int)
    requires IsGrid(g) && CenterCand(fromBase, n, k, s)
    requires (s == 0 && k2 == k && s2 == 1) || (s == 1 && k2 == k + 1 && s2 == 0)
    ensures CenterTouched(fromBase, size, n, k2, s2) <==>
            CenterTouched(fromBase, size, n, k, s) || InBounds(CenterPos(n, k, s).x, CenterPos(n, k, s).y, size)
    ensures CenterNoFit(g, size, fromBase, n, k2, s2) <==>
            CenterNoFit(g, size, fromBase, n, k, s) && !Fits(g, CenterPos(n, k, s), size)
  {
    assert CenterBefore(n, k, s, n, k2, s2);
  }

  lemma CenterNextDiagonal(g: Grid<Tile>, size: int, fromBase: int, n: int, k: int)
    requires IsGrid(g) && (n >= 0 ==> k > n / 2) && (n < 0 ==> k == 0)
    ensures CenterTouched(fromBase, size, n + 1, 0, 0) <==> CenterTouched(fromBase, size, n, k, 0)
    ensures CenterNoFit(g, size, fromBase, n + 1, 0, 0) <==> CenterNoFit(g, size, fromBase, n, k, 0)
  {
  }

  lemma AroundStep(g: Grid<Tile>, size: int, builder: Pos, n: int, i: int, j: int)
    requires IsGrid(g) && AroundCand(builder, n, i, j)
    ensures AroundTouched(builder, size, n, i, j + 1) <==> AroundTouched(builder, size, n, i, j) || InBounds(i, j, size)
    ensures AroundNoFit(g, size, builder, n, i, j + 1) <==> AroundNoFit(g, size, builder, n, i, j) && !Fits(g, Pos(i, j), size)
  {
    assert AroundBefore(n, i, j, n, i, j + 1);
  }

  lemma AroundNextRow(g: Grid<Tile>, size: int, builder: Pos, n: int, i: int, j: int)
    requires IsGrid(g) && j > builder.y + n
    ensures AroundTouched(builder, size, n, i + 1, builder.y - n) <==> AroundTouched(builder, size, n, i, j)
    ensures AroundNoFit(g, size, builder, n, i + 1, builder.y - n) <==> AroundNoFit(g, size, builder, n, i, j)
  {
  }

  lemma AroundNextSquare(g: Grid<Tile>, size: int, builder: Pos, n: int, i: int)
    requires IsGrid(g) && 0 <= n && i > builder.x + n
    ensures AroundTouched(builder, size, n + 1, builder.x - n - 1, builder.y - n - 1) <==>
            AroundTouched(builder, size, n, i, builder.y - n)
    ensures AroundNoFit(g, size, builder, n + 1, builder.x - n - 1, builder.y - n - 1) <==>
            AroundNoFit(g, size, builder, n, i, builder.y - n)
  {
  }

  /** Writing the same cell twice keeps the last value. */
  lemma SetCellTwice(g: Grid<Tile>, p: Pos, v: Tile, w: Tile)
    requires IsGrid(g) && InGridPos(p)
    ensures SetCell(SetCell(g, p, v), p, w) == SetCell(g, p, w)
  {
    GridExt(SetCell(SetCell(g, p, v), p, w), SetCell(g, p, w));
  }

  /** checkPlace inside a scan: whatever earlier candidates did to the builder's tile, the
      test sees the map g0 with that tile cleared, and the tile ends blocked once some
      candidate passed the bounds test. */
  method Attempt(builder: Pos, b: array2<Tile>, x: int, y: int, size: int, position: Pos,
                 ghost g0: Grid<Tile>, ghost touched: bool)
    returns (canBuild: bool, newPosition: Pos, spots: seq<Pos>, ghost touched': bool)
    requires IsMap(b) && InGridPos(builder) && IsGrid(g0)
    requires Snapshot(b) == if touched then SetCell(g0, builder, Blocked) else g0
    modifies b
    ensures touched' == (touched || InBounds(x, y, size))
    ensures Snapshot(b) == if touched' then SetCell(g0, builder, Blocked) else g0
    ensures var g := SetCell(g0, builder, Empty);
      canBuild == Fits(g, Pos(x, y), size) &&
      newPosition == (if canBuild then Pos(x, y) else position) &&
      spots == (if canBuild then EdgeScan(g, x, y, size) else [])
  {
    SetCellTwice(g0, builder, Blocked, Empty);
    SetCellTwice(g0, builder, Blocked, Blocked);
    canBuild, newPosition, spots := CheckPlace(builder, b, x, y, size, position);
    touched' := touched || InBounds(x, y, size);
  }

  /** ALIGN_IN_CORNER. */
  method ScanCorner(builder: Pos, b: array2<Tile>, size: int, fromBase: int, position: Pos, spots0: seq<Pos>)
    returns (found: bool, newPosition: Pos, spots: seq<Pos>)
    requires IsMap(b) && InGridPos(builder)
    modifies b
    ensures ScanOutcome(InCorner, SetCell(old(Snapshot(b)), builder, Empty), size, fromBase, builder,
                        position, spots0, found, newPosition, spots)
    ensures Snapshot(b) == if AnyInBounds(InCorner, size, fromBase, builder)
                           then SetCell(old(Snapshot(b)), builder, Blocked) else old(Snapshot(b))
  {
    ghost var g0 := Snapshot(b);
    ghost var g := SetCell(g0, builder, Empty);
    ghost var touched := false;
    spots := spots0;
    newPosition := position;
    var n := fromBase;
    while n < N
      invariant fromBase <= n && (n <= N || n == fromBase)
      invariant newPosition == position
      invariant spots == if n > 0 && n > fromBase then [] else spots0
      invariant Snapshot(b) == if touched then SetCell(g0, builder, Blocked) else g0
      invariant touched == CornerTouched(fromBase, size, n, 0)
      invariant CornerNoFit(g, size, fromBase, n, 0)
    {
      var ok, np, sp;
      ok, np, sp, touched := CornerDiagonal(builder, b, size, fromBase, n, position, spots, g0, touched);
      if ok {
        CornerFound(g, size, fromBase, builder, position, spots0, n, np, sp);
        return true, np, sp;
      }
      spots := sp;
      n := n + 1;
    }
    CornerExhausted(g, size, fromBase, builder, position, spots0, n, spots, touched);
    return false, newPosition, spots;
  }

  /** The inner loop of the in-corner scan over diagonal n, from (0, n) to (n, 0): it stops
      at the first candidate that fits, or moves the visited prefix to diagonal n + 1. */
  method CornerDiagonal(builder: Pos, b: array2<Tile>, size: int, fromBase: int, n: int, position: Pos,
                        spots0: seq<Pos>, ghost g0: Grid<Tile>, ghost touched0: bool)
    returns (found: bool, newPosition: Pos, spots: seq<Pos>, ghost touched: bool)
    requires IsMap(b) && InGridPos(builder) && IsGrid(g0) && fromBase <= n < N
    requires Snapshot(b) == if touched0 then SetCell(g0, builder, Blocked) else g0
    requires touched0 == CornerTouched(fromBase, size, n, 0)
    requires CornerNoFit(SetCell(g0, builder, Empty), size, fromBase, n, 0)
    modifies b
    ensures Snapshot(b) == if touched then SetCell(g0, builder, Blocked) else g0
    ensures found ==> touched && CornerFoundOn(SetCell(g0, builder, Empty), size, fromBase, n, newPosition, spots)
    ensures !found ==> newPosition == position && spots == (if n >= 0 then [] else spots0) &&
                       touched == CornerTouched(fromBase, size, n + 1, 0) &&
                       CornerNoFit(SetCell(g0, builder, Empty), size, fromBase, n + 1, 0)
  {
    ghost var g := SetCell(g0, builder, Empty);
    found, touched := false, touched0;
    spots := spots0;
    newPosition := position;
    var i, j := 0, n;
    while i <= n && j >= 0
      invariant j == n - i && 0 <= i && (n >= 0 ==> i <= n + 1) && (n < 0 ==> i == 0)
      invariant newPosition == position
      invariant spots == if i > 0 then [] else spots0
      invariant Snapshot(b) == if touched then SetCell(g0, builder, Blocked) else g0
      invariant touched == CornerTouched(fromBase, size, n, i)
      invariant CornerNoFit(g, size, fromBase, n, i)
    {
      var ok, np, sp;
      ok, np, sp, touched := Attempt(builder, b, i, j, size, newPosition, g0, touched);
      spots := sp;
      assert CornerCand(fromBase, n, i) && Pos(i, j) == CornerPos(n, i);
      if ok {
        return true, np, sp, touched;
      }
      CornerStep(g, size, fromBase, n, i);
      i, j := i + 1, j - 1;
    }
    CornerNextDiagonal(g, size, fromBase, n, i);
  }

  /** The in-corner scan stops on diagonal n: some candidate (n, i) fits, none before it
      does, and spots is the border of the anchor. */
  ghost predicate CornerFoundOn(g: Grid<Tile>, size: int, fromBase: int, n: int, np: Pos, sp: seq<Pos>)
    requires IsGrid(g)
  {
    exists i :: CornerCand(fromBase, n, i) && CornerNoFit(g, size, fromBase, n, i) &&
      np == CornerPos(n, i) && Fits(g, np, size) && sp == EdgeScan(g, np.x, np.y, size)
  }

  /** A stop on diagonal n is the outcome of the whole in-corner scan. */
  lemma CornerFound(g: Grid<Tile>, size: int, fromBase: int, builder: Pos, position: Pos, spots0: seq<Pos>,
                    n: int, np: Pos, sp: seq<Pos>)
    requires IsGrid(g) && CornerFoundOn(g, size, fromBase, n, np, sp)
    ensures ScanOutcome(InCorner, g, size, fromBase, builder, position, spots0, true, np, sp)
    ensures AnyInBounds(InCorner, size, fromBase, builder)
  {
    var i :| CornerCand(fromBase, n, i) && CornerNoFit(g, size, fromBase, n, i) &&
      np == CornerPos(n, i) && Fits(g, np, size) && sp == EdgeScan(g, np.x, np.y, size);
  }

  /** The in-corner scan ran out of diagonals without a fit. */
  lemma CornerExhausted(g: Grid<Tile>, size: int, fromBase: int, builder: Pos, position: Pos, spots0: seq<Pos>,
                        n: int, spots: seq<Pos>, touched: bool)
    requires IsGrid(g) && fromBase <= n && N <= n && (n == N || n == fromBase)
    requires CornerNoFit(g, size, fromBase, n, 0) && touched == CornerTouched(fromBase, size, n, 0)
    requires spots == if n > 0 && n > fromBase then [] else spots0
    ensures ScanOutcome(InCorner, g, size, fromBase, builder, position, spots0, false, position, spots)
    ensures touched <==> AnyInBounds(InCorner, size, fromBase, builder)
  {
  }

  /** A C++ `n / 2`, which truncates toward zero. */
  function Half(n: int): (h: int)
    ensures n >= 0 ==> h == n / 2
    ensures n < 0 ==> n < h <= 0
  {
    if n >= 0 then n / 2 else -((-n) / 2)
  }

  /** ALIGN_IN_CORNER_CENTER. */
  method ScanCornerCenter(builder: Pos, b: array2<Tile>, size: int, fromBase: int, position: Pos, spots0: seq<Pos>)
    returns (found: bool, newPosition: Pos, spots: seq<Pos>)
    requires IsMap(b) && InGridPos(builder)
    modifies b
    ensures ScanOutcome(InCornerCenter, SetCell(old(Snapshot(b)), builder, Empty), size, fromBase, builder,
                        position, spots0, found, newPosition, spots)
    ensures Snapshot(b) == if AnyInBounds(InCornerCenter, size, fromBase, builder)
                           then SetCell(old(Snapshot(b)), builder, Blocked) else old(Snapshot(b))
  {
    ghost var g0 := Snapshot(b);
    ghost var g := SetCell(g0, builder, Empty);
    ghost var touched := false;
    spots := spots0;
    newPosition := position;
    var n := fromBase;
    while n < N
      invariant fromBase <= n && (n <= N || n == fromBase)
      invariant newPosition == position
      invariant spots == if n > 0 && n > fromBase then [] else spots0
      invariant Snapshot(b) == if touched then SetCell(g0, builder, Blocked) else g0
      invariant touched == CenterTouched(fromBase, size, n, 0, 0)
      invariant CenterNoFit(g, size, fromBase, n, 0, 0)
    {
      var ok, np, sp;
      ok, np, sp, touched := CenterDiagonal(builder, b, size, fromBase, n, position, spots, g0, touched);
      if ok {
        CenterFound(g, size, fromBase, builder, position, spots0, n, np, sp);
        return true, np, sp;
      }
      spots := sp;
      n := n + 1;
    }
    CenterExhausted(g, size, fromBase, builder, position, spots0, n, spots, touched);
    return false, newPosition, spots;
  }

  /** The inner loop of the corner-center scan over diagonal n: it stops at the first
      candidate of the diagonal that fits, or moves the visited prefix to diagonal n + 1. */
  method CenterDiagonal(builder: Pos, b: array2<Tile>, size: int, fromBase: int, n: int, position: Pos,
                        spots0: seq<Pos>, ghost g0: Grid<Tile>, ghost touched0: bool)
    returns (found: bool, newPosition: Pos, spots: seq<Pos>, ghost touched: bool)
    requires IsMap(b) && InGridPos(builder) && IsGrid(g0) && fromBase <= n < N
    requires Snapshot(b) == if touched0 then SetCell(g0, builder, Blocked) else g0
    requires touched0 == CenterTouched(fromBase, size, n, 0, 0)
    requires CenterNoFit(SetCell(g0, builder, Empty), size, fromBase, n, 0, 0)
    modifies b
    ensures Snapshot(b) == if touched then SetCell(g0, builder, Blocked) else g0
    ensures found ==> touched && CenterFoundOn(SetCell(g0, builder, Empty), size, fromBase, n, newPosition, spots)
    ensures !found ==> newPosition == position && spots == (if n >= 0 then [] else spots0) &&
                       touched == CenterTouched(fromBase, size, n + 1, 0, 0) &&
                       CenterNoFit(SetCell(g0, builder, Empty), size, fromBase, n + 1, 0, 0)
  {
    ghost var g := SetCell(g0, builder, Empty);
    found, touched := false, touched0;
    spots := spots0;
    newPosition := position;
    var h := Half(n);
    var i, j, i2, j2 := h, h, h, h;
    ghost var k := 0;
    while i <= n && j >= 0 && i2 >= 0 && j2 <= n
      invariant 0 <= k && i == h + k && j == h - k && i2 == h - k && j2 == h + k
      invariant n >= 0 ==> k <= n / 2 + 1
      invariant n < 0 ==> k == 0
      invariant newPosition == position
      invariant spots == if k > 0 then [] else spots0
      invariant Snapshot(b) == if touched then SetCell(g0, builder, Blocked) else g0
      invariant touched == CenterTouched(fromBase, size, n, k, 0)
      invariant CenterNoFit(g, size, fromBase, n, k, 0)
    {
      var ok, np, sp;
      ok, np, sp, touched := Attempt(builder, b, i, j, size, newPosition, g0, touched);
      spots := sp;
      assert CenterCand(fromBase, n, k, 0) && Pos(i, j) == CenterPos(n, k, 0);
      if ok {
        return true, np, sp, touched;
      }
      CenterStep(g, size, fromBase, n, k, 0, k, 1);
      ok, np, sp, touched := Attempt(builder, b, i2, j2, size, newPosition, g0, touched);
      spots := sp;
      assert Pos(i2, j2) == CenterPos(n, k, 1);
      if ok {
        return true, np, sp, touched;
      }
      CenterStep(g, size, fromBase, n, k, 1, k + 1, 0);
      i, j, i2, j2 := i + 1, j - 1, i2 - 1, j2 + 1;
      k := k + 1;
    }
    CenterNextDiagonal(g, size, fromBase, n, k);
  }

  /** The corner-center scan stops on diagonal n: some candidate (n, k, s) fits, none before
      it does, and spots is the border of the anchor. */
  ghost predicate CenterFoundOn(g: Grid<Tile>, size: int, fromBase: int, n: int, np: Pos, sp: seq<Pos>)
    requires IsGrid(g)
  {
    exists k, s :: CenterCand(fromBase, n, k, s) && CenterNoFit(g, size, fromBase, n, k, s) &&
      np == CenterPos(n, k, s) && Fits(g, np, size) && sp == EdgeScan(g, np.x, np.y, size)
  }

  /** A stop on diagonal n is the outcome of the whole corner-center scan. */
  lemma CenterFound(g: Grid<Tile>, size: int, fromBase: int, builder: Pos, position: Pos, spots0: seq<Pos>,
                    n: int, np: Pos, sp: seq<Pos>)
    requires IsGrid(g) && CenterFoundOn(g, size, fromBase, n, np, sp)
    ensures ScanOutcome(InCornerCenter, g, size, fromBase, builder, position, spots0, true, np, sp)
    ensures AnyInBounds(InCornerCenter, size, fromBase, builder)
  {
    var k, s :| CenterCand(fromBase, n, k, s) && CenterNoFit(g, size, fromBase, n, k, s) &&
      np == CenterPos(n, k, s) && Fits(g, np, size) && sp == EdgeScan(g, np.x, np.y, size);
  }

  /** The corner-center scan ran out of diagonals without a fit. */
  lemma CenterExhausted(g: Grid<Tile>, size: int, fromBase: int, builder: Pos, position: Pos, spots0: seq<Pos>,
                        n: int, spots: seq<Pos>, touched: bool)
    requires IsGrid(g) && fromBase <= n && N <= n && (n == N || n == fromBase)
    requires CenterNoFit(g, size, fromBase, n, 0, 0) && touched == CenterTouched(fromBase, size, n, 0, 0)
    requires spots == if n > 0 && n > fromBase then [] else spots0
    ensures ScanOutcome(InCornerCenter, g, size, fromBase, builder, position, spots0, false, position, spots)
    ensures touched <==> AnyInBounds(InCornerCenter, size, fromBase, builder)
  {
  }

  /** ALIGN_AROUND_BUILDER. */
  method ScanAroundBuilder(builder: Pos, b: array2<Tile>, size: int, position: Pos, spots0: seq<Pos>)
    returns (found: bool, newPosition: Pos, spots: seq<Pos>)
    requires IsMap(b) && InGridPos(builder)
    modifies b
    ensures ScanOutcome(AroundBuilder, SetCell(old(Snapshot(b)), builder, Empty), size, 0, builder,
                        position, spots0, found, newPosition, spots)
    ensures Snapshot(b) == if AnyInBounds(AroundBuilder, size, 0, builder)
                           then SetCell(old(Snapshot(b)), builder, Blocked) else old(Snapshot(b))
  {
    ghost var g0 := Snapshot(b);
    ghost var g := SetCell(g0, builder, Empty);
    ghost var touched := false;
    spots := spots0;
    newPosition := position;
    var n := 0;
    while n < N
      invariant 0 <= n <= N
      invariant newPosition == position
      invariant spots == if n > 0 then [] else spots0
      invariant Snapshot(b) == if touched then SetCell(g0, builder, Blocked) else g0
      invariant touched == AroundTouched(builder, size, n, builder.x - n, builder.y - n)
      invariant AroundNoFit(g, size, builder, n, builder.x - n, builder.y - n)
    {
      var ok, np, sp;
      ok, np, sp, touched := AroundSquare(builder, b, size, n, position, g0, touched);
      if ok {
        AroundFound(g, size, builder, position, spots0, n, np, sp);
        return true, np, sp;
      }
      spots := sp;
      n := n + 1;
    }
    AroundExhausted(g, size, builder, position, spots0, spots, touched);
    return false, newPosition, spots;
  }

  /** The square of radius n around the builder, row by row: it stops at the first
      candidate that fits, or moves the visited prefix to the square of radius n + 1. */
  method AroundSquare(builder: Pos, b: array2<Tile>, size: int, n: int, position: Pos,
                      ghost g0: Grid<Tile>, ghost touched0: bool)
    returns (found: bool, newPosition: Pos, spots: seq<Pos>, ghost touched: bool)
    requires IsMap(b) && InGridPos(builder) && IsGrid(g0) && 0 <= n < N
    requires Snapshot(b) == if touched0 then SetCell(g0, builder, Blocked) else g0
    requires touched0 == AroundTouched(builder, size, n, builder.x - n, builder.y - n)
    requires AroundNoFit(SetCell(g0, builder, Empty), size, builder, n, builder.x - n, builder.y - n)
    modifies b
    ensures Snapshot(b) == if touched then SetCell(g0, builder, Blocked) else g0
    ensures found ==> touched && AroundFoundOn(SetCell(g0, builder, Empty), size, builder, n, newPosition, spots)
    ensures !found ==> newPosition == position && spots == [] &&
                       touched == AroundTouched(builder, size, n + 1, builder.x - n - 1, builder.y - n - 1) &&
                       AroundNoFit(SetCell(g0, builder, Empty), size, builder, n + 1, builder.x - n - 1, builder.y - n - 1)
  {
    ghost var g := SetCell(g0, builder, Empty);
    found, touched := false, touched0;
    spots := [];
    newPosition := position;
    var i := builder.x - n;
    while i <= builder.x + n
      invariant builder.x - n <= i <= builder.x + n + 1
      invariant newPosition == position && spots == []
      invariant Snapshot(b) == if touched then SetCell(g0, builder, Blocked) else g0
      invariant touched == AroundTouched(builder, size, n, i, builder.y - n)
      invariant AroundNoFit(g, size, builder, n, i, builder.y - n)
    {
      var ok, np, sp;
      ok, np, sp, touched := AroundRow(builder, b, size, n, i, position, g0, touched);
      if ok {
        return true, np, sp, touched;
      }
      i := i + 1;
    }
    AroundNextSquare(g, size, builder, n, i);
  }

  /** Row i of the square of radius n: it stops at the first candidate that fits, or moves
      the visited prefix to row i + 1. */
  method AroundRow(builder: Pos, b: array2<Tile>, size: int, n: int, i: int, position: Pos,
                   ghost g0: Grid<Tile>, ghost touched0: bool)
    returns (found: bool, newPosition: Pos, spots: seq<Pos>, ghost touched: bool)
    requires IsMap(b) && InGridPos(builder) && IsGrid(g0) && 0 <= n < N && builder.x - n <= i <= builder.x + n
    requires Snapshot(b) == if touched0 then SetCell(g0, builder, Blocked) else g0
    requires touched0 == AroundTouched(builder, size, n, i, builder.y - n)
    requires AroundNoFit(SetCell(g0, builder, Empty), size, builder, n, i, builder.y - n)
    modifies b
    ensures Snapshot(b) == if touched then SetCell(g0, builder, Blocked) else g0
    ensures found ==> touched && AroundFoundOn(SetCell(g0, builder, Empty), size, builder, n, newPosition, spots)
    ensures !found ==> newPosition == position && spots == [] &&
                       touched == AroundTouched(builder, size, n, i + 1, builder.y - n) &&
                       AroundNoFit(SetCell(g0, builder, Empty), size, builder, n, i + 1, builder.y - n)
  {
    ghost var g := SetCell(g0, builder, Empty);
    found, touched := false, touched0;
    spots := [];
    newPosition := position;
    var j := builder.y - n;
    while j <= builder.y + n
      invariant builder.y - n <= j <= builder.y + n + 1
      invariant newPosition == position && spots == []
      invariant Snapshot(b) == if touched then SetCell(g0, builder, Blocked) else g0
      invariant touched == AroundTouched(builder, size, n, i, j)
      invariant AroundNoFit(g, size, builder, n, i, j)
    {
      var ok, np, sp;
      ok, np, sp, touched := Attempt(builder, b, i, j, size, newPosition, g0, touched);
      assert AroundCand(builder, n, i, j);
      if ok {
        return true, np, sp, touched;
      }
      AroundStep(g, size, builder, n, i, j);
      j := j + 1;
    }
    AroundNextRow(g, size, builder, n, i, j);
  }

  /** The around-builder scan stops in the square of radius n: some candidate (n, i, j)
      fits, none before it does, and spots is the border of the anchor. */
  ghost predicate AroundFoundOn(g: Grid<Tile>, size: int, builder: Pos, n: int, np: Pos, sp: seq<Pos>)
    requires IsGrid(g)
  {
    exists i, j :: AroundCand(builder, n, i, j) && AroundNoFit(g, size, builder, n, i, j) &&
      np == Pos(i, j) && Fits(g, np, size) && sp == EdgeScan(g, np.x, np.y, size)
  }

  /** A stop in the square of radius n is the outcome of the whole around-builder scan. */
  lemma AroundFound(g: Grid<Tile>, size: int, builder: Pos, position: Pos, spots0: seq<Pos>,
                    n: int, np: Pos, sp: seq<Pos>)
    requires IsGrid(g) && AroundFoundOn(g, size, builder, n, np, sp)
    ensures ScanOutcome(AroundBuilder, g, size, 0, builder, position, spots0, true, np, sp)
    ensures AnyInBounds(AroundBuilder, size, 0, builder)
  {
    var i, j :| AroundCand(builder, n, i, j) && AroundNoFit(g, size, builder, n, i, j) &&
      np == Pos(i, j) && Fits(g, np, size) && sp == EdgeScan(g, np.x, np.y, size);
  }

  /** The around-builder scan ran through every square without a fit. */
  lemma AroundExhausted(g: Grid<Tile>, size: int, builder: Pos, position: Pos, spots0: seq<Pos>,
                        spots: seq<Pos>, touched: bool)
    requires IsGrid(g) && AroundNoFit(g, size, builder, N, builder.x - N, builder.y - N)
    requires touched == AroundTouched(builder, size, N, builder.x - N, builder.y - N) && spots == []
    ensures ScanOutcome(AroundBuilder, g, size, 0, builder, position, spots0, false, position, spots)
    ensures touched <==> AnyInBounds(AroundBuilder, size, 0, builder)
  {
  }

  /** SearchPlaceForBuilding: scans the build map in the chosen order for the first anchor
      where a building of the given size fits, the builder's own tile counting as free. */
  method SearchPlaceForBuilding(builder: Entity, b: array2<Tile>, size: int, fromBase: int, align: Align,
                                position: Pos, spots0: seq<Pos>)
    returns (found: bool, newPosition: Pos, spots: seq<Pos>)
    requires IsMap(b) && InGridPos(builder.position)
    modifies b
    ensures var from := if align == AroundBuilder then 0 else fromBase;
      ScanOutcome(align, SetCell(old(Snapshot(b)), builder.position, Empty), size, from, builder.position,
                  position, spots0, found, newPosition, spots) &&
      Snapshot(b) == if AnyInBounds(align, size, from, builder.position)
                     then SetCell(old(Snapshot(b)), builder.position, Blocked) else old(Snapshot(b))
  {
    match align
    case InCorner =>
      found, newPosition, spots := ScanCorner(builder.position, b, size, fromBase, position, spots0);
    case InCornerCenter =>
      found, newPosition, spots := ScanCornerCenter(builder.position, b, size, fromBase, position, spots0);
    case AroundBuilder =>
      found, newPosition, spots := ScanAroundBuilder(builder.position, b, size, position, spots0);
  }

  // ---------------------------------------------------------------------------------------
  // What the scans promise.

  /** The scan order determines the anchor: at most one candidate is the first that fits. */
  lemma FirstPlaceUnique(align: Align, g: Grid<Tile>, size: int, fromBase: int, builder: Pos, c: Pos, c': Pos)
    requires IsGrid(g)
    requires FirstPlace(align, g, size, fromBase, builder, c) && FirstPlace(align, g, size, fromBase, builder, c')
    ensures c == c'
  {
    match align
    case InCorner =>
      var n, i :| CornerCand(fromBase, n, i) && c == CornerPos(n, i) && Fits(g, c, size) &&
        CornerNoFit(g, size, fromBase, n, i);
      var m, l :| CornerCand(fromBase, m, l) && c' == CornerPos(m, l) && Fits(g, c', size) &&
        CornerNoFit(g, size, fromBase, m, l);
      assert !CornerBefore(n, i, m, l) && !CornerBefore(m, l, n, i);
    case InCornerCenter =>
      var n, k, s :| CenterCand(fromBase, n, k, s) && c == CenterPos(n, k, s) && Fits(g, c, size) &&
        CenterNoFit(g, size, fromBase, n, k, s);
      var m, l, t :| CenterCand(fromBase, m, l, t) && c' == CenterPos(m, l, t) && Fits(g, c', size) &&
        CenterNoFit(g, size, fromBase, m, l, t);
      assert !CenterBefore(n, k, s, m, l, t) && !CenterBefore(m, l, t, n, k, s);
    case AroundBuilder =>
      var n, i, j :| AroundCand(builder, n, i, j) && c == Pos(i, j) && Fits(g, c, size) &&
        AroundNoFit(g, size, builder, n, i, j);
      var m, u, v :| AroundCand(builder, m, u, v) && c' == Pos(u, v) && Fits(g, c', size) &&
        AroundNoFit(g, size, builder, m, u, v);
      assert !AroundBefore(n, i, j, m, u, v) && !AroundBefore(m, u, v, n, i, j);
  }

  /** A scan either stops at a fitting anchor or finds that none fits, never both. */
  lemma FirstPlaceExcludesNone(align: Align, g: Grid<Tile>, size: int, fromBase: int, builder: Pos, c: Pos)
    requires IsGrid(g) && FirstPlace(align, g, size, fromBase, builder, c)
    ensures !NoPlace(align, g, size, fromBase, builder)
  {
  }

  /** On an empty build map the in-corner scan from fromBase <= 0 places the building at the
      map corner (0, 0), for every size that passes the bounds test there. */
  lemma EmptyMapCornerIsOrigin(g: Grid<Tile>, size: int, fromBase: int, builder: Pos, c: Pos)
    requires IsGrid(g) && (forall i, j :: InGrid(i, j) ==> g[i][j] == Empty)
    requires fromBase <= 0 && size < N
    ensures FirstPlace(InCorner, g, size, fromBase, builder, c) <==> c == Pos(0, 0)
  {
    assert CornerCand(fromBase, 0, 0) && Fits(g, CornerPos(0, 0), size);
    assert FirstPlace(InCorner, g, size, fromBase, builder, Pos(0, 0));
    if FirstPlace(InCorner, g, size, fromBase, builder, c) {
      FirstPlaceUnique(InCorner, g, size, fromBase, builder, c, Pos(0, 0));
    }
  }

  /** The around-builder scan tries the builder's own cell first; with the builder's tile
      cleared and the rest of its footprint free, the building goes right there. */
  lemma AroundBuilderStartsAtBuilder(g: Grid<Tile>, size: int, builder: Pos)
    requires IsGrid(g) && InGridPos(builder) && InBounds(builder.x, builder.y, size)
    requires forall i, j :: InGrid(i, j) && InFootprint(i, j, builder, size) && Pos(i, j) != builder ==> g[i][j] == Empty
    ensures FirstPlace(AroundBuilder, SetCell(g, builder, Empty), size, 0, builder, builder)
  {
    var h := SetCell(g, builder, Empty);
    FitsIgnoringBuilder(g, builder, builder, size);
    assert AroundCand(builder, 0, builder.x, builder.y) && Fits(h, Pos(builder.x, builder.y), size);
  }
}
