/** Move and SearchForResources: each builds a path grid from the world map and the
    snapshot, runs the router from the goal and reads the answer off the labelled grid. The
    grid each builds is stated cell by cell as a function of its inputs, and what the router
    then guarantees is proved about those grids. */
module Movement {
  import opened Grid
  import opened Entities
  import opened Router
  import opened RouterFacts

  // ---------------------------------------------------------------------------------------
  // The path grid of Move.

  /** The world tile as a router value. */
  function PathOfTile(t: Tile): int {
    match t
    case Empty => PATH_EMPTY
    case Destroyable => PATH_DESTROYABLE
    case Blocked => PATH_BLOCKED
  }

  /** An own ranged, melee or builder unit. */
  predicate IsOwnUnit(e: Entity, myId: int) {
    IsOwn(e, myId) && (e.entityType == RangedUnit || e.entityType == MeleeUnit || e.entityType == BuilderUnit)
  }

  /** In the entity pass e writes (i, j): an own unit its own cell, every other entity but a
      resource its whole footprint. */
  predicate Marks(e: Entity, myId: int, i: int, j: int) {
    e.entityType != Resource &&
    if IsOwnUnit(e, myId) then e.position == Pos(i, j) else InFootprint(i, j, e.position, e.size)
  }

  /** What e writes there: an own unit whose cell changed between the two unit-position
      snapshots is moving and leaves its cell passable; everything else blocks. */
  function Mark(e: Entity, myId: int, lastTick: Grid<int>, curTick: Grid<int>): (v: int)
    requires IsGrid(lastTick) && IsGrid(curTick) && InGridPos(e.position)
    ensures v == PATH_EMPTY || v == PATH_BLOCKED
  {
    if IsOwnUnit(e, myId) && lastTick[e.position.x][e.position.y] != curTick[e.position.x][e.position.y]
    then PATH_EMPTY else PATH_BLOCKED
  }

  /** The value of (i, j) after the entity pass over es onto base: the last writer decides. */
  function Marked(es: seq<Entity>, myId: int, lastTick: Grid<int>, curTick: Grid<int>, i: int, j: int, base: int): int
    requires IsGrid(lastTick) && IsGrid(curTick) && WellPlaced(es)
  {
    if |es| == 0 then base
    else if Marks(es[|es| - 1], myId, i, j) then Mark(es[|es| - 1], myId, lastTick, curTick)
    else Marked(es[..|es| - 1], myId, lastTick, curTick, i, j, base)
  }

  /** (i, j) lies in the fire diamond of some enemy turret. */
  ghost predicate InTurretZone(es: seq<Entity>, myId: int, i: int, j: int) {
    exists k :: 0 <= k < |es| && IsEnemy(es[k], myId) && es[k].entityType == Turret &&
      InReach(i, j, es[k].position, es[k].size, es[k].attackRange)
  }

  /** The initial value of (i, j) in Move: enemy fire zones block, the goal is the start of
      the search, the mover's footprint is the target, the rest comes from the entity pass
      over the world map. */
  ghost function MoveCell(view: View, mover: Entity, goal: Pos, w: Grid<Tile>, lastTick: Grid<int>, curTick: Grid<int>,
                          i: int, j: int): int
    requires IsGrid(w) && IsGrid(lastTick) && IsGrid(curTick) && WellPlaced(view.entities) && InGrid(i, j)
  {
    if InTurretZone(view.entities, view.myId, i, j) then PATH_BLOCKED
    else if Pos(i, j) == goal then PATH_START
    else if InFootprint(i, j, mover.position, mover.size) then PATH_TARGET
    else Marked(view.entities, view.myId, lastTick, curTick, i, j, PathOfTile(w[i][j]))
  }

  ghost function MoveGrid(view: View, mover: Entity, goal: Pos, w: Grid<Tile>, lastTick: Grid<int>, curTick: Grid<int>): (g: Grid<int>)
    requires IsGrid(w) && IsGrid(lastTick) && IsGrid(curTick) && WellPlaced(view.entities)
    ensures IsGrid(g)
    ensures forall i, j :: InGrid(i, j) ==> g[i][j] == MoveCell(view, mover, goal, w, lastTick, curTick, i, j)
  {
    seq(N, i requires 0 <= i < N => seq(N, j requires 0 <= j < N => MoveCell(view, mover, goal, w, lastTick, curTick, i, j)))
  }

  /** The first neighbour, in the order +x, +y, -x, -y, whose label is one below p's. */
  function NextStep(f: Grid<int>, p: Pos): (r: Option<Pos>)
    requires IsGrid(f) && InGridPos(p)
    ensures r.Some? ==> InGridPos(r.value) && Adjacent(r.value.x, r.value.y, p.x, p.y) &&
                        f[r.value.x][r.value.y] == f[p.x][p.y] - 1
    ensures r.None? <==> !HasNeighbourValued(f, p.x, p.y, f[p.x][p.y] - 1)
  {
    var v := f[p.x][p.y] - 1;
    if p.x + 1 < N && f[p.x + 1][p.y] == v then Some(Pos(p.x + 1, p.y))
    else if p.y + 1 < N && f[p.x][p.y + 1] == v then Some(Pos(p.x, p.y + 1))
    else if p.x - 1 >= 0 && f[p.x - 1][p.y] == v then Some(Pos(p.x - 1, p.y))
    else if p.y - 1 >= 0 && f[p.x][p.y - 1] == v then Some(Pos(p.x, p.y - 1))
    else None
  }

  /** The world-map pass of Move. */
  method FillFromWorld(path: array2<int>, worldMap: array2<Tile>)
    requires IsMap(path) && IsMap(worldMap)
    modifies path
    ensures forall x, y :: InGrid(x, y) ==> path[x, y] == PathOfTile(worldMap[x, y])
  {
    var i := 0;
    while i < N
      invariant 0 <= i <= N
      invariant forall x, y :: InGrid(x, y) && x < i ==> path[x, y] == PathOfTile(worldMap[x, y])
    {
      var j := 0;
      while j < N
        invariant 0 <= j <= N
        invariant forall x, y :: InGrid(x, y) && (x < i || (x == i && y < j)) ==> path[x, y] == PathOfTile(worldMap[x, y])
      {
        if worldMap[i, j] == Empty {
          path[i, j] := PATH_EMPTY;
        } else if worldMap[i, j] == Destroyable {
          path[i, j] := PATH_DESTROYABLE;
        } else {
          path[i, j] := PATH_BLOCKED;
        }
        j := j + 1;
      }
      i := i + 1;
    }
  }

  /** The entity pass of Move. */
  method MarkEntities(path: array2<int>, view: View, lastTick: Grid<int>, curTick: Grid<int>)
    requires IsMap(path) && IsGrid(lastTick) && IsGrid(curTick) && WellPlaced(view.entities)
    modifies path
    ensures forall x, y :: InGrid(x, y) ==>
      path[x, y] == Marked(view.entities, view.myId, lastTick, curTick, x, y, old(path[x, y]))
  {
    var es := view.entities;
    var k := 0;
    while k < |es|
      invariant 0 <= k <= |es|
      invariant forall x, y :: InGrid(x, y) ==>
        path[x, y] == Marked(es[..k], view.myId, lastTick, curTick, x, y, old(path[x, y]))
    {
      var e := es[k];
      assert es[..k + 1][..k] == es[..k];
      assert es[..k + 1][k] == e;
      if e.entityType != Resource {
        if IsOwnUnit(e, view.myId) {
          if lastTick[e.position.x][e.position.y] != curTick[e.position.x][e.position.y] {
            path[e.position.x, e.position.y] := PATH_EMPTY;
          } else {
            path[e.position.x, e.position.y] := PATH_BLOCKED;
          }
        } else {
          StampFootprint(path, e.position, e.size, PATH_BLOCKED);
        }
      }
      k := k + 1;
    }
    assert es[..k] == es;
  }

  /** The turret pass of Move: every cell within an enemy turret's attack range blocks. */
  method BlockTurretZones(path: array2<int>, view: View)
    requires IsMap(path) && WellPlaced(view.entities)
    modifies path
    ensures forall x, y :: InGrid(x, y) ==>
      path[x, y] == if InTurretZone(view.entities, view.myId, x, y) then PATH_BLOCKED else old(path[x, y])
  {
    var es := view.entities;
    var k := 0;
    while k < |es|
      invariant 0 <= k <= |es|
      invariant forall x, y :: InGrid(x, y) ==>
        path[x, y] == if InTurretZone(es[..k], view.myId, x, y) then PATH_BLOCKED else old(path[x, y])
    {
      var e := es[k];
      if IsEnemy(e, view.myId) && e.entityType == Turret {
        StampFootprintDiamond(path, e.position, e.size, e.attackRange, PATH_BLOCKED);
      }
      forall x, y | InGrid(x, y)
        ensures InTurretZone(es[..k + 1], view.myId, x, y) <==>
                InTurretZone(es[..k], view.myId, x, y) ||
                (IsEnemy(e, view.myId) && e.entityType == Turret && InReach(x, y, e.position, e.size, e.attackRange))
      {
        if InTurretZone(es[..k + 1], view.myId, x, y) {
          var q :| 0 <= q < k + 1 && IsEnemy(es[..k + 1][q], view.myId) && es[..k + 1][q].entityType == Turret &&
            InReach(x, y, es[..k + 1][q].position, es[..k + 1][q].size, es[..k + 1][q].attackRange);
          if q < k {
            assert es[..k][q] == es[..k + 1][q];
          }
        }
        if IsEnemy(e, view.myId) && e.entityType == Turret && InReach(x, y, e.position, e.size, e.attackRange) {
          assert es[..k + 1][k] == e;
        }
        if InTurretZone(es[..k], view.myId, x, y) {
          var q :| 0 <= q < k && IsEnemy(es[..k][q], view.myId) && es[..k][q].entityType == Turret &&
            InReach(x, y, es[..k][q].position, es[..k][q].size, es[..k][q].attackRange);
          assert es[..k + 1][q] == es[..k][q];
        }
      }
      k := k + 1;
    }
    assert es[..k] == es;
  }

  /** The path grid of Move, built pass by pass in a fresh array. */
  method BuildMoveGrid(view: View, mover: Entity, goal: Pos, worldMap: array2<Tile>, lastTick: Grid<int>, curTick: Grid<int>)
    returns (path: array2<int>)
    requires IsMap(worldMap) && IsGrid(lastTick) && IsGrid(curTick) && WellPlaced(view.entities)
    requires FootprintInGrid(mover.position, mover.size) && InGridPos(goal)
    ensures fresh(path) && IsMap(path)
    ensures Snapshot(path) == MoveGrid(view, mover, goal, Snapshot(worldMap), lastTick, curTick)
  {
    ghost var w := Snapshot(worldMap);
    path := new int[N, N];
    FillFromWorld(path, worldMap);
    MarkEntities(path, view, lastTick, curTick);
    StampFootprint(path, mover.position, mover.size, PATH_TARGET);
    path[goal.x, goal.y] := PATH_START;
    BlockTurretZones(path, view);
    assert Snapshot(worldMap) == w;
    GridExt(Snapshot(path), MoveGrid(view, mover, goal, w, lastTick, curTick));
  }

  /** The neighbour test at the end of Move. */
  method ReadStep(path: array2<int>, p: Pos, move: Pos) returns (newMove: Pos)
    requires IsMap(path) && InGridPos(p)
    ensures newMove == if NextStep(Snapshot(path), p).Some? then NextStep(Snapshot(path), p).value else move
  {
    newMove := move;
    if p.x + 1 < N && path[p.x + 1, p.y] == path[p.x, p.y] - 1 {
      newMove := Pos(p.x + 1, p.y);
    } else if p.y + 1 < N && path[p.x, p.y + 1] == path[p.x, p.y] - 1 {
      newMove := Pos(p.x, p.y + 1);
    } else if p.x - 1 >= 0 && path[p.x - 1, p.y] == path[p.x, p.y] - 1 {
      newMove := Pos(p.x - 1, p.y);
    } else if p.y - 1 >= 0 && path[p.x, p.y - 1] == path[p.x, p.y] - 1 {
      newMove := Pos(p.x, p.y - 1);
    }
  }

  /** Move: routes from the goal towards the mover and steps to the first neighbour of the
      mover one wave closer to the goal. Reports whether the router reached the mover; the
      move is left as it was when it did not, or when no neighbour is one wave closer. */
  method Move(view: View, mover: Entity, goal: Pos, worldMap: array2<Tile>, lastTick: Grid<int>, curTick: Grid<int>,
              move: Pos)
    returns (ok: bool, newMove: Pos)
    requires IsMap(worldMap) && IsGrid(lastTick) && IsGrid(curTick) && WellPlaced(view.entities)
    requires InGridPos(mover.position) && FootprintInGrid(mover.position, mover.size) && InGridPos(goal)
    ensures var r := Search(MoveGrid(view, mover, goal, Snapshot(worldMap), lastTick, curTick), 0, INT_MAX);
      ok == r.found &&
      newMove == if ok && NextStep(r.grid, mover.position).Some? then NextStep(r.grid, mover.position).value else move
  {
    var path := BuildMoveGrid(view, mover, goal, worldMap, lastTick, curTick);
    var found, positions := SearchPath(path, INT_MAX);
    if found {
      newMove := ReadStep(path, mover.position, move);
      return true, newMove;
    }
    return false, move;
  }

  // ---------------------------------------------------------------------------------------
  // What Move guarantees.

  /** The entity pass only ever writes passable or blocking values. */
  lemma {:induction false} MarkedIsGround(es: seq<Entity>, myId: int, lastTick: Grid<int>, curTick: Grid<int>, i: int, j: int, base: int)
    requires IsGrid(lastTick) && IsGrid(curTick) && WellPlaced(es)
    requires base == PATH_EMPTY || base == PATH_DESTROYABLE || base == PATH_BLOCKED
    ensures var v := Marked(es, myId, lastTick, curTick, i, j, base);
      v == PATH_EMPTY || v == PATH_DESTROYABLE || v == PATH_BLOCKED
  {
    if |es| > 0 && !Marks(es[|es| - 1], myId, i, j) {
      MarkedIsGround(es[..|es| - 1], myId, lastTick, curTick, i, j, base);
    }
  }

  /** The router leaves closed cells alone and labels every cell it rewrites with a wave
      after the first: a non-negative label marks a start cell or a cell that was open. */
  lemma RewrittenCellsWereOpen(g: Grid<int>, range: int, x: int, y: int)
    requires IsGrid(g) && InGrid(x, y)
    ensures var f := Search(g, 0, range).grid;
      (!IsOpen(g[x][y]) ==> f[x][y] == g[x][y]) &&
      (f[x][y] != g[x][y] ==> IsOpen(g[x][y]) && f[x][y] >= 1)
  {
    SearchCellFacts(g, 0, range, Search(g, 0, range).grid, x, y);
  }

  /** No cell inside an enemy turret's range ever gets a wave label: it stays blocked. */
  lemma TurretZoneStaysBlocked(view: View, mover: Entity, goal: Pos, w: Grid<Tile>, lastTick: Grid<int>, curTick: Grid<int>,
                               range: int, q: Pos)
    requires IsGrid(w) && IsGrid(lastTick) && IsGrid(curTick) && WellPlaced(view.entities) && InGridPos(q)
    requires InTurretZone(view.entities, view.myId, q.x, q.y)
    ensures Search(MoveGrid(view, mover, goal, w, lastTick, curTick), 0, range).grid[q.x][q.y] == PATH_BLOCKED
  {
    RewrittenCellsWereOpen(MoveGrid(view, mover, goal, w, lastTick, curTick), range, q.x, q.y);
  }

  /** Label 0 after the search belongs to the goal cell alone. */
  lemma OnlyGoalIsZero(view: View, mover: Entity, goal: Pos, w: Grid<Tile>, lastTick: Grid<int>, curTick: Grid<int>,
                       range: int, q: Pos)
    requires IsGrid(w) && IsGrid(lastTick) && IsGrid(curTick) && WellPlaced(view.entities) && InGridPos(q)
    requires Search(MoveGrid(view, mover, goal, w, lastTick, curTick), 0, range).grid[q.x][q.y] == PATH_START
    ensures q == goal && !InTurretZone(view.entities, view.myId, q.x, q.y)
  {
    var g := MoveGrid(view, mover, goal, w, lastTick, curTick);
    RewrittenCellsWereOpen(g, range, q.x, q.y);
    MarkedIsGround(view.entities, view.myId, lastTick, curTick, q.x, q.y, PathOfTile(w[q.x][q.y]));
  }

  /** Every cell the search lists is a cell of the mover's footprint. */
  lemma TargetsAreMoverCells(view: View, mover: Entity, goal: Pos, w: Grid<Tile>, lastTick: Grid<int>, curTick: Grid<int>,
                             range: int, q: Pos)
    requires IsGrid(w) && IsGrid(lastTick) && IsGrid(curTick) && WellPlaced(view.entities)
    requires q in Search(MoveGrid(view, mover, goal, w, lastTick, curTick), 0, range).targets
    ensures InGridPos(q) && InFootprint(q.x, q.y, mover.position, mover.size) && q != goal &&
            !InTurretZone(view.entities, view.myId, q.x, q.y)
  {
    var g := MoveGrid(view, mover, goal, w, lastTick, curTick);
    SearchTargetsAt(g, 0, range, Search(g, 0, range), q);
    MarkedIsGround(view.entities, view.myId, lastTick, curTick, q.x, q.y, PathOfTile(w[q.x][q.y]));
  }

  /** For a one-cell mover, a successful search always reaches the mover itself. */
  lemma FoundMeansMoverReached(view: View, mover: Entity, goal: Pos, w: Grid<Tile>, lastTick: Grid<int>, curTick: Grid<int>,
                               range: int)
    requires IsGrid(w) && IsGrid(lastTick) && IsGrid(curTick) && WellPlaced(view.entities) && mover.size == 1
    requires Search(MoveGrid(view, mover, goal, w, lastTick, curTick), 0, range).found
    ensures mover.position in Search(MoveGrid(view, mover, goal, w, lastTick, curTick), 0, range).targets
  {
    var g := MoveGrid(view, mover, goal, w, lastTick, curTick);
    var r := Search(g, 0, range);
    SearchTargetsAt(g, 0, range, r, Pos(0, 0));
    TargetsAreMoverCells(view, mover, goal, w, lastTick, curTick, range, r.targets[0]);
  }

  /** A listed target has a neighbour one wave below it, so the step test succeeds there. */
  lemma TargetHasStep(g: Grid<int>, range: int, p: Pos)
    requires IsGrid(g) && InGridPos(p) && g[p.x][p.y] == PATH_TARGET && p in Search(g, 0, range).targets
    ensures var f := Search(g, 0, range).grid;
      NextStep(f, p).Some? && f[NextStep(f, p).value.x][NextStep(f, p).value.y] >= 0
  {
    var r := Search(g, 0, range);
    SearchTargetsAt(g, 0, range, r, p);
    SearchCellFacts(g, 0, range, r.grid, p.x, p.y);
    assert HasNeighbourValued(r.grid, p.x, p.y, r.grid[p.x][p.y] - 1);
  }

  /** Once the search reaches the mover, Move has a step: a neighbour one wave closer to the
      goal, never inside an enemy turret's range. */
  lemma StepIsSafe(view: View, mover: Entity, goal: Pos, w: Grid<Tile>, lastTick: Grid<int>, curTick: Grid<int>, range: int)
    requires IsGrid(w) && IsGrid(lastTick) && IsGrid(curTick) && WellPlaced(view.entities) && InGridPos(mover.position)
    requires mover.position in Search(MoveGrid(view, mover, goal, w, lastTick, curTick), 0, range).targets
    ensures var f := Search(MoveGrid(view, mover, goal, w, lastTick, curTick), 0, range).grid;
      var s := NextStep(f, mover.position);
      s.Some? && Adjacent(s.value.x, s.value.y, mover.position.x, mover.position.y) &&
      f[s.value.x][s.value.y] == f[mover.position.x][mover.position.y] - 1 &&
      f[s.value.x][s.value.y] >= 0 &&
      !InTurretZone(view.entities, view.myId, s.value.x, s.value.y)
  {
    var g := MoveGrid(view, mover, goal, w, lastTick, curTick);
    TargetsAreMoverCells(view, mover, goal, w, lastTick, curTick, range, mover.position);
    TargetHasStep(g, range, mover.position);
    var s := NextStep(Search(g, 0, range).grid, mover.position).value;
    if InTurretZone(view.entities, view.myId, s.x, s.y) {
      TurretZoneStaysBlocked(view, mover, goal, w, lastTick, curTick, range, s);
    }
  }

  // ---------------------------------------------------------------------------------------
  // SearchForResources.

  /** Some resource is anchored at (i, j). */
  ghost predicate ResourceAt(es: seq<Entity>, i: int, j: int) {
    exists k :: 0 <= k < |es| && es[k].entityType == Resource && es[k].position == Pos(i, j)
  }

  /** The initial value of (i, j) in SearchForResources: resource anchors are targets, the
      builder's cell is the start, the rest is passable exactly when the world map is empty. */
  ghost function ResourceCell(view: View, from: Pos, w: Grid<Tile>, i: int, j: int): int
    requires IsGrid(w) && InGrid(i, j)
  {
    if ResourceAt(view.entities, i, j) then PATH_TARGET
    else if Pos(i, j) == from then PATH_START
    else if w[i][j] == Empty then PATH_EMPTY
    else PATH_BLOCKED
  }

  ghost function ResourceGrid(view: View, from: Pos, w: Grid<Tile>): (g: Grid<int>)
    requires IsGrid(w)
    ensures IsGrid(g)
    ensures forall i, j :: InGrid(i, j) ==> g[i][j] == ResourceCell(view, from, w, i, j)
  {
    seq(N, i requires 0 <= i < N => seq(N, j requires 0 <= j < N => ResourceCell(view, from, w, i, j)))
  }

  /** The id the entity loop leaves in targetId: that of the last entity standing at q, or
      d when none does. */
  function LastIdAt(es: seq<Entity>, q: Pos, d: int): int {
    if |es| == 0 then d
    else if es[|es| - 1].position == q then es[|es| - 1].id
    else LastIdAt(es[..|es| - 1], q, d)
  }

  /** LastIdAt names the last entity at q, and falls back to d only when none stands there. */
  lemma {:induction false} LastIdAtSpec(es: seq<Entity>, q: Pos, d: int)
    ensures (exists k :: 0 <= k < |es| && es[k].position == q) ==>
      exists k :: 0 <= k < |es| && es[k].position == q && LastIdAt(es, q, d) == es[k].id &&
                  forall j :: k < j < |es| ==> es[j].position != q
    ensures (forall k :: 0 <= k < |es| ==> es[k].position != q) ==> LastIdAt(es, q, d) == d
  {
    if |es| > 0 {
      var es' := es[..|es| - 1];
      LastIdAtSpec(es', q, d);
      if es[|es| - 1].position != q {
        if exists k :: 0 <= k < |es| && es[k].position == q {
          var k :| 0 <= k < |es| && es[k].position == q;
          assert es'[k] == es[k];
          var k' :| 0 <= k' < |es'| && es'[k'].position == q && LastIdAt(es', q, d) == es'[k'].id &&
                    forall j :: k' < j < |es'| ==> es'[j].position != q;
          assert es[k'] == es'[k'];
          forall j | k' < j < |es| ensures es[j].position != q {
            if j < |es'| {
              assert es[j] == es'[j];
            }
          }
        }
        forall k | 0 <= k < |es'| && (forall k :: 0 <= k < |es| ==> es[k].position != q)
          ensures es'[k].position != q
        {
          assert es'[k] == es[k];
        }
      }
    }
  }

  /** The fallback id matters only when no entity stands at q. */
  lemma {:induction false} LastIdAtIgnoresDefault(es: seq<Entity>, q: Pos, d: int, d': int)
    requires exists k :: 0 <= k < |es| && es[k].position == q
    ensures LastIdAt(es, q, d) == LastIdAt(es, q, d')
  {
    if es[|es| - 1].position != q {
      var k :| 0 <= k < |es| && es[k].position == q;
      assert es[..|es| - 1][k] == es[k];
      LastIdAtIgnoresDefault(es[..|es| - 1], q, d, d');
    }
  }

  /** The inner entity loop of SearchForResources. */
  method IdAt(es: seq<Entity>, q: Pos, targetId: int) returns (id: int)
    ensures id == LastIdAt(es, q, targetId)
  {
    id := targetId;
    var k := 0;
    while k < |es|
      invariant 0 <= k <= |es|
      invariant id == LastIdAt(es[..k], q, targetId)
    {
      assert es[..k + 1][..k] == es[..k];
      if es[k].position == q {
        id := es[k].id;
      }
      k := k + 1;
    }
    assert es[..k] == es;
  }

  /** The grid pass of SearchForResources. */
  method FillForResources(path: array2<int>, worldMap: array2<Tile>)
    requires IsMap(path) && IsMap(worldMap)
    modifies path
    ensures forall x, y :: InGrid(x, y) ==> path[x, y] == if worldMap[x, y] == Empty then PATH_EMPTY else PATH_BLOCKED
  {
    var i := 0;
    while i < N
      invariant 0 <= i <= N
      invariant forall x, y :: InGrid(x, y) && x < i ==>
        path[x, y] == if worldMap[x, y] == Empty then PATH_EMPTY else PATH_BLOCKED
    {
      var j := 0;
      while j < N
        invariant 0 <= j <= N
        invariant forall x, y :: InGrid(x, y) && (x < i || (x == i && y < j)) ==>
          path[x, y] == if worldMap[x, y] == Empty then PATH_EMPTY else PATH_BLOCKED
      {
        if worldMap[i, j] == Empty {
          path[i, j] := PATH_EMPTY;
        } else {
          path[i, j] := PATH_BLOCKED;
        }
        j := j + 1;
      }
      i := i + 1;
    }
  }

  /** The resource pass: every resource anchor becomes a target. */
  method MarkResources(path: array2<int>, es: seq<Entity>)
    requires IsMap(path) && WellPlaced(es)
    modifies path
    ensures forall x, y :: InGrid(x, y) ==> path[x, y] == if ResourceAt(es, x, y) then PATH_TARGET else old(path[x, y])
  {
    var k := 0;
    while k < |es|
      invariant 0 <= k <= |es|
      invariant forall x, y :: InGrid(x, y) ==> path[x, y] == if ResourceAt(es[..k], x, y) then PATH_TARGET else old(path[x, y])
    {
      var e := es[k];
      if e.entityType == Resource {
        path[e.position.x, e.position.y] := PATH_TARGET;
      }
      forall x, y | InGrid(x, y)
        ensures ResourceAt(es[..k + 1], x, y) <==> ResourceAt(es[..k], x, y) || (e.entityType == Resource && e.position == Pos(x, y))
      {
        if ResourceAt(es[..k + 1], x, y) {
          var q :| 0 <= q < k + 1 && es[..k + 1][q].entityType == Resource && es[..k + 1][q].position == Pos(x, y);
          if q < k {
            assert es[..k][q] == es[..k + 1][q];
          }
        }
        if e.entityType == Resource && e.position == Pos(x, y) {
          assert es[..k + 1][k] == e;
        }
        if ResourceAt(es[..k], x, y) {
          var q :| 0 <= q < k && es[..k][q].entityType == Resource && es[..k][q].position == Pos(x, y);
          assert es[..k + 1][q] == es[..k][q];
        }
      }
      k := k + 1;
    }
    assert es[..k] == es;
  }

  /** Every cell the resource search lists is a resource anchor. */
  lemma ResourceTargetsAreResources(view: View, from: Pos, w: Grid<Tile>, range: int, q: Pos)
    requires IsGrid(w)
    requires q in Search(ResourceGrid(view, from, w), 0, range).targets
    ensures InGridPos(q) && ResourceAt(view.entities, q.x, q.y)
  {
    var g := ResourceGrid(view, from, w);
    SearchTargetsAt(g, 0, range, Search(g, 0, range), q);
  }

  /** The path grid of SearchForResources, built in a fresh array. */
  method BuildResourceGrid(view: View, from: Pos, worldMap: array2<Tile>) returns (path: array2<int>)
    requires IsMap(worldMap) && WellPlaced(view.entities) && InGridPos(from)
    ensures fresh(path) && IsMap(path)
    ensures Snapshot(path) == ResourceGrid(view, from, Snapshot(worldMap))
  {
    path := new int[N, N];
    FillForResources(path, worldMap);
    path[from.x, from.y] := PATH_START;
    MarkResources(path, view.entities);
    GridExt(Snapshot(path), ResourceGrid(view, from, Snapshot(worldMap)));
  }

  /** The first of positions that no later one beats strictly, stated as in
      GetNearestPosition, with the id of the last entity standing on it. */
  predicate NearestIn(from: Pos, positions: seq<Pos>, p: Pos) {
    (exists k :: 0 <= k < |positions| && p == positions[k] &&
       forall j :: 0 <= j < k ==> SqDist(from, positions[j]) > SqDist(from, positions[k])) &&
    (forall j :: 0 <= j < |positions| ==> SqDist(from, p) <= SqDist(from, positions[j]))
  }

  /** Every position holds a resource. */
  ghost predicate AllResources(es: seq<Entity>, positions: seq<Pos>) {
    forall k :: 0 <= k < |positions| ==> ResourceAt(es, positions[k].x, positions[k].y)
  }

  /** The nearest-position loop of SearchForResources over listed resources: the nearest
      one, and the id of the last entity standing on it. */
  method NearestResource(es: seq<Entity>, from: Pos, positions: seq<Pos>, targetId: int)
    returns (newPosition: Pos, newId: int)
    requires positions != [] && AllResources(es, positions)
    ensures NearestIn(from, positions, newPosition)
    ensures ResourceAt(es, newPosition.x, newPosition.y)
    ensures exists k :: 0 <= k < |es| && es[k].position == newPosition && newId == es[k].id &&
                        forall j :: k < j < |es| ==> es[j].position != newPosition
  {
    newPosition, newId := positions[0], targetId;
    // nearestDistance starts at FLT_MAX: the first position is always taken.
    var nearestDistance := 0;
    var taken := false;
    ghost var at := 0;
    var k := 0;
    while k < |positions|
      invariant 0 <= k <= |positions|
      invariant taken <==> k > 0
      invariant taken ==> 0 <= at < k && newPosition == positions[at] && nearestDistance == SqDist(from, newPosition)
      invariant taken ==> forall j :: 0 <= j < at ==> SqDist(from, positions[j]) > nearestDistance
      invariant taken ==> forall j :: 0 <= j < k ==> nearestDistance <= SqDist(from, positions[j])
      invariant taken ==> newId == LastIdAt(es, newPosition, targetId)
    {
      var position := positions[k];
      var distance := SqDist(from, position);
      if !taken || distance < nearestDistance {
        nearestDistance := distance;
        newPosition := position;
        ghost var previousId := newId;
        newId := IdAt(es, position, newId);
        LastIdAtIgnoresDefault(es, position, previousId, targetId);
        at := k;
        taken := true;
      }
      k := k + 1;
    }
    assert positions[at] == newPosition;
    LastIdAtSpec(es, newPosition, targetId);
  }

  /** Every listed target of the resource search is a resource. */
  lemma ResourceTargetsAllResources(view: View, from: Pos, w: Grid<Tile>, range: int)
    requires IsGrid(w)
    ensures AllResources(view.entities, Search(ResourceGrid(view, from, w), 0, range).targets)
  {
    var t := Search(ResourceGrid(view, from, w), 0, range).targets;
    forall k | 0 <= k < |t| ensures ResourceAt(view.entities, t[k].x, t[k].y) {
      ResourceTargetsAreResources(view, from, w, range, t[k]);
    }
  }

  /** SearchForResources: routes from the builder to the nearest resources within range
      waves and, when some are reached, takes the one nearest to the builder in a straight
      line (the first in the list at that distance) and the id of the entity standing there. */
  method SearchForResources(view: View, builder: Entity, targetPosition: Pos, targetId: int, worldMap: array2<Tile>, range: int)
    returns (ok: bool, newPosition: Pos, newId: int)
    requires IsMap(worldMap) && WellPlaced(view.entities) && InGridPos(builder.position)
    ensures var r := Search(ResourceGrid(view, builder.position, Snapshot(worldMap)), 0, range);
      ok == r.found &&
      (!ok ==> newPosition == targetPosition && newId == targetId) &&
      (ok ==> NearestIn(builder.position, r.targets, newPosition))
    ensures ok ==> (ResourceAt(view.entities, newPosition.x, newPosition.y) &&
      exists k :: 0 <= k < |view.entities| && view.entities[k].position == newPosition && newId == view.entities[k].id &&
                  forall j :: k < j < |view.entities| ==> view.entities[j].position != newPosition)
  {
    ghost var w := Snapshot(worldMap);
    var path := BuildResourceGrid(view, builder.position, worldMap);
    var found, positions := SearchPath(path, range);
    ghost var g := ResourceGrid(view, builder.position, w);
    SearchTargetsAt(g, 0, range, Search(g, 0, range), Pos(0, 0));
    if !found {
      return false, targetPosition, targetId;
    }
    ResourceTargetsAllResources(view, builder.position, w, range);
    newPosition, newId := NearestResource(view.entities, builder.position, positions, targetId);
    return true, newPosition, newId;
  }
}
