/** MakeMap: rebuilding worldMap (for pathing) and buildMap (for placement) from the
    snapshot. The new tile of each cell is stated as a function of the snapshot, the mode
    and the cell's tile before the call (which matters only under fog of war). */
module WorldMap {
  import opened Grid
  import opened Entities

  const BUILDING_INDENT: int := 2           // buildingIndent
  const BUILDING_INDENT_WITH_FOG: int := 1  // buildingIndentWithFog

  /** Some owned entity of es has the cell (i, j) within its sight diamond. */
  ghost predicate Visible(es: seq<Entity>, myId: int, i: int, j: int) {
    exists k :: 0 <= k < |es| && IsOwn(es[k], myId) &&
      InReach(i, j, es[k].position, es[k].size, es[k].sightRange)
  }

  /** The tile left by the clearing passes: under fog of war only remembered resources
      outside every owned sight diamond survive; without fog every cell is cleared. */
  ghost function ClearedTile(view: View, t: Tile, i: int, j: int): Tile {
    if view.fogOfWar && t == Destroyable && !Visible(view.entities, view.myId, i, j) then Destroyable
    else Empty
  }

  /** The margin added around an owned-type structure on the build map. Under fog a house
      needs none when it stands at the corner, on the x == 0 edge beyond y == size, or on the
      y == 0 edge beyond x == size + 1. */
  function Indent(e: Entity, fog: bool): int {
    if !fog then BUILDING_INDENT
    else if e.entityType == House &&
            ((e.position.x == 0 && e.position.y == 0) ||
             (e.position.x == 0 && e.position.y > e.size) ||
             (e.position.y == 0 && e.position.x > e.size + 1)) then 0
    else BUILDING_INDENT_WITH_FOG
  }

  /** On the build map every structure is stamped with its indent margin. */
  predicate Inflated(e: Entity, forBuilding: bool) { forBuilding && IsStructure(e.entityType) }

  /** The square an entity stamps: its footprint, grown by the indent when inflated. */
  predicate Covers(e: Entity, forBuilding: bool, fog: bool, i: int, j: int) {
    if Inflated(e, forBuilding) then
      var d := Indent(e, fog);
      InFootprint(i, j, Pos(e.position.x - d, e.position.y - d), e.size + 2 * d)
    else InFootprint(i, j, e.position, e.size)
  }

  /** What an entity stamps: resources are destroyable, everything else blocks. */
  function StampTile(e: Entity, forBuilding: bool): Tile {
    if !Inflated(e, forBuilding) && e.entityType == Resource then Destroyable else Blocked
  }

  /** The tile of (i, j) after stamping es in order onto base: the last entity that
      covers the cell decides. */
  function Stamped(es: seq<Entity>, forBuilding: bool, fog: bool, i: int, j: int, base: Tile): Tile {
    if |es| == 0 then base
    else if Covers(es[|es| - 1], forBuilding, fog, i, j) then StampTile(es[|es| - 1], forBuilding)
    else Stamped(es[..|es| - 1], forBuilding, fog, i, j, base)
  }

  /** The tile MakeMap gives (i, j) when it held t before. */
  ghost function MapCell(view: View, forBuilding: bool, t: Tile, i: int, j: int): Tile {
    Stamped(view.entities, forBuilding, view.fogOfWar, i, j, ClearedTile(view, t, i, j))
  }

  /** MakeMap: clears the map as the mode demands, then stamps every entity in order. */
  method MakeMap(view: View, m: array2<Tile>, forBuilding: bool)
    requires IsMap(m) && WellPlaced(view.entities)
    modifies m
    ensures forall i, j :: InGrid(i, j) ==> m[i, j] == MapCell(view, forBuilding, old(m[i, j]), i, j)
  {
    ghost var g0 := Snapshot(m);
    if view.fogOfWar {
      ForgetSeen(view, m);
    } else {
      ClearAll(m);
    }
    StampEntities(view, m, forBuilding, g0);
  }

  /** The clearing pass without fog of war: every cell becomes empty. */
  method ClearAll(m: array2<Tile>)
    requires IsMap(m)
    modifies m
    ensures forall x, y :: InGrid(x, y) ==> m[x, y] == Empty
  {
    var i := 0;
    while i < N
      invariant 0 <= i <= N
      invariant forall x, y :: InGrid(x, y) ==> m[x, y] == if x < i then Empty else old(m[x, y])
    {
      var j := 0;
      while j < N
        invariant 0 <= j <= N
        invariant forall x, y :: InGrid(x, y) ==>
          m[x, y] == if x < i || (x == i && y < j) then Empty else old(m[x, y])
      {
        m[i, j] := Empty;
        j := j + 1;
      }
      i := i + 1;
    }
  }

  /** The clearing passes under fog of war: everything but remembered resources is cleared,
      then every cell within sight of an owned entity. */
  method ForgetSeen(view: View, m: array2<Tile>)
    requires IsMap(m) && WellPlaced(view.entities) && view.fogOfWar
    modifies m
    ensures forall x, y :: InGrid(x, y) ==> m[x, y] == ClearedTile(view, old(m[x, y]), x, y)
  {
    var es := view.entities;
    ghost var g0 := Snapshot(m);
    // Removes old data from the map
    var i := 0;
    while i < N
      invariant 0 <= i <= N
      invariant forall x, y :: InGrid(x, y) ==>
        m[x, y] == if x < i && g0[x][y] != Destroyable then Empty else g0[x][y]
    {
      var j := 0;
      while j < N
        invariant 0 <= j <= N
        invariant forall x, y :: InGrid(x, y) ==>
          m[x, y] == if (x < i || (x == i && y < j)) && g0[x][y] != Destroyable then Empty else g0[x][y]
      {
        if m[i, j] != Destroyable {
          m[i, j] := Empty;
        }
        j := j + 1;
      }
      i := i + 1;
    }
    // Clears every cell within the sight range of an owned entity
    var k := 0;
    while k < |es|
      invariant 0 <= k <= |es|
      invariant forall x, y :: InGrid(x, y) ==>
        m[x, y] == if g0[x][y] != Destroyable || Visible(es[..k], view.myId, x, y) then Empty else g0[x][y]
    {
      var e := es[k];
      if IsOwn(e, view.myId) {
        StampFootprintDiamond(m, e.position, e.size, e.sightRange, Empty);
      }
      VisiblePrefix(es, view.myId, k);
      k := k + 1;
    }
    assert es[..k] == es;
  }

  /** Visibility over one more entity of the sequence. */
  lemma VisiblePrefix(es: seq<Entity>, myId: int, k: nat)
    requires k < |es|
    ensures forall x, y :: Visible(es[..k + 1], myId, x, y) <==>
      Visible(es[..k], myId, x, y) || (IsOwn(es[k], myId) && InReach(x, y, es[k].position, es[k].size, es[k].sightRange))
  {
    var e := es[k];
    forall x, y
      ensures Visible(es[..k + 1], myId, x, y) <==>
              Visible(es[..k], myId, x, y) || (IsOwn(e, myId) && InReach(x, y, e.position, e.size, e.sightRange))
    {
      if Visible(es[..k + 1], myId, x, y) {
        var q :| 0 <= q < k + 1 && IsOwn(es[..k + 1][q], myId) &&
          InReach(x, y, es[..k + 1][q].position, es[..k + 1][q].size, es[..k + 1][q].sightRange);
        if q < k {
          assert es[..k][q] == es[..k + 1][q];
        }
      }
      if IsOwn(e, myId) && InReach(x, y, e.position, e.size, e.sightRange) {
        assert es[..k + 1][k] == e;
      }
      if Visible(es[..k], myId, x, y) {
        var q :| 0 <= q < k && IsOwn(es[..k][q], myId) &&
          InReach(x, y, es[..k][q].position, es[..k][q].size, es[..k][q].sightRange);
        assert es[..k + 1][q] == es[..k][q];
      }
    }
  }

  /** The mapping pass: every entity stamps its square over the cleared map, in order. */
  method StampEntities(view: View, m: array2<Tile>, forBuilding: bool, ghost g0: Grid<Tile>)
    requires IsMap(m) && WellPlaced(view.entities) && IsGrid(g0)
    requires forall x, y :: InGrid(x, y) ==> m[x, y] == ClearedTile(view, g0[x][y], x, y)
    modifies m
    ensures forall i, j :: InGrid(i, j) ==> m[i, j] == MapCell(view, forBuilding, g0[i][j], i, j)
  {
    var es := view.entities;
    var k := 0;
    while k < |es|
      invariant 0 <= k <= |es|
      invariant forall x, y :: InGrid(x, y) ==>
        m[x, y] == Stamped(es[..k], forBuilding, view.fogOfWar, x, y, ClearedTile(view, g0[x][y], x, y))
    {
      assert es[..k + 1][..k] == es[..k] && es[..k + 1][k] == es[k];
      StampEntity(m, es[k], forBuilding, view.fogOfWar);
      k := k + 1;
    }
    assert es[..k] == es;
  }

  /** One entity of the mapping pass: its square takes its tile, every other cell stays. */
  method StampEntity(m: array2<Tile>, e: Entity, forBuilding: bool, fog: bool)
    requires IsMap(m) && FootprintInGrid(e.position, e.size)
    modifies m
    ensures forall i, j :: InGrid(i, j) ==>
      m[i, j] == if Covers(e, forBuilding, fog, i, j) then StampTile(e, forBuilding) else old(m[i, j])
  {
    if forBuilding && IsStructure(e.entityType) {
      var indent := Indent(e, fog);
      StampSquareClipped(m, e.position.x - indent, e.position.y - indent, e.size + indent * 2, Blocked);
    } else {
      StampFootprint(m, e.position, e.size, if e.entityType == Resource then Destroyable else Blocked);
    }
  }

  // ---------------------------------------------------------------------------------------
  // What the rebuilt map says.

  /** Some entity of es stamps (i, j). */
  predicate Covered(es: seq<Entity>, forBuilding: bool, fog: bool, i: int, j: int) {
    exists k :: 0 <= k < |es| && Covers(es[k], forBuilding, fog, i, j)
  }

  /** A cell no entity stamps keeps its cleared tile. */
  lemma {:induction false} UncoveredKeepsBase(es: seq<Entity>, forBuilding: bool, fog: bool, i: int, j: int, base: Tile)
    requires !Covered(es, forBuilding, fog, i, j)
    ensures Stamped(es, forBuilding, fog, i, j, base) == base
  {
    if |es| > 0 {
      var es' := es[..|es| - 1];
      assert !Covers(es[|es| - 1], forBuilding, fog, i, j);
      forall k | 0 <= k < |es'| ensures !Covers(es'[k], forBuilding, fog, i, j) {
        assert es'[k] == es[k];
      }
      UncoveredKeepsBase(es', forBuilding, fog, i, j, base);
    }
  }

  /** The last entity that covers a cell decides its tile; earlier ones are overwritten. */
  lemma {:induction false} LastCoverWins(es: seq<Entity>, forBuilding: bool, fog: bool, i: int, j: int, base: Tile, k: nat)
    requires k < |es| && Covers(es[k], forBuilding, fog, i, j)
    requires forall q :: k < q < |es| ==> !Covers(es[q], forBuilding, fog, i, j)
    ensures Stamped(es, forBuilding, fog, i, j, base) == StampTile(es[k], forBuilding)
  {
    if k < |es| - 1 {
      var es' := es[..|es| - 1];
      assert !Covers(es[|es| - 1], forBuilding, fog, i, j);
      forall q | k < q < |es'| ensures !Covers(es'[q], forBuilding, fog, i, j) {
        assert es'[q] == es[q];
      }
      LastCoverWins(es', forBuilding, fog, i, j, base, k);
    }
  }

  /** A covered cell is never left empty: it is destroyable or blocked. */
  lemma {:induction false} CoveredIsNotEmpty(es: seq<Entity>, forBuilding: bool, fog: bool, i: int, j: int, base: Tile)
    requires Covered(es, forBuilding, fog, i, j)
    ensures Stamped(es, forBuilding, fog, i, j, base) != Empty
  {
    if !Covers(es[|es| - 1], forBuilding, fog, i, j) {
      var es' := es[..|es| - 1];
      var k :| 0 <= k < |es| && Covers(es[k], forBuilding, fog, i, j);
      assert es'[k] == es[k];
      CoveredIsNotEmpty(es', forBuilding, fog, i, j, base);
    }
  }

  /** Without fog of war a cell is empty exactly when no entity's (possibly inflated)
      footprint covers it. */
  lemma NoFogEmptyIffUncovered(view: View, forBuilding: bool, t: Tile, i: int, j: int)
    requires !view.fogOfWar
    ensures MapCell(view, forBuilding, t, i, j) == Empty <==>
            !Covered(view.entities, forBuilding, false, i, j)
  {
    if Covered(view.entities, forBuilding, false, i, j) {
      CoveredIsNotEmpty(view.entities, forBuilding, false, i, j, Empty);
    } else {
      UncoveredKeepsBase(view.entities, forBuilding, false, i, j, Empty);
    }
  }

  /** Under fog of war a cell no entity covers is destroyable exactly when it was destroyable
      before and no owned entity sees it; every other uncovered cell is empty. */
  lemma FogUncoveredCell(view: View, forBuilding: bool, t: Tile, i: int, j: int)
    requires view.fogOfWar && !Covered(view.entities, forBuilding, true, i, j)
    ensures MapCell(view, forBuilding, t, i, j) ==
            if t == Destroyable && !Visible(view.entities, view.myId, i, j) then Destroyable else Empty
  {
    UncoveredKeepsBase(view.entities, forBuilding, true, i, j, ClearedTile(view, t, i, j));
  }

  /** A cell the world stamping blocks is blocked on the build map too, and a non-empty world
      cell is non-empty on the build map: the margins only add obstacles. */
  lemma {:induction false} BuildMapOnlyAddsObstacles(es: seq<Entity>, fog: bool, i: int, j: int, base: Tile)
    ensures Stamped(es, false, fog, i, j, base) == Blocked ==> Stamped(es, true, fog, i, j, base) == Blocked
    ensures Stamped(es, false, fog, i, j, base) != Empty ==> Stamped(es, true, fog, i, j, base) != Empty
  {
    if |es| > 0 {
      var e := es[|es| - 1];
      BuildMapOnlyAddsObstacles(es[..|es| - 1], fog, i, j, base);
      if Inflated(e, true) && Covers(e, false, fog, i, j) {
        assert Indent(e, fog) >= 0;
        assert Covers(e, true, fog, i, j);
      }
    }
  }
}
