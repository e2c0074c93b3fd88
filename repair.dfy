/** SearchBuildingForRepair: the nearest damaged own structure within range of a builder,
    and the free cells around it on the world map from which the builder can repair it. */
module Repair {
  import opened Grid
  import opened Entities
  import opened Placement

  /** The preferred-types filter: an empty list admits every type. */
  method IsPreferred(t: EntityType, preferred: seq<EntityType>) returns (r: bool)
    ensures r <==> |preferred| == 0 || t in preferred
  {
    if |preferred| == 0 {
      return true;
    }
    var exclude := true;
    var k := 0;
    while k < |preferred|
      invariant 0 <= k <= |preferred|
      invariant exclude <==> t !in preferred[..k]
    {
      if t == preferred[k] {
        exclude := false;
      }
      assert preferred[..k + 1] == preferred[..k] + [preferred[k]];
      k := k + 1;
    }
    assert preferred[..k] == preferred;
    return !exclude;
  }

  /** An own structure of a preferred type, below its maximum health, strictly closer to
      the builder than range. */
  predicate RepairCandidate(e: Entity, myId: int, from: Pos, range: int, preferred: seq<EntityType>) {
    IsOwn(e, myId) && (|preferred| == 0 || e.entityType in preferred) && IsStructure(e.entityType) &&
    e.health < e.maxHealth && CloserThan(e.position, from, range)
  }

  /** t indexes the first candidate at the smallest distance from the builder. */
  predicate IsRepairTarget(es: seq<Entity>, myId: int, from: Pos, range: int, preferred: seq<EntityType>, t: nat) {
    t < |es| && RepairCandidate(es[t], myId, from, range, preferred) &&
    (forall j :: 0 <= j < t && RepairCandidate(es[j], myId, from, range, preferred) ==>
       SqDist(es[j].position, from) > SqDist(es[t].position, from)) &&
    (forall j :: 0 <= j < |es| && RepairCandidate(es[j], myId, from, range, preferred) ==>
       SqDist(es[t].position, from) <= SqDist(es[j].position, from))
  }

  /** The chosen structure: the first candidate that no other beats strictly, or None. */
  method ChooseRepairTarget(view: View, builder: Entity, range: int, preferred: seq<EntityType>)
    returns (target: Option<nat>)
    ensures target.None? <==>
      forall k :: 0 <= k < |view.entities| ==> !RepairCandidate(view.entities[k], view.myId, builder.position, range, preferred)
    ensures target.Some? ==> IsRepairTarget(view.entities, view.myId, builder.position, range, preferred, target.value)
  {
    var es := view.entities;
    target := None;
    // minDistance starts at FLT_MAX: the first candidate is always taken.
    var minDistance := 0;
    var k := 0;
    while k < |es|
      invariant 0 <= k <= |es|
      invariant target.None? <==> forall j :: 0 <= j < k ==> !RepairCandidate(es[j], view.myId, builder.position, range, preferred)
      invariant target.Some? ==> target.value < k && RepairCandidate(es[target.value], view.myId, builder.position, range, preferred) &&
                                 minDistance == SqDist(es[target.value].position, builder.position)
      invariant target.Some? ==> forall j :: 0 <= j < target.value && RepairCandidate(es[j], view.myId, builder.position, range, preferred) ==>
                                   SqDist(es[j].position, builder.position) > minDistance
      invariant target.Some? ==> forall j :: 0 <= j < k && RepairCandidate(es[j], view.myId, builder.position, range, preferred) ==>
                                   minDistance <= SqDist(es[j].position, builder.position)
    {
      var e := es[k];
      if IsOwn(e, view.myId) {
        var preferredType := IsPreferred(e.entityType, preferred);
        if preferredType && IsStructure(e.entityType) && e.health < e.maxHealth {
          var entityDistance := SqDist(e.position, builder.position);
          if (target.None? || entityDistance < minDistance) && range > 0 && entityDistance < range * range {
            minDistance := entityDistance;
            target := Some(k);
          }
        }
      }
      k := k + 1;
    }
  }

  /** SearchBuildingForRepair: picks the structure, records its id in targetId (kept when
      there is none) and lists the free cells around it on the world map, the builder's own
      tile counting as free; succeeds when both are found. */
  method SearchBuildingForRepair(view: View, builder: Entity, targetId: int, worldMap: array2<Tile>,
                                 range: int, preferred: seq<EntityType>)
    returns (ok: bool, newTargetId: int, target: Option<nat>, positions: seq<Pos>)
    requires IsMap(worldMap) && WellPlaced(view.entities) && InGridPos(builder.position)
    modifies worldMap
    ensures target.None? <==>
      forall k :: 0 <= k < |view.entities| ==> !RepairCandidate(view.entities[k], view.myId, builder.position, range, preferred)
    ensures target.Some? ==> IsRepairTarget(view.entities, view.myId, builder.position, range, preferred, target.value)
    ensures newTargetId == if target.Some? then view.entities[target.value].id else targetId
    ensures positions == if target.None? then [] else
      var e := view.entities[target.value];
      EdgeScan(SetCell(old(Snapshot(worldMap)), builder.position, Empty), e.position.x, e.position.y, e.size)
    ensures ok <==> target.Some? && positions != []
    ensures Snapshot(worldMap) == if target.Some? then SetCell(old(Snapshot(worldMap)), builder.position, Blocked)
                                  else old(Snapshot(worldMap))
  {
    ghost var g0 := Snapshot(worldMap);
    positions := [];
    newTargetId := targetId;
    target := ChooseRepairTarget(view, builder, range, preferred);
    if target.Some? {
      var e := view.entities[target.value];
      newTargetId := e.id;
      worldMap[builder.position.x, builder.position.y] := Empty;
      GridExt(Snapshot(worldMap), SetCell(g0, builder.position, Empty));
      positions := GetSpawnPoints(e, worldMap);
      worldMap[builder.position.x, builder.position.y] := Blocked;
      GridExt(Snapshot(worldMap), SetCell(g0, builder.position, Blocked));
      SetCellTwice(g0, builder.position, Empty, Blocked);
    }
    ok := target.Some? && positions != [];
  }

  /** Two indices meeting the target description are the same: the choice is determined. */
  lemma RepairTargetUnique(es: seq<Entity>, myId: int, from: Pos, range: int, preferred: seq<EntityType>, t: nat, t': nat)
    requires IsRepairTarget(es, myId, from, range, preferred, t) && IsRepairTarget(es, myId, from, range, preferred, t')
    ensures t == t'
  {
  }

  /** A builder standing on the repaired structure's border keeps that cell among the
      positions: its own tile is cleared before the scan. */
  lemma BuilderCellOffered(g: Grid<Tile>, builder: Pos, e: Entity)
    requires IsGrid(g) && InGridPos(builder) && FootprintInGrid(e.position, e.size)
    requires Borders(builder, e.position, e.size)
    ensures builder in EdgeScan(SetCell(g, builder, Empty), e.position.x, e.position.y, e.size)
  {
    EdgeScanMembers(SetCell(g, builder, Empty), e.position.x, e.position.y, e.size, builder);
  }
}
