/** The snapshot the engine receives each tick, cut down to what the tactical layer reads:
    for each entity its id, owner, type, position and health, and the per-type properties
    (footprint size, sight range, attack range, maximum health) it uses. */
module Entities {
  import opened Grid

  datatype EntityType =
    | Wall | House | BuilderBase | BuilderUnit | MeleeBase | MeleeUnit
    | RangedBase | RangedUnit | Resource | Turret

  /** An Entity together with the EntityProperties of its type that the core looks up. */
  datatype Entity = Entity(
    id: int,
    playerId: Option<int>,   // None for neutral entities (resources)
    entityType: EntityType,
    position: Pos,
    size: int,
    sightRange: int,
    attackRange: int,
    health: int,
    maxHealth: int)

  /** The part of PlayerView the core reads. */
  datatype View = View(myId: int, currentTick: int, fogOfWar: bool, numPlayers: nat, entities: seq<Entity>)

  predicate IsOwn(e: Entity, myId: int) { e.playerId == Some(myId) }

  predicate IsEnemy(e: Entity, myId: int) { e.playerId.Some? && e.playerId.value != myId }

  predicate IsTroopType(t: EntityType) { t == MeleeUnit || t == RangedUnit }

  /** BUILDER_BASE, MELEE_BASE, RANGED_BASE, HOUSE, TURRET: the structures the engine
      inflates on the build map and sends builders to repair. */
  predicate IsStructure(t: EntityType) {
    t == BuilderBase || t == MeleeBase || t == RangedBase || t == House || t == Turret
  }

  /** The simulation only reports entities that stand on the map with their whole footprint. */
  predicate WellPlaced(es: seq<Entity>) {
    forall k :: 0 <= k < |es| ==> InGridPos(es[k].position) && FootprintInGrid(es[k].position, es[k].size)
  }
}
