/** Spatial predicates: the footprint-aware diamond range test, the nearest-of-a-list
    search, the troop counter and the peer-proximity cap. Distances compare integer squared
    distances, which order the cells of an 80x80 map exactly as the float Distance() does. */
module Spatial {
  import opened Grid
  import opened Entities

  /** One wedge of the range test: is the target among the cells of the wedge of radius
      range at (cx, cy)? The wedge's cells are compared one by one, as in the source. */
  method WedgeHit(cx: int, cy: int, range: int, xPos: bool, yPos: bool, target: Pos) returns (hit: bool)
    ensures hit <==> InWedge(target.x, target.y, cx, cy, range, xPos, yPos)
  {
    var a := 0;
    while a <= range
      invariant 0 <= a && (range >= 0 ==> a <= range + 1)
      invariant !(InWedge(target.x, target.y, cx, cy, range, xPos, yPos) && Along(target.x, cx, xPos) < a)
    {
      var b := 0;
      while b <= range - a
        invariant 0 <= b <= range - a + 1
        invariant !(InWedge(target.x, target.y, cx, cy, range, xPos, yPos) &&
                    (Along(target.x, cx, xPos) < a || (Along(target.x, cx, xPos) == a && Along(target.y, cy, yPos) < b)))
      {
        var x := if xPos then cx + a else cx - a;
        var y := if yPos then cy + b else cy - b;
        if x == target.x && y == target.y {
          return true;
        }
        b := b + 1;
      }
      a := a + 1;
    }
    return false;
  }

  /** IsAtRange: true iff some cell of the entity's footprint is within Manhattan distance
      range of target. */
  method IsAtRange(entity: Entity, target: Pos, range: int) returns (r: bool)
    ensures r <==> InReach(target.x, target.y, entity.position, entity.size, range)
  {
    var p := entity.position;
    var i := 0;
    while i < entity.size
      invariant 0 <= i && (entity.size >= 0 ==> i <= entity.size)
      invariant !ReachedBefore(target.x, target.y, p, entity.size, range, i, 0)
    {
      var j := 0;
      while j < entity.size
        invariant 0 <= j <= entity.size
        invariant !ReachedBefore(target.x, target.y, p, entity.size, range, i, j)
      {
        var cx, cy := p.x + i, p.y + j;
        var h1 := WedgeHit(cx, cy, range, true, true, target);
        var h2 := WedgeHit(cx, cy, range, false, true, target);
        var h3 := WedgeHit(cx, cy, range, true, false, target);
        var h4 := WedgeHit(cx, cy, range, false, false, target);
        WedgesCoverDiamond(target.x, target.y, cx, cy, range);
        if h1 || h2 || h3 || h4 {
          assert NearFootCell(target.x, target.y, p.x, p.y, i, j, range);
          return true;
        }
        j := j + 1;
      }
      i := i + 1;
    }
    return false;
  }

  /** At range 0 the test holds exactly on the entity's own footprint. */
  lemma InReachZeroIsFootprint(tx: int, ty: int, p: Pos, size: int)
    ensures InReach(tx, ty, p, size, 0) <==> InFootprint(tx, ty, p, size)
  {
    InReachIffDistance(tx, ty, p, size, 0);
  }

  /** At range 1 (the melee distances of the attack test) the test holds exactly on the
      footprint and the cells sharing a side with it. */
  lemma InReachOneIsTouching(tx: int, ty: int, p: Pos, size: int)
    ensures InReach(tx, ty, p, size, 1) <==>
      InFootprint(tx, ty, p, size) || InFootprint(tx - 1, ty, p, size) || InFootprint(tx + 1, ty, p, size) ||
      InFootprint(tx, ty - 1, p, size) || InFootprint(tx, ty + 1, p, size)
  {
    InReachIffDistance(tx, ty, p, size, 1);
  }

  /** GetNearestPosition: the first element of positions that no other element beats by
      a strictly smaller distance from `from`; `nearest` keeps its previous value (init)
      when the list is empty. */
  method GetNearestPosition(from: Pos, positions: seq<Pos>, init: Pos) returns (found: bool, nearest: Pos)
    ensures found <==> |positions| > 0
    ensures !found ==> nearest == init
    ensures found ==> exists k :: 0 <= k < |positions| && nearest == positions[k] &&
                                  (forall j :: 0 <= j < k ==> SqDist(from, positions[j]) > SqDist(from, positions[k]))
    ensures found ==> forall j :: 0 <= j < |positions| ==> SqDist(from, nearest) <= SqDist(from, positions[j])
  {
    found := false;
    nearest := init;
    // nearestDistance starts at FLT_MAX, above every distance on the map: the first
    // element is always taken, which the `!found` test expresses.
    var nearestDistance := 0;
    ghost var at := 0;
    var k := 0;
    while k < |positions|
      invariant 0 <= k <= |positions|
      invariant found <==> k > 0
      invariant !found ==> nearest == init
      invariant found ==> 0 <= at < k && nearest == positions[at] && nearestDistance == SqDist(from, nearest)
      invariant found ==> forall j :: 0 <= j < at ==> SqDist(from, positions[j]) > nearestDistance
      invariant found ==> forall j :: 0 <= j < k ==> nearestDistance <= SqDist(from, positions[j])
    {
      var distance := SqDist(from, positions[k]);
      if !found || distance < nearestDistance {
        nearestDistance := distance;
        nearest := positions[k];
        at := k;
        found := true;
      }
      k := k + 1;
    }
  }

  datatype Side = Ally | Enemy

  /** A melee or ranged unit of the given side, within Euclidean distance range of from. */
  predicate CountsAsTroop(e: Entity, myId: int, from: Pos, player: Side, range: int) {
    e.playerId.Some? &&
    ((e.playerId.value == myId && player == Ally) || (e.playerId.value != myId && player == Enemy)) &&
    IsTroopType(e.entityType) && WithinDist(from, e.position, range)
  }

  /** The number of entities of es that count as troops. */
  function CountTroops(es: seq<Entity>, myId: int, from: Pos, player: Side, range: int): nat
  {
    if |es| == 0 then 0
    else CountTroops(es[..|es| - 1], myId, from, player, range) +
         (if CountsAsTroop(es[|es| - 1], myId, from, player, range) then 1 else 0)
  }

  /** GetNumberOfTroops: counts the troops of one side within range of fromEntity. */
  method GetNumberOfTroops(view: View, fromEntity: Entity, player: Side, range: int) returns (troops: nat)
    ensures troops == CountTroops(view.entities, view.myId, fromEntity.position, player, range)
  {
    var es := view.entities;
    troops := 0;
    var k := 0;
    while k < |es|
      invariant 0 <= k <= |es|
      invariant troops == CountTroops(es[..k], view.myId, fromEntity.position, player, range)
    {
      assert es[..k + 1][..k] == es[..k];
      if CountsAsTroop(es[k], view.myId, fromEntity.position, player, range) {
        troops := troops + 1;
      }
      k := k + 1;
    }
    assert es[..k] == es;
  }

  /** The number of owned or foreign melee/ranged units within range, whatever their side. */
  function CountOwnedTroops(es: seq<Entity>, from: Pos, range: int): nat
  {
    if |es| == 0 then 0
    else CountOwnedTroops(es[..|es| - 1], from, range) +
         (if es[|es| - 1].playerId.Some? && IsTroopType(es[|es| - 1].entityType) &&
             WithinDist(from, es[|es| - 1].position, range) then 1 else 0)
  }

  /** Every player-owned troop within range is counted on exactly one side. */
  lemma {:induction false} TroopsSplitBySide(es: seq<Entity>, myId: int, from: Pos, range: int)
    ensures CountTroops(es, myId, from, Ally, range) + CountTroops(es, myId, from, Enemy, range)
            == CountOwnedTroops(es, from, range)
  {
    if |es| > 0 {
      TroopsSplitBySide(es[..|es| - 1], myId, from, range);
    }
  }

  /** A larger radius counts at least as many troops. */
  lemma {:induction false} CountTroopsMonotone(es: seq<Entity>, myId: int, from: Pos, player: Side, r: int, r': int)
    requires 0 <= r <= r'
    ensures CountTroops(es, myId, from, player, r) <= CountTroops(es, myId, from, player, r')
  {
    if |es| > 0 {
      CountTroopsMonotone(es[..|es| - 1], myId, from, player, r, r');
      assert r * r <= r' * r' by {
        assert r * r <= r * r';
        assert r * r' <= r' * r';
      }
    }
  }

  /** A negative radius admits no troop. */
  lemma {:induction false} CountTroopsNegativeRange(es: seq<Entity>, myId: int, from: Pos, player: Side, r: int)
    requires r < 0
    ensures CountTroops(es, myId, from, player, r) == 0
  {
    if |es| > 0 {
      CountTroopsNegativeRange(es[..|es| - 1], myId, from, player, r);
    }
  }

  /** An owned entity of the same type as e and with another id. */
  predicate IsPeer(other: Entity, e: Entity, myId: int) {
    IsOwn(other, myId) && other.entityType == e.entityType && other.id != e.id
  }

  /** A peer strictly closer to position than e is. */
  predicate IsCloserPeer(other: Entity, e: Entity, myId: int, position: Pos) {
    IsPeer(other, e, myId) && SqDist(e.position, position) > SqDist(other.position, position)
  }

  function CloserPeers(es: seq<Entity>, e: Entity, myId: int, position: Pos): nat
  {
    if |es| == 0 then 0
    else CloserPeers(es[..|es| - 1], e, myId, position) +
         (if IsCloserPeer(es[|es| - 1], e, myId, position) then 1 else 0)
  }

  /** IsEntityCloserToPosition: false exactly when maxClosest is positive and at least
      maxClosest peers are strictly closer to position (the countdown `--maxClosest`
      reaches zero); with maxClosest <= 0 the countdown never reaches zero. */
  method IsEntityCloserToPosition(view: View, entity: Entity, position: Pos, maxClosest: int) returns (r: bool)
    ensures r <==> !(maxClosest >= 1 && CloserPeers(view.entities, entity, view.myId, position) >= maxClosest)
  {
    var es := view.entities;
    var left := maxClosest;
    var k := 0;
    while k < |es|
      invariant 0 <= k <= |es|
      invariant left == maxClosest - CloserPeers(es[..k], entity, view.myId, position)
      invariant !(maxClosest >= 1 && left <= 0)
    {
      assert es[..k + 1][..k] == es[..k];
      var other := es[k];
      if !IsPeer(other, entity, view.myId) {
        k := k + 1;
        continue;
      }
      if SqDist(entity.position, position) > SqDist(other.position, position) {
        left := left - 1;
        if left == 0 {
          CloserPeersMonotone(es, k + 1, entity, view.myId, position);
          return false;
        }
      }
      k := k + 1;
    }
    assert es[..k] == es;
    return true;
  }

  /** Counting over a longer prefix never gives fewer closer peers. */
  lemma {:induction false} CloserPeersMonotone(es: seq<Entity>, k: nat, e: Entity, myId: int, position: Pos)
    requires k <= |es|
    ensures CloserPeers(es[..k], e, myId, position) <= CloserPeers(es, e, myId, position)
  {
    if k < |es| {
      assert es[..|es| - 1][..k] == es[..k];
      CloserPeersMonotone(es[..|es| - 1], k, e, myId, position);
    } else {
      assert es[..k] == es;
    }
  }

  /** An entity that no peer beats strictly has no closer peers, so it passes every cap. */
  lemma {:induction false} NearestPeerHasNoCloser(es: seq<Entity>, e: Entity, myId: int, position: Pos)
    requires forall k :: 0 <= k < |es| && IsPeer(es[k], e, myId) ==>
      SqDist(e.position, position) <= SqDist(es[k].position, position)
    ensures CloserPeers(es, e, myId, position) == 0
  {
    if |es| > 0 {
      NearestPeerHasNoCloser(es[..|es| - 1], e, myId, position);
    }
  }
}
