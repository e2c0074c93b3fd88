/** The enemy memory kept across ticks under fog of war: the positions where enemies were
    last seen, and the guessed enemy spawn corners not yet seen to be empty. Each tick the
    snapshot's entities are visited in order: an own entity forgets the remembered positions
    it now sees unoccupied and the spawn guesses within its sight distance, and an enemy
    entity that is not a turret is remembered where it stands. The update is proved equal to
    a value-level fold over the entities, and what the memory then holds is proved about the
    fold. */
module Memory {
  import opened Grid
  import opened Entities
  import opened Spatial

  /** The two memory lists as one value. */
  datatype Recall = Recall(enemies: seq<Pos>, spawns: seq<Pos>)

  predicate NoDup(s: seq<Pos>) {
    forall i, j :: 0 <= i < j < |s| ==> s[i] != s[j]
  }

  /** The spawn guesses of the first tick: the two side corners when there are more than two
      players, then the opposite corner. */
  function SpawnGuesses(numPlayers: nat): seq<Pos> {
    (if numPlayers > 2 then [Pos(N - 1, 0), Pos(0, N - 1)] else []) + [Pos(N - 1, N - 1)]
  }

  /** Some enemy entity of es stands exactly at q. */
  ghost predicate EnemyAt(es: seq<Entity>, myId: int, q: Pos) {
    exists k :: 0 <= k < |es| && IsEnemy(es[k], myId) && es[k].position == q
  }

  /** The own entity e sees q, and no enemy of the snapshot es stands there any more. */
  ghost predicate SeenEmpty(es: seq<Entity>, myId: int, e: Entity, q: Pos) {
    InReach(q.x, q.y, e.position, e.size, e.sightRange) && !EnemyAt(es, myId, q)
  }

  /** The remembered enemy positions that e does not see empty, in their order. */
  ghost function ForgetSeen(s: seq<Pos>, es: seq<Entity>, myId: int, e: Entity): seq<Pos> {
    if s == [] then []
    else (if SeenEmpty(es, myId, e, s[0]) then [] else [s[0]]) + ForgetSeen(s[1..], es, myId, e)
  }

  /** The spawn guesses farther from e than its sight range, in their order. */
  function ForgetSpawns(s: seq<Pos>, e: Entity): seq<Pos> {
    if s == [] then []
    else (if WithinDist(e.position, s[0], e.sightRange) then [] else [s[0]]) + ForgetSpawns(s[1..], e)
  }

  /** The enemy positions after seeing enemy e: its position is appended unless it is
      already there or e is a turret. */
  function Remember(s: seq<Pos>, e: Entity): seq<Pos> {
    if e.position in s || e.entityType == Turret then s else s + [e.position]
  }

  /** The memory after visiting entity e of the snapshot. Neutral entities are skipped,
      and without fog of war nothing changes. */
  ghost function Observe(view: View, r: Recall, e: Entity): Recall {
    if e.playerId.None? || !view.fogOfWar then r
    else if e.playerId.value == view.myId then
      Recall(ForgetSeen(r.enemies, view.entities, view.myId, e), ForgetSpawns(r.spawns, e))
    else Recall(Remember(r.enemies, e), r.spawns)
  }

  /** The memory after visiting the entities es in order. */
  ghost function ObserveAll(view: View, r: Recall, es: seq<Entity>): Recall {
    if |es| == 0 then r else Observe(view, ObserveAll(view, r, es[..|es| - 1]), es[|es| - 1])
  }

  /** The memory before the entity pass: on the first tick under fog the spawn guesses are
      appended. */
  function Seeded(view: View, tick: int, r: Recall): Recall {
    if tick == 0 && view.fogOfWar then Recall(r.enemies, r.spawns + SpawnGuesses(view.numPlayers)) else r
  }

  /** The memory after the update of a tick. */
  ghost function Recalled(view: View, tick: int, r: Recall): Recall {
    ObserveAll(view, Seeded(view, tick, r), view.entities)
  }

  // ---------------------------------------------------------------------------------------
  // The update.

  /** The exists test of the pruning loop: does an enemy stand at q? */
  method EnemyStandsAt(es: seq<Entity>, myId: int, q: Pos) returns (found: bool)
    ensures found <==> EnemyAt(es, myId, q)
  {
    found := false;
    var k := 0;
    while k < |es|
      invariant 0 <= k <= |es|
      invariant found <==> EnemyAt(es[..k], myId, q)
    {
      if es[k].playerId.Some? && es[k].playerId.value != myId && es[k].position == q {
        found := true;
      }
      EnemyAtPrefix(es, myId, q, k);
      k := k + 1;
    }
    assert es[..k] == es;
  }

  lemma EnemyAtPrefix(es: seq<Entity>, myId: int, q: Pos, k: nat)
    requires k < |es|
    ensures EnemyAt(es[..k + 1], myId, q) <==>
      EnemyAt(es[..k], myId, q) || (IsEnemy(es[k], myId) && es[k].position == q)
  {
    if EnemyAt(es[..k + 1], myId, q) {
      var j :| 0 <= j < k + 1 && IsEnemy(es[..k + 1][j], myId) && es[..k + 1][j].position == q;
      if j < k {
        assert es[..k][j] == es[..k + 1][j];
      }
    }
    if EnemyAt(es[..k], myId, q) {
      var j :| 0 <= j < k && IsEnemy(es[..k][j], myId) && es[..k][j].position == q;
      assert es[..k + 1][j] == es[..k][j];
    }
    if IsEnemy(es[k], myId) && es[k].position == q {
      assert es[..k + 1][k] == es[k];
    }
  }

  /** The first erase loop: walks the remembered positions and erases each one e sees
      with no enemy standing on it. */
  method EraseSeen(s: seq<Pos>, es: seq<Entity>, myId: int, e: Entity) returns (t: seq<Pos>)
    ensures t == ForgetSeen(s, es, myId, e)
  {
    t := s;
    var i := 0;
    while i < |t|
      invariant 0 <= i <= |t|
      invariant ForgetSeen(s, es, myId, e) == t[..i] + ForgetSeen(t[i..], es, myId, e)
      decreases |t| - i
    {
      assert t[i..][0] == t[i] && t[i..][1..] == t[i + 1..];
      var inSight := IsAtRange(e, t[i], e.sightRange);
      var occupied := false;
      if inSight {
        occupied := EnemyStandsAt(es, myId, t[i]);
      }
      if inSight && !occupied {
        var t' := t[..i] + t[i + 1..];
        assert t'[..i] == t[..i] && t'[i..] == t[i + 1..];
        t := t';
      } else {
        assert t[..i + 1] == t[..i] + [t[i]];
        i := i + 1;
      }
    }
    assert t[i..] == [];
    assert t[..i] == t;
  }

  /** The second erase loop: erases every spawn guess within e's sight distance. */
  method EraseSpawns(s: seq<Pos>, e: Entity) returns (t: seq<Pos>)
    ensures t == ForgetSpawns(s, e)
  {
    t := s;
    var i := 0;
    while i < |t|
      invariant 0 <= i <= |t|
      invariant ForgetSpawns(s, e) == t[..i] + ForgetSpawns(t[i..], e)
      decreases |t| - i
    {
      assert t[i..][0] == t[i] && t[i..][1..] == t[i + 1..];
      if WithinDist(e.position, t[i], e.sightRange) {
        var t' := t[..i] + t[i + 1..];
        assert t'[..i] == t[..i] && t'[i..] == t[i + 1..];
        t := t';
      } else {
        assert t[..i + 1] == t[..i] + [t[i]];
        i := i + 1;
      }
    }
    assert t[i..] == [];
    assert t[..i] == t;
  }

  /** The exists test before remembering an enemy. */
  method Contains(s: seq<Pos>, q: Pos) returns (found: bool)
    ensures found <==> q in s
  {
    found := false;
    var k := 0;
    while k < |s|
      invariant 0 <= k <= |s|
      invariant found <==> q in s[..k]
    {
      if s[k] == q {
        found := true;
      }
      assert s[..k + 1] == s[..k] + [s[k]];
      k := k + 1;
    }
    assert s[..k] == s;
  }

  /** The memory lists, kept across ticks, and the count of ticks whose bookkeeping has run. */
  class EnemyMemory {
    var knownEnemies: seq<Pos>
    var knownEnemySpawns: seq<Pos>
    var currentTick: int

    /** No position is remembered twice, and no spawn is guessed before the first tick. */
    predicate Valid()
      reads this
    {
      NoDup(knownEnemies) && NoDup(knownEnemySpawns) &&
      currentTick >= 0 && (currentTick == 0 ==> knownEnemySpawns == [])
    }

    constructor ()
      ensures Valid() && knownEnemies == [] && knownEnemySpawns == [] && currentTick == 0
    {
      knownEnemies := [];
      knownEnemySpawns := [];
      currentTick := 0;
    }

    /** The memory part of a tick's bookkeeping. It runs only when the snapshot's tick equals
        the count of ticks already handled, and then advances that count. */
    method Update(view: View)
      requires Valid()
      modifies this
      ensures Valid()
      ensures view.currentTick == old(currentTick) ==>
        Recall(knownEnemies, knownEnemySpawns) == Recalled(view, old(currentTick), old(Recall(knownEnemies, knownEnemySpawns))) &&
        currentTick == old(currentTick) + 1
      ensures view.currentTick != old(currentTick) ==>
        knownEnemies == old(knownEnemies) && knownEnemySpawns == old(knownEnemySpawns) && currentTick == old(currentTick)
    {
      if view.currentTick != currentTick {
        return;
      }
      ghost var r0 := Recall(knownEnemies, knownEnemySpawns);
      if currentTick == 0 && view.fogOfWar {
        if view.numPlayers > 2 {
          knownEnemySpawns := knownEnemySpawns + [Pos(N - 1, 0)];
          knownEnemySpawns := knownEnemySpawns + [Pos(0, N - 1)];
        }
        knownEnemySpawns := knownEnemySpawns + [Pos(N - 1, N - 1)];
      }
      ghost var r1 := Recall(knownEnemies, knownEnemySpawns);
      assert r1 == Seeded(view, currentTick, r0);
      SeededKeepsNoDup(view, currentTick, r0);
      var es := view.entities;
      var k := 0;
      while k < |es|
        invariant 0 <= k <= |es|
        invariant Recall(knownEnemies, knownEnemySpawns) == ObserveAll(view, r1, es[..k])
        invariant NoDup(knownEnemies) && NoDup(knownEnemySpawns) && currentTick == old(currentTick)
      {
        var e := es[k];
        assert es[..k + 1][..k] == es[..k];
        ObserveKeepsNoDup(view, Recall(knownEnemies, knownEnemySpawns), e);
        if e.playerId.Some? {
          if e.playerId.value == view.myId {
            if view.fogOfWar {
              knownEnemies := EraseSeen(knownEnemies, es, view.myId, e);
              knownEnemySpawns := EraseSpawns(knownEnemySpawns, e);
            }
          } else if view.fogOfWar {
            var known := Contains(knownEnemies, e.position);
            if !known && e.entityType != Turret {
              knownEnemies := knownEnemies + [e.position];
            }
          }
        }
        k := k + 1;
      }
      assert es[..k] == es;
      currentTick := currentTick + 1;
    }
  }

  // ---------------------------------------------------------------------------------------
  // What the memory holds.

  /** A remembered position survives exactly when e does not see it empty. */
  lemma {:induction false} ForgetSeenMembers(s: seq<Pos>, es: seq<Entity>, myId: int, e: Entity, q: Pos)
    ensures q in ForgetSeen(s, es, myId, e) <==> q in s && !SeenEmpty(es, myId, e, q)
    decreases |s|
  {
    if s != [] {
      ForgetSeenMembers(s[1..], es, myId, e, q);
      assert s == [s[0]] + s[1..];
    }
  }

  /** A spawn guess survives exactly when it lies beyond e's sight distance. */
  lemma {:induction false} ForgetSpawnsMembers(s: seq<Pos>, e: Entity, q: Pos)
    ensures q in ForgetSpawns(s, e) <==> q in s && !WithinDist(e.position, q, e.sightRange)
    decreases |s|
  {
    if s != [] {
      ForgetSpawnsMembers(s[1..], e, q);
      assert s == [s[0]] + s[1..];
    }
  }

  /** The tail of a list free of duplicates is free of them and does not hold the head. */
  lemma NoDupTail(s: seq<Pos>)
    requires NoDup(s) && s != []
    ensures NoDup(s[1..]) && s[0] !in s[1..]
  {
    forall i, j | 0 <= i < j < |s[1..]| ensures s[1..][i] != s[1..][j] {
      assert s[1..][i] == s[i + 1] && s[1..][j] == s[j + 1];
    }
    forall j | 0 <= j < |s[1..]| ensures s[1..][j] != s[0] {
      assert s[1..][j] == s[j + 1];
    }
  }

  /** Putting at most one position not in rest before rest keeps it free of duplicates. */
  lemma PrependKeepsNoDup(head: seq<Pos>, rest: seq<Pos>)
    requires NoDup(rest) && |head| <= 1 && (|head| == 1 ==> head[0] !in rest)
    ensures NoDup(head + rest)
  {
    forall i, j | 0 <= i < j < |head + rest| ensures (head + rest)[i] != (head + rest)[j] {
      if |head| == 1 && i == 0 {
        assert (head + rest)[j] == rest[j - 1];
      } else {
        assert (head + rest)[i] == rest[i - |head|] && (head + rest)[j] == rest[j - |head|];
      }
    }
  }

  /** Forgetting never introduces a duplicate. */
  lemma {:induction false} ForgetSeenKeepsNoDup(s: seq<Pos>, es: seq<Entity>, myId: int, e: Entity)
    requires NoDup(s)
    ensures NoDup(ForgetSeen(s, es, myId, e))
    decreases |s|
  {
    if s != [] {
      NoDupTail(s);
      ForgetSeenKeepsNoDup(s[1..], es, myId, e);
      ForgetSeenMembers(s[1..], es, myId, e, s[0]);
      var head := if SeenEmpty(es, myId, e, s[0]) then [] else [s[0]];
      PrependKeepsNoDup(head, ForgetSeen(s[1..], es, myId, e));
    }
  }

  /** Dropping spawn guesses never introduces a duplicate. */
  lemma {:induction false} ForgetSpawnsKeepsNoDup(s: seq<Pos>, e: Entity)
    requires NoDup(s)
    ensures NoDup(ForgetSpawns(s, e))
    decreases |s|
  {
    if s != [] {
      NoDupTail(s);
      ForgetSpawnsKeepsNoDup(s[1..], e);
      ForgetSpawnsMembers(s[1..], e, s[0]);
      var head := if WithinDist(e.position, s[0], e.sightRange) then [] else [s[0]];
      PrependKeepsNoDup(head, ForgetSpawns(s[1..], e));
    }
  }

  /** The guessed corners are distinct. */
  lemma SpawnGuessesNoDup(numPlayers: nat)
    ensures NoDup(SpawnGuesses(numPlayers))
  {
    var g := SpawnGuesses(numPlayers);
    forall i, j | 0 <= i < j < |g| ensures g[i] != g[j] {
      if numPlayers > 2 {
        assert g[0] == Pos(N - 1, 0) && g[1] == Pos(0, N - 1) && g[2] == Pos(N - 1, N - 1);
      }
    }
  }

  /** Seeding keeps both lists free of duplicates when no spawn is guessed yet on the
      first tick. */
  lemma SeededKeepsNoDup(view: View, tick: int, r: Recall)
    requires NoDup(r.enemies) && NoDup(r.spawns) && (tick == 0 ==> r.spawns == [])
    ensures NoDup(Seeded(view, tick, r).enemies) && NoDup(Seeded(view, tick, r).spawns)
  {
    if tick == 0 && view.fogOfWar {
      SpawnGuessesNoDup(view.numPlayers);
      assert Seeded(view, tick, r).spawns == SpawnGuesses(view.numPlayers);
    }
  }

  /** One visited entity keeps both lists free of duplicates. */
  lemma ObserveKeepsNoDup(view: View, r: Recall, e: Entity)
    requires NoDup(r.enemies) && NoDup(r.spawns)
    ensures NoDup(Observe(view, r, e).enemies) && NoDup(Observe(view, r, e).spawns)
  {
    if e.playerId.Some? && view.fogOfWar {
      if e.playerId.value == view.myId {
        ForgetSeenKeepsNoDup(r.enemies, view.entities, view.myId, e);
        ForgetSpawnsKeepsNoDup(r.spawns, e);
      } else if e.position !in r.enemies && e.entityType != Turret {
        var s := r.enemies + [e.position];
        forall i, j | 0 <= i < j < |s| ensures s[i] != s[j] {
          if j == |r.enemies| {
            assert s[i] == r.enemies[i];
          }
        }
      }
    }
  }

  /** A remembered position on which an enemy of the snapshot stands is never forgotten. */
  lemma {:induction false} OccupiedStays(view: View, r: Recall, es: seq<Entity>, q: Pos)
    requires q in r.enemies && EnemyAt(view.entities, view.myId, q)
    ensures q in ObserveAll(view, r, es).enemies
  {
    if |es| > 0 {
      var e := es[|es| - 1];
      var before := ObserveAll(view, r, es[..|es| - 1]);
      OccupiedStays(view, r, es[..|es| - 1], q);
      ForgetSeenMembers(before.enemies, view.entities, view.myId, e, q);
    }
  }

  /** Under fog of war, after the update every enemy of the snapshot that is not a turret is
      remembered where it stands. */
  lemma EnemiesInSightRemembered(view: View, tick: int, r: Recall, k: nat)
    requires view.fogOfWar && k < |view.entities|
    requires IsEnemy(view.entities[k], view.myId) && view.entities[k].entityType != Turret
    ensures view.entities[k].position in Recalled(view, tick, r).enemies
  {
    var es := view.entities;
    var r1 := Seeded(view, tick, r);
    var before := ObserveAll(view, r1, es[..k]);
    assert es[..k + 1][..k] == es[..k];
    assert es[..k + 1][k] == es[k];
    assert es[k].position in ObserveAll(view, r1, es[..k + 1]).enemies;
    OccupiedStays(view, ObserveAll(view, r1, es[..k + 1]), es[k + 1..], es[k].position);
    ObserveAllSplit(view, r1, es[..k + 1], es[k + 1..]);
    assert es[..k + 1] + es[k + 1..] == es;
  }

  /** Visiting two runs of entities one after the other is visiting their concatenation. */
  lemma {:induction false} ObserveAllSplit(view: View, r: Recall, a: seq<Entity>, b: seq<Entity>)
    ensures ObserveAll(view, ObserveAll(view, r, a), b) == ObserveAll(view, r, a + b)
    decreases |b|
  {
    if |b| > 0 {
      ObserveAllSplit(view, r, a, b[..|b| - 1]);
      assert (a + b)[..|a + b| - 1] == a + b[..|b| - 1];
      assert (a + b)[|a + b| - 1] == b[|b| - 1];
    } else {
      assert a + b == a;
    }
  }

  /** A position is forgotten only because some own entity of the pass saw it with no enemy
      standing there. */
  lemma {:induction false} ForgottenWasSeenEmpty(view: View, r: Recall, es: seq<Entity>, q: Pos)
    requires q in r.enemies && q !in ObserveAll(view, r, es).enemies
    ensures exists k :: 0 <= k < |es| && IsOwn(es[k], view.myId) && SeenEmpty(view.entities, view.myId, es[k], q)
  {
    if |es| == 0 {
      assert false;
    }
    var es' := es[..|es| - 1];
    var e := es[|es| - 1];
    var before := ObserveAll(view, r, es');
    if q in before.enemies {
      ForgetSeenMembers(before.enemies, view.entities, view.myId, e, q);
      assert es[|es| - 1] == e;
    } else {
      ForgottenWasSeenEmpty(view, r, es', q);
      var k :| 0 <= k < |es'| && IsOwn(es'[k], view.myId) && SeenEmpty(view.entities, view.myId, es'[k], q);
      assert es[k] == es'[k];
    }
  }

  /** Every newly remembered position is where an enemy other than a turret stands. */
  lemma {:induction false} NewEntriesAreEnemies(view: View, r: Recall, es: seq<Entity>, q: Pos)
    requires q !in r.enemies && q in ObserveAll(view, r, es).enemies
    ensures exists k :: 0 <= k < |es| && IsEnemy(es[k], view.myId) && es[k].entityType != Turret && es[k].position == q
  {
    if |es| == 0 {
      assert false;
    }
    var es' := es[..|es| - 1];
    var e := es[|es| - 1];
    var before := ObserveAll(view, r, es');
    if q in before.enemies {
      NewEntriesAreEnemies(view, r, es', q);
      var k :| 0 <= k < |es'| && IsEnemy(es'[k], view.myId) && es'[k].entityType != Turret && es'[k].position == q;
      assert es[k] == es'[k];
    } else {
      ForgetSeenMembers(before.enemies, view.entities, view.myId, e, q);
      assert es[|es| - 1] == e;
    }
  }

  /** A spawn guess left after the pass lay beyond the sight distance of every own entity
      of the pass: a kept guess is one no own unit has seen. */
  lemma {:induction false} SpawnsOutOfSight(view: View, r: Recall, es: seq<Entity>, q: Pos)
    requires view.fogOfWar && q in ObserveAll(view, r, es).spawns
    ensures q in r.spawns
    ensures forall k :: 0 <= k < |es| && IsOwn(es[k], view.myId) ==> !WithinDist(es[k].position, q, es[k].sightRange)
  {
    if |es| > 0 {
      var es' := es[..|es| - 1];
      var e := es[|es| - 1];
      var before := ObserveAll(view, r, es');
      ForgetSpawnsMembers(before.spawns, e, q);
      SpawnsOutOfSight(view, r, es', q);
      forall k | 0 <= k < |es| && IsOwn(es[k], view.myId) ensures !WithinDist(es[k].position, q, es[k].sightRange) {
        if k < |es'| {
          assert es[k] == es'[k];
        }
      }
    }
  }

  /** Without fog of war the memory never changes. */
  lemma {:induction false} NoFogNoChange(view: View, r: Recall, es: seq<Entity>)
    requires !view.fogOfWar
    ensures ObserveAll(view, r, es) == r
  {
    if |es| > 0 {
      NoFogNoChange(view, r, es[..|es| - 1]);
    }
  }

  /** On the first tick under fog, the spawn guesses appended are the corners other than
      the player's own: three with more than two players, else the opposite one only. */
  lemma FirstTickGuesses(view: View, r: Recall)
    requires view.fogOfWar
    ensures Seeded(view, 0, r).spawns[|r.spawns|..] == SpawnGuesses(view.numPlayers)
    ensures |SpawnGuesses(view.numPlayers)| == if view.numPlayers > 2 then 3 else 1
    ensures Pos(0, 0) !in SpawnGuesses(view.numPlayers)
  {
    assert Seeded(view, 0, r).spawns == r.spawns + SpawnGuesses(view.numPlayers);
  }
}
