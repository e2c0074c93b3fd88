# Tactical grid planning of the AICup2020 bot

This project models the grid-planning core of the bot in `MyStrategy.cpp`. The bot plays on an
80 x 80 map of tiles. Each tick it does the following:

- It rebuilds two tile maps from the snapshot of the game: `worldMap` for pathing and `buildMap` for
  placing buildings.
- It routes units with a breadth-first "wave" flood fill, `SearchPath`, over an integer cost grid.
- It looks for building spots, repair targets and resources.
- It keeps a memory of where enemies were last seen under fog of war.

The model is written in Dafny and follows the program's own form:

- Grids are `array2` values that the methods update in place.
- Each in-place method is proved equal to a value-level specification: a cell-by-cell function of
  its inputs, or a fold over the snapshot's entities.
- The behaviour the program relies on is proved as lemmas about those specifications.

Modules:

- `Grid`: map size, positions, tiles, the path sentinels (`PATH_EMPTY` = -5 ... `PATH_START` = 0),
  the footprint-aware diamond, and the stamping loops shared by MakeMap and Move.
- `Entities`: the part of the snapshot the core reads.
  - Per-type properties are folded into each entity: size, sight range, attack range, maximum health.
  - Entities stand on the map with their whole footprint.
- `Spatial`: IsAtRange, GetNearestPosition, GetNumberOfTroops, IsEntityCloserToPosition.
- `WorldMap`: MakeMap.
- `Router`, `RouterFacts`: SearchPath, and what its labelling guarantees.
- `RouterDistance`: the wave labels as distances: never below breadth-first depth, and exact on an
  open grid.
- `Placement`: GetSpawnPoints, checkPlace, and the three scan orders of SearchPlaceForBuilding.
- `Repair`: SearchBuildingForRepair.
- `Movement`: Move, SearchForResources.
- `Memory`: the enemy-memory block of `getAction`, as the class `EnemyMemory`.

Distances follow two rules:

- `Distance(a, b) <= r` becomes `r >= 0 && d2 <= r*r`, and `Distance(a, b) < r` becomes
  `r > 0 && d2 < r*r`. Here `d2` is the integer squared distance.
- Comparisons between two distances compare squared distances.

On an 80 x 80 map this keeps the order that a correctly rounded `sqrtf` gives.

Some behaviour is kept exactly as the code has it:

- SearchPath stops with "not found" when a sweep meets no cell at the current wave. It does so even
  while destroyable cells labelled `p + 8` are still pending. Once the wave passes `range`, it
  returns `!targetPositions.empty()`, and the list is always empty at that point.
- MakeMap with `forBuilding` inflates every structure, whoever owns it.
- checkPlace rejects `x == 80 - size` and `y == 80 - size`, although such a footprint would still
  fit on the map.
- The in-corner-centre scan walks diagonal `n` from `(n / 2, n / 2)`. For odd `n` those cells lie
  on diagonal `n - 1`, so that diagonal is scanned again.
- IsEntityCloserToPosition never answers false when `maxClosest <= 0`, because `--maxClosest` never
  reaches zero.

## Model

| member | source | states |
|---|---|---|
| Grid.InReachIffDistance | MyStrategy.cpp:89-120 | the range diamond around a footprint holds exactly the cells whose Manhattan distance to the nearest footprint cell is at most the range |
| Grid.InReachMonotone | MyStrategy.cpp:89-120 | a cell in range r of a footprint is in range of every larger radius |
| Grid.StampWedge | MyStrategy.cpp:244-247 | one wedge loop writes exactly the in-map cells of its quarter-diamond and leaves every other cell unchanged |
| Grid.WedgesCoverDiamond | MyStrategy.cpp:244-262 | the four wedge loops together cover exactly the Manhattan diamond |
| Grid.StampDiamond | MyStrategy.cpp:244-262 | the four wedge loops around one cell write exactly the in-map cells of its diamond |
| Grid.StampFootprintDiamond | MyStrategy.cpp:240-264 | the per-footprint-cell wedge loops write exactly the cells in range of the footprint, and nothing else |
| Grid.StampSquareClipped | MyStrategy.cpp:304-307 | the indented square is written where it lies on the map, clipped at the borders; other cells are unchanged |
| Grid.StampFootprint | MyStrategy.cpp:311-320 | the footprint cells get the value; other cells are unchanged |
| Spatial.WedgeHit | MyStrategy.cpp:95-98 | one wedge test answers whether the target lies in that quarter-diamond |
| Spatial.IsAtRange | MyStrategy.cpp:89-120 | true exactly when some cell of the entity's footprint is within Manhattan distance range of the target |
| Spatial.InReachZeroIsFootprint | MyStrategy.cpp:89-120 | at range 0 the test holds exactly on the entity's own footprint |
| Spatial.InReachOneIsTouching | MyStrategy.cpp:89-120 | at range 1 the test holds exactly on the footprint and the cells sharing a side with it |
| Spatial.GetNearestPosition | MyStrategy.cpp:127-146 | false exactly for an empty list, and the output is then unchanged; otherwise the result is the first element that no element beats strictly, and none is closer |
| Spatial.GetNumberOfTroops | MyStrategy.cpp:187-197 | the result is the number of melee or ranged units of the chosen side within Euclidean range |
| Spatial.TroopsSplitBySide | MyStrategy.cpp:192 | ally count plus enemy count is the count of all player-owned troops in range |
| Spatial.CountTroopsMonotone | MyStrategy.cpp:193 | a larger range never counts fewer troops |
| Spatial.CountTroopsNegativeRange | MyStrategy.cpp:193 | a negative range counts no troop |
| Spatial.IsEntityCloserToPosition | MyStrategy.cpp:204-216 | false exactly when maxClosest >= 1 and at least maxClosest own peers of the same type are strictly closer to the position |
| Spatial.CloserPeersMonotone | MyStrategy.cpp:206-213 | counting closer peers over a prefix of the entities never exceeds the full count, so the early return is final |
| Spatial.NearestPeerHasNoCloser | MyStrategy.cpp:204-216 | an entity no peer beats strictly has no closer peer, so it passes every cap |
| WorldMap.MakeMap | MyStrategy.cpp:223-323 | every cell ends as MapCell: its cleared tile, overwritten by the last entity whose (indented) footprint covers it |
| WorldMap.ClearAll | MyStrategy.cpp:267-272 | without fog every cell becomes empty |
| WorldMap.ForgetSeen | MyStrategy.cpp:226-265 | under fog a cell keeps a remembered resource exactly when no owned entity sees it; everything else becomes empty |
| WorldMap.VisiblePrefix | MyStrategy.cpp:234-265 | a cell is seen by the first k + 1 entities exactly when the first k see it or entity k is owned and sees it |
| WorldMap.StampEntities | MyStrategy.cpp:274-322 | after the mapping pass every cell is the last covering entity's tile over the cleared tile |
| WorldMap.StampEntity | MyStrategy.cpp:276-321 | one entity writes its tile exactly on the cells its (indented, clipped) square covers and leaves every other cell unchanged |
| WorldMap.UncoveredKeepsBase | MyStrategy.cpp:274-322 | a cell no entity covers keeps its cleared tile |
| WorldMap.LastCoverWins | MyStrategy.cpp:274-322 | the last entity covering a cell decides its tile; a resource writes destroyable and anything else blocked |
| WorldMap.CoveredIsNotEmpty | MyStrategy.cpp:304-320 | a covered cell is never empty |
| WorldMap.NoFogEmptyIffUncovered | MyStrategy.cpp:267-322 | without fog a cell is empty exactly when no entity's footprint covers it (or its indented footprint on the build map) |
| WorldMap.FogUncoveredCell | MyStrategy.cpp:226-265 | under fog an uncovered cell is destroyable exactly when it was destroyable before and no owned entity sees it |
| WorldMap.BuildMapOnlyAddsObstacles | MyStrategy.cpp:280-320 | a cell blocked or non-empty on the world map is blocked or non-empty on the build map too |
| Router.Expand | MyStrategy.cpp:348-361 | the twelve neighbour updates of a cell holding the wave relabel exactly its sentinel neighbours: empty to p + 1, target to found, destroyable to p + 8 |
| Router.SweepCellAt | MyStrategy.cpp:346-363 | visiting one cell of the in-place sweep relabels the sentinel neighbours of a cell holding the current wave, as the simultaneous sweep does |
| Router.SweepWave | MyStrategy.cpp:342-366 | the in-place sweep leaves the simultaneous sweep of the wave, and stopSearch says that no cell held the wave |
| Router.SweepRow | MyStrategy.cpp:344-364 | the inner loop over row i moves the grid from the sweep state before (i, 0) to the state before (i + 1, 0), and reports whether the row held the wave |
| Router.CollectFound | MyStrategy.cpp:368-379 | the collection pass relabels the found targets to wave + 1 and lists them in row-major order |
| Router.CollectRow | MyStrategy.cpp:370-378 | the inner loop over row i relabels that row's found targets to wave + 1 and appends them, so the list is the row-major scan up to row i + 1 |
| Router.Wave | MyStrategy.cpp:342-379 | one iteration leaves the swept and collected grid, the found list and the stop flag of the value-level step |
| Router.SearchPath | MyStrategy.cpp:330-386 | the answer, the target list and the final grid are those of the value-level Search |
| Router.SearchUnfold | MyStrategy.cpp:340-384 | one step of Search: found targets end it true, a sweep without the wave ends it false, otherwise the next wave follows |
| RouterFacts.CellsBeforeMembers | MyStrategy.cpp:368-379 | the row-major scan lists exactly the cells before the cursor holding the value |
| RouterFacts.FoundCellsMembers | MyStrategy.cpp:368-379 | the found list holds exactly the cells marked found |
| RouterFacts.FoundCellsEmpty | MyStrategy.cpp:368-381 | nothing is found exactly when no cell is marked found |
| RouterFacts.WaveFacts | MyStrategy.cpp:346-379 | one wave keeps closed cells and their closed neighbours, and labels every cell it rewrites as wave labelling demands |
| RouterFacts.SearchCellFacts | MyStrategy.cpp:340-384 | over the whole search a closed cell never changes, and a rewritten empty/target cell sits one above a neighbour, a destroyable cell eight above |
| RouterFacts.SearchKeepsClosedCells | MyStrategy.cpp:346-363 | blocked cells and cells already labelled with a wave never change |
| RouterFacts.SearchLabelsJustified | MyStrategy.cpp:348-361 | every rewritten cell is labelled p + 1 (empty, target) or p + 8 (destroyable) relative to a neighbour |
| RouterFacts.SearchTargetsAt | MyStrategy.cpp:368-384 | found exactly when targets are listed; a cell is listed exactly when it was a target the search rewrote; all listed cells share one wave |
| RouterFacts.SearchTargets | MyStrategy.cpp:368-384 | SearchTargetsAt for all cells at once |
| RouterDistance.ChainMonotone | MyStrategy.cpp:346-363 | a chain of labelled neighbours back to a start cell within k steps is one within every larger bound |
| RouterDistance.ChainStep | MyStrategy.cpp:348-361 | a chain through a labelled neighbour extends to the cell with at least one more step |
| RouterDistance.LabelChain | MyStrategy.cpp:340-384 | under labels kept and justified as the search leaves them, a cell labelled v has a chain of at most v steps back to a start cell |
| RouterDistance.LabelBoundsDepth | MyStrategy.cpp:330-386 | no label is below its cell's breadth-first depth: every cell the search from wave 0 labels v reaches a start cell in at most v steps through labelled cells |
| RouterDistance.ChainNearStart | MyStrategy.cpp:346-363 | a chain of at most k steps ends at a start cell within Manhattan distance k |
| RouterDistance.LabelsAtLeastDistance | MyStrategy.cpp:330-386 | no label is below the Manhattan distance from its cell to the nearest start cell |
| RouterDistance.CellAtDistance | MyStrategy.cpp:340-384 | every distance between 0 and that of a map cell is the distance of some map cell |
| RouterDistance.OpenSweepCell | MyStrategy.cpp:346-363 | on an open grid labelled up to wave p, the sweep of wave p labels exactly the cells at distance p + 1 |
| RouterDistance.OpenWave | MyStrategy.cpp:342-381 | one wave on an open grid finds no target and advances the labelling by one ring |
| RouterDistance.WaveOrDone | MyStrategy.cpp:363-366 | on an open grid labelled up to p the sweep meets its wave unless every cell is nearer than p |
| RouterDistance.OpenSearch | MyStrategy.cpp:340-384 | from a grid labelled up to p, the search ends without targets with every cell labelled by its distance |
| RouterDistance.OpenGridDistances | MyStrategy.cpp:330-386 | on a grid with one start cell and every other cell empty, nothing is found and every label is the exact Manhattan distance from the start |
| Placement.ColumnMembers | MyStrategy.cpp:160 | the column scan lists exactly the empty cells of that column segment |
| Placement.RowMembers | MyStrategy.cpp:162 | the row scan lists exactly the empty cells of that row segment |
| Placement.BordersOnSide | MyStrategy.cpp:160-163 | an in-map cell borders the footprint exactly when it lies on one of the four clipped sides |
| Placement.EdgeScanOnSide | MyStrategy.cpp:160-163 | the edge scan lists exactly the empty cells on the four sides |
| Placement.EdgeScanMembers | MyStrategy.cpp:153-164 | the edge scan lists exactly the in-map empty cells sharing a side with the footprint |
| Placement.ScanColumn | MyStrategy.cpp:160 | the guarded column loop yields the column scan, or nothing when its guard fails |
| Placement.ScanRow | MyStrategy.cpp:162 | the guarded row loop yields the row scan, or nothing when its guard fails |
| Placement.ScanEdges | MyStrategy.cpp:160-163 | the four loops yield the edge scan in the order west, east, north, south |
| Placement.GetSpawnPoints | MyStrategy.cpp:153-164 | every listed cell is in the map, borders the footprint and is empty, and every such cell is listed, in the order of the four loops |
| Placement.InBoundsFootprint | MyStrategy.cpp:456 | an anchor that passes the bounds test has its footprint and its east and south sides on the map |
| Placement.FitsIgnoringBuilder | MyStrategy.cpp:458-463 | with the builder's tile cleared, a footprint fits exactly when its other cells are empty |
| Placement.CheckPlace | MyStrategy.cpp:450-478 | success exactly when the anchor is in bounds and its footprint is empty with the builder's tile cleared; position and border cells are set only on success; the builder's tile is blocked again unless the bounds test failed first |
| Placement.FootprintIsFree | MyStrategy.cpp:460-463 | the two footprint loops of checkPlace answer true exactly when every cell of the footprint is empty |
| Placement.SetCellTwice | MyStrategy.cpp:458-476 | clearing then blocking the builder's tile is the same as blocking it |
| Placement.Attempt | MyStrategy.cpp:488 | one candidate test, stated against the map as it was before the scan |
| Placement.ScanCorner | MyStrategy.cpp:482-493 | the in-corner scan stops at the first anchor that fits, going up the anti-diagonals, or reports that none fits |
| Placement.CornerDiagonal | MyStrategy.cpp:486-490 | one anti-diagonal of the in-corner scan: it stops at its first fitting anchor, none before it fitting, or hands the no-fit and bounds-test facts on to the next diagonal |
| Placement.CornerFound | MyStrategy.cpp:484-490 | a stop on one diagonal is the first fitting anchor of the whole in-corner order |
| Placement.CornerExhausted | MyStrategy.cpp:484-493 | when every diagonal is done without a stop, no in-corner anchor fits, and the builder's tile was touched exactly when some anchor passed the bounds test |
| Placement.ScanCornerCenter | MyStrategy.cpp:495-508 | the in-corner-centre scan stops at the first anchor that fits, going outwards from the middle of each diagonal in pairs, or reports that none fits |
| Placement.CenterDiagonal | MyStrategy.cpp:499-505 | one diagonal of the corner-centre scan, in pairs from its middle: it stops at its first fitting anchor or hands the no-fit and bounds-test facts on to the next diagonal |
| Placement.CenterFound | MyStrategy.cpp:497-505 | a stop on one diagonal is the first fitting anchor of the whole corner-centre order |
| Placement.CenterExhausted | MyStrategy.cpp:497-508 | when every diagonal is done without a stop, no corner-centre anchor fits, and the builder's tile was touched exactly when some anchor passed the bounds test |
| Placement.ScanAroundBuilder | MyStrategy.cpp:510-524 | the around-builder scan stops at the first anchor that fits in the growing squares around the builder, or reports that none fits |
| Placement.AroundSquare | MyStrategy.cpp:512-519 | one square of radius n around the builder: it stops at its first fitting anchor or hands the no-fit and bounds-test facts on to the next square |
| Placement.AroundRow | MyStrategy.cpp:514-518 | one row of that square: it stops at its first fitting anchor or hands the facts on to the next row |
| Placement.AroundFound | MyStrategy.cpp:510-519 | a stop in one square is the first fitting anchor of the whole around-builder order |
| Placement.AroundExhausted | MyStrategy.cpp:510-524 | when every square is done without a stop, no around-builder anchor fits, and the builder's tile was touched exactly when some anchor passed the bounds test |
| Placement.SearchPlaceForBuilding | MyStrategy.cpp:448-529 | the chosen order's first fitting anchor and its free border cells, or failure with no anchor fitting; the builder's tile ends blocked once any anchor passed the bounds test |
| Placement.FirstPlaceUnique | MyStrategy.cpp:480-528 | each scan order determines its anchor: at most one candidate is the first that fits |
| Placement.FirstPlaceExcludesNone | MyStrategy.cpp:480-528 | a scan cannot both stop at an anchor and find that none fits |
| Placement.EmptyMapCornerIsOrigin | MyStrategy.cpp:482-491 | on an empty build map the in-corner scan from fromBase <= 0 places the building at (0, 0), and only there |
| Placement.AroundBuilderStartsAtBuilder | MyStrategy.cpp:510-520 | the around-builder scan places the building at the builder's own cell when the rest of that footprint is free |
| Repair.IsPreferred | MyStrategy.cpp:404-413 | a type passes the filter exactly when the list is empty or contains it |
| Repair.ChooseRepairTarget | MyStrategy.cpp:399-429 | none exactly when no damaged own preferred structure is strictly within range; otherwise the first one that no other beats strictly, and none is closer |
| Repair.SearchBuildingForRepair | MyStrategy.cpp:393-441 | the chosen structure and its id (targetId kept when there is none); the free cells around it with the builder's tile counted as free; success exactly when both exist; the builder's tile ends blocked when a structure was chosen |
| Repair.RepairTargetUnique | MyStrategy.cpp:399-429 | the repair target is determined: two indices meeting its description coincide |
| Repair.BuilderCellOffered | MyStrategy.cpp:433-435 | a builder standing next to the structure is offered its own cell |
| Movement.Mark | MyStrategy.cpp:753-759 | the entity pass writes only passable or blocking values |
| Movement.NextStep | MyStrategy.cpp:813-832 | a step, when one exists, is an in-map 4-neighbour one wave below; none exactly when no neighbour is one wave below |
| Movement.FillFromWorld | MyStrategy.cpp:734-745 | every path cell is the router value of its world tile |
| Movement.MarkEntities | MyStrategy.cpp:747-766 | every cell ends as the value of the last entity that writes it, over the tile values |
| Movement.BlockTurretZones | MyStrategy.cpp:774-808 | every cell within an enemy turret's attack diamond is blocked; other cells are unchanged |
| Movement.BuildMoveGrid | MyStrategy.cpp:730-808 | the path grid of Move is MoveGrid: turret zones blocked, the goal the start, the mover's footprint the target, the rest from the entity pass |
| Movement.ReadStep | MyStrategy.cpp:813-832 | the move becomes NextStep of the labelled grid when it exists, and is otherwise unchanged |
| Movement.Move | MyStrategy.cpp:728-838 | the answer is the router's over MoveGrid; on success the move is NextStep from the mover's cell when one exists, otherwise unchanged |
| Movement.MarkedIsGround | MyStrategy.cpp:747-766 | the entity pass leaves only empty, destroyable or blocked values |
| Movement.RewrittenCellsWereOpen | MyStrategy.cpp:346-363 | the router rewrites only open cells, to a wave >= 1 |
| Movement.TurretZoneStaysBlocked | MyStrategy.cpp:774-808 | no cell in an enemy turret's range is ever labelled: it stays blocked |
| Movement.OnlyGoalIsZero | MyStrategy.cpp:772 | after the search only the goal holds wave 0, and it lies outside every turret zone |
| Movement.TargetsAreMoverCells | MyStrategy.cpp:768-772 | every reached target is a cell of the mover's footprint, not the goal and not in a turret zone |
| Movement.FoundMeansMoverReached | MyStrategy.cpp:768-811 | for a one-cell mover a successful search reaches the mover itself |
| Movement.TargetHasStep | MyStrategy.cpp:813-832 | a reached target cell always has a neighbour one wave below it, with a label >= 0 |
| Movement.StepIsSafe | MyStrategy.cpp:774-832 | once the mover is reached, Move's step exists, is adjacent, is one wave closer to the goal and lies outside every enemy turret's range |
| Movement.LastIdAtSpec | MyStrategy.cpp:575-577 | the inner loop's id is that of the last entity standing at the position, or the old id when none stands there |
| Movement.LastIdAtIgnoresDefault | MyStrategy.cpp:575-577 | when an entity stands at the position, the id found does not depend on the previous id |
| Movement.IdAt | MyStrategy.cpp:575-577 | the inner entity loop computes LastIdAt |
| Movement.FillForResources | MyStrategy.cpp:542-555 | every path cell is empty exactly when its world tile is empty, blocked otherwise |
| Movement.MarkResources | MyStrategy.cpp:559-561 | every resource anchor becomes a target; other cells are unchanged |
| Movement.BuildResourceGrid | MyStrategy.cpp:538-561 | the path grid is ResourceGrid: a resource anchor is a target even on the builder's cell; otherwise the builder's cell is the start, and every other cell is passable exactly when empty on the world map |
| Movement.ResourceTargetsAreResources | MyStrategy.cpp:559-563 | every reached target is a resource anchor |
| Movement.ResourceTargetsAllResources | MyStrategy.cpp:559-563 | ResourceTargetsAreResources for the whole list |
| Movement.NearestResource | MyStrategy.cpp:565-579 | the first listed resource that no later one beats strictly, with none closer, and the id of the last entity standing on it |
| Movement.SearchForResources | MyStrategy.cpp:536-585 | the answer is the router's; on failure position and id are unchanged; on success the nearest reached resource and the id of the last entity standing there |
| Memory.EnemyStandsAt | MyStrategy.cpp:944-948 | true exactly when some enemy entity stands at the position |
| Memory.EnemyAtPrefix | MyStrategy.cpp:946-948 | one more entity adds exactly its own position to the occupied set |
| Memory.EraseSeen | MyStrategy.cpp:940-958 | the erase loop leaves the remembered positions the entity does not see empty, in order |
| Memory.EraseSpawns | MyStrategy.cpp:961-967 | the erase loop leaves the spawn guesses beyond the entity's sight distance, in order |
| Memory.Contains | MyStrategy.cpp:998-1002 | true exactly when the position is remembered |
| Memory.EnemyMemory.constructor | MyStrategy.cpp:35-36 | both lists start empty, the count of handled ticks at 0 |
| Memory.EnemyMemory.Update | MyStrategy.cpp:897-1010 | when the snapshot's tick equals the count of handled ticks, the lists become Recalled (spawn guesses seeded on the first tick under fog, then every entity observed in order) and the count advances; otherwise nothing changes; neither list ever holds a position twice, and no spawn is guessed before the first tick |
| Memory.ForgetSeenMembers | MyStrategy.cpp:940-958 | a position survives the pruning exactly when the entity does not see it empty |
| Memory.ForgetSpawnsMembers | MyStrategy.cpp:961-967 | a spawn guess survives exactly when it lies beyond the entity's sight distance |
| Memory.ForgetSeenKeepsNoDup | MyStrategy.cpp:940-958 | pruning never introduces a duplicate |
| Memory.NoDupTail | MyStrategy.cpp:940-967 | the tail of a list without duplicates has none and does not hold the head |
| Memory.PrependKeepsNoDup | MyStrategy.cpp:940-967 | putting at most one new position in front of a list without duplicates keeps it so |
| Memory.ForgetSpawnsKeepsNoDup | MyStrategy.cpp:961-967 | dropping spawn guesses never introduces a duplicate |
| Memory.SpawnGuessesNoDup | MyStrategy.cpp:911-920 | the guessed spawn corners are distinct |
| Memory.SeededKeepsNoDup | MyStrategy.cpp:911-920 | seeding the guesses on the first tick, with none guessed before, keeps both lists free of duplicates |
| Memory.ObserveKeepsNoDup | MyStrategy.cpp:937-1004 | observing one entity keeps both lists free of duplicates |
| Memory.OccupiedStays | MyStrategy.cpp:942-955 | a remembered position on which an enemy stands is never forgotten |
| Memory.ObserveAllSplit | MyStrategy.cpp:925-1006 | visiting two runs of entities in turn is visiting their concatenation |
| Memory.EnemiesInSightRemembered | MyStrategy.cpp:996-1004 | under fog, after the update every enemy in sight that is not a turret is remembered where it stands |
| Memory.ForgottenWasSeenEmpty | MyStrategy.cpp:940-958 | a position is forgotten only because an own entity saw it with no enemy on it |
| Memory.NewEntriesAreEnemies | MyStrategy.cpp:996-1004 | every newly remembered position is where a non-turret enemy stands |
| Memory.SpawnsOutOfSight | MyStrategy.cpp:961-967 | a spawn guess left after the pass was there before and lies beyond the sight distance of every own entity |
| Memory.NoFogNoChange | MyStrategy.cpp:937-996 | without fog of war the memory never changes |
| Memory.FirstTickGuesses | MyStrategy.cpp:911-920 | on the first tick under fog, three corner guesses are appended with more than two players, otherwise only the opposite corner, and never the own corner (0, 0) |

## Left out

- `getAction` beyond the enemy-memory block (MyStrategy.cpp:1013-1315) is not modelled. It is
  heuristic glue over the snapshot, with float ratios.
- The per-tick counters in the memory block are not modelled: resources, population, troop and
  building counts, baseSize and farthestBuilder. They feed only the rest of `getAction`.
- The memory block's calls to MakeMap on `worldMap` and `buildMap` are not part of
  `EnemyMemory.Update`. MakeMap is modelled on its own.
- IsItWorthToAttack (MyStrategy.cpp:674-721) is not modelled. Its scores are float multipliers
  truncated to int.
- SearchForEnemies, GetNearestEnemyPosition and GetNearestSpawnPoint are not modelled. They are
  callers outside the planning core.
- debugUpdate is not modelled. It is debug I/O.
- The external types PlayerView, Entity, EntityProperties and Action are minimal records.
  - The property table is folded into each entity.
  - The player list is reduced to its length.
- The float Distance is replaced by integer squared distance. FLT_MAX initialisations become a
  "first element" flag.
- The static `currentTick` counter is the field `EnemyMemory.currentTick`. The gate on the
  snapshot's tick and the increment are part of `Update`; the rest of the gated block is not.
- The `unitPositionsAt*Tick` arrays are inputs to Move: `lastTick` and `curTick`.
- The world map is an explicit argument of every function that reads the global one.
- Entities are assumed to stand on the map with their whole footprint (`WellPlaced`). The
  simulation guarantees this, and the source indexes the map with it unchecked.
- Move: the search range is the INT_MAX default, and the 32-bit wave counter cannot overflow on an
  80 x 80 map, so no wrap-around is modelled.
- Int overflow in squared distances is not modelled. Coordinates are below 80.
