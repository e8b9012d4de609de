# City-builder grid, economy and walker model

A Dafny model of the core of a browser city builder. Players lay roads,
houses and other buildings on a square grid and pay for them from a money
balance. Pedestrians ("walkers") spawn in front of lots and wander the road
network. The model covers:

- the tile grid: cells of `CELL = 6` world units, `"ix:iz"` keys, snapping,
  `align`, four-neighbour road adjacency and the `n/e/s/w` orientation code
  (`constants.dfy`, `tilekeys.dfy`, `placement.dfy`, `grille.dfy`);
- the placement state of `placement.ts`: cursor mode, road piece, quarter-turn
  index and the six occupancy maps, plus the registration and clearing of the
  buildings a server sends (`grille.dfy`);
- the walker simulation of `npc.ts`: the walk / turn / idle state machine,
  the intersection rule, the dead-end reversal, lifetime retirement by a
  backward splice loop, and spawning in front of a lot (`walker.dfy`,
  `npc.dfy`);
- the walkable-surface builder of `pathfinding.ts`: the sidewalk strips of
  each road tile as records, the rebuild, the debounced rebuild timer and the
  null handling of `findPath` (`pathfinding.dfy`);
- the placement economy of the three monolithic clients, `client/src/main.ts`,
  `client/src/main.js` and `client/main.js`: money checks, exclusive occupancy,
  the adjacent-road rule, erase and refund (`economy.dfy`, `main_ts.dfy`,
  `main_js.dfy`, `client_main.dfy`), and the refund/spend popup aggregation
  of main.ts (`popups.dfy`);
- the building catalog map of `catalog.ts` (`catalog.dfy`).

JavaScript `Map`s are modelled by `JsMap.OMap`, a finite map that also keeps
the insertion order. The order matters: `spawnWalker` picks an entry by
index, the navmesh rebuild and the erase search iterate in order. Map keys
are the pair `Key(x, z)`. `TileKeys.KeyRoundTrip` proves that the string
`` `${x}:${z}` `` parses back to the same pair, so keying by the pair is exact.

Inputs from outside the modelled code are parameters:

- every `Math.random()` result is a real in [0, 1) (`Walkers.Draws`, `Walkers.SpawnDraws`);
- `performance.now()` is a parameter `now`, and `setTimeout` timers are due times;
- the set of loaded prefabs is `loaded`, and whether a character model is ready is `charReady`;
- the object the pointer picked is `root`;
- the server's building list, the selected city and the post result are arguments of `Grille.PlaceBuilding`;
- the result of `mergeGeometries` is `merged`, and the path library's answers are arguments of `Pathfinding.Navmesh.FindPath`.

The source compares objects by identity (`m === root`, `d === l`). The model
compares by value. For the erase search this is justified by
`Economy.LocateFindsOwner`: in valid maps every object stands at its own key
and no key is in two maps, so matching by value finds the one entry holding
the object. For the exits of a tile the model uses the labels
`Forward | LeftExit | RightExit`.

Points of the walker code worth knowing, which the model follows:

- `updateWalkers` has no pairwise separation step between walkers.
- A turning walker does not move at all; there is no reduced speed while turning.
- Turn durations lie in [0.38, 0.56).
- `spawnWalker` reads the numbers of the lot key (cell indices) as world
  coordinates and probes around them (`Walkers.FrontProbeCells`). It does not
  look for a road next to the lot's own cell. The model keeps this as written.

## Model

| member | source | states |
|---|---|---|
| Constants.CellIsSix | client/src/constants.ts:1-3 | CELL = STEP = 3·TILE_SIZE = 6, and ANG has four entries |
| Constants.CellIndex | client/src/constants.ts:23 | `floor(v / STEP)` is the index k of the interval [k·STEP, (k+1)·STEP) that holds v |
| Constants.CellIndexUnique | client/src/constants.ts:23 | any k whose interval holds v is the cell index of v |
| Constants.CellIndexOfInt | client/src/constants.ts:23 | on integer coordinates the cell index is floor division by STEP |
| Constants.Align | client/src/constants.ts:23 | `align(v)` is an integer multiple of STEP with align(v) ≤ v < align(v) + STEP |
| Constants.AlignIdempotent | client/src/constants.ts:23 | align(align(v)) == align(v) |
| TileKeys.NatString | client/src/placement.ts:172 | the decimal rendering of a number is a non-empty run of digits |
| TileKeys.KeyRoundTrip | client/src/npc.ts:72 | splitting a rendered key at ":" and reading both numbers gives back the same pair |
| TileKeys.ParseKey | client/src/npc.ts:72 | a string without ":" gives NaN (None); a parsed key's first number is the text before the first ":" |
| TileKeys.KeyStringInjective | client/src/placement.ts:172 | two pairs render to the same key string exactly when they are equal |
| JsMap.OMap.Set | client/src/placement.ts:219 | `set` stores the value, keeps a present key's position and appends a new key at the end |
| JsMap.OMap.Delete | client/src/grille.ts:131-136 | `delete` removes the key, and the new order is the old one without that key; a missing key changes nothing |
| JsMap.WithoutConcat | client/src/grille.ts:131-136 | dropping a key from a concatenation drops it from each part, so the other keys keep their relative order |
| JsMap.OMap.EntryAt | client/src/npc.ts:67-71 | the i-th entry of `[...map.entries()]` is a stored key with its value |
| JsMap.Empty | client/src/placement.ts:32-37 | `new Map()` is valid, empty and of size 0 |
| JsMap.SetThenDelete | client/src/main.ts:572 | setting a new key and then deleting it gives back the same map, order included |
| JsMap.FindKey | client/src/main.ts:555 | a found key holds the value and sits at the first position in insertion order whose value matches; nothing is found exactly when no key holds it |
| JsMap.SearchEntries | client/src/main.ts:555 | the entry loop returns the first key in insertion order whose value matches, as FindKey |
| Placement.ModelFor | client/src/placement.ts:140-151 | a building prefab for the five building kinds, the current road piece for every other kind |
| Placement.NextAngle | client/src/placement.ts:26 | `(a + 1) & 3` lies in 0..3 and is a + 1 modulo 4 |
| Placement.FourTurnsReturn | client/src/placement.ts:25-30 | four `incAngle` steps return the angle index to its start |
| Placement.KeyFromCenter | client/src/placement.ts:166-173 | the key is the cell whose interval holds the point along each axis |
| Placement.KeyFromTile | client/src/placement.ts:174-176 | the key of cell (ix, iz) renders as `ix:iz` |
| Placement.CellPointsShareKey | client/src/placement.ts:166-176 | every point ix·CELL + a, iz·CELL + b with 0 ≤ a, b < CELL has the key of tile (ix, iz) |
| Placement.ShiftedKeys | client/src/placement.ts:177-184 | the four probes ±CELL land on the keys one cell away along one axis |
| Placement.HasAdjacentRoad | client/src/placement.ts:177-184 | true exactly when some road key is a four-neighbour of the point's cell |
| Placement.OwnCellIgnored | client/src/placement.ts:177-184 | setting or deleting the point's own cell does not change the answer |
| Placement.BuildPlacedObject | client/src/placement.ts:136-164 | null exactly when the kind's prefab is not loaded; else userData holds the given cost and kind and the current piece and angle, and the yaw is ANG[angle] |
| Placement.Occupancy.With | client/src/placement.ts:32-37 | replaces one of the six maps and keeps the other five |
| Placement.PlacementState.constructor | client/src/placement.ts:8-10 | starts in pan mode with piece I, angle 0 and six empty maps |
| Placement.PlacementState.SetMode | client/src/placement.ts:13-18 | after `setMode(m)`, `getMode()` returns m |
| Placement.PlacementState.SetPiece | client/src/placement.ts:19-24 | after `setPiece(p)`, `getPiece()` returns p |
| Placement.PlacementState.IncAngle | client/src/placement.ts:25-30 | the angle index stays in 0..3 and becomes NextAngle of the old one |
| Placement.PlacementState.PlaceGeneric | client/src/placement.ts:202-221 | without the prefab: `{ok:false, err:"model"}` and all maps unchanged; else the chosen map gets the new object at the point's key, overwriting any entry, with no other change |
| Grille.WorldToCellIndex | client/src/grille.ts:36-40 | the indices are floor(x/STEP) and floor(z/STEP) |
| Grille.CentreInCell | client/src/grille.ts:42-47 | the centre i·STEP + STEP/2 lies in cell i |
| Grille.SnapToCell | client/src/grille.ts:42-47 | the snap is the centre of the point's cell on the ground and has the same cell indices |
| Grille.SnapIdempotent | client/src/grille.ts:42-47 | snapping a snapped point leaves it unchanged |
| Grille.OrientationOf | client/src/grille.ts:173-176 | `getAngle() & 3` is sent as one of n, e, s, w |
| Grille.OrientationIndex | client/src/grille.ts:84-88 | exactly the four codes n, e, s, w decode, each to an index in 0..3 |
| Grille.OrientationRoundTrip | client/src/grille.ts:84-88 | encoding then decoding gives angle & 3; decoding then encoding gives the code back |
| Grille.ToLower | client/src/grille.ts:99 | upper-case ASCII letters are lowered and every other character is kept |
| Grille.BagForType | client/src/grille.ts:99-112 | each of the six kind names selects its own map, and no other type selects any map |
| Grille.Register | client/src/grille.ts:100-112 | registering keeps all six maps well formed |
| Grille.SeedOne | client/src/grille.ts:76-122 | one loop iteration keeps the maps well formed |
| Grille.SeededObject | client/src/grille.ts:77-95 | no object exactly when the prefab of the building's type is not loaded; otherwise it carries cost 0, the type, the example mark, sits at the centre of cell (x, y), and faces the server's orientation when it is one of n, e, s, w, else the current angle |
| Grille.SeedAll | client/src/grille.ts:76-122 | the whole loop keeps the maps well formed |
| Grille.SeedOneRegisters | client/src/grille.ts:76-122 | without the prefab nothing changes; else the seeded object is appended to the examples and stored under key (x, y) in exactly the map named by its lower-cased type, every other map unchanged |
| Grille.ExampleBuildings.SeedRecord | client/src/grille.ts:77-121 | one pass of the seeding loop changes the examples and the maps as SeedOne says, keeps them well formed and leaves mode, piece and angle alone |
| Grille.DeleteEverywhere | client/src/grille.ts:130-136 | the key is removed from all six maps and nothing else is |
| Grille.ClearAll | client/src/grille.ts:125-146 | clearing keeps all six maps well formed |
| Grille.ClearAllRemovesExampleKeys | client/src/grille.ts:125-146 | clearing removes exactly the examples' cell keys from every map and keeps every other entry |
| Grille.SetIn | client/src/grille.ts:100-111 | `map.set` on one of the six maps, the other maps and the cursor state unchanged |
| Grille.DeleteIn | client/src/grille.ts:130-136 | the six deletes of one key, cursor state unchanged |
| Grille.ExampleBuildings.constructor | client/src/grille.ts:15 | `exampleBuildings` starts empty |
| Grille.ExampleBuildings.SeedExampleBuildings | client/src/grille.ts:76-122 | the registration loop leaves the maps and the examples as SeedAll of the records, in order |
| Grille.ExampleBuildings.ClearExampleBuildings | client/src/grille.ts:125-146 | the delete loop leaves the maps as ClearAll of the examples and the examples empty |
| Grille.PlaceBuilding | client/src/grille.ts:149-197 | no_city exactly without a city; occupied exactly when a listed building has the cell's indices; otherwise the payload carries the cell indices and orientation, and a built object stands at the cell centre with the given cost, which is spent |
| Walkers.PickIndex | client/src/npc.ts:71 | `(Math.random() * n) \| 0` is an index below n |
| Walkers.Left | client/src/npc.ts:247 | left of (dx, dz) is (-dz, dx) |
| Walkers.Right | client/src/npc.ts:248 | right of (dx, dz) is (dz, -dx) |
| Walkers.Back | client/src/npc.ts:288 | back of (dx, dz) is (-dx, -dz) |
| Walkers.TurnsDistinct | client/src/npc.ts:245-248 | forward, left, right and back are four different headings; right undoes left; two lefts make back |
| Walkers.SetupTurn | client/src/npc.ts:169-183 | the walker turns towards the new heading from turnT 0, with a duration in [0.38, 0.56), nothing else changed |
| Walkers.MaybeIdle | client/src/npc.ts:184-194 | only a walking walker with a roll below 0.05 goes idle, with speed 0 and a pause in [1, 3.2); otherwise nothing changes |
| Walkers.Timers | client/src/npc.ts:200-227 | the timers never move the walker or change its tile, life or base speed, and leave a walking walker as it is |
| Walkers.Move | client/src/npc.ts:232-234 | moving changes only the position |
| Walkers.Exits | client/src/npc.ts:245-261 | the exits are exactly those whose next tile is a road, in the order forward, left, right |
| Walkers.Decide | client/src/npc.ts:263-275 | with forward open: left exactly when open and roll < 0.15, right exactly when open and 0.15 ≤ roll < 0.3; without forward: the uniformly picked exit |
| Walkers.Enter | client/src/npc.ts:242-289 | entering a tile never moves the walker, changes its heading, life or base speed; no exit queues a U-turn; a turn from walking goes to an open exit other than forward; a walker that does not turn had forward open |
| Walkers.EdgeCheck | client/src/npc.ts:236-301 | the edge check keeps life and base speed and changes nothing unless a walking walker is past the margin |
| Walkers.NextTile | client/src/npc.ts:239-241 | the next tile is one CELL away along the walking axis, on the side the progress points to |
| Walkers.Tick | client/src/npc.ts:196-319 | one update lowers life by exactly dt |
| Walkers.RoadAtKey | client/src/npc.ts:30-32 | `roadExistsAt(cx, cz)` on integers tests the key (cx / CELL, cz / CELL) |
| Walkers.LifeRunsOut | client/src/npc.ts:314-319 | a walker survives its update exactly when its life exceeds dt |
| Walkers.TurnCompleteUnderInv | client/src/npc.ts:202-206 | for a valid turning walker, `min(1, turnT / turnDur) >= 1` means turnT ≥ turnDur |
| Walkers.TurnComplete | client/src/npc.ts:201-206 | for a non-zero duration it is exactly `Math.min(1, turnT / turnDur) >= 1` |
| Walkers.TurnFinishes | client/src/npc.ts:200-217 | a finished turn adopts the queued heading, recomputes axis and perpendicular, and walks at the base speed; an unfinished one only advances turnT |
| Walkers.IdleFinishes | client/src/npc.ts:218-227 | a finished pause resumes walking at the base speed; an unfinished one only advances idleT |
| Walkers.MovesOnlyWhenWalking | client/src/npc.ts:232-234 | only a walking walker moves, by exactly dir · speed · dt |
| Walkers.DeadEndTurnsBack | client/src/npc.ts:291-299 | with no road ahead the walker keeps its tile, turns towards -dir and is put back at exactly ± ROAD_EDGE_MARGIN |
| Walkers.IntersectionRule | client/src/npc.ts:242-290 | entering a road tile: no exit turns back, a single side exit is taken, several exits turn exactly when the decision is not forward, and idling happens only when continuing forward on a roll below 0.05 |
| Walkers.TimersKeepInv | client/src/npc.ts:200-227 | the timers keep the walker invariant |
| Walkers.EnterKeepsInv | client/src/npc.ts:262-289 | entering a road tile, whether it starts a turn, a pause or a U-turn, keeps the walker invariant |
| Walkers.EdgeCheckKeepsInv | client/src/npc.ts:236-301 | the edge check keeps the walker invariant |
| Walkers.TickKeepsInv | client/src/npc.ts:196-319 | a whole update keeps the walker invariant (axis, perpendicular, speed, turn duration) |
| Walkers.FacingDir | client/src/npc.ts:33-41 | angle 0, 1, 2 and anything else face +z, +x, -z and -x |
| Walkers.FrontCandidates | client/src/npc.ts:42-60 | five probes, the facing direction first |
| Walkers.ChooseFrontRoad | client/src/npc.ts:42-60 | null exactly when none of the five probes is a road; otherwise the first open probe in the order facing, +x, -x, +z, -z |
| Walkers.FrontProbeCells | client/src/npc.ts:42-60 | the probes around lot numbers (ix, iz) look at the cells next to (ix / CELL, iz / CELL) |
| Walkers.NewWalker | client/src/npc.ts:97-154 | a new walker walks at speed == baseSpeed in [0.6, 1.2), lives [45, 100), heads along the front road to one side, and stands FRONT_OFFSET from the lot on the front road's tile |
| Walkers.SpawnedWalker | client/src/npc.ts:62-82 | no walker at the cap of 40, with an empty chosen map or without a character; any walker spawned satisfies the invariant and stands on a road tile |
| Walkers.SpawnUsesLot | client/src/npc.ts:66-74 | a spawned walker comes from a lot of the chosen map and that lot's first open front road |
| Npc.Survivors | client/src/npc.ts:196-320 | the survivors are no more than the walkers, and all have positive life |
| Npc.SurvivorsAppend | client/src/npc.ts:196-320 | survivors of a concatenation are the concatenation of the survivors, so order is kept |
| Npc.SurvivorsCount | client/src/npc.ts:314-319 | exactly the walkers whose life exceeds dt survive, each as its own update |
| Npc.SurvivorsKeepInv | client/src/npc.ts:196-320 | every survivor keeps the walker invariant |
| Npc.AfterSpawn | client/src/npc.ts:62-65 | a spawn appends at most one walker and none at the cap |
| Npc.NpcState.constructor | client/src/npc.ts:9-13 | no walkers, first spawn three seconds after `now` |
| Npc.NpcState.SpawnWalker | client/src/npc.ts:62-155 | pushes the walker the spawn rules produce, keeping at most 40 valid walkers |
| Npc.NpcState.RemoveAll | client/src/npc.ts:158-163 | the backward splice loop removes every walker |
| Npc.NpcState.TickAll | client/src/npc.ts:196-320 | the backward update-and-splice loop leaves exactly the survivors in their order |
| Npc.NpcState.UpdateWalkers | client/src/npc.ts:157-327 | with no houses all walkers go; dt ≤ 0 changes nothing; else survivors, then one spawn attempt and the next spawn 1200 to 5000 ms later once `now` reaches the spawn time; at most 40 valid walkers always |
| Pathfinding.SidewalkCenterOffset | client/src/pathfinding.ts:17-19 | the offset is 0.38·CELL, half the drive width plus half a sidewalk |
| Pathfinding.StraightSidewalks | client/src/pathfinding.ts:31-36 | two strips of length CELL and sidewalk width at the tile centre, at +off and -off |
| Pathfinding.CornerSidewalks | client/src/pathfinding.ts:38-47 | the straight pairs at yaw and yaw + 90°, then one sidewalk-width square fill: 5 pieces |
| Pathfinding.CrossSidewalks | client/src/pathfinding.ts:49-58 | the straight pairs at yaw and yaw + 90°, then one 1.4·sidewalk-width plaza: 5 pieces |
| Pathfinding.YawOf | client/src/pathfinding.ts:69 | `ANG[angleIdx] \|\| 0`: ANG's entry for 0..3, and 0 outside |
| Pathfinding.CentreKeysBack | client/src/pathfinding.ts:64-66 | the centre decoded from a road key lies in that key's cell |
| Pathfinding.TilePatches | client/src/pathfinding.ts:62-73 | an I tile gives 2 strips and L or X gives 5, all at the decoded tile centre |
| Pathfinding.PatchesOf | client/src/pathfinding.ts:60-73 | every road tile adds at least two strips |
| Pathfinding.NoPatchesIffNoRoads | client/src/pathfinding.ts:60-74 | there are no strips exactly when there are no roads |
| Pathfinding.PatchCount | client/src/pathfinding.ts:60-73 | the strip count is 2 per straight tile and 5 per corner or crossing |
| Pathfinding.Navmesh.constructor | client/src/pathfinding.ts:7-9 | no pathfinder and no pending rebuild |
| Pathfinding.Navmesh.RebuildNavmesh | client/src/pathfinding.ts:60-80 | the loop gathers the strips of every road in insertion order; no strips or a failed merge leave no pathfinder |
| Pathfinding.Navmesh.ScheduleNavmeshRebuild | client/src/pathfinding.ts:82-85 | the pending rebuild is replaced by exactly one due `delay` after `now` |
| Pathfinding.Navmesh.Fire | client/src/pathfinding.ts:82-85 | a due timer runs the rebuild once and is cleared; otherwise nothing changes |
| Pathfinding.Navmesh.FindPath | client/src/pathfinding.ts:87-93 | null without a pathfinder or with group -1, null or undefined; otherwise the library's path |
| Economy.KindString | client/src/main.ts:469-470 | the kind recorded is "road", "house" or "building" |
| Economy.Cost | client/src/main.ts:469 | every price is positive |
| Economy.KindStringInjective | client/src/main.ts:470 | different kinds record different kind strings |
| Economy.NextPiece | client/src/main.ts:280 | the cycle always changes the piece |
| Economy.PieceCycle | client/src/main.ts:277-281 | three presses return to the start and two do not |
| Economy.JsRound | client/src/main.ts:577 | `Math.round(x)` is the integer n with n - 0.5 ≤ x < n + 0.5 |
| Economy.JsRoundUnique | client/src/main.ts:577 | that integer is unique |
| Economy.SnapToCell | client/src/main.ts:345-349 | the snap is a multiple of CELL within half a cell of the point |
| Economy.SnapIsNearest | client/src/main.ts:345-349 | no multiple of CELL is nearer to the point than its snap |
| Economy.SnapIdempotent | client/src/main.ts:345-349 | snapping a snapped coordinate leaves it unchanged |
| Economy.KeyAt | client/src/main.ts:480-482 | the key renders as `${wx}:${wz}` |
| Economy.KeyAtInjective | client/src/main.ts:480-482 | two points share a key exactly when they are the same point |
| Economy.HasAdjacentRoadAt | client/src/main.ts:485-492 | true exactly when a road lies one CELL away along one axis; the point itself is not consulted |
| Economy.Maps.With | client/src/main.ts:477-479 | replaces one of the three maps and keeps the other two |
| Economy.NoMaps | client/src/main.ts:477-479 | three empty maps are valid and occupy no key |
| Economy.BuildAt | client/src/main.ts:459-474 | null exactly without the prefab; else the kind's price and kind, the current piece and angle, the yaw ANG[angle] and the snapped position |
| Economy.PlaceOutcome | client/src/main.ts:496-540 | "money" iff money < cost; "occupied" iff affordable and the key is in any map; "no_road" iff also free, not a road and without a neighbouring road; accepted only when every check passed, under the point's key |
| Economy.PlaceKeepsValid | client/src/main.ts:496-540 | an accepted placement keeps the maps valid and disjoint, adds exactly one entry to its kind's map, changes no other map, and leaves money ≥ 0 |
| Economy.StoreKeepsValid | client/src/main.ts:496-540 | storing an object at its own free key keeps the maps valid and disjoint, grows that kind's map by exactly that entry and leaves the other maps alone |
| Economy.LocateRoot | client/src/main.ts:554-558 | a hit names a map and key that hold the object |
| Economy.LocateFindsOwner | client/src/main.ts:554-558 | in valid maps the search finds the object's own map and key |
| Economy.EraseKeepsValid | client/src/main.ts:572 | erasing keeps the maps valid, frees the key everywhere, keeps every other key's occupancy and shrinks the map by one |
| Economy.LocatedCost | client/src/main.ts:554-558 | an object the erase search finds in valid maps has a non-negative recorded cost |
| Economy.HalfRoundsUp | client/src/main.ts:577 | `Math.round(cost * 0.5)` is (cost + 1) / 2 |
| Economy.RefundTsBounds | client/src/main.ts:573-578 | the main.ts refund is between 0 and the cost: the full cost for a road, half rounded up for a house or building |
| Economy.RefundTs | client/src/main.ts:573-578 | the refund lies between 0 and a non-negative cost; for a house or building it is half the cost rounded up, otherwise the full cost |
| Economy.RefundIsRounded | client/src/main.ts:573-577 | the main.ts refund is `Math.round(cost * 0.5)` for a house or building and the full cost otherwise |
| Economy.PlaceThenErase | client/src/main.ts:496-580 | erasing a just-placed object finds it under its key and restores the maps exactly, order included |
| Economy.RoundTripMoney | client/src/main.ts:573-578 | a place/erase round trip in main.ts costs 0 for a road, 600 for a house and 2500 for a building |
| MoneyPopups.Show | client/src/main.ts:142-170 | after a show the aggregate exists and its last time is now |
| MoneyPopups.BurstAggregates | client/src/main.ts:142-170 | amounts each less than 450 ms after the previous show one aggregate holding their sum |
| MoneyPopups.GapStartsFresh | client/src/main.ts:161-169 | an amount 450 ms or more after the last one starts a new aggregate with that amount |
| MoneyPopups.ExpiryNeverDecides | client/src/main.ts:154-158 | with only the live aggregate's timer pending, its expiry never changes what a show does |
| MoneyPopups.AnyDue | client/src/main.ts:155-158 | some pending timer is due by now |
| MoneyPopups.NotDue | client/src/main.ts:155-158 | the timers left are exactly those due after now |
| MoneyPopups.FireDue | client/src/main.ts:156-157 | if any timer is due, the aggregate is dropped; otherwise it is kept |
| MoneyPopups.ShowAsWritten | client/src/main.ts:142-170 | as written, the aggregate after a show has its last time now and a timer 1500 ms later |
| MoneyPopups.NoStaleTimerAgrees | client/src/main.ts:142-170 | with only the live aggregate's own timer pending, the code as written does what Show does |
| MoneyPopups.StaleTimerSplitsBurst | client/src/main.ts:162-169 | refunds at 0, 1000, 1200 and 1600 ms show 1 as written but 3 as intended |
| MainTs.Client.constructor | client/src/main.ts:201 | 200000 money, piece I, angle 0, no error, three empty maps and no popups |
| MainTs.Client.CyclePiece | client/src/main.ts:278-281 | the piece becomes the next in I → L → X → I |
| MainTs.Client.RotateAngle | client/src/main.ts:356 | the angle index becomes `(angleIndex + 1) & 3` and stays in 0..3 |
| MainTs.Client.Store | client/src/main.ts:502 | stores the object in its kind's map |
| MainTs.Client.Place | client/src/main.ts:496-540 | a refusal records PlaceOutcome's error and changes nothing else; an acceptance stores the object, takes exactly its cost, shows it as a spend and clears the error; the state stays valid |
| MainTs.Client.Vet | client/src/main.ts:496-540 | the sequential checks of the place functions give exactly PlaceOutcome's verdict and change nothing |
| MainTs.Client.Commit | client/src/main.ts:496-540 | an accepted placement stores the object in its kind's map, takes the kind's cost, shows it as a spend and clears the error, touching nothing else |
| MainTs.Client.Locate | client/src/main.ts:554-558 | the three entry loops return LocateRoot's hit |
| MainTs.Client.Remove | client/src/main.ts:572 | deletes the hit key from its map and keeps the maps valid and disjoint |
| MainTs.Client.EraseAtPointer | client/src/main.ts:554-580 | not found: nothing changes; found: the key is deleted from its map, the main.ts refund is added and shown when positive; the state stays valid |
| MainTs.Client.DeleteAndRefund | client/src/main.ts:572-579 | the hit key is deleted from its map, the maps stay valid, the refund is added and shown only when positive |
| MainTs.Client.Refund | client/src/main.ts:574-578 | the computed refund is the main.ts refund RefundTs |
| MainTs.Client.Credit | client/src/main.ts:579-580 | the money grows by the refund, and the refund popup is shown only for a positive refund |
| MainJs.Client.constructor | client/src/main.js:81 | 200000 money, piece I, angle 0, no error and three empty maps |
| MainJs.Client.CyclePiece | client/src/main.js:119-123 | the piece becomes the next in I → L → X → I |
| MainJs.Client.RotateAngle | client/src/main.js:167 | the angle index becomes `(angleIndex + 1) & 3` and stays in 0..3 |
| MainJs.Client.Store | client/src/main.js:300 | stores the object in its kind's map |
| MainJs.Client.Place | client/src/main.js:294-338 | a refusal records PlaceOutcome's error and changes nothing else; an acceptance stores the object, takes exactly its cost and clears the error; the state stays valid |
| MainJs.Client.Vet | client/src/main.js:294-338 | the sequential checks of the place functions give exactly PlaceOutcome's verdict and change nothing |
| MainJs.Client.Commit | client/src/main.js:294-338 | an accepted placement stores the object in its kind's map, takes the kind's cost and clears the error |
| MainJs.Client.Locate | client/src/main.js:352-356 | the three entry loops return LocateRoot's hit |
| MainJs.Client.Remove | client/src/main.js:362 | deletes the hit key from its map and keeps the maps valid and disjoint |
| MainJs.Client.EraseAtPointer | client/src/main.js:352-363 | not found: nothing changes; found: the key is deleted from its map and the full recorded cost is refunded |
| MainJs.Client.DeleteAndRefund | client/src/main.js:362-363 | the hit key is deleted from its map, the maps stay valid and the refund is added to the money |
| MainJs.RoundTripRestores | client/src/main.js:294-363 | in main.js a placement followed by the erase of the placed object restores the maps and the money exactly |
| ClientMain.Snap | client/main.js:94 | the snap is the centre of the unit tile holding the coordinate |
| ClientMain.SnapSameTile | client/main.js:94 | two coordinates snap alike exactly when they lie in the same tile |
| ClientMain.SnapIdempotent | client/main.js:94 | snapping a tile centre leaves it unchanged |
| ClientMain.PlaceRoad | client/main.js:123-132 | the state changes exactly when the prefab is loaded, money ≥ 200 and the key is free; then one road is added under the point and 200 is taken |
| ClientMain.EraseRoad | client/main.js:150-156 | not found: nothing changes; found: exactly that key is deleted, every other road is kept with the order of the rest, and its recorded 200 is refunded |
| ClientMain.FindsOwnKey | client/main.js:150 | in a valid state the search finds a road's own key |
| ClientMain.PlaceThenEraseRestores | client/main.js:123-156 | erasing the road just placed restores the money and the map exactly |
| ClientMain.Client.constructor | client/main.js:44 | 200000 money and no roads |
| ClientMain.Client.Place | client/main.js:123-132 | `place` does what PlaceRoad says |
| ClientMain.Client.EraseAtPointer | client/main.js:150-156 | the search loop, delete and refund do what EraseRoad says |
| Catalog.Fill | client/src/catalog.ts:45-47 | the filled map is well formed |
| Catalog.InitMap | client/src/catalog.ts:11-49 | the `forEach` loop builds exactly Fill of the records |
| Catalog.KeysAreListedIds | client/src/catalog.ts:11-49 | the map's keys are exactly the listed ids |
| Catalog.LastRecordWins | client/src/catalog.ts:13-47 | an id maps to the last record listed with it |
| Catalog.StoredUnderOwnId | client/src/catalog.ts:45-47 | every stored record's `id` equals its key |
| Catalog.DistinctIdsFillInOrder | client/src/catalog.ts:45-47 | with distinct ids the map holds one entry per record, in the listed order |
| Catalog.AllBuildingsKeyedById | client/src/catalog.ts:9-50 | `ALL_BUILDINGS` has every listed id as a key, only listed ids, and each key holds a record with that id |

## Left out

- Rendering and three.js: scene, camera, grid helper, cursor and preview meshes, GLB loading and scaling, ground plates, `removeObject`. None of it decides anything.
- DOM and HUD: money display, toasts, popup elements, their text, colour and animation.
- The raycast and the walk up to the root object in every `eraseAtPointer`. The erase is modelled from the picked object on.
- Server I/O: the fetches of `seedExampleBuildings` and `placeBuilding`, their `try`/`catch` paths and the `_id` copied from the server. Only the decisions on the fetched data are modelled.
- Walker geometry and animation: the lateral sway with `Math.sin`, quaternion `slerp` and `lookAt`, animation mixers and `timeScale`, the walker pool, the character and clip pick. A ready character is the parameter `charReady`.
- Walkers.Tick: the position does not include the lateral sway offset.
- `makeStrip` transforms, `mergeGeometries`, `createZone`, `getGroup` and the path search. Their results are parameters.
- Economy.LocateRoot: matches objects by value where the source matches by identity; `Economy.LocateFindsOwner` shows the two agree on valid maps.
- Economy.RefundTs: the `?? 0` fallback for a missing cost is not modelled, because every placed object records its cost; the refund is written with integers, and Economy.RefundIsRounded ties it to `Math.round`. The same holds for `MainJs.Client.EraseAtPointer`.
- Walkers.SpawnedWalker: the `?? 0` fallback for a missing lot angle is not modelled, because every lot records its angle.
- Pathfinding.TilePatches: the `?? 'I'` and `?? 0` fallbacks for a missing piece or angle are not modelled, because every road records both.
- MainTs.Client.Place: the spend popup follows the corrected `MoneyPopups.Show`, not the timers as written (see Findings). The same holds for `MainTs.Client.EraseAtPointer`.
- MainTs.Client.Commit: the spend popup follows the corrected `MoneyPopups.Show`, not the stale-timer code of `showSpend` as written (see Findings).
- MainTs.Client.DeleteAndRefund: the refund popup follows the corrected `MoneyPopups.Show`, not the stale-timer code of `showRefund` as written (see Findings).
- MainTs.Client.Credit: the refund popup follows the corrected `MoneyPopups.Show`, not the stale-timer code of `showRefund` as written (see Findings).
- ClientMain.PointKey: a key is the pair of coordinates itself. This assumes that JavaScript's rendering of a number is injective, which holds for the finite numbers used here.
- Grille.ToLower: lowers ASCII letters only. This is exact for the comparisons with the six lower-case kind names.
- The world y coordinate of placed objects (a rendering lift) is not modelled.
- Catalog: the `stats` of each record are not modelled. That the 24 listed ids are distinct is not proved for the concrete list; `Catalog.DistinctIdsFillInOrder` states what follows from it, and `Catalog.AllBuildingsKeyedById` states what holds of `ALL_BUILDINGS` without it.
- Catalog.BuildingType: the `BuildingClass` enumeration has no `Roads` or `Industrial` member, so those records have no class (None).
- The zoom and z-layer constants of `constants.ts` only serve rendering.

## Findings

| source | as written | input that shows it | evidently intended | confidence | as-written member | corrected member |
|---|---|---|---|---|---|---|
| client/src/main.ts:142-170 (and showSpend, 172-198) | starting a new aggregate does not cancel the previous aggregate's timer; when that timer fires it sets the variable to null, dropping the newer aggregate | refunds of 1 at 0, 1000, 1200 and 1600 ms: the timer armed at 0 fires at 1500 and drops the aggregate started at 1000, so the refund at 1600 starts a new popup showing 1 | the refund at 1600 comes 400 ms after the one at 1200, within the 450 ms window, so it joins the live aggregate, which shows 3 | not executed | MoneyPopups.ShowAsWritten, MoneyPopups.StaleTimerSplitsBurst | MoneyPopups.Show, MoneyPopups.BurstAggregates |
