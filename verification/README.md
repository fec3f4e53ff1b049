# gogame core in Dafny

This project models the core of gogame, a multiplayer voxel game on
spherical planets, written in Go. The model covers:

- the planet's integer grid. Chunks are 16 cells on a side. Near the poles
  and near the core a chunk holds fewer cells.
- the cell and chunk store and its cache. A chunk comes from the local
  SQLite store, from the generator, or from the server over RPC.
- the terrain generators and the default planet systems.
- the low-resolution planet geometry.
- the player rules: spawning with its chunk load, health, chunk loading,
  jumping and falling, and the bookkeeping of a position update.
- the universe's planet table.
- the server's RPC handlers and the client's RPC API.
- the chunk and planet renderers' bookkeeping: which faces are drawn,
  which chunks are dirty, and when the geometry may be drawn.
- the two client key handlers (the current one in pkg/client/input.go and
  the older one in pkg/client/start.go).
- the launcher's profile file and its form.
- the options screen's `options.txt` format.

Each Go source file maps to one Dafny module of the same role:

| module | file | models |
|---|---|---|
| `Wrappers` | wrappers.dfy | `Option` and `Outcome`; `Outcome` is a value or a Go panic with its reason |
| `GoInt` | goint.dfy | Go's truncating `/` and `%`, 64-bit `int` wrap-around, float-to-int truncation |
| `GoStrings` | go_strings.dfy | `strings.Split` and `strings.Join`, `strconv.Atoi`, `%v` of an `int` |
| `Grid` | grid.dfy | chunk and cell indices, the per-chunk resolution, location wrapping |
| `Chunks` | chunks.dfy | a chunk's cell array and the fetch placeholder |
| `Materials` | materials.dfy | the material catalogue and its codes |
| `PlanetStates` | planet_state.dfy | `PlanetState` |
| `Generators` | generators.dfy | the generator table and the default systems |
| `CommonPlanet` | common_planet.dfy | pkg/common/planet.go: the planet, its chunk cache and store |
| `CommonGeometry` | common_geometry.dfy | pkg/common/planet.go: the low-resolution geometry |
| `GeomPlanet` | geom_planet.dfy | pkg/geom/planet.go, the older single-planet variant |
| `ServerPlanet` | server_planet.dfy | server/planet.go, server/rpc.go, pkg/server/rpc.go |
| `ServerStart` | server_start.dfy | pkg/server/start.go |
| `Universe` | universe.dfy | pkg/common/universe.go |
| `Player` | player.dfy | pkg/common/player.go |
| `GeomUtil` | geom_util.dfy | pkg/geom/util.go |
| `SceneChunk` | scene_chunk.dfy | pkg/scene/chunk.go |
| `ScenePlanet` | scene_planet.dfy | pkg/scene/planet.go |
| `ClientRpc` | client_rpc.dfy | pkg/client/rpc.go |
| `Input` | input.dfy | pkg/client/input.go: the key handler over the client's player, its planet and the store |
| `ClientStart` | client_start.dfy | pkg/client/start.go |
| `Launcher` | launcher.dfy | launcher/main.go |
| `Options` | options.dfy | pkg/scene/options.go |

The model is made of pure functions over immutable values:

- The chunk store (the SQLite `chunk` table) is a map from
  (planet, chunk index) to chunk.
- Remote calls are appended to an outbox.
- A call that would panic returns `Panic(reason)`.
- Values the program gets from outside are parameters:
  - the noise function;
  - float products involving pi;
  - the result of a remote call;
  - a raycast hit;
  - the order in which Go iterates over a map.
- Float32 and float64 values are modelled as mathematical reals.
- Integers are unbounded, except where the source's 64-bit width matters
  (`GoInt.Wrap64`).

## Model

| member | source | states |
|---|---|---|
| GoInt.GoDiv | pkg/common/planet.go:351-352 | Go's `/` truncates: the quotient's magnitude is the magnitudes' quotient and its sign is the product of the signs |
| GoInt.GoRem | pkg/common/planet.go:351-353 | Go's `%` is the remainder that goes with the truncated quotient |
| GoInt.GoRemSign | pkg/common/planet.go:351-353 | the remainder is smaller than the divisor and takes the dividend's sign, unlike Dafny's Euclidean `%` |
| GoInt.GoAgreesOnNatural | pkg/common/planet.go:351-353 | on a non-negative cell index Go's operators agree with Dafny's |
| GoInt.GoDiffersOnNegative | pkg/common/planet.go:351-353 | -7 / 2 is -3 remainder -1 in Go, but -4 remainder 1 in Dafny |
| GoInt.Wrap64 | pkg/client/start.go:142-145 | the wrapped value is a 64-bit int congruent to the input modulo 2^64, and equal to it when it already fits |
| GoInt.Trunc | pkg/common/planet.go:62-63 | `int(x)` of a float truncates toward zero |
| Grid.RoundToChunks | pkg/common/planet.go:58 | `n / 16 * 16` is a multiple of 16 within one chunk of `n`, toward zero |
| Grid.CellIndexToChunkIndex | pkg/common/planet.go:287-294 | the chunk index is the floor of each coordinate over 16: the cell lies inside the chunk's 16-cell span on every axis |
| Grid.ChunkInRangeIffCellInRange | pkg/common/planet.go:266-278 | with whole-chunk dimensions, a cell's chunk passes the range checks exactly when the cell is inside the grid |
| Grid.AxisInRange | pkg/common/planet.go:268-276 | one axis of the range check: `0 <= x/16 < cells/16` exactly when `0 <= x < cells` |
| Grid.LonLatCellsInChunkIndex | pkg/common/planet.go:404-428 | a chunk holds 16, 8, 4, 2 or 1 longitude cells and 16, 8 or 4 latitude cells; both divide 16 and longitude never exceeds latitude |
| Grid.ResolutionIsPowerOfTwoSplit | pkg/common/planet.go:404-428 | each count is 16 halved once per rule that holds: two polar rules for longitude, two core rules for both |
| Grid.Beyond80ImpliesBeyond60 | pkg/common/planet.go:410-415 | a band 80 degrees out is also 60 degrees out, so the polar halvings come in order |
| Grid.BandTestsMatchAngle | pkg/common/planet.go:409-415 | the exact integer band tests agree with the source's angle tests on theta |
| Grid.ThetaOffset | pkg/common/planet.go:409 | theta minus 90, times the latitude count, is 90 times the band's doubled offset from the equator |
| Grid.CoarseningExamples | pkg/common/planet.go:410-425 | a band 80 degrees out with no core rule keeps 4 longitude and 16 latitude cells; below an eighth of the radius both counts are quartered |
| Grid.LocalOffsetInChunk | pkg/common/planet.go:342-355 | for an in-range cell the local offset is inside the chunk's array, and the slot it names covers the cell |
| Grid.AxisOffset | pkg/common/planet.go:351-352 | `(x % 16) / (16 / cells)` is below `cells`, and its slot of width `16 / cells` contains `x` |
| Grid.ValidateCellLoc | pkg/common/planet.go:249-257 | latitude and altitude are kept; a longitude already in `[0, LonCells)` is kept; one at or above minus one turn ends in `[0, LonCells)`; one further below gets a single turn added and stays negative |
| Grid.SubtractTurns | pkg/common/planet.go:253-255 | whole turns are subtracted until the longitude is below one turn; one already below is kept |
| Grid.CellLocToNearestCellCenter | pkg/common/planet.go:326-333 | each axis goes to a whole number within half a cell of the wrapped location, ties going up |
| Grid.CellLocToCellIndex | pkg/common/planet.go:297-302 | the cell index's longitude lies in `[0, LonCells)`, and latitude and altitude are the nearest whole cells |
| Chunks.CellAt | pkg/common/planet.go:354 | reading a slot succeeds exactly when the slot exists in the array |
| Chunks.WriteCell | pkg/common/planet.go:216 | a write keeps the array's shape and the waiting flag |
| Chunks.ReadAfterWrite | pkg/common/planet.go:216 | a written slot reads back the new material and every other slot is unchanged |
| Chunks.WriteSameIsIdentity | pkg/common/planet.go:213-216 | writing the material a slot already holds leaves the chunk unchanged |
| Materials.Pos | pkg/common/planet.go:474-481 | `pos` gives the first position holding the value, or -1 exactly when the value is absent |
| Materials.PosFrom | pkg/common/planet.go:475-480 | the search from position `i` finds the first match at or after `i` |
| Materials.MaterialCodes | pkg/common/planet.go:484-534 | each material constant is its name's position in the catalogue: air 0, grass 1, ..., yellow_sand 14 |
| PlanetStates.Ids | pkg/common/planet.go:20-32 | the identifiers of a list of states, position by position |
| CommonPlanet.NewPlanet | pkg/common/planet.go:54-75 | the planet keeps its state apart from the rounded altitude count; AltMin is radius minus AltCells, AltDelta is 1, LatMax is 90; the generator is the named one or the sphere; the cache starts empty |
| CommonPlanet.NewPlanetDims | pkg/common/planet.go:58-63 | every derived dimension is a whole number of chunks, at most the unrounded value |
| CommonPlanet.NewChunk | pkg/common/planet.go:436-465 | the chunk has the resolution's shape, with 16 altitudes; each slot holds the generator's material at the slot's lower corner, or stone below altitude 2 |
| CommonPlanet.NewChunkCoversCell | pkg/common/planet.go:342-355 | a generated chunk's slot for a cell holds the generator's material at the slot's corner |
| CommonPlanet.GetChunk | pkg/common/planet.go:99-198 | only the cache changes; it panics exactly on an in-range synchronous remote miss with no reply; a returned chunk is the one now cached |
| CommonPlanet.CompleteFetch | pkg/common/planet.go:177-182 | the asynchronous reply replaces the cache entry for its index and nothing else |
| CommonPlanet.GetChunkFrame | pkg/common/planet.go:99-198 | only the requested cache entry can change, and an existing one is kept; the store only gains the requested row when it lacked it, on a local planet with a store; at most one GetChunk call is sent, and only with a remote link |
| CommonPlanet.GetChunkNoOp | pkg/common/planet.go:100-117 | out of range, or with a fetch pending, GetChunk returns nil and changes nothing |
| CommonPlanet.GetChunkMemo | pkg/common/planet.go:112-117 | once a chunk has been returned, asking again returns the same chunk and changes nothing |
| CommonPlanet.LocalGetChunkReadsThrough | pkg/common/planet.go:119-171 | without a remote link an in-range request returns a chunk: the cached one, the stored row, or a newly generated chunk that is inserted |
| CommonPlanet.RemoteFetchLifecycle | pkg/common/planet.go:172-185 | an asynchronous remote request returns nil, caches the placeholder and sends one GetChunk; after the reply the chunk is returned |
| CommonPlanet.SyncFetchReturnsNilFirst | pkg/common/planet.go:186-197 | a synchronous remote request caches the fetched chunk but returns nil; the next request returns the chunk |
| CommonPlanet.GetChunkPreserves | pkg/common/planet.go:99-198 | given well-shaped store rows and reply, GetChunk keeps every cached chunk a placeholder or of its index's shape; and every cached chunk stays equal to its store row |
| CommonPlanet.CellIndexToCell | pkg/common/planet.go:342-355 | only the cache changes; a found material is read from the cell's chunk at the cell's local offset |
| CommonPlanet.CellIndexToCellSafe | pkg/common/planet.go:342-355 | with a well-shaped cache and store a lookup never panics, and a cell outside the grid yields nil |
| CommonPlanet.LocalCellIsGenerated | pkg/common/planet.go:342-355 | on a local planet without a store, a cell of an uncached chunk reads the generator's value, or stone below altitude 2 |
| CommonPlanet.SetCellMaterialKeyed | pkg/common/planet.go:208-247 | the edit changes only the planet's cache; the row it updates is keyed by a planet-number parameter |
| CommonPlanet.SetCellMaterialAsWritten | pkg/common/planet.go:208-247 | the source's edit is the keyed edit with planet number 0 in the UPDATE: a changing edit reads back the new material in the cache, writes the chunk into planet 0's row at that index when the store has one, and keeps every other row |
| CommonPlanet.SetCellMaterial | pkg/common/planet.go:208-247 | the corrected edit is the keyed edit with the planet's own identifier, the key GetChunk inserts under (line 157): a changing edit reads back the new material, writes the chunk into the planet's own row when the store has one, and keeps every other row |
| CommonPlanet.SetCellMaterialFootprint | pkg/common/planet.go:208-247 | every successful keyed edit reads back the new material when it changes the cell, writes the chunk only into the row under the given planet number, and keeps every other row |
| CommonPlanet.LookKeepsRows | pkg/common/planet.go:210-212 | the cell lookup that starts an edit keeps every stored row |
| CommonPlanet.EditStore | pkg/common/planet.go:213-244 | a changing edit's cell reads back the new material, and the store is the lookup's store with the keyed row, when present, replaced by the edited chunk |
| CommonPlanet.SetCellMaterialEffects | pkg/common/planet.go:208-224 | the edit returns false exactly when the cell is missing or already holds the material; then it has only the lookup's effects. Otherwise exactly the cell's slot of the cached chunk changes, and one SetCellMaterial call is sent exactly when there is a remote link and `updateServer` is set |
| CommonPlanet.SetCellMaterialKeepsShape | pkg/common/planet.go:208-224 | an edit keeps every cached chunk, its waiting flag and the sizes of its cell arrays |
| CommonPlanet.SetCellMaterialIdempotent | pkg/common/planet.go:213-215 | repeating an edit returns false and changes nothing |
| CommonPlanet.SetCellMaterialPersists | pkg/common/planet.go:225-244 | with the corrected key, an edit keeps every cached chunk equal to its store row, and the row holds the new material |
| CommonPlanet.PersistedAfterWrite | pkg/common/planet.go:239 | writing a cached chunk back to its own row keeps the cache saved |
| CommonPlanet.AsWrittenLosesEdit | pkg/common/planet.go:229 | for a planet whose identifier is not 0, the source's edit changes the cached cell but leaves the planet's own row holding the old material. Planet 0's row at the same index, if any, is overwritten with this chunk |
| CommonPlanet.EditsAgreeWithoutStore | pkg/common/planet.go:225-244 | the as-written and the corrected edit agree on a planet without a store, such as the client's, and on planet 0 |
| CommonGeometry.Surface | pkg/common/planet.go:556-561 | the search stops at the highest altitude at or below the start that is not air, or at 0 |
| CommonGeometry.GenerateGeometry | pkg/common/planet.go:543-567 | 64 columns of 33 rows; each entry is the surface search of its sampled column from the top altitude |
| CommonGeometry.GeometryIsTopmostSolid | pkg/common/planet.go:556-563 | each geometry cell holds the topmost non-air cell of its column, with air everywhere above it |
| CommonGeometry.GeometryHitsPoles | pkg/common/planet.go:551-554 | column 0 samples longitude 0 and latitude 0; the last row samples the far pole |
| CommonGeometry.GetGeometry | pkg/common/planet.go:570-604 | only the planet's geometry changes; it panics exactly on a synchronous remote miss with no reply; a returned geometry is the cached one |
| CommonGeometry.CompleteGeometry | pkg/common/planet.go:581-586 | the asynchronous reply replaces the cached geometry |
| CommonGeometry.GetGeometryMemo | pkg/common/planet.go:571-576 | a geometry once returned, other than the loading marker, is returned again with nothing changed |
| CommonGeometry.RemoteGeometryLifecycle | pkg/common/planet.go:577-591 | an asynchronous remote request returns the loading marker, sends one request, and returns nil until the reply arrives |
| Generators.GeneratorNamed | pkg/common/generators.go:9-62 | the generator table has exactly the entries sphere, rings, bumpy, caves and rocks |
| Generators.GeneratorFor | pkg/common/planet.go:70-73 | an unknown generator type falls back to the sphere generator; a known one is used as is |
| Generators.GeneratorNameRoundTrip | pkg/common/generators.go:9-62 | looking a generator up by the name it is registered under finds it again |
| Generators.Generate | pkg/common/generators.go:11-62 | every generator yields air, stone, grass, yellow block or red block; all but rings yield only air or stone |
| Generators.SphereIsLowerHalf | pkg/common/generators.go:11-16 | with a positive altitude count, sphere is stone exactly below half the height, and air elsewhere |
| Generators.SphereWithoutAltitudes | pkg/common/generators.go:12 | with no altitude cells the quotient is infinite or NaN, so only negative altitudes are stone |
| Generators.RingsLayout | pkg/common/generators.go:18-32 | rings is grass exactly below half the height; above 0.6 of the height it is a yellow or red block exactly on the equator row, yellow only where the noise exceeds 0.1 |
| Generators.QuotientScale | pkg/common/generators.go:12 | for a positive divisor, comparing the quotient with a threshold is comparing the dividend with the scaled threshold |
| Generators.CavesFollowNoiseSign | pkg/common/generators.go:44-52 | with a positive altitude count, caves is stone exactly where the noise is positive |
| Generators.BumpySurface | pkg/common/generators.go:34-42 | bumpy is stone at least four cells below half height and air more than four cells above it |
| Generators.System | pkg/common/generators.go:64-137 | the system table has exactly the entries planet, moon and sun-moon |
| Generators.PlanetSystemWellFormed | pkg/common/generators.go:66-77 | the planet system is well formed with root Spawn: distinct identifiers; every orbit names a member; only the root orbits itself; every member reaches the root; each altitude count equals the radius and is a whole number of chunks |
| Generators.MoonSystemWellFormed | pkg/common/generators.go:79-101 | the moon system is well formed in the same sense, with root Spawn; Moon orbits Spawn |
| Generators.SunMoonSystemWellFormed | pkg/common/generators.go:103-137 | the sun-moon system is well formed with root Sun: Moon orbits Spawn, Spawn orbits the Sun, and only the Sun orbits itself |
| GeomPlanet.NewPlanet | pkg/geom/planet.go:38-53 | AltMin is radius minus the altitude count as given, AltDelta is 1, and the cache starts empty |
| GeomPlanet.NewPlanetDims | pkg/geom/planet.go:42-47 | all three counts are whole chunks within one chunk of their inputs; AltMin matches the rounded count exactly when the given count is a multiple of 16 |
| GeomPlanet.LonCellsInChunkIndex | pkg/geom/planet.go:345-354 | a chunk holds 4, 8 or 16 longitude cells |
| GeomPlanet.LonCellsMatchesCanonical | pkg/geom/planet.go:345-354 | the count depends on the latitude index alone, and equals the canonical planet's longitude count for a chunk away from the core |
| GeomPlanet.NewChunk | pkg/geom/planet.go:362-394 | the chunk is `lonCells x 16 x 16`; a slot is air exactly when its altitude lies above the noise height `(noise + 1) * AltCells / 2` sampled at the slot, and moon or asteroid otherwise |
| GeomPlanet.NewChunkLayers | pkg/geom/planet.go:380-388 | a solid slot is moon rock exactly when its altitude is 8 or below, and asteroid above |
| GeomPlanet.NoiseHeight | pkg/geom/planet.go:378 | noise in [-1, 1] maps onto the altitude range [0, AltCells]: -1 gives the bottom and 1 the top |
| GeomPlanet.CompleteFetch | pkg/geom/planet.go:143-148 | the fetch callback caches the reply under its index, keeps every other cached chunk, and adds only that index |
| GeomPlanet.GetChunk | pkg/geom/planet.go:71-155 | only the cache changes, and a returned chunk is the one now cached |
| GeomPlanet.GetChunkCases | pkg/geom/planet.go:71-155 | out of range or pending: nil and no change. Remote: nil, a placeholder and one fetch, and nil again until it completes. Local: the stored row or a generated chunk, stored when there is a store, and returned unchanged when asked again |
| GeomPlanet.CellIndexToCell | pkg/geom/planet.go:290-302 | only the cache changes; a found material is the cell's slot of its chunk |
| GeomPlanet.LocalOffsetInChunk | pkg/geom/planet.go:290-302 | an in-range cell's local offset lies inside the `lonCells x 16 x 16` array |
| GeomPlanet.SetCellMaterial | pkg/geom/planet.go:164-200 | an edit changes only the planet's cache |
| GeomPlanet.SetCellMaterialProperties | pkg/geom/planet.go:164-200 | the SetCellMaterial call is sent exactly when the edit changes a cell and there is a remote link; the changed cell reads back the new material; repeating the edit returns false and changes nothing |
| ServerPlanet.NewPlanet | server/planet.go:32-44 | AltMin, AltDelta and LatMax are kept; the three counts become whole chunks within one chunk below their inputs; the cache starts empty |
| ServerPlanet.NewChunk | server/planet.go:150-171 | the chunk is always `16 x 16 x 16`, with rock at or below the noise height and air above |
| ServerPlanet.NewChunkBottomIsRock | server/planet.go:160-161 | because the test uses the altitude index inside the chunk, the bottom slot of every chunk is rock, however high the chunk |
| ServerPlanet.GetChunk | server/planet.go:52-70 | it panics exactly on a remote miss whose call fails; otherwise the requested key is cached and only the cache changes; a returned chunk is the cached one |
| ServerPlanet.GetChunkMemo | server/planet.go:52-70 | a second request returns the cached chunk with nothing changed; locally the first request already returns the generated chunk, remotely the first request returns nil |
| ServerPlanet.IndexToChunk | server/planet.go:73-84 | an out-of-bounds location yields nil and changes nothing |
| ServerPlanet.IndexToChunkKey | server/planet.go:74-82 | on whole-chunk dimensions an in-bounds location's chunk key is in range and its chunk holds the location |
| ServerPlanet.IndexToCell | server/planet.go:95-104 | an out-of-bounds location yields nil and changes nothing |
| ServerPlanet.LocalIndexToCellFound | server/planet.go:95-104 | on a local planet every in-bounds location has a cell, and it is rock or air |
| ServerPlanet.IndexToCellCenterIndex | server/planet.go:87-92 | each axis goes to the nearest whole number, ties going up |
| ServerPlanet.HandlerSwapsLatLon | server/rpc.go:13-19 | the handler never fails on a local planet; the reply is the chunk cached under (Lat, Lon, Alt), the transpose of the requested position; when lat and lon differ, the requested key is left untouched |
| ServerPlanet.GetChunkHandler | server/rpc.go:13-19 | on a local planet the handler never fails, changes only the planet's cache, and replies with the chunk cached under (Lat, Lon, Alt) |
| ServerPlanet.RemoteFetchIsTransposed | pkg/server/rpc.go:12-18 | if a remote planet's request for (lon, lat) were answered by Server.GetChunk on a local planet, the answer would be the server's chunk at longitude `lat` and latitude `lon` |
| ServerPlanet.Multiply | server/rpc.go:31-34 | the product wraps to a 64-bit int: congruent modulo 2^64, and exact when it fits |
| ServerPlanet.Divide | server/rpc.go:36-43 | the call fails with "divide by zero" exactly when B is 0 |
| ServerPlanet.DivideLaws | server/rpc.go:40-41 | `Quo * B + Rem = A`, `Rem` is smaller than `B` with A's sign, and `Quo` truncates toward zero; MinInt64 / -1 wraps to MinInt64 with remainder 0; the remainder differs from Dafny's whenever A is negative and B does not divide it |
| ServerPlanet.QuotientFits | server/rpc.go:40 | apart from MinInt64 / -1, the truncated quotient of 64-bit ints fits in 64 bits |
| ServerStart.RowWithId | pkg/server/start.go:22-24 | the lookup `SELECT data FROM planet WHERE id = ?` finds nothing exactly when the table has no row with that id, and otherwise returns a row of the table with that id |
| ServerStart.QueryPlanetState | pkg/server/start.go:21-46 | when the id is stored, the stored state is used and the table is unchanged (or the decode panics); when it is not, the default is returned and inserted as the one new last row |
| ServerStart.QueryPlanetStateIdempotent | pkg/server/start.go:21-46 | a second query with the same default returns the same state and inserts nothing, and a stored state wins over any other default with the same id |
| ServerStart.FirstRowOfAppend | pkg/server/start.go:37-45 | after inserting a row whose id was absent, the lookup by that id finds the inserted row |
| ServerStart.DefaultPlanetState | pkg/server/start.go:68-76 | the default planet is id 0, "Spawn", bumpy, radius 128 with 128 altitude cells, the server's seed and a 300-second day |
| ServerStart.DefaultMoonState | pkg/server/start.go:79-90 | the default moon is id 1, "Moon", sphere, radius 64 with 64 altitude cells, orbiting planet 0 at distance 1000 every 1000 seconds, a 500-second day, the server's seed |
| ServerStart.StartRegistersDefaults | pkg/server/start.go:68-92 | a fresh table ends up holding the planet then the moon, and a restart with any seed reads both back unchanged and stores nothing |
| ServerStart.StartStates | pkg/server/start.go:68-92 | the bootstrap panics exactly when the stored row of planet 0 or planet 1 does not decode; otherwise each state is the stored one or the default, and the table only grows and then has a row for both |
| ServerStart.AppendKeepsRows | pkg/server/start.go:37-45 | inserting a row keeps the lookup of any id the table already had, and a missing id other than the new row's stays missing |
| ServerStart.PrefixKeepsRow | pkg/server/start.go:68-92 | a table that extends another has every id the other has |
| Universe.SavePlanetState | pkg/common/universe.go:73-88 | the insert fails (and panics) exactly when the id is already stored; otherwise the table gains exactly that row at the end |
| Universe.QueryPlanetStates | pkg/common/universe.go:47-71 | the query panics exactly when some row does not decode; otherwise it returns one state per row, in row order, each the row's decoded blob |
| Universe.SaveAllDistinct | pkg/common/universe.go:33-35 | saving states with distinct new ids succeeds and appends exactly their rows, in order, leaving the earlier rows alone |
| Universe.SaveAll | pkg/common/universe.go:33-35 | saving a list panics exactly when some state's id is already stored or repeats an earlier state's; otherwise exactly one row per state is appended, in order |
| Universe.SystemSaves | pkg/common/universe.go:26-35 | a generated system has distinct ids and saves into an empty table without a panic |
| Universe.PlanetMap | pkg/common/universe.go:39-42 | the planet map's keys are exactly the ids of the states |
| Universe.PlanetMapByID | pkg/common/universe.go:39-42 | with distinct ids, each state's planet sits under its own id and carries that state (up to the rounded altitude cell count) |
| Universe.SystemOrDefault | pkg/common/universe.go:26-31 | a known system name gives that system, an unknown one the "planet" system |
| Universe.NewUniverseUsesStored | pkg/common/universe.go:19-45 | a table whose rows all decode is used as it is: nothing is saved and the universe's planets are keyed by the stored ids |
| Universe.NewUniverseGenerates | pkg/common/universe.go:19-45 | on an empty table the chosen system's states are all saved, in order, and each becomes a planet under its id |
| Universe.NewUniverse | pkg/common/universe.go:19-45 | building the universe panics exactly when a stored row does not decode; a non-empty table is kept as it is; afterwards every row holds a state whose planet is in the universe, and every planet has such a row |
| Universe.PersistedStates | pkg/common/universe.go:37-42 | a table whose rows hold exactly the given states agrees with the universe of those states |
| Player.NewPlayer | pkg/common/player.go:62-76 | a new player walks at speed 5 in Normal mode with the given name, slot 0 active, the hotbar shown, render distance 4, hotbar slot i holding material i + 1, and zero health |
| Player.Landing | pkg/common/player.go:93-101 | the landing search stops a whole number of unit steps below its start, at a solid cell or at x <= 0, and every point it stepped past was positive and not solid |
| Player.Spawn | pkg/common/player.go:79-103 | spawning first loads the chunks around the feet synchronously: it panics exactly when the planet has a remote link and some requested on-planet chunk is neither cached nor answered; otherwise health is full, all seven velocities are zero, the player stands 5 above the landing point on the x axis, nothing else about the player changes, the planet changes only in its cache, no chunk is dropped and every nearby on-planet chunk is cached |
| Player.Location | pkg/common/player.go:106-111 | an Apex player is always at (0, 0, 750); any other player is at its stored location |
| Player.SetLocation | pkg/common/player.go:114-118 | setting the location is ignored for an Apex player; otherwise only the location changes, and it then reads back |
| Player.ApexLocationLocked | pkg/common/player.go:106-118 | after any SetLocation the location reads back as the one set, or the Apex point for an Apex player |
| Player.UpdateHealth | pkg/common/player.go:121-129 | when the 64-bit sum of health and amount is not positive the result is Spawn's, load and panic included; otherwise health becomes the sum capped at 10 and nothing else changes; a successful update ends with health in 1..10 |
| Player.UpdateHealthAdds | pkg/common/player.go:121-129 | a change that keeps health within 1..10 adds exactly the amount and changes nothing else, neither the planet nor the store |
| Player.LocalDeathRespawns | pkg/common/player.go:121-125 | on a planet without a remote link a fatal change always respawns: full health, at rest, and every nearby on-planet chunk cached |
| Player.Swivel | pkg/common/player.go:140-146 | the look altitude moves down by a tenth of the mouse's y movement, ends within ±89.9, is exact when that stays in range, and nothing else changes |
| Player.WrapUp | pkg/common/player.go:156-158 | adding the longitude chunk count while negative leaves a non-negative value unchanged and maps a negative one to its residue |
| Player.WrapDown | pkg/common/player.go:159-161 | subtracting the count while at least the count leaves a smaller value unchanged and maps a larger one to its residue |
| Player.WrapLon | pkg/common/player.go:155-161 | the two loops together give the residue of the longitude modulo the chunk count, within 0..count-1 |
| Player.AltColumn | pkg/common/player.go:166-168 | the altitude loop requests exactly the chunks of one column from the given altitude up to the top |
| Player.LatSweepMembers | pkg/common/player.go:165-169 | the latitude loop requests exactly one longitude's chunks at latitudes in the range and every altitude |
| Player.LatSweep | pkg/common/player.go:165-169 | the latitude loop makes one request per latitude in the range and altitude |
| Player.LonSweepMembers | pkg/common/player.go:154-169 | the longitude loop requests exactly the chunks whose longitude is a wrapped value of the range, with latitudes and altitudes in range |
| Player.LonSweep | pkg/common/player.go:154-169 | the longitude loop makes one request per longitude step, latitude and altitude, a wrapped longitude counting once per step |
| Player.NearbyChunksAre | pkg/common/player.go:149-170 | LoadNearbyChunks requests exactly the chunks within the render distance in longitude (wrapped around the planet) and latitude (clamped to the planet), at every altitude |
| Player.NearbyChunks | pkg/common/player.go:149-170 | LoadNearbyChunks makes `2 * renderDistance + 1` longitude steps, each over the clamped latitudes and every altitude, so a longitude the wrap reaches twice is requested twice |
| Player.LoadChunks | pkg/common/player.go:167 | loading chunks changes nothing about the planet but its chunk cache |
| Player.LoadChunksCaches | pkg/common/player.go:149-170 | after a successful load every requested on-planet chunk is in the cache, and every chunk cached before is still there, unchanged |
| Player.LoadNeverFails | pkg/common/player.go:175 | a load never fails when it is asynchronous, as UpdatePosition's is, or when the planet has no remote link |
| Player.SyncLoadFails | pkg/common/player.go:93 | a synchronous load on a planet with a remote link panics exactly when some request is on the planet, not cached, not asked earlier in the same load, and unanswered |
| Player.ClampStep | pkg/common/player.go:176-178 | the time step is at most 0.05 and is unchanged when it is already |
| Player.JumpFall | pkg/common/player.go:183-193 | a falling player speeds downwards by 20 times the step; a standing player holding jump and not yet jumping takes off at 7; otherwise the fall velocity and the jump flag are cleared; nothing else changes |
| Player.JumpOnce | pkg/common/player.go:186-192 | holding jump while standing takes off once, and the next standing step clears the jump before another take-off |
| Player.UpdatePosition | pkg/common/player.go:173-229 | the asynchronous load comes first, so every nearby on-planet chunk is cached, none is dropped and only the cache changes; in Normal mode the feet cell is then looked up on the loaded planet, and the update panics exactly when that lookup does; the jump/fall rule uses "no cell or air" from that lookup; a Normal or Flying player not at the Apex takes the moved location while other modes and the Apex stay put; the focus cell is the ray's hit or (0, 0, 0); nothing else about the player changes |
| Player.Ground | pkg/common/player.go:174-186 | the planet-reading part of the update: the load, then in Normal mode the feet lookup, which gives the falling flag and the planet afterwards and panics exactly when the lookup does; other modes never fall and never panic |
| Player.FailedFetchFeetPanics | pkg/common/player.go:183-185 | once a failed fetch has left an empty chunk at the feet, the next Normal-mode update panics |
| Player.PendingFetchFalls | pkg/common/player.go:183-187 | while the feet chunk is still being fetched, a Normal-mode update succeeds and the player falls |
| Player.LoadNearbyAsync | pkg/common/player.go:175 | the asynchronous load around a chunk caches every nearby on-planet chunk, drops or changes none already cached, and changes only the cache |
| Player.MovePlayer | pkg/common/player.go:182-228 | the player's part of a position update: the location by mode, the focus cell, and the jump/fall rule in Normal mode, and nothing else |
| Player.ApexStaysPut | pkg/common/player.go:106-118 | after a successful position update an Apex player still reads the Apex point and keeps its stored location |
| Player.UpdateIgnoresGeometry | pkg/common/player.go:173-229 | two updates of the same state that differ only in the movement and the ray both panic or both succeed, and then agree on everything else, the planet and the store included |
| GeomUtil.Min | pkg/geom/util.go:21-26 | the result is one of the two and no larger than either |
| GeomUtil.Max | pkg/geom/util.go:29-34 | the result is one of the two and no smaller than either |
| GeomUtil.MinMaxLaws | pkg/geom/util.go:21-34 | Min and Max are idempotent and commutative, Min <= Max, and together they return both arguments |
| GeomUtil.ClampInRange | pkg/geom/util.go:21-34 | clamping with Max then Min lands inside a non-empty range and keeps a value already inside it |
| GeomUtil.ProjectToPlane | pkg/geom/util.go:12-18 | the zero vector is returned as it is; any other vector loses exactly its component along the normal |
| GeomUtil.ProjectToPlaneIsOrthogonal | pkg/geom/util.go:12-18 | with the true component along a unit normal, the projected vector is orthogonal to the normal |
| SceneChunk.Cell | pkg/scene/chunk.go:148 | a cell read succeeds exactly when the chunk has that slot, and then yields the cell's material; otherwise it is Go's index panic |
| SceneChunk.HasAirAlt | pkg/scene/chunk.go:98-114 | a vertical neighbour without cells divides by zero, and a yes always comes from an air cell of the neighbour at the asked altitude |
| SceneChunk.FaceVisible | pkg/scene/chunk.go:149-186 | a face toward a cell inside the chunk is visible exactly when that cell is air, and the test panics exactly when the chunk lacks the cell |
| SceneChunk.CountFaces | pkg/scene/chunk.go:140-189 | a completed count is at most six faces per visited cell |
| SceneChunk.BlockHasAirMeansAir | pkg/scene/chunk.go:105-112 | on a block inside the neighbour chunk the nested search cannot panic and answers whether an air cell lies ahead of it |
| SceneChunk.AirAheadOfBlock | pkg/scene/chunk.go:105-112 | from the start of a block, the cells still ahead are the whole block |
| SceneChunk.HasAirAltCoarse | pkg/scene/chunk.go:99-103 | a vertical neighbour no finer than this chunk answers with its covering cell `[lon / f][lat / g]` when that cell exists |
| SceneChunk.HasAirAltFine | pkg/scene/chunk.go:104-113 | a vertical neighbour finer on both axes answers whether any cell of the block covering (lon, lat) is air |
| SceneChunk.HasAirAltEmptyPanics | pkg/scene/chunk.go:99-101 | a neighbour without cells makes hasAirAlt divide by zero |
| SceneChunk.HasAirLat | pkg/scene/chunk.go:116-119 | a latitude neighbour with a different latitude cell count panics with the source's message |
| SceneChunk.HasAirLon | pkg/scene/chunk.go:133-138 | a longitude neighbour panics with the source's message exactly when its dimensions differ, and otherwise its own cell answers |
| SceneChunk.FaceVisibleRules | pkg/scene/chunk.go:149-186 | inside the chunk a face is emitted exactly when the adjacent cell is air; at the boundary with no neighbour only the top face of the topmost chunk and the bottom face of chunk 0 are emitted, and those always are unless the neighbour check panics |
| SceneChunk.CellFaces | pkg/scene/chunk.go:148-186 | a cell yields at most six faces |
| SceneChunk.AirHasNoFaces | pkg/scene/chunk.go:148-149 | an air cell yields no faces |
| SceneChunk.FacePanicIsCellPanic | pkg/scene/chunk.go:149-186 | a panic in any face test of a solid cell is a panic of that cell |
| SceneChunk.AltRun | pkg/scene/chunk.go:142 | the altitude loop visits exactly the altitudes from its start to the chunk top |
| SceneChunk.CellOrderCovers | pkg/scene/chunk.go:140-142 | the three nested loops visit every cell of the chunk at its resolution, and only those |
| SceneChunk.CountFacesPanics | pkg/scene/chunk.go:140-189 | the face count panics exactly when some visited cell does, and is otherwise at most six per cell |
| SceneChunk.ApplyFaces | pkg/scene/chunk.go:190-196 | the triangle count is the vertex count of the faces, and the geometry is marked updated once a count is positive |
| SceneChunk.EnvWith | pkg/scene/chunk.go:79-95 | the neighbours are looked up at the six adjacent keys, and building them panics exactly when the planet has no whole longitude chunk (`% lonChunks` by zero) |
| SceneChunk.EnvAsWritten | pkg/scene/chunk.go:79-95 | as written, every key present in the chunk map counts as a neighbour, placeholders included |
| SceneChunk.EnvOf | pkg/scene/chunk.go:79-95 | corrected, a chunk still waiting for its data is no neighbour |
| SceneChunk.AdjacentInverse | pkg/scene/chunk.go:88-95 | on the ring of longitude chunks, stepping to a neighbour and back returns to the start and stays on the ring |
| SceneChunk.AdjacentSeesBack | pkg/scene/chunk.go:79-95 | the chunk next to a key sees that key as its neighbour in the opposite direction |
| SceneChunk.LonNeighboursWrap | pkg/scene/chunk.go:88-95 | the next longitude neighbour is `(lon + 1) mod lonChunks` and the one before chunk 0 is the last chunk |
| SceneChunk.UpdateGeometryAsWritten | pkg/scene/chunk.go:70-197 | as written, updateGeometry panics on a planet with no whole longitude chunk, and marks the geometry updated only with a positive count |
| SceneChunk.PlaceholderNeighbourPanics | pkg/scene/chunk.go:79-101 | as written, a pending placeholder above a chunk with a solid top-layer cell makes updateGeometry divide by zero |
| SceneChunk.UpdateGeometry | pkg/scene/chunk.go:70-197 | the corrected updateGeometry panics on a planet with no whole longitude chunk, and marks the geometry updated only with a positive count |
| SceneChunk.WaitingNeighbourIsAbsent | pkg/scene/chunk.go:79-83 | corrected, a waiting neighbour above leaves the top face to the topmost-chunk rule, as if that neighbour were absent |
| ScenePlanet.NewPlanetRenderer | pkg/scene/planet.go:37-173 | a new renderer has no chunk renderers and no strip yet, and its planet is the given one with its geometry requested (a present geometry is kept and nothing else changes) |
| ScenePlanet.MarkEachEffect | pkg/scene/planet.go:183-235 | marking keeps the set of renderers and turns off `geometryUpdated` on exactly the targets that have a renderer |
| ScenePlanet.NeighboursAreDirty | pkg/scene/planet.go:191-235 | the chunk and the neighbours the edge tests mark are exactly those across each face the edited cell lies on |
| ScenePlanet.EditKeepsChunks | pkg/scene/planet.go:176 | the common planet's edit, as written, keeps every cached chunk, its waiting flag and the sizes of its cell arrays |
| ScenePlanet.SetCellMaterial | pkg/scene/planet.go:175-236 | the renderer's edit calls the common planet's edit as written; when that fails the renderer fails; otherwise the renderer holds the edited planet and store, with the same renderers and strip, and keeps its invariant |
| ScenePlanet.MarkEdited | pkg/scene/planet.go:177-236 | with no renderer for the edited chunk nothing happens; otherwise the edited chunk's renderer is marked, the planet, the strip and the set of renderers are kept, and so is the invariant |
| ScenePlanet.MarkEditedMarksDirty | pkg/scene/planet.go:178-236 | after an edit, exactly the renderers of the edited chunk and of the neighbours across the faces the cell lies on are marked, the others, the planet and the strip keep their state, and no renderer appears or disappears; a missing renderer leaves them all alone |
| ScenePlanet.SetCellMaterialMarksDirty | pkg/scene/planet.go:176-236 | an edit (the common planet's, as written) makes the planet the edited one, keeps the strip and the set of renderers, and its marking is the one described for MarkEditedMarksDirty |
| ScenePlanet.DirtyNeighboursSeeTheEdit | pkg/scene/planet.go:191-235 | every neighbour an edit marks is one whose face culling reads the edited chunk across the opposite face |
| ScenePlanet.ChunkTurnSettles | pkg/scene/planet.go:305-311 | a chunk's second turn in Draw, on the renderer its first produced, gives the same renderer; this holds for the source's updateGeometry (build AsWritten) and for the corrected one alike |
| ScenePlanet.DrawLoopIsOrderFree | pkg/scene/planet.go:301-313 | whatever order the map is iterated in, the loop panics exactly when the order-free draw does and otherwise yields the same renderers |
| ScenePlanet.DrawAllIsIdempotent | pkg/scene/planet.go:301-313 | with settling turns, drawing again after a successful draw changes no renderer |
| ScenePlanet.DrawChunksPanics | pkg/scene/planet.go:301-313 | a draw over every chunk panics exactly when some chunk with data has a turn that panics, whatever the map's iteration order; with build AsWritten this is the source's loop, whose turns also panic on a placeholder neighbour |
| ScenePlanet.DrawChunks | pkg/scene/planet.go:300-313 | the chunk loop, with the source's updateGeometry under build AsWritten: a draw never changes the planet or the strip, drops no renderer, and adds renderers only for chunks with data, so the invariant is kept |
| ScenePlanet.DrawChunksEffect | pkg/scene/planet.go:301-313 | in either build (AsWritten being the source's), a successful draw gives every chunk with data a renderer equal to its chunk's turn, leaves up-to-date renderers untouched, keeps the renderer invariant, and a second draw is a no-op |
| ScenePlanet.StripsCount | pkg/scene/planet.go:341-346 | the surface strip holds two vertices per longitude column and latitude interval, and panics exactly when a point it reads is missing |
| ScenePlanet.Strips | pkg/scene/planet.go:341-346 | a completed strip has two vertices per longitude column and latitude interval |
| ScenePlanet.UpdatePlanetGeometry | pkg/scene/planet.go:317-355 | a nil geometry is a nil dereference and an empty one an index panic; otherwise the update succeeds exactly when every point it reads is readable, marks the strip built with two vertices per column and latitude interval, and changes nothing else |
| ScenePlanet.DrawGeometryAsWritten | pkg/scene/planet.go:357-371 | as written, a strip not yet built is rebuilt before the nil/loading check, so a missing or empty geometry panics; a successful draw keeps the planet and marks the strip built |
| ScenePlanet.DrawWhileLoadingPanics | pkg/scene/planet.go:357-366 | as written, the first draw of a remote planet whose geometry is still loading panics on the empty altitude array, while the corrected draw waits |
| ScenePlanet.DrawGeometry | pkg/scene/planet.go:357-366 | corrected, nothing happens while the geometry is missing or loading |
| ScenePlanet.DrawGeometryOnceLoaded | pkg/scene/planet.go:317-371 | once the geometry has arrived the two versions agree, the strip has two vertices per column and latitude interval, and a second draw changes nothing |
| ScenePlanet.GeneratedGeometryDraws | pkg/scene/planet.go:317-355 | a local planet's generated 64 by 33 geometry draws as a strip of 4096 vertices |
| ScenePlanet.Draw | pkg/scene/planet.go:257-315 | as written: the player's own planet runs the chunk loop with the source's updateGeometry, and any other planet runs drawGeometry as written; the planet itself is never changed |
| ScenePlanet.DrawCorrected | pkg/scene/planet.go:285-313 | the corrected draw: the chunk loop treats placeholder neighbours as absent, and another planet's strip waits for its geometry; the planet itself is never changed |
| ScenePlanet.DrawLoadingPlanetPanics | pkg/scene/planet.go:285-291 | drawing a remote planet that is not the player's while its geometry is still loading panics as written, and leaves the renderer unchanged when corrected |
| ScenePlanet.DrawPlaceholderNeighbourPanics | pkg/scene/planet.go:300-313 | as written, drawing the player's planet panics when a chunk with data whose renderer is out of date has a solid top-layer cell under a placeholder, whatever the map's order |
| ClientRpc.SetCellMaterial | pkg/client/rpc.go:17-20 | the call succeeds exactly when the planet's edit does, replies with the planet's "changed" flag, and leaves the person and the roster alone |
| ClientRpc.SetCellMaterialTwice | pkg/client/rpc.go:17-20 | pushing the same edit again replies "unchanged" and changes nothing |
| ClientRpc.GetPersonState | pkg/client/rpc.go:23-27 | the reply carries the local person's name and location and keeps the caller's look direction |
| ClientRpc.WithoutMembers | pkg/client/rpc.go:33-38 | the filter keeps exactly the entries under other names |
| ClientRpc.WithoutAbsentName | pkg/client/rpc.go:33-38 | removing a name nobody has changes nothing |
| ClientRpc.WithoutKeepsDistinct | pkg/client/rpc.go:33-39 | removing keeps the remaining names distinct |
| ClientRpc.PersonDisconnected | pkg/client/rpc.go:30-41 | the roster keeps exactly the entries under other names, in order, and the reply is true exactly when one is left |
| ClientRpc.FirstNamed | pkg/client/rpc.go:49-55 | the search finds nothing exactly when no entry has the name, and otherwise an entry with it |
| ClientRpc.UpdatePersonState | pkg/client/rpc.go:44-61 | the local person's own name is ignored; the first entry with the name takes the new position and look direction, no earlier entry has that name, and no other entry changes; a new name is appended |
| ClientRpc.UpdateKeepsNamesDistinct | pkg/client/rpc.go:44-61 | updates keep the roster's names distinct, and the updated name is then listed with the state's position and look direction |
| ClientRpc.OwnStateIgnored | pkg/client/rpc.go:23-27 | the local person's own state, as GetPersonState reports it, never enters the roster |
| ClientRpc.DisconnectUndoesJoin | pkg/client/rpc.go:30-61 | disconnecting a name that an update just added restores the roster |
| Input.SlotOf | pkg/client/input.go:66-95 | exactly the digit keys, Minus and Equal select a hotbar slot, and every slot selected is one of the 12 |
| Input.SendText | pkg/client/input.go:44-59 | "enter" sends the buffer, clears it and leaves chat mode; "delete" drops the buffer's last character and does nothing on an empty buffer; any other text is appended |
| Input.TextOf | pkg/client/input.go:216-295 | in chat mode letters, digits and space type text and no other key does; only Enter sends, Delete and Backspace both delete, and a letter types itself |
| Input.AssignHits | pkg/client/input.go:100-110 | the assignment loop keeps the hotbar's length |
| Input.LastPointed | pkg/client/input.go:100-110 | the last pointed material is pointed, in range, and no later material is pointed; none means no material in range is |
| Input.LastPointedFrom | pkg/client/input.go:100-110 | the last pointed material of a range is that of the range without its lowest element, or else that element when it is pointed |
| Input.AssignHitsKeepsLast | pkg/client/input.go:96-111 | the slot ends up holding the last material under the cursor and is left alone when there is none |
| Input.CommandPress | pkg/client/input.go:115-192 | a command press keeps the hotbar, the name, the planet, the store and the handler's well-formedness |
| Input.NextMode | pkg/client/input.go:182-189 | M advances the game mode by one modulo the number of modes, entering Flying stops the fall, and nothing else changes |
| Input.CommandRelease | pkg/client/input.go:193-208 | a release touches only the jump hold and the six movement velocities, never the cursor or the outbox |
| Input.ChatPress | pkg/client/input.go:211-298 | a chat-mode press touches only the chat flag and the text buffer |
| Input.KeyCallback | pkg/client/input.go:61-300 | only the O press can fail (its respawn's load); otherwise the handler keeps the player's name and the hotbar's 12 slots |
| Input.Respawned | pkg/client/input.go:62-64 | the O key's respawn fails exactly when Spawn does and otherwise takes Spawn's player, planet and store |
| Input.Dispatch | pkg/client/input.go:65-299 | the handler after the O key keeps the name, the planet, the store and the well-formedness |
| Input.CommandKey | pkg/client/input.go:113-192 | outside chat mode a press of any key but O and the inventory's slot keys is a command press |
| Input.PressStarts | pkg/client/input.go:117-181 | outside chat mode W, S, D and A set the forward, back, right and left velocity to the walking speed; with the cursor grabbed Space holds jump in Normal mode and sets the up velocity otherwise, and Left Shift sets the down velocity in Flying mode; nothing else changes |
| Input.ReleaseUndoesPress | pkg/client/input.go:174-207 | at rest outside chat mode, pressing and releasing W, S, D or A restores the client |
| Input.Run | pkg/client/input.go:61-300 | a run of events keeps the hotbar's 12 slots, and never fails when no event is an O press |
| Input.TypeAll | pkg/client/input.go:236-287 | one key press per letter |
| Input.PressOSpawns | pkg/client/input.go:62-64 | pressing O fails exactly when Spawn's load does; otherwise the player respawns in any mode, at full health, at rest, with Spawn's location, planet and store, and in chat mode it also types "o" |
| Input.TypingAppends | pkg/client/input.go:211-287 | in chat mode, typing a word without O appends exactly that word to the buffer and changes nothing else |
| Input.SendWord | pkg/client/input.go:44-51 | typing a word and pressing Enter sends the old buffer followed by the word, then clears the buffer and leaves chat mode |
| Input.RunAppend | pkg/client/input.go:61-300 | handling two runs of events one after the other is handling their concatenation, a failure in the first ending the whole |
| Input.DeleteUndoesTyping | pkg/client/input.go:52-55 | in chat mode Backspace undoes a typed key, and does nothing on an empty buffer |
| Input.ModeCycles | pkg/client/input.go:182-189 | M moves to the next game mode, entering Flying stops the fall, and two presses come back to the start |
| Input.SlotKeysSelect | pkg/client/input.go:129-152 | outside chat mode the keys 1-9, 0, - and = select slots 0-11 |
| Input.InventoryAssigns | pkg/client/input.go:65-112 | in the inventory a slot key writes the last pointed material into that slot |
| Input.Toggles | pkg/client/input.go:153-173 | E opens the inventory (showing the hotbar and freeing the cursor) and closes it (grabbing the cursor); H toggles the hotbar and a second H restores everything; T enters chat mode |
| Input.ReleaseStops | pkg/client/input.go:193-208 | outside chat mode, releasing a movement key stops that movement (Space also ends the jump hold); in chat mode a release does nothing |
| Input.MovementNeedsGrab | pkg/client/input.go:117-128 | with the cursor free, Space and Left Shift change nothing |
| ClientStart.NewPerson | pkg/client/person.go:35-44 | a new person walks at speed 5 from (55, 0, 0) in Normal mode, at rest, not jumping, looking at the horizon |
| ClientStart.StartSession | pkg/client/start.go:70-72 | the session starts with the cursor grabbed, no last cursor position and a new person |
| ClientStart.NextMode | pkg/client/start.go:141-145 | M advances the mode by one (a 64-bit increment) modulo the number of modes, and the result is always below that number |
| ClientStart.Press | pkg/client/start.go:121-149 | a press keeps the game mode a 64-bit int and the last cursor position; only M changes the mode, and the cursor stays grabbed exactly when the key is not Escape |
| ClientStart.Release | pkg/client/start.go:150-165 | a release leaves the cursor state and the game mode alone |
| ClientStart.KeyCallback | pkg/client/start.go:116-167 | while the cursor is free every key is ignored, and no key touches the last cursor position |
| ClientStart.ModeAndGrab | pkg/client/start.go:116-218 | with the cursor grabbed, M cycles through the modes and two presses come back; Escape frees the cursor, every key is then ignored, and a mouse press grabs it again |
| ClientStart.ReleaseStops | pkg/client/start.go:150-165 | with the cursor grabbed, releasing a movement key stops that movement, and Space also ends the jump hold |
| ClientStart.PressStarts | pkg/client/start.go:121-140 | with the cursor grabbed, W, S, D and A set the forward, back, right and left velocity to the walking speed; Space holds jump in Normal mode and sets the up velocity otherwise; Left Shift sets the down velocity in Flying mode and is ignored otherwise; nothing else changes |
| ClientStart.ReleaseUndoesPress | pkg/client/start.go:121-165 | with the cursor grabbed and the person at rest, pressing and releasing W, S, D or A restores the session |
| ClientStart.ClampLook | pkg/client/start.go:112 | the look altitude is clamped to ±89.9: unchanged inside, the nearer bound outside |
| ClientStart.CursorPos | pkg/client/start.go:97-114 | a free cursor forgets the last position; a grabbed one records the new position and keeps the look altitude within ±89.9, changing nothing else about the person |
| ClientStart.CursorTilt | pkg/client/start.go:103-113 | the first move after a grab only records the position, and a move within the clamp range tilts the view by exactly a tenth of the y movement |
| ClientStart.MouseButton | pkg/client/start.go:212-217 | any press on a free cursor grabs it; otherwise the session is unchanged |
| ClientStart.SweepWrapsAndClamps | pkg/client/start.go:286-303 | the frame's sweep requests exactly the chunks within the render distance of the feet chunk, longitudes wrapped and latitudes clamped to the planet, at every altitude |
| ClientStart.Sweep | pkg/client/start.go:288-303 | the sweep makes nine longitude steps (render distance 4 each way), each over the clamped latitudes and every altitude, so a longitude the wrap reaches twice is requested twice |
| ClientStart.LoadAll | pkg/client/start.go:300 | the requests change nothing about the planet but its chunk cache |
| ClientStart.LoadAllCaches | pkg/client/start.go:286-303 | after the sweep every requested on-planet chunk is cached and no cached chunk was dropped |
| ClientStart.FrameFall | pkg/client/start.go:305-314 | falling speeds the person downwards by 20 times the frame time; standing while holding jump takes off at 7 once; otherwise the fall and the jump are cleared |
| ClientStart.FrameFallIsUncapped | pkg/client/start.go:305-307 | unlike the later player code, a one-second frame adds a full 20 to the fall speed rather than 1 |
| ClientStart.Frame | pkg/client/start.go:273-333 | a free cursor freezes the world. In Normal mode the feet cell is looked up first, and the frame panics exactly when that lookup does (a fetched chunk without cells); the person falls exactly when the cell is missing or air, the jump/fall rule applies, and the person takes the moved location; the sweep's requests follow the lookup's in the outbox, no cached chunk is dropped and every on-planet sweep chunk is cached. In Flying mode only the location changes; in every other mode nothing does |
| ClientStart.NormalFrame | pkg/client/start.go:286-328 | after the feet lookup, the Normal-mode step applies the jump/fall rule to the looked-up cell and moves the person; the planet changes only in its cache, the outbox only grows, and every on-planet sweep chunk is cached |
| ClientStart.FrameLookKeeps | pkg/client/start.go:283-284 | the feet lookup keeps every cached chunk and the planet's dimensions, so the sweep is the same before and after it |
| ClientStart.FirstRemoteFrameFalls | pkg/client/start.go:282-307 | on a remote planet whose feet chunk is not cached, the first Normal frame succeeds, its first outgoing call is the feet chunk's fetch, and the person falls (the cell reads as missing), gaining 20 times the frame time in fall speed |
| ClientStart.FailedFetchPanics | pkg/geom/planet.go:141-148 | once a fetch of the feet chunk has completed with an empty reply (the zero chunk a failed call leaves), the next Normal frame panics on the cell read |
| GoStrings.IndexOf | launcher/main.go:48 | the position found holds the separator and no earlier position does; none is found exactly when the separator is absent |
| GoStrings.Split | launcher/main.go:39 | `strings.Split` never yields an empty list, and no piece contains the separator |
| GoStrings.Join | launcher/main.go:200-202 | joining no pieces gives the empty text; otherwise the text is as long as all pieces plus one separator between each two |
| GoStrings.SplitJoin | launcher/main.go:200-202 | joining separator-free pieces and splitting again gives the pieces back |
| GoStrings.JoinSplit | pkg/scene/options.go:50-51 | splitting a text and joining the pieces gives the text back |
| GoStrings.SplitWithout | launcher/main.go:46 | a text without the separator is a single piece |
| GoStrings.JoinAvoids | launcher/main.go:200-202 | a character absent from every piece and different from the separator is absent from the joined text |
| GoStrings.FieldSplit | launcher/main.go:48 | a `key=value` field whose parts hold no `=` splits into exactly the key and the value |
| GoStrings.NatDigits | launcher/main.go:113 | a number's decimal digits are non-empty and all digits, with no leading zero |
| GoStrings.NatDigitsValue | launcher/main.go:113 | the digits' decimal value is the number |
| GoStrings.Itoa | launcher/main.go:199 | an int's `%v` text is non-empty and free of `;`, `=` and newlines |
| GoStrings.Atoi | launcher/main.go:52 | a parsed value always fits in 64 bits |
| GoStrings.AtoiItoa | pkg/scene/options.go:57-72 | every 64-bit int's text parses back to the same int |
| GoStrings.AtoiExamples | launcher/main.go:52 | `strconv.Atoi` rejects the empty text, a bare sign and non-digits, and accepts a leading sign and leading zeros |
| Launcher.ApplyField | launcher/main.go:48-70 | a field with an unknown key leaves the profile alone; a known key without `=` panics; a port read is a 64-bit int |
| Launcher.ApplyFields | launcher/main.go:46-71 | fields with no known key leave the profile alone, and a port read from them is a 64-bit int |
| Launcher.ParseProfile | launcher/main.go:45-71 | a line without a known key reads as the zero profile, and the port read is always a 64-bit int |
| Launcher.GetProfiles | launcher/main.go:37-77 | getprofiles yields at most one profile per line of the file, each with a 64-bit port |
| Launcher.EmptyFileHasNoProfiles | launcher/main.go:37-44 | an empty (or freshly created) profile file holds no profiles |
| Launcher.ApplyTextField | launcher/main.go:49-59 | a `name`, `world` or `host` field sets exactly that text |
| Launcher.ApplyNumberField | launcher/main.go:51-69 | a `port` field sets the port to the number; a `normal` field makes the profile the default exactly when the number is 1 |
| Launcher.ApplyAllFields | launcher/main.go:45-71 | the five fields a profile is saved as, applied in order to the zero profile, rebuild the profile |
| Launcher.ProfileLineRoundTrip | launcher/main.go:189-200 | a saved profile line reads back as the profile |
| Launcher.ParseLinesRoundTrip | launcher/main.go:43-75 | the lines of a list of profiles read back as the same list, in order |
| Launcher.ParseLinesOf | launcher/main.go:43-75 | lines that are all non-empty and each parse are read as the list of their profiles, in order |
| Launcher.ProfileFileRoundTrip | launcher/main.go:187-202 | the text saveProfileFile writes reads back, through getprofiles, as the same profiles, when text fields hold no `;`, `=` or newline and ports are 64-bit |
| Launcher.ProfileFile | launcher/main.go:187-202 | no profiles give an empty file; storable profiles give a file whose lines are exactly the profiles' lines, one each, in order |
| Launcher.MissingValuePanics | launcher/main.go:48-50 | a known key with no `=` indexes past the split and panics |
| Launcher.BadNumberPanics | launcher/main.go:51-64 | a `port` or `normal` value that is not a 64-bit integer panics |
| Launcher.UnknownKeyIgnored | launcher/main.go:49-70 | a field whose key is not one of the five is ignored |
| Launcher.LoadProfile | launcher/main.go:110-116 | the form shows the current profile's name and port and nothing else changes |
| Launcher.SaveProfile | launcher/main.go:133-141 | only the current profile changes: it takes the form's name, world and host, and its port becomes the parsed port text, or 0 when that is not a number |
| Launcher.SaveAfterLoad | launcher/main.go:110-141 | saving the form right after loading it leaves every profile as it was |
| Launcher.SetN | launcher/main.go:118-129 | the current profile's default flag flips; when it becomes the default, every other profile loses the flag, and otherwise they are untouched |
| Launcher.SetNKeepsOneDefault | launcher/main.go:118-129 | setn keeps at most one default profile, and a profile it makes the default is the only one |
| Launcher.NewP | launcher/main.go:147-152 | a new empty profile is appended and selected, with the success message |
| Launcher.RemoveP | launcher/main.go:168-177 | with one profile the list is kept and the refusal shown; otherwise the current profile is removed and the selection is the old index modulo the new count |
| Launcher.PickP | launcher/main.go:180-184 | the form is saved into the current profile and the next profile, cyclically, is selected |
| Launcher.PickN | launcher/main.go:180-185 | pressing the switch button `k` times stays on a valid profile, stepping one at a time |
| Launcher.PickPCycles | launcher/main.go:180-184 | `k` presses move the selection `k` profiles on, modulo the count, so one press per profile comes back to the start |
| Launcher.LastDefault | launcher/main.go:153-158 | the chosen index is the last default profile, or -1 when there is none |
| Launcher.Startup | launcher/main.go:153-165 | the launcher starts on the last default profile, else on the first, else on a new empty one |
| Launcher.StartupKeepsProfiles | launcher/main.go:153-165 | showing and saving the chosen profile at startup leaves the profiles read from the file unchanged |
| Launcher.Run | launcher/main.go:205-220 | an empty name is refused with the error message; otherwise the form is saved, the profile file written, and a world name starts a local server (seed 123) before the client |
| Launcher.RunWritesReadableFile | launcher/main.go:205-211 | the file that play writes reads back as the saved profiles |
| Launcher.ConnectToServer | launcher/main.go:142-145 | the server button joins friends123.tk on port 1234, whatever the profile's host and port |
| Options.DefaultMap | pkg/scene/options.go:22-26 | the default map has exactly the listed names, none with an entry or a label |
| Options.DefaultOf | pkg/scene/options.go:82-109 | each option holds the key of its last default |
| Options.LoadField | pkg/scene/options.go:53-62 | loading a field never adds or removes an option |
| Options.LoadFields | pkg/scene/options.go:52-63 | loading a line of fields never adds or removes an option |
| Options.Load | pkg/scene/options.go:49-64 | loading the file never adds or removes an option |
| Options.LoadFieldsKeepsOthers | pkg/scene/options.go:52-63 | options the file does not mention keep their key, and loading changes nothing but keys |
| Options.LoadFieldCases | pkg/scene/options.go:53-62 | a field naming a known option sets its key; one naming no option panics; one with an empty code or no `=` is skipped |
| Options.LoadBadCodePanics | pkg/scene/options.go:57-60 | a code that is not a number panics |
| Options.Sync | pkg/scene/options.go:68-71 | every option with an entry takes the entry's key; the others are unchanged |
| Options.Save | pkg/scene/options.go:66-75 | save leaves the options synchronised with their entries |
| Options.SaveFields | pkg/scene/options.go:66-73 | one field per option in map order, and a field of a plain name holds no `;` or newline, so the joined text splits back into the fields |
| Options.LoadSavedFields | pkg/scene/options.go:52-72 | loading saved fields assigns exactly the saved keys to the named options |
| Options.LoadOneLine | pkg/scene/options.go:50-51 | text without a newline is read whole, field by field |
| Options.LoadEmpty | pkg/scene/options.go:49-64 | an empty options file changes nothing |
| Options.SavedText | pkg/scene/options.go:72-74 | the saved text is the fields joined by `;`, and it has no newline |
| Options.SaveLoadRoundTrip | pkg/scene/options.go:49-75 | loading what save wrote gives every option the key it had on screen and changes nothing else, when names hold no `;`, `=` or newline |
| Options.AttachWidgets | pkg/scene/options.go:111-132 | attaching the widgets keeps every option and its key |
| Options.NewOptions | pkg/scene/options.go:78-135 | the options are exactly the defaults' names, whatever the file holds |
| Options.NewOptionsEmptyFile | pkg/scene/options.go:78-110 | without an options file the options are the defaults with their widgets |
| Options.DefaultExamples | pkg/scene/options.go:82-109 | Forward is W, Slot10 is 0, Destroy is key 0, and Apex is an option |
| Options.AttachExamples | pkg/scene/options.go:111-132 | Forward gets a visible entry showing its key; Slot10 and Apex get none |
| Options.NewOptionsDefaults | pkg/scene/options.go:78-135 | a fresh options screen binds Forward to W with a visible entry, Slot10 to 0 without one, and Destroy to key 0 |
| Options.Draw | pkg/scene/options.go:140-154 | a mode change saves; every entry and label is hidden unless the mode is Options |
| Options.DrawSavesOncePerChange | pkg/scene/options.go:140-144 | drawing twice in the same mode saves only once |

Three behaviours of the code that a reader might not expect:

- A synchronous remote chunk fetch caches the fetched chunk and returns
  nil on that call (pkg/common/planet.go:172-197).
- A cell edit's write-back goes to planet 0's row
  (pkg/common/planet.go:229). See "Findings". The renderer's edit
  (pkg/scene/planet.go:176) calls this edit as written, and so does
  ScenePlanet.SetCellMaterial. On a planet without a store, such as
  the client's, it agrees with the corrected edit
  (CommonPlanet.EditsAgreeWithoutStore).
- ScenePlanet.Draw is the draw as written: its chunk loop runs the
  source's updateGeometry, and another planet's strip runs drawGeometry
  as written, so both panics under "Findings" reach it.
  ScenePlanet.DrawCorrected is the draw with both corrections.
- The remote call of a cell edit goes to the one server the planet talks
  to (pkg/common/planet.go:231-237). Relaying it to other clients is
  server-side and is not part of this model.

## Left out

- Rendering: OpenGL and GLFW calls, shaders, buffers, textures, the HUD and
  text drawing. The renderers keep only which chunk is redrawn and how many
  vertices it gets.
- The cube face and vertex tables of pkg/scene/chunk.go: the vertex count
  per face is a parameter (`faceVertices`).
- Floating point: float32 and float64 values are reals, with no rounding.
- Float geometry. It is left out because it is numerics over reals with pi.
  The pieces left out are:
  - the Cartesian and spherical conversions;
  - the orbit `location` (pkg/scene/planet.go:238-254);
  - the raycast picking of the mouse handlers;
  - the focus-cell ray (pkg/common/player.go:216-228);
  - collide;
  - the look direction and the heading rotation;
  - `Project` (pkg/geom/util.go:6-9).
- Products with pi: NewPlanet's longitude and latitude cell counts come
  from them. The truncated product is a parameter, and the model proves
  the rounding down to multiples of 16 that follows.
- Noise: OpenSimplex is not modelled. A generator gets its noise sample
  as a parameter.
- Persistence and transport:
  - SQL and sqlite, gob encoding, net/rpc and yamux;
  - the server's accept loop and handshake in pkg/server/start.go;
  - the networking of the client's Start in pkg/client/start.go.
  The store is a map or a table of rows. Outgoing calls are appended to an
  outbox. A remote reply is a parameter.
- Concurrency: the mutexes around the chunk map and the geometry, and
  the goroutines. The race between writing a placeholder and the
  asynchronous fetch's callback is a concurrency question. The
  asynchronous fetch is modelled as writing the placeholder and queueing
  the call.
- Files: reading and writing `profiles.txt` and `options.txt`. The
  file's text is a value.
- Map iteration order: Go's order is unspecified, so every loop over a
  map takes the order as a parameter. The lemmas then show that the
  result does not depend on it, or state what holds for every order.
- Key codes: `%v` of a GLFW key is assumed to print the key's integer
  code. The options file relies on this to read its own output back.
- Options.SaveLoadRoundTrip: holds only when option names contain no
  `;`, `=` or newline and every key code is a 64-bit int. The source
  makes no such check.
- Launcher.ProfileFileRoundTrip: holds only when no text field contains
  `;`, `=` or a newline and every port is a 64-bit int. The file format
  cannot carry other profiles.
- ClientRpc.UpdatePersonState: the roster entry keeps a look direction.
  The older state record the client code reads does not declare one.
  The model follows the client code.
- ClientStart.Frame: the client's `Start` builds its planet with
  `geom.NewPlanet(50, 16, ...)` and connects to a server before the frame
  loop. The model starts from a given planet. The feet position is
  Cartesian (pkg/client/start.go:282-284), so the feet cell index is a
  parameter; the feet chunk is derived from it. The Normal-mode movement
  and collision (316-328) and the Flying-mode movement (329-333) are
  float geometry; their result is the parameter `moved`.
- ServerPlanet.GetChunkHandler: requires a local planet, one that
  generates its own chunks. The handler runs on the server, whose planet
  is local. A remote planet's fetch would need a reply the handler has no
  source for.
- The client's `newAPI` constructor and the launcher's `world` stub: they
  only allocate or print.
- Player.UpdatePosition: the Normal-mode movement and collision
  (pkg/common/player.go:196-208), the Flying-mode movement (209-213) and
  the focus-cell ray (216-228) are float geometry over the Cartesian
  location. Their results are the parameters `moved` and `focus`. The
  feet point's conversion to a cell index (line 184) is float geometry
  too, so the feet cell index is the parameter `feetCell`; the lookup
  itself, with its load and its panic, is modelled. The cell lookups
  made by the collision tests and the ray go through the same lookup
  and can likewise start a load or panic on an empty chunk; the model
  does not promise those, since their cells come from the float
  geometry.
- Player.Spawn: the feet chunk index and the landing point of the search
  at lines 96-100 come from the Cartesian location. Both are parameters.
- ServerPlanet.RemoteFetchIsTransposed: neither server registers `Server`
  with its RPC server (server/start.go:105 registers `Arith`,
  pkg/server/start.go:121 an `API` value), and the handlers' planet `p`
  (server/rpc.go:14, pkg/server/rpc.go:13) is never bound. The lemma
  states what the handler would answer if it were reached.
- Player.NearbyChunks: the chunk under the player's feet is found from the
  Cartesian location, which is not modelled. That chunk index is a
  parameter.

## Findings

| source | as written | input that shows it | evidently intended | confidence | as-written member | corrected member |
|---|---|---|---|---|---|---|
| pkg/common/planet.go:229 | a cell edit writes the chunk back with `UPDATE ... WHERE planet = 0`, although GetChunk inserts the row under the planet's own ID | a successful edit on planet 1 with a store: planet 1's row keeps the old material, so a reload loses the edit, and planet 0's row at the same chunk index, if any, is overwritten | write the chunk back under the planet's own ID, as the insert does | medium; not executed | CommonPlanet.SetCellMaterialAsWritten, CommonPlanet.AsWrittenLosesEdit | CommonPlanet.SetCellMaterial, CommonPlanet.SetCellMaterialPersists |
| pkg/scene/planet.go:357-366 | drawGeometry rebuilds the surface strip before checking for a missing or still-loading geometry | a remote planet whose geometry fetch is in flight (the loading marker has no altitude rows): the rebuild indexes row 0 of an empty array and panics | return before touching the geometry while it is nil or loading | high; not executed | ScenePlanet.DrawGeometryAsWritten, ScenePlanet.DrawWhileLoadingPanics, ScenePlanet.DrawLoadingPlanetPanics | ScenePlanet.DrawGeometry, ScenePlanet.DrawGeometryOnceLoaded, ScenePlanet.DrawCorrected |
| pkg/scene/chunk.go:79-101 | updateGeometry treats a `WaitingForData` placeholder neighbour as a present chunk, and hasAirAlt then divides by the placeholder's zero cell count | a chunk drawn while the chunk above it is still being fetched: the integer division by `len(c.Cells)` = 0 panics | treat a neighbour that is still waiting for data as absent | high; not executed | SceneChunk.UpdateGeometryAsWritten, SceneChunk.PlaceholderNeighbourPanics, ScenePlanet.DrawPlaceholderNeighbourPanics | SceneChunk.UpdateGeometry, SceneChunk.WaitingNeighbourIsAbsent, ScenePlanet.DrawCorrected |
