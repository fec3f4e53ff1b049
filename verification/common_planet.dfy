/** The canonical planet of pkg/common/planet.go: construction, the chunk
    cache with its four sources (memory, the chunk store, generation and a
    remote fetch), cell lookup and cell edits.

    The SQL chunk table is a map from (planet, chunk index) to chunk, remote
    calls are appended to an outbox, and the result of a synchronous remote
    fetch is a parameter (None when the call fails). The mutexes only guard
    these same updates and are not modelled. */
module CommonPlanet {
  import opened Wrappers
  import opened GoInt
  import opened Grid
  import opened Materials
  import opened PlanetStates
  import opened Generators
  import opened Chunks

  /** Primary key of a row of the chunk table. */
  datatype StoreKey = StoreKey(planet: int, ind: ChunkIndex)

  type ChunkStore = map<StoreKey, Chunk>

  /** Outgoing remote calls. */
  datatype Call =
    | GetChunkCall(planet: int, ind: ChunkIndex)
    | SetCellMaterialCall(planet: int, index: CellIndex, material: int)
    | GetPlanetGeometryCall(planet: int)

  /** Low-resolution surface heights and materials, or a loading marker. */
  datatype PlanetGeometry = PlanetGeometry(altitude: seq<seq<int>>, material: seq<seq<int>>, isLoading: bool)

  /** A planet: its state (with AltCells already rounded), derived
      dimensions, generator, whether it has a remote link and a store, the
      chunk cache and the cached geometry. */
  datatype Planet = Planet(
    state: PlanetState,
    altMin: real,
    altDelta: real,
    latMax: real,
    lonCells: int,
    latCells: int,
    generator: GeneratorKind,
    hasRpc: bool,
    hasDb: bool,
    chunks: map<ChunkIndex, Chunk>,
    geometry: Option<PlanetGeometry>)

  /** Everything outside the planet that an operation can change. */
  datatype World = World(store: ChunkStore, outbox: seq<Call>)

  /** The planet and world after an operation, with its return value. */
  datatype Step<T> = Step(planet: Planet, world: World, value: T)

  function DimsOf(p: Planet): Dims {
    Dims(p.lonCells, p.latCells, p.state.altCells, p.state.radius)
  }

  function ContextOf(p: Planet): GenContext {
    GenContext(p.state.altCells, p.latCells)
  }

  function KeyOf(p: Planet, ind: ChunkIndex): StoreKey {
    StoreKey(p.state.id, ind)
  }

  // ---------------------------------------------------------------------
  // Construction
  // ---------------------------------------------------------------------

  /** NewPlanet. `lonProduct` and `latProduct` are the float64 values
      `2*Pi*3/4*(0.5*Radius)+0.5` and `LatMax/90*Pi*(0.5*Radius)`, which
      involve Pi and are taken as given; `int(...)` truncates them. */
  function NewPlanet(state: PlanetState, lonProduct: real, latProduct: real, hasRpc: bool, hasDb: bool): (p: Planet)
    ensures p.state == state.(altCells := p.state.altCells)
    ensures p.altMin == state.radius - p.state.altCells as real
    ensures p.altDelta == 1.0 && p.latMax == 90.0
    ensures p.generator == GeneratorFor(state.generatorType)
    ensures p.hasRpc == hasRpc && p.hasDb == hasDb
    ensures p.chunks == map[] && p.geometry == None
  {
    var altCells := RoundToChunks(state.altCells);
    Planet(state.(altCells := altCells), state.radius - altCells as real, 1.0, 90.0,
           RoundToChunks(Trunc(lonProduct)), RoundToChunks(Trunc(latProduct)),
           GeneratorFor(state.generatorType), hasRpc, hasDb, map[], None)
  }

  /** Every derived dimension is a whole number of chunks, at most the value
      it was rounded from and less than one chunk below it (for
      non-negative values), and AltMin is measured from the rounded count. */
  lemma NewPlanetDims(state: PlanetState, lonProduct: real, latProduct: real, hasRpc: bool, hasDb: bool)
    requires state.altCells >= 0 && lonProduct >= 0.0 && latProduct >= 0.0
    ensures var p := NewPlanet(state, lonProduct, latProduct, hasRpc, hasDb);
            && p.state.altCells % ChunkSize == 0 && p.lonCells % ChunkSize == 0 && p.latCells % ChunkSize == 0
            && p.state.altCells <= state.altCells < p.state.altCells + ChunkSize
            && (p.lonCells as real) <= lonProduct < (p.lonCells + ChunkSize) as real
            && (p.latCells as real) <= latProduct < (p.latCells + ChunkSize) as real
            && p.state.radius - p.altMin == p.state.altCells as real
  {
  }

  // ---------------------------------------------------------------------
  // Chunk generation
  // ---------------------------------------------------------------------

  /** The lower-corner location of array slot (i, j, k) of chunk `ind`. */
  function SlotLoc(ind: ChunkIndex, r: Resolution, i: int, j: int, k: int): CellLoc
    requires r.lonCells > 0 && r.latCells > 0
  {
    CellLoc((ChunkSize * ind.lon + i * (ChunkSize / r.lonCells)) as real,
            (ChunkSize * ind.lat + j * (ChunkSize / r.latCells)) as real,
            (ChunkSize * ind.alt + k) as real)
  }

  /** The generated material, overridden by stone for the solid core. */
  function SlotMaterial(p: Planet, noise: Noise, loc: CellLoc): int {
    if loc.alt < 2.0 then Stone else Generate(p.generator, ContextOf(p), noise, loc)
  }

  /** newChunk: a lonCells x latCells x 16 array sampled at each slot's
      lower corner, every slot below altitude 2 being stone. */
  function NewChunk(p: Planet, ind: ChunkIndex, noise: Noise): (c: Chunk)
    ensures var r := LonLatCellsInChunkIndex(DimsOf(p), ind);
            && !c.waitingForData
            && HasShape(c, r.lonCells, r.latCells, ChunkSize)
            && (forall i, j, k :: 0 <= i < r.lonCells && 0 <= j < r.latCells && 0 <= k < ChunkSize ==>
                  c.cells[i][j][k] == SlotMaterial(p, noise, SlotLoc(ind, r, i, j, k)))
  {
    var r := LonLatCellsInChunkIndex(DimsOf(p), ind);
    Chunk(false, seq(r.lonCells, i => seq(r.latCells, j => seq(ChunkSize, k => SlotMaterial(p, noise, SlotLoc(ind, r, i, j, k))))))
  }

  /** The generated chunk answers for every cell it holds: the slot a cell
      maps to exists, its sample location is the cell rounded down to the
      slot's width (so the slot covers the cell), and a cell below altitude
      2 is stone whatever the generator says. */
  lemma NewChunkCoversCell(p: Planet, c: CellIndex, noise: Noise)
    requires ChunkInRange(DimsOf(p), CellIndexToChunkIndex(c))
    ensures var k := CellIndexToChunkIndex(c);
            var r := LonLatCellsInChunkIndex(DimsOf(p), k);
            var l := LocalOffset(DimsOf(p), c);
            var loc := SlotLoc(k, r, l.lon, l.lat, l.alt);
            && CellAt(NewChunk(p, k, noise), l) == Some(SlotMaterial(p, noise, loc))
            && loc.alt == c.alt as real
            && loc.lon <= c.lon as real < loc.lon + (ChunkSize / r.lonCells) as real
            && loc.lat <= c.lat as real < loc.lat + (ChunkSize / r.latCells) as real
            && (c.alt < 2 ==> CellAt(NewChunk(p, k, noise), l) == Some(Stone))
  {
    LocalOffsetInChunk(DimsOf(p), c);
  }

  // ---------------------------------------------------------------------
  // The chunk cache
  // ---------------------------------------------------------------------

  /** GetChunk. Out of range or a pending fetch: nil, nothing changes. A
      cached chunk is returned as is. Otherwise, without a remote link, the
      chunk is read from the store, or generated and inserted when the store
      lacks it (or just generated when there is no store), then cached and
      returned. With a remote link, an asynchronous call caches a
      placeholder and a synchronous one caches the fetched chunk; both
      return nil, since the local result variable is never assigned on that
      path. A failed synchronous call panics. */
  function GetChunk(p: Planet, w: World, ind: ChunkIndex, async: bool, noise: Noise, fetched: Option<Chunk>): (r: Outcome<Step<Option<Chunk>>>)
    ensures r.Panic? <==> (ChunkInRange(DimsOf(p), ind) && ind !in p.chunks && p.hasRpc && !async && fetched.None?)
    ensures r.Done? ==> r.value.planet == p.(chunks := r.value.planet.chunks)
    ensures r.Done? && r.value.value.Some? ==>
      ind in r.value.planet.chunks && r.value.planet.chunks[ind] == r.value.value.value
  {
    if !ChunkInRange(DimsOf(p), ind) then Done(Step(p, w, None))
    else if ind in p.chunks then
      var c := p.chunks[ind];
      if c.waitingForData then Done(Step(p, w, None)) else Done(Step(p, w, Some(c)))
    else if !p.hasRpc then
      if p.hasDb then
        var key := KeyOf(p, ind);
        if key in w.store then
          var c := w.store[key];
          Done(Step(p.(chunks := p.chunks[ind := c]), w, Some(c)))
        else
          var c := NewChunk(p, ind, noise);
          Done(Step(p.(chunks := p.chunks[ind := c]), w.(store := w.store[key := c]), Some(c)))
      else
        var c := NewChunk(p, ind, noise);
        Done(Step(p.(chunks := p.chunks[ind := c]), w, Some(c)))
    else
      var w' := w.(outbox := w.outbox + [GetChunkCall(p.state.id, ind)]);
      if async then
        Done(Step(p.(chunks := p.chunks[ind := Placeholder]), w', None))
      else
        match fetched
        case None => Panic("API.GetChunk failed")
        case Some(c) => Done(Step(p.(chunks := p.chunks[ind := c]), w', None))
  }

  /** The asynchronous fetch's completion: the received chunk replaces the
      placeholder. */
  function CompleteFetch(p: Planet, ind: ChunkIndex, c: Chunk): (p': Planet)
    ensures p' == p.(chunks := p'.chunks)
    ensures ind in p'.chunks && p'.chunks[ind] == c
    ensures forall k :: k != ind ==> (k in p'.chunks <==> k in p.chunks)
  {
    p.(chunks := p.chunks[ind := c])
  }

  /** GetChunk's footprint: only the requested entry of the cache changes,
      the store only gains the requested row when it lacked it (a stored
      chunk is never overwritten), and at most one fetch is sent, only
      with a remote link. */
  lemma GetChunkFrame(p: Planet, w: World, ind: ChunkIndex, async: bool, noise: Noise, fetched: Option<Chunk>)
    requires GetChunk(p, w, ind, async, noise, fetched).Done?
    ensures var s := GetChunk(p, w, ind, async, noise, fetched).value;
            && (forall k :: k != ind ==> (k in s.planet.chunks <==> k in p.chunks))
            && (forall k :: k != ind && k in p.chunks ==> s.planet.chunks[k] == p.chunks[k])
            && (ind in p.chunks ==> s.planet.chunks[ind] == p.chunks[ind])
            && (forall key :: key in w.store ==> key in s.world.store && s.world.store[key] == w.store[key])
            && (forall key :: key in s.world.store && key !in w.store ==> key == KeyOf(p, ind) && p.hasDb && !p.hasRpc)
            && (s.world.outbox == w.outbox || (p.hasRpc && s.world.outbox == w.outbox + [GetChunkCall(p.state.id, ind)]))
  {
  }

  /** Out of range, or with a fetch pending, GetChunk returns nil and
      changes nothing; in particular a pending placeholder starts no second
      fetch. */
  lemma GetChunkNoOp(p: Planet, w: World, ind: ChunkIndex, async: bool, noise: Noise, fetched: Option<Chunk>)
    requires !ChunkInRange(DimsOf(p), ind) || (ind in p.chunks && p.chunks[ind].waitingForData)
    ensures GetChunk(p, w, ind, async, noise, fetched) == Done(Step(p, w, None))
  {
  }

  /** Memoisation: once GetChunk has returned a chunk, asking again returns
      the same chunk and touches neither the cache nor the store, whatever
      the other arguments. */
  lemma GetChunkMemo(p: Planet, w: World, ind: ChunkIndex, async: bool, noise: Noise, fetched: Option<Chunk>,
                     async2: bool, noise2: Noise, fetched2: Option<Chunk>)
    requires GetChunk(p, w, ind, async, noise, fetched).Done?
    requires GetChunk(p, w, ind, async, noise, fetched).value.value.Some?
    ensures var s := GetChunk(p, w, ind, async, noise, fetched).value;
            var c := s.value.value;
            GetChunk(s.planet, s.world, ind, async2, noise2, fetched2)
              == Done(Step(s.planet, s.world, if c.waitingForData then None else Some(c)))
  {
  }

  /** Without a remote link an in-range request always yields a chunk: the
      stored row when there is one, else a freshly generated chunk, which
      is then also stored when there is a store. */
  lemma LocalGetChunkReadsThrough(p: Planet, w: World, ind: ChunkIndex, async: bool, noise: Noise, fetched: Option<Chunk>)
    requires !p.hasRpc && ChunkInRange(DimsOf(p), ind) && ind !in p.chunks
    ensures var r := GetChunk(p, w, ind, async, noise, fetched);
            && r.Done? && r.value.value.Some?
            && (p.hasDb && KeyOf(p, ind) in w.store ==> r.value.value.value == w.store[KeyOf(p, ind)] && r.value.world == w)
            && (!(p.hasDb && KeyOf(p, ind) in w.store) ==> r.value.value.value == NewChunk(p, ind, noise))
            && (p.hasDb ==>
                  KeyOf(p, ind) in r.value.world.store && r.value.world.store[KeyOf(p, ind)] == r.value.value.value)
  {
  }

  /** The remote life cycle: an asynchronous request returns nil and leaves
      a placeholder; until the fetch completes every request returns nil
      and sends nothing; after completion the received chunk is returned. */
  lemma RemoteFetchLifecycle(p: Planet, w: World, ind: ChunkIndex, noise: Noise, c: Chunk,
                             async2: bool, fetched2: Option<Chunk>)
    requires p.hasRpc && ChunkInRange(DimsOf(p), ind) && ind !in p.chunks && !c.waitingForData
    ensures var s := GetChunk(p, w, ind, true, noise, None).value;
            && s.value.None?
            && s.planet.chunks[ind] == Placeholder
            && s.world.outbox == w.outbox + [GetChunkCall(p.state.id, ind)]
            && GetChunk(s.planet, s.world, ind, async2, noise, fetched2) == Done(Step(s.planet, s.world, None))
            && var p2 := CompleteFetch(s.planet, ind, c);
               GetChunk(p2, s.world, ind, async2, noise, fetched2) == Done(Step(p2, s.world, Some(c)))
  {
  }

  /** A synchronous remote request caches the fetched chunk but returns nil
      on that call; the next request returns the chunk. */
  lemma SyncFetchReturnsNilFirst(p: Planet, w: World, ind: ChunkIndex, noise: Noise, c: Chunk, async2: bool)
    requires p.hasRpc && ChunkInRange(DimsOf(p), ind) && ind !in p.chunks && !c.waitingForData
    ensures var r := GetChunk(p, w, ind, false, noise, Some(c));
            && r.Done? && r.value.value.None? && r.value.planet.chunks[ind] == c
            && GetChunk(r.value.planet, r.value.world, ind, async2, noise, None).value.value == Some(c)
  {
  }

  // ---------------------------------------------------------------------
  // Well-formed caches and stores
  // ---------------------------------------------------------------------

  /** A chunk has the array shape newChunk builds for its index. */
  predicate Fits(p: Planet, ind: ChunkIndex, c: Chunk) {
    var r := LonLatCellsInChunkIndex(DimsOf(p), ind);
    !c.waitingForData && HasShape(c, r.lonCells, r.latCells, ChunkSize)
  }

  /** Every cached chunk is a placeholder or fits its index. */
  predicate CacheFits(p: Planet) {
    forall k :: k in p.chunks ==> p.chunks[k].waitingForData || Fits(p, k, p.chunks[k])
  }

  /** Every row of this planet in the store fits its index. */
  predicate StoreFits(p: Planet, w: World) {
    forall key :: key in w.store && key.planet == p.state.id ==> Fits(p, key.ind, w.store[key])
  }

  /** With a store and no remote link, every cached chunk is also the
      stored row for its index: nothing in memory is unsaved. */
  predicate Persisted(p: Planet, w: World) {
    p.hasDb && !p.hasRpc ==>
      forall k :: k in p.chunks ==> KeyOf(p, k) in w.store && w.store[KeyOf(p, k)] == p.chunks[k]
  }

  /** GetChunk keeps the cache fitting (given fitting store rows and a
      fitting fetch) and keeps every cached chunk saved. */
  lemma GetChunkPreserves(p: Planet, w: World, ind: ChunkIndex, async: bool, noise: Noise, fetched: Option<Chunk>)
    requires GetChunk(p, w, ind, async, noise, fetched).Done?
    ensures var s := GetChunk(p, w, ind, async, noise, fetched).value;
            && ((CacheFits(p) && StoreFits(p, w) && (fetched.Some? ==> fetched.value.waitingForData || Fits(p, ind, fetched.value)))
                ==> (CacheFits(s.planet) && StoreFits(s.planet, s.world)))
            && (Persisted(p, w) ==> Persisted(s.planet, s.world))
  {
    var s := GetChunk(p, w, ind, async, noise, fetched).value;
    assert DimsOf(s.planet) == DimsOf(p);
  }

  // ---------------------------------------------------------------------
  // Cells
  // ---------------------------------------------------------------------

  /** CellIndexToCell: the cell's chunk is requested asynchronously (which
      may start a load) and the slot at the cell's local offset is read; an
      offset outside the array of the chunk found is Go's index panic. */
  function CellIndexToCell(p: Planet, w: World, c: CellIndex, noise: Noise): (r: Outcome<Step<Option<int>>>)
    ensures r.Done? ==> r.value.planet == p.(chunks := r.value.planet.chunks)
    ensures r.Done? ==> forall k :: k in p.chunks ==> k in r.value.planet.chunks && r.value.planet.chunks[k] == p.chunks[k]
    ensures r.Done? && r.value.value.Some? ==>
      var k := CellIndexToChunkIndex(c);
      && k in r.value.planet.chunks
      && CellAt(r.value.planet.chunks[k], LocalOffset(DimsOf(p), c)) == r.value.value
  {
    var k := CellIndexToChunkIndex(c);
    if !ChunkInRange(DimsOf(p), k) then Done(Step(p, w, None))
    else
      match GetChunk(p, w, k, true, noise, None)
      case Panic(why) => Panic(why)
      case Done(s) =>
        match s.value
        case None => Done(Step(s.planet, s.world, None))
        case Some(chunk) =>
          match CellAt(chunk, LocalOffset(DimsOf(p), c))
          case None => Panic("index out of range")
          case Some(m) => Done(Step(s.planet, s.world, Some(m)))
  }

  /** Given a fitting cache and store, looking a cell up never panics, and a
      cell outside the grid is never found. */
  lemma CellIndexToCellSafe(p: Planet, w: World, c: CellIndex, noise: Noise)
    requires CacheFits(p) && StoreFits(p, w)
    ensures CellIndexToCell(p, w, c, noise).Done?
    ensures !ChunkInRange(DimsOf(p), CellIndexToChunkIndex(c)) ==> CellIndexToCell(p, w, c, noise).value.value.None?
  {
    var k := CellIndexToChunkIndex(c);
    if ChunkInRange(DimsOf(p), k) {
      var s := GetChunk(p, w, k, true, noise, None).value;
      GetChunkPreserves(p, w, k, true, noise, None);
      if s.value.Some? {
        LocalOffsetInChunk(DimsOf(p), c);
        assert Fits(p, k, s.value.value);
      }
    }
  }

  /** On a local planet without a store, looking up a cell of a chunk not
      yet cached generates the chunk, and the cell read is the generated
      chunk's slot for it (described by NewChunkCoversCell); in particular
      a cell below altitude 2 is stone. */
  lemma LocalCellIsGenerated(p: Planet, w: World, c: CellIndex, noise: Noise)
    requires !p.hasRpc && !p.hasDb && ChunkInRange(DimsOf(p), CellIndexToChunkIndex(c))
    requires CellIndexToChunkIndex(c) !in p.chunks
    ensures CellIndexToCell(p, w, c, noise).Done?
    ensures CellIndexToCell(p, w, c, noise).value.value
         == CellAt(NewChunk(p, CellIndexToChunkIndex(c), noise), LocalOffset(DimsOf(p), c))
    ensures c.alt < 2 ==> CellIndexToCell(p, w, c, noise).value.value == Some(Stone)
  {
    var k := CellIndexToChunkIndex(c);
    var chunk := NewChunk(p, k, noise);
    var l := LocalOffset(DimsOf(p), c);
    assert GetChunk(p, w, k, true, noise, None) == Done(Step(p.(chunks := p.chunks[k := chunk]), w, Some(chunk)));
    NewChunkCoversCell(p, c, noise);
    assert CellAt(chunk, l).Some?;
  }

  // ---------------------------------------------------------------------
  // Cell edits
  // ---------------------------------------------------------------------

  /** SetCellMaterial with the planet number used by the store update as a
      parameter: the source writes the row of planet 0 (see
      SetCellMaterialAsWritten), the insert in GetChunk uses the planet's
      own identifier (see SetCellMaterial). A missing cell or an unchanged
      material returns false; otherwise the slot is written in the cached
      chunk, the server is told when there is a remote link and
      `updateServer` is set, and the chunk's row is updated when there is a
      store (an UPDATE of an absent row changes nothing). */
  function SetCellMaterialKeyed(rowPlanet: int, p: Planet, w: World, c: CellIndex, m: int, updateServer: bool, noise: Noise): (r: Outcome<Step<bool>>)
    ensures r.Done? ==> r.value.planet == p.(chunks := r.value.planet.chunks)
  {
    match CellIndexToCell(p, w, c, noise)
    case Panic(why) => Panic(why)
    case Done(s) =>
      if s.value.None? || s.value.value == m then Done(Step(s.planet, s.world, false))
      else
        var k := CellIndexToChunkIndex(c);
        var chunk := WriteCell(s.planet.chunks[k], LocalOffset(DimsOf(p), c), m);
        var outbox := if p.hasRpc && updateServer then s.world.outbox + [SetCellMaterialCall(p.state.id, c, m)] else s.world.outbox;
        var key := StoreKey(rowPlanet, k);
        var store := if p.hasDb && key in s.world.store then s.world.store[key := chunk] else s.world.store;
        Done(Step(s.planet.(chunks := s.planet.chunks[k := chunk]), World(store, outbox), true))
  }

  /** The source's SetCellMaterial, whose store update targets planet 0:
      after a change the edited cell reads back `m` in the cache, the only
      row rewritten is planet 0's row at the chunk's index (when it
      exists), and every other row present before is kept. */
  function SetCellMaterialAsWritten(p: Planet, w: World, c: CellIndex, m: int, updateServer: bool, noise: Noise): (r: Outcome<Step<bool>>)
    ensures r == SetCellMaterialKeyed(0, p, w, c, m, updateServer, noise)
    ensures r.Done? ==> EditFootprint(0, p, w, c, m, r.value)
  {
    var r := SetCellMaterialKeyed(0, p, w, c, m, updateServer, noise);
    if r.Done? then SetCellMaterialFootprint(0, p, w, c, m, updateServer, noise); r else r
  }

  /** SetCellMaterial with the store update keyed by the planet's own
      identifier, matching the insert: after a change the edited cell
      reads back `m` in the cache and in the planet's own row (when it
      exists), and every other row present before is kept. */
  function SetCellMaterial(p: Planet, w: World, c: CellIndex, m: int, updateServer: bool, noise: Noise): (r: Outcome<Step<bool>>)
    ensures r == SetCellMaterialKeyed(p.state.id, p, w, c, m, updateServer, noise)
    ensures r.Done? ==> EditFootprint(p.state.id, p, w, c, m, r.value)
  {
    var r := SetCellMaterialKeyed(p.state.id, p, w, c, m, updateServer, noise);
    if r.Done? then SetCellMaterialFootprint(p.state.id, p, w, c, m, updateServer, noise); r else r
  }

  /** What an edit that writes row `rowPlanet` leaves behind: after a
      change the edited cell reads back `m` in the cache and, when the
      planet has a store holding that row, in the row too; every row other
      than that one which was present before is kept as it was. */
  predicate EditFootprint(rowPlanet: int, p: Planet, w: World, c: CellIndex, m: int, s: Step<bool>) {
    var k := CellIndexToChunkIndex(c);
    var l := LocalOffset(DimsOf(p), c);
    && (s.value ==> k in s.planet.chunks && CellAt(s.planet.chunks[k], l) == Some(m))
    && (s.value && p.hasDb && StoreKey(rowPlanet, k) in s.world.store ==>
          s.world.store[StoreKey(rowPlanet, k)] == s.planet.chunks[k])
    && (forall key :: key in w.store && key != StoreKey(rowPlanet, k) ==>
          key in s.world.store && s.world.store[key] == w.store[key])
  }

  /** Every successful keyed edit leaves the footprint EditFootprint
      describes. */
  lemma SetCellMaterialFootprint(rowPlanet: int, p: Planet, w: World, c: CellIndex, m: int, updateServer: bool, noise: Noise)
    requires SetCellMaterialKeyed(rowPlanet, p, w, c, m, updateServer, noise).Done?
    ensures EditFootprint(rowPlanet, p, w, c, m, SetCellMaterialKeyed(rowPlanet, p, w, c, m, updateServer, noise).value)
  {
    if ChunkInRange(DimsOf(p), CellIndexToChunkIndex(c)) {
      LookKeepsRows(p, w, c, noise);
      EditStore(rowPlanet, p, w, c, m, updateServer, noise);
    }
  }

  /** The lookup that starts an edit keeps every stored row. */
  lemma LookKeepsRows(p: Planet, w: World, c: CellIndex, noise: Noise)
    requires CellIndexToCell(p, w, c, noise).Done?
    ensures var look := Looked(p, w, c, noise);
            forall key :: key in w.store ==> key in look.world.store && look.world.store[key] == w.store[key]
  {
    var k := CellIndexToChunkIndex(c);
    if ChunkInRange(DimsOf(p), k) {
      GetChunkFrame(p, w, k, true, noise, None);
    }
  }

  /** A changing edit writes the new chunk, which reads back `m`, into the
      cache and into row `rowPlanet` when the store has it; the store is
      otherwise the lookup's. */
  lemma EditStore(rowPlanet: int, p: Planet, w: World, c: CellIndex, m: int, updateServer: bool, noise: Noise)
    requires SetCellMaterialKeyed(rowPlanet, p, w, c, m, updateServer, noise).Done?
    ensures var s := SetCellMaterialKeyed(rowPlanet, p, w, c, m, updateServer, noise).value;
            var look := Looked(p, w, c, noise);
            var k := CellIndexToChunkIndex(c);
            var key := StoreKey(rowPlanet, k);
            && (s.value ==> k in s.planet.chunks && CellAt(s.planet.chunks[k], LocalOffset(DimsOf(p), c)) == Some(m))
            && s.world.store == if s.value && p.hasDb && key in look.world.store
                                then look.world.store[key := s.planet.chunks[k]] else look.world.store
  {
    var s := SetCellMaterialKeyed(rowPlanet, p, w, c, m, updateServer, noise).value;
    if s.value {
      var look := Looked(p, w, c, noise);
      var k := CellIndexToChunkIndex(c);
      var l := LocalOffset(DimsOf(p), c);
      ReadAfterWrite(look.planet.chunks[k], l, m, l);
    }
  }

  /** The state after the lookup that starts an edit. */
  function Looked(p: Planet, w: World, c: CellIndex, noise: Noise): Step<Option<int>>
    requires CellIndexToCell(p, w, c, noise).Done?
  {
    CellIndexToCell(p, w, c, noise).value
  }

  /** An edit that returns false neither sends SetCellMaterial nor writes
      the store: its only effect is the lookup's (possibly starting a
      load). An edit that returns true changes exactly the cell's slot of
      the cached chunk, and sends the call iff there is a remote link and
      `updateServer` is set. */
  lemma SetCellMaterialEffects(rowPlanet: int, p: Planet, w: World, c: CellIndex, m: int, updateServer: bool, noise: Noise)
    requires SetCellMaterialKeyed(rowPlanet, p, w, c, m, updateServer, noise).Done?
    ensures var s := SetCellMaterialKeyed(rowPlanet, p, w, c, m, updateServer, noise).value;
            var look := Looked(p, w, c, noise);
            var k := CellIndexToChunkIndex(c);
            var l := LocalOffset(DimsOf(p), c);
            && (s.value == false <==> (look.value.None? || look.value == Some(m)))
            && (!s.value ==> s.planet == look.planet && s.world == look.world)
            && (s.value ==>
                  && k in s.planet.chunks
                  && (forall k2 :: k2 in s.planet.chunks <==> k2 in look.planet.chunks)
                  && (forall k2 :: k2 != k && k2 in s.planet.chunks ==> s.planet.chunks[k2] == look.planet.chunks[k2])
                  && (forall l2 :: CellAt(s.planet.chunks[k], l2) == if l2 == l then Some(m) else CellAt(look.planet.chunks[k], l2))
                  && (s.world.outbox == if p.hasRpc && updateServer
                                        then look.world.outbox + [SetCellMaterialCall(p.state.id, c, m)]
                                        else look.world.outbox))
  {
    var s := SetCellMaterialKeyed(rowPlanet, p, w, c, m, updateServer, noise).value;
    var look := Looked(p, w, c, noise);
    if s.value {
      var k := CellIndexToChunkIndex(c);
      var l := LocalOffset(DimsOf(p), c);
      forall l2 ensures CellAt(s.planet.chunks[k], l2) == if l2 == l then Some(m) else CellAt(look.planet.chunks[k], l2) {
        ReadAfterWrite(look.planet.chunks[k], l, m, l2);
      }
    }
  }

  /** An edit keeps every cached chunk, its placeholder flag and the
      lengths of its cell arrays: it only loads chunks and rewrites one
      slot. */
  lemma SetCellMaterialKeepsShape(rowPlanet: int, p: Planet, w: World, c: CellIndex, m: int, updateServer: bool, noise: Noise)
    requires SetCellMaterialKeyed(rowPlanet, p, w, c, m, updateServer, noise).Done?
    ensures var s := SetCellMaterialKeyed(rowPlanet, p, w, c, m, updateServer, noise).value;
            forall k :: k in p.chunks ==>
              && k in s.planet.chunks
              && s.planet.chunks[k].waitingForData == p.chunks[k].waitingForData
              && |s.planet.chunks[k].cells| == |p.chunks[k].cells|
              && forall i :: 0 <= i < |p.chunks[k].cells| ==> |s.planet.chunks[k].cells[i]| == |p.chunks[k].cells[i]|
  {
    var s := SetCellMaterialKeyed(rowPlanet, p, w, c, m, updateServer, noise).value;
    var look := Looked(p, w, c, noise);
    if s.value {
      var key := CellIndexToChunkIndex(c);
      var l := LocalOffset(DimsOf(p), c);
      assert s.planet.chunks == look.planet.chunks[key := WriteCell(look.planet.chunks[key], l, m)];
    } else {
      assert s.planet == look.planet;
    }
  }

  /** Idempotence: repeating an edit returns false and changes nothing. */
  lemma SetCellMaterialIdempotent(rowPlanet: int, p: Planet, w: World, c: CellIndex, m: int, updateServer: bool, noise: Noise)
    requires SetCellMaterialKeyed(rowPlanet, p, w, c, m, updateServer, noise).Done?
    ensures var s := SetCellMaterialKeyed(rowPlanet, p, w, c, m, updateServer, noise).value;
            SetCellMaterialKeyed(rowPlanet, s.planet, s.world, c, m, updateServer, noise) == Done(Step(s.planet, s.world, false))
  {
    var s := SetCellMaterialKeyed(rowPlanet, p, w, c, m, updateServer, noise).value;
    var k := CellIndexToChunkIndex(c);
    var l := LocalOffset(DimsOf(p), c);
    var look := Looked(p, w, c, noise);
    assert DimsOf(s.planet) == DimsOf(p);
    if ChunkInRange(DimsOf(p), k) {
      SetCellMaterialEffects(rowPlanet, p, w, c, m, updateServer, noise);
      if s.value {
        assert CellAt(s.planet.chunks[k], l) == Some(m);
      } else if look.value.None? {
        if k in look.planet.chunks {
          assert look.planet.chunks[k].waitingForData;
        }
      }
    }
  }

  /** With the corrected key an edit keeps every cached chunk saved: after
      a successful edit the stored row for the chunk holds the new
      material. */
  lemma SetCellMaterialPersists(p: Planet, w: World, c: CellIndex, m: int, updateServer: bool, noise: Noise)
    requires Persisted(p, w)
    requires SetCellMaterial(p, w, c, m, updateServer, noise).Done?
    ensures var s := SetCellMaterial(p, w, c, m, updateServer, noise).value;
            && Persisted(s.planet, s.world)
            && (s.value && p.hasDb && !p.hasRpc ==>
                  CellAt(s.world.store[KeyOf(p, CellIndexToChunkIndex(c))], LocalOffset(DimsOf(p), c)) == Some(m))
  {
    var k := CellIndexToChunkIndex(c);
    if ChunkInRange(DimsOf(p), k) {
      GetChunkPreserves(p, w, k, true, noise, None);
      var look := Looked(p, w, c, noise);
      assert Persisted(look.planet, look.world);
      var s := SetCellMaterial(p, w, c, m, updateServer, noise).value;
      if s.value {
        var chunk := WriteCell(look.planet.chunks[k], LocalOffset(DimsOf(p), c), m);
        PersistedAfterWrite(look.planet, look.world, k, chunk, s.world.outbox);
        assert s.planet == look.planet.(chunks := look.planet.chunks[k := chunk]);
        SetCellMaterialEffects(p.state.id, p, w, c, m, updateServer, noise);
      }
    }
  }

  /** Writing a cached chunk back to its own row keeps the cache saved. */
  lemma PersistedAfterWrite(p: Planet, w: World, k: ChunkIndex, chunk: Chunk, outbox: seq<Call>)
    requires Persisted(p, w) && k in p.chunks
    ensures var store := if p.hasDb && KeyOf(p, k) in w.store then w.store[KeyOf(p, k) := chunk] else w.store;
            Persisted(p.(chunks := p.chunks[k := chunk]), World(store, outbox))
  {
  }

  /** The source's store update loses the edits of every planet other than
      planet 0: the planet's own row keeps the chunk as it was before the
      edit, so a reload after a restart brings back the old material; and
      when planet 0 has a row at the same chunk index, that row is
      overwritten with this planet's chunk. */
  lemma AsWrittenLosesEdit(p: Planet, w: World, c: CellIndex, m: int, updateServer: bool, noise: Noise)
    requires p.state.id != 0 && p.hasDb && !p.hasRpc && Persisted(p, w)
    requires SetCellMaterialAsWritten(p, w, c, m, updateServer, noise).Done?
    requires SetCellMaterialAsWritten(p, w, c, m, updateServer, noise).value.value
    ensures var s := SetCellMaterialAsWritten(p, w, c, m, updateServer, noise).value;
            var k := CellIndexToChunkIndex(c);
            var l := LocalOffset(DimsOf(p), c);
            && KeyOf(p, k) in s.world.store
            && CellAt(s.planet.chunks[k], l) == Some(m)
            && CellAt(s.world.store[KeyOf(p, k)], l) != Some(m)
            && (StoreKey(0, k) in s.world.store ==> s.world.store[StoreKey(0, k)] == s.planet.chunks[k])
  {
    var k := CellIndexToChunkIndex(c);
    var l := LocalOffset(DimsOf(p), c);
    GetChunkPreserves(p, w, k, true, noise, None);
    var look := Looked(p, w, c, noise);
    assert look.value.Some? && look.value != Some(m);
    assert KeyOf(p, k) in look.world.store && look.world.store[KeyOf(p, k)] == look.planet.chunks[k];
    SetCellMaterialEffects(0, p, w, c, m, updateServer, noise);
  }

  /** The two edits differ only in the stored row they update: on a planet
      without a store (the client's) they agree, and on planet 0 too. */
  lemma EditsAgreeWithoutStore(p: Planet, w: World, c: CellIndex, m: int, updateServer: bool, noise: Noise)
    requires !p.hasDb || p.state.id == 0
    ensures SetCellMaterialAsWritten(p, w, c, m, updateServer, noise) == SetCellMaterial(p, w, c, m, updateServer, noise)
  {
  }
}
