/** The older planet of pkg/geom/planet.go: a single planet whose store
    rows are always those of planet 0, whose remote fetches are always
    asynchronous, whose chunks coarsen only in longitude near the poles and
    hold lonCells x 16 x 16 cells, and whose edits are always sent to the
    server when there is a remote link. */
module GeomPlanet {
  import opened Wrappers
  import opened GoInt
  import opened Grid
  import opened Chunks
  import opened Generators

  /** The material codes of this version (constants in the same file). */
  const Air: int := 0
  const Moon: int := 4
  const Asteroid: int := 5

  /** The planet's dimensions and caches. LatMax is always 90 (set by
      NewPlanet) and is built into the band tests. */
  datatype Planet = Planet(
    altMin: real,
    altDelta: real,
    lonCells: int,
    latCells: int,
    altCells: int,
    seed: int,
    hasRpc: bool,
    hasDb: bool,
    chunks: map<ChunkIndex, Chunk>)

  datatype Call =
    | GetChunkCall(ind: ChunkIndex)
    | SetCellMaterialCall(index: CellIndex, material: int)

  /** The store's rows are keyed by chunk index alone (always planet 0). */
  datatype World = World(store: map<ChunkIndex, Chunk>, outbox: seq<Call>)

  datatype Step<T> = Step(planet: Planet, world: World, value: T)

  /** NewPlanet. `lonProduct` and `latProduct` are the float64 values
      `2*Pi*3/4*radius+0.5` and `Pi*radius`. AltMin is computed from the
      altitude count as given, before it is rounded. */
  function NewPlanet(radius: real, altCells: int, seed: int, lonProduct: real, latProduct: real, hasRpc: bool, hasDb: bool): (p: Planet)
    ensures p.altMin == radius - altCells as real && p.altDelta == 1.0
    ensures p.seed == seed && p.hasRpc == hasRpc && p.hasDb == hasDb && p.chunks == map[]
  {
    Planet(radius - altCells as real, 1.0, RoundToChunks(Trunc(lonProduct)), RoundToChunks(Trunc(latProduct)),
           RoundToChunks(altCells), seed, hasRpc, hasDb, map[])
  }

  /** All three counts are whole chunks, and, unlike the canonical planet,
      AltMin is offset by the unrounded altitude count, so it differs from
      `radius - AltCells` whenever the given count is not a multiple of 16. */
  lemma NewPlanetDims(radius: real, altCells: int, seed: int, lonProduct: real, latProduct: real, hasRpc: bool, hasDb: bool)
    requires altCells >= 0 && lonProduct >= 0.0 && latProduct >= 0.0
    ensures var p := NewPlanet(radius, altCells, seed, lonProduct, latProduct, hasRpc, hasDb);
            && p.lonCells % ChunkSize == 0 && p.latCells % ChunkSize == 0 && p.altCells % ChunkSize == 0
            && p.altCells <= altCells < p.altCells + ChunkSize
            && (p.lonCells as real) <= lonProduct < (p.lonCells + ChunkSize) as real
            && (p.latCells as real) <= latProduct < (p.latCells + ChunkSize) as real
            && (radius - p.altMin == p.altCells as real <==> altCells % ChunkSize == 0)
  {
  }

  /** The range test of GetChunk and CellIndexToChunk. */
  predicate InRange(p: Planet, ind: ChunkIndex) {
    ChunkInRange(Dims(p.lonCells, p.latCells, p.altCells, 0.0), ind)
  }

  /** LonCellsInChunkIndex: 4 at least 80 degrees from the equator, 8 at
      least 60, else 16. */
  function LonCellsInChunkIndex(p: Planet, ind: ChunkIndex): (n: int)
    ensures n in {4, 8, 16}
  {
    if Beyond80(p.latCells, ind.lat) then ChunkSize / 4
    else if Beyond60(p.latCells, ind.lat) then ChunkSize / 2
    else ChunkSize
  }

  /** The count depends on the latitude index alone, and agrees with the
      canonical planet's longitude count for a chunk far from the core. */
  lemma LonCellsMatchesCanonical(p: Planet, ind: ChunkIndex, radius: real)
    requires !BelowQuarterRadius(radius, ind.alt) && !BelowEighthRadius(radius, ind.alt)
    ensures forall other: ChunkIndex :: other.lat == ind.lat ==> LonCellsInChunkIndex(p, other) == LonCellsInChunkIndex(p, ind)
    ensures LonCellsInChunkIndex(p, ind)
         == LonLatCellsInChunkIndex(Dims(p.lonCells, p.latCells, p.altCells, radius), ind).lonCells
  {
    Beyond80ImpliesBeyond60(p.latCells, ind.lat);
  }

  /** The slot of a cell: `[(lon % 16) / (16 / lonCells)][lat % 16][alt % 16]`. */
  function LocalOffset(p: Planet, c: CellIndex): LocalIndex {
    var n := LonCellsInChunkIndex(p, CellIndexToChunkIndex(c));
    LocalIndex(GoDiv(GoRem(c.lon, ChunkSize), ChunkSize / n), GoRem(c.lat, ChunkSize), GoRem(c.alt, ChunkSize))
  }

  /** The material newChunk gives a slot: below the noise height
      `(n + 1) * AltCells / 2` it is asteroid above altitude 8 and moon
      otherwise; above the height it is air. */
  function SlotMaterial(p: Planet, noise: Noise, loc: CellLoc): int {
    if loc.alt <= NoiseHeight(p, noise, loc) then (if loc.alt > 8.0 then Asteroid else Moon) else Air
  }

  function SlotLoc(ind: ChunkIndex, n: int, i: int, j: int, k: int): CellLoc
    requires n > 0
  {
    CellLoc((ChunkSize * ind.lon + i * (ChunkSize / n)) as real, (ChunkSize * ind.lat + j) as real, (ChunkSize * ind.alt + k) as real)
  }

  /** The noise height at a slot's corner: noise in [-1, 1] maps onto the
      planet's altitude range [0, altCells]. */
  function NoiseHeight(p: Planet, noise: Noise, loc: CellLoc): (h: real)
    ensures 0 <= p.altCells && -1.0 <= noise(loc) <= 1.0 ==> 0.0 <= h <= p.altCells as real
    ensures noise(loc) == -1.0 ==> h == 0.0
    ensures noise(loc) == 1.0 ==> h == p.altCells as real
  {
    var n, a := noise(loc) + 1.0, p.altCells as real;
    assert 0.0 <= n <= 2.0 && 0.0 <= a ==> 0.0 <= n * a <= 2.0 * a by {
      if 0.0 <= n <= 2.0 && 0.0 <= a {
        assert (2.0 - n) * a >= 0.0;
      }
    }
    n * a / 2.0
  }

  /** newChunk: a lonCells x 16 x 16 array of moon, asteroid and air, in
      which a slot is air exactly when its altitude is above the noise
      height at its corner. */
  function NewChunk(p: Planet, ind: ChunkIndex, noise: Noise): (c: Chunk)
    ensures !c.waitingForData
    ensures HasShape(c, LonCellsInChunkIndex(p, ind), ChunkSize, ChunkSize)
    ensures forall i, j, k :: 0 <= i < |c.cells| && 0 <= j < |c.cells[i]| && 0 <= k < |c.cells[i][j]| ==>
              c.cells[i][j][k] in {Air, Moon, Asteroid}
    ensures forall i, j, k :: 0 <= i < |c.cells| && 0 <= j < |c.cells[i]| && 0 <= k < |c.cells[i][j]| ==>
              (c.cells[i][j][k] == Air <==>
                 (ChunkSize * ind.alt + k) as real > NoiseHeight(p, noise, SlotLoc(ind, LonCellsInChunkIndex(p, ind), i, j, k)))
  {
    var n := LonCellsInChunkIndex(p, ind);
    Chunk(false, seq(n, i => seq(ChunkSize, j => seq(ChunkSize, k => SlotMaterial(p, noise, SlotLoc(ind, n, i, j, k))))))
  }

  /** Solid slots at altitude 8 or below are moon rock, higher ones asteroid. */
  lemma NewChunkLayers(p: Planet, ind: ChunkIndex, noise: Noise, i: int, j: int, k: int)
    requires 0 <= i < LonCellsInChunkIndex(p, ind) && 0 <= j < ChunkSize && 0 <= k < ChunkSize
    ensures var m := NewChunk(p, ind, noise).cells[i][j][k];
            m != Air ==> (m == Moon <==> ChunkSize * ind.alt + k <= 8)
  {
  }

  /** GetChunk: as in the canonical planet, but the store row is planet 0's
      and, with a remote link, the fetch is always asynchronous. */
  function GetChunk(p: Planet, w: World, ind: ChunkIndex, noise: Noise): (r: Step<Option<Chunk>>)
    ensures r.planet == p.(chunks := r.planet.chunks)
    ensures r.value.Some? ==> ind in r.planet.chunks && r.planet.chunks[ind] == r.value.value
  {
    if !InRange(p, ind) then Step(p, w, None)
    else if ind in p.chunks then
      var c := p.chunks[ind];
      if c.waitingForData then Step(p, w, None) else Step(p, w, Some(c))
    else if !p.hasRpc then
      if p.hasDb then
        if ind in w.store then
          var c := w.store[ind];
          Step(p.(chunks := p.chunks[ind := c]), w, Some(c))
        else
          var c := NewChunk(p, ind, noise);
          Step(p.(chunks := p.chunks[ind := c]), w.(store := w.store[ind := c]), Some(c))
      else
        var c := NewChunk(p, ind, noise);
        Step(p.(chunks := p.chunks[ind := c]), w, Some(c))
    else
      Step(p.(chunks := p.chunks[ind := Placeholder]), w.(outbox := w.outbox + [GetChunkCall(ind)]), None)
  }

  /** The asynchronous fetch's callback: the reply replaces the cache entry
      for its index. A call that failed leaves the reply as Go's zero
      chunk, `Chunk(false, [])`. */
  function CompleteFetch(p: Planet, ind: ChunkIndex, reply: Chunk): (q: Planet)
    ensures q == p.(chunks := q.chunks) && ind in q.chunks && q.chunks[ind] == reply
    ensures forall k :: k in p.chunks && k != ind ==> k in q.chunks && q.chunks[k] == p.chunks[k]
    ensures q.chunks.Keys == p.chunks.Keys + {ind}
  {
    p.(chunks := p.chunks[ind := reply])
  }

  /** GetChunk's cases: out of range or pending, nil and no change; with a
      remote link an uncached chunk always yields nil, a placeholder and one
      fetch; without one, the stored row or a generated (and then stored)
      chunk is cached and returned, and asking again returns it unchanged. */
  lemma GetChunkCases(p: Planet, w: World, ind: ChunkIndex, noise: Noise, noise2: Noise)
    ensures var s := GetChunk(p, w, ind, noise);
            && ((!InRange(p, ind) || (ind in p.chunks && p.chunks[ind].waitingForData)) ==> s == Step(p, w, None))
            && (InRange(p, ind) && ind !in p.chunks && p.hasRpc ==>
                  s.value.None? && s.planet.chunks[ind] == Placeholder && s.world.outbox == w.outbox + [GetChunkCall(ind)]
                  && GetChunk(s.planet, s.world, ind, noise2) == Step(s.planet, s.world, None))
            && (InRange(p, ind) && ind !in p.chunks && !p.hasRpc ==>
                  && s.value.Some?
                  && (p.hasDb && ind in w.store ==> s.value.value == w.store[ind] && s.world == w)
                  && (p.hasDb ==> ind in s.world.store && s.world.store[ind] == s.value.value)
                  && (!s.value.value.waitingForData ==> GetChunk(s.planet, s.world, ind, noise2) == Step(s.planet, s.world, s.value)))
  {
  }

  /** CellIndexToCell: nil when the chunk is; Go's index panic when the
      chunk found lacks the slot. */
  function CellIndexToCell(p: Planet, w: World, c: CellIndex, noise: Noise): (r: Outcome<Step<Option<int>>>)
    ensures r.Done? ==> r.value.planet == p.(chunks := r.value.planet.chunks)
    ensures r.Done? && r.value.value.Some? ==>
      var k := CellIndexToChunkIndex(c);
      k in r.value.planet.chunks && CellAt(r.value.planet.chunks[k], LocalOffset(p, c)) == r.value.value
  {
    var k := CellIndexToChunkIndex(c);
    if !InRange(p, k) then Done(Step(p, w, None))
    else
      var s := GetChunk(p, w, k, noise);
      match s.value
      case None => Done(Step(s.planet, s.world, None))
      case Some(chunk) =>
        match CellAt(chunk, LocalOffset(p, c))
        case None => Panic("index out of range")
        case Some(m) => Done(Step(s.planet, s.world, Some(m)))
  }

  /** A cell of a generated chunk always has its slot: its local offset
      lies inside the lonCells x 16 x 16 array. */
  lemma LocalOffsetInChunk(p: Planet, c: CellIndex)
    requires InRange(p, CellIndexToChunkIndex(c))
    ensures var l := LocalOffset(p, c);
            0 <= l.lon < LonCellsInChunkIndex(p, CellIndexToChunkIndex(c)) && 0 <= l.lat < ChunkSize && 0 <= l.alt < ChunkSize
  {
    var k := CellIndexToChunkIndex(c);
    assert c.lon >= 0 && c.lat >= 0 && c.alt >= 0;
    AxisOffset(c.lon, LonCellsInChunkIndex(p, k));
    GoAgreesOnNatural(c.lat, ChunkSize);
    GoAgreesOnNatural(c.alt, ChunkSize);
  }

  /** SetCellMaterial: false for a missing cell or an unchanged material;
      otherwise the slot is written, the call is sent whenever there is a
      remote link, and planet 0's row is updated when there is a store. */
  function SetCellMaterial(p: Planet, w: World, c: CellIndex, m: int, noise: Noise): (r: Outcome<Step<bool>>)
    ensures r.Done? ==> r.value.planet == p.(chunks := r.value.planet.chunks)
  {
    match CellIndexToCell(p, w, c, noise)
    case Panic(why) => Panic(why)
    case Done(s) =>
      if s.value.None? || s.value.value == m then Done(Step(s.planet, s.world, false))
      else
        var k := CellIndexToChunkIndex(c);
        var chunk := WriteCell(s.planet.chunks[k], LocalOffset(p, c), m);
        var outbox := if p.hasRpc then s.world.outbox + [SetCellMaterialCall(c, m)] else s.world.outbox;
        var store := if p.hasDb && k in s.world.store then s.world.store[k := chunk] else s.world.store;
        Done(Step(s.planet.(chunks := s.planet.chunks[k := chunk]), World(store, outbox), true))
  }

  /** An edit sends SetCellMaterial exactly when it changes a cell and there
      is a remote link (there is no flag to suppress it); the changed cell
      reads back as the new material; and repeating the edit returns false
      with nothing changed. */
  lemma SetCellMaterialProperties(p: Planet, w: World, c: CellIndex, m: int, noise: Noise)
    requires SetCellMaterial(p, w, c, m, noise).Done?
    ensures var s := SetCellMaterial(p, w, c, m, noise).value;
            var look := CellIndexToCell(p, w, c, noise).value;
            && (s.world.outbox == if s.value && p.hasRpc then look.world.outbox + [SetCellMaterialCall(c, m)] else look.world.outbox)
            && (s.value ==> CellAt(s.planet.chunks[CellIndexToChunkIndex(c)], LocalOffset(p, c)) == Some(m))
            && SetCellMaterial(s.planet, s.world, c, m, noise) == Done(Step(s.planet, s.world, false))
  {
    var s := SetCellMaterial(p, w, c, m, noise).value;
    var k := CellIndexToChunkIndex(c);
    var l := LocalOffset(p, c);
    var look := CellIndexToCell(p, w, c, noise).value;
    assert s.planet.(chunks := p.chunks) == p;
    if s.value {
      ReadAfterWrite(look.planet.chunks[k], l, m, l);
    } else if InRange(p, k) && look.value.None? && k in look.planet.chunks {
      assert look.planet.chunks[k].waitingForData;
    }
  }
}
