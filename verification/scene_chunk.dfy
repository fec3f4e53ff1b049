/** Face culling of a chunk renderer (updateGeometry in pkg/scene/chunk.go):
    which faces of which cells are emitted, not the vertices. Every Go
    runtime panic along the way (an index out of range, an integer division
    by zero, the explicit dimension-mismatch panics) is an `Outcome.Panic`. */
module SceneChunk {
  import opened Wrappers
  import opened GoInt
  import opened Grid
  import opened Chunks
  import opened Materials
  import opened CommonPlanet

  /** A cell's material, or Go's index panic when the chunk has no such slot. */
  function Cell(c: Chunk, i: int, j: int, k: int): (r: Outcome<int>)
    ensures r.Done? <==> HasSlot(c, LocalIndex(i, j, k))
    ensures r.Done? ==> r.value == c.cells[i][j][k]
  {
    match CellAt(c, LocalIndex(i, j, k))
    case None => Panic("index out of range")
    case Some(m) => Done(m)
  }

  /** The loop `for olon in [olon, lonEnd) { for olat in [latStart, latEnd)
      { ... } }` that returns true at the first air cell of altitude `alt`.
      Called mid-row, `olat` is where the current row resumes. */
  function BlockHasAir(c: Chunk, olon: int, lonEnd: int, latStart: int, olat: int, latEnd: int, alt: int): (r: Outcome<bool>)
    ensures r == Done(true) ==> exists i, j :: olon <= i < lonEnd && j < latEnd && IsAir(c, i, j, alt)
    decreases lonEnd - olon, latEnd - olat
  {
    if olon >= lonEnd then Done(false)
    else if olat >= latEnd then BlockHasAir(c, olon + 1, lonEnd, latStart, latStart, latEnd, alt)
    else
      var m :- Cell(c, olon, olat, alt);
      if m == Air then
        assert IsAir(c, olon, olat, alt);
        Done(true)
      else BlockHasAir(c, olon, lonEnd, latStart, olat + 1, latEnd, alt)
  }

  /** Every slot of the block exists. */
  predicate BlockInChunk(c: Chunk, lonStart: int, lonEnd: int, latStart: int, latEnd: int, alt: int) {
    forall i, j :: lonStart <= i < lonEnd && latStart <= j < latEnd ==> HasSlot(c, LocalIndex(i, j, alt))
  }

  predicate IsAir(c: Chunk, i: int, j: int, alt: int) {
    CellAt(c, LocalIndex(i, j, alt)) == Some(Air)
  }

  /** Some air cell among those the loop has still to visit: the rest of
      row `olon` from `olat`, then the whole rows after it. */
  ghost predicate AirAhead(c: Chunk, olon: int, lonEnd: int, latStart: int, olat: int, latEnd: int, alt: int) {
    exists i, j :: ((i == olon && olat <= j) || (olon < i && latStart <= j)) && i < lonEnd && j < latEnd && IsAir(c, i, j, alt)
  }

  /** Some cell of the block is air. */
  predicate AirInBlock(c: Chunk, lonStart: int, lonEnd: int, latStart: int, latEnd: int, alt: int) {
    exists i, j :: lonStart <= i < lonEnd && latStart <= j < latEnd && IsAir(c, i, j, alt)
  }

  /** On a block that lies inside the chunk the loop cannot panic, and it
      answers whether an air cell is still ahead of it. */
  lemma {:induction false} BlockHasAirMeansAir(c: Chunk, olon: int, lonEnd: int, latStart: int, olat: int, latEnd: int, alt: int)
    requires BlockInChunk(c, olon, lonEnd, latStart, latEnd, alt) && latStart <= olat
    ensures BlockHasAir(c, olon, lonEnd, latStart, olat, latEnd, alt) == Done(AirAhead(c, olon, lonEnd, latStart, olat, latEnd, alt))
    decreases lonEnd - olon, latEnd - olat
  {
    if olon >= lonEnd {
    } else if olat >= latEnd {
      BlockHasAirMeansAir(c, olon + 1, lonEnd, latStart, latStart, latEnd, alt);
      if AirAhead(c, olon, lonEnd, latStart, olat, latEnd, alt) {
        var i, j :| ((i == olon && olat <= j) || (olon < i && latStart <= j)) && i < lonEnd && j < latEnd && IsAir(c, i, j, alt);
        assert AirAhead(c, olon + 1, lonEnd, latStart, latStart, latEnd, alt);
      }
      if AirAhead(c, olon + 1, lonEnd, latStart, latStart, latEnd, alt) {
        var i, j :| ((i == olon + 1 && latStart <= j) || (olon + 1 < i && latStart <= j)) && i < lonEnd && j < latEnd && IsAir(c, i, j, alt);
        assert AirAhead(c, olon, lonEnd, latStart, olat, latEnd, alt);
      }
    } else {
      assert HasSlot(c, LocalIndex(olon, olat, alt));
      BlockHasAirMeansAir(c, olon, lonEnd, latStart, olat + 1, latEnd, alt);
      if IsAir(c, olon, olat, alt) {
        assert AirAhead(c, olon, lonEnd, latStart, olat, latEnd, alt);
      } else {
        if AirAhead(c, olon, lonEnd, latStart, olat, latEnd, alt) {
          var i, j :| ((i == olon && olat <= j) || (olon < i && latStart <= j)) && i < lonEnd && j < latEnd && IsAir(c, i, j, alt);
          assert (i, j) != (olon, olat);
          assert AirAhead(c, olon, lonEnd, latStart, olat + 1, latEnd, alt);
        }
        if AirAhead(c, olon, lonEnd, latStart, olat + 1, latEnd, alt) {
          var i, j :| ((i == olon && olat + 1 <= j) || (olon < i && latStart <= j)) && i < lonEnd && j < latEnd && IsAir(c, i, j, alt);
          assert AirAhead(c, olon, lonEnd, latStart, olat, latEnd, alt);
        }
      }
    }
  }

  /** From the start of a block, what is ahead is the whole block. */
  lemma AirAheadOfBlock(c: Chunk, lonStart: int, lonEnd: int, latStart: int, latEnd: int, alt: int)
    ensures AirAhead(c, lonStart, lonEnd, latStart, latStart, latEnd, alt) <==> AirInBlock(c, lonStart, lonEnd, latStart, latEnd, alt)
  {
    if AirAhead(c, lonStart, lonEnd, latStart, latStart, latEnd, alt) {
      var i, j :| ((i == lonStart && latStart <= j) || (lonStart < i && latStart <= j)) && i < lonEnd && j < latEnd && IsAir(c, i, j, alt);
      assert AirInBlock(c, lonStart, lonEnd, latStart, latEnd, alt);
    }
  }

  /** hasAirAlt: the neighbour above or below answers for the cell at
      (lon, lat). A neighbour with no more cells than this chunk on either
      axis is read at its covering cell `[lon / f][lat / g]`; one finer on
      both axes is searched over all the cells it has for that position.
      A neighbour without cells never answers, and a yes is always an air
      cell of the neighbour at altitude `alt`. */
  function HasAirAlt(c: Chunk, lonCells: int, latCells: int, lon: int, lat: int, alt: int): (r: Outcome<bool>)
    requires lonCells > 0 && latCells > 0
    ensures c.cells == [] ==> r == Panic("integer divide by zero")
    ensures r == Done(true) ==> exists i, j :: IsAir(c, i, j, alt)
  {
    var n := |c.cells|;
    if n <= lonCells || |c.cells[0]| <= latCells then
      if n == 0 || |c.cells[0]| == 0 then Panic("integer divide by zero")
      else
        var lonFactor := lonCells / n;
        var latFactor := latCells / |c.cells[0]|;
        if lonFactor == 0 || latFactor == 0 then Panic("integer divide by zero")
        else
          var m :- Cell(c, GoDiv(lon, lonFactor), GoDiv(lat, latFactor), alt);
          assert m == Air ==> IsAir(c, GoDiv(lon, lonFactor), GoDiv(lat, latFactor), alt);
          Done(m == Air)
    else
      var lonFactor := n / lonCells;
      var latFactor := |c.cells[0]| / latCells;
      BlockHasAir(c, lon * lonFactor, (lon + 1) * lonFactor, lat * latFactor, lat * latFactor, (lat + 1) * latFactor, alt)
  }

  /** hasAirAlt on a neighbour no finer than this chunk, with the covering
      cell present: that cell answers. An empty neighbour divides by
      zero. */
  lemma HasAirAltCoarse(c: Chunk, lonCells: int, latCells: int, lon: int, lat: int, alt: int)
    requires lonCells > 0 && latCells > 0 && 0 <= lon && 0 <= lat
    requires 0 < |c.cells| <= lonCells && 0 < |c.cells[0]| <= latCells
    ensures var ci, cj := lon / (lonCells / |c.cells|), lat / (latCells / |c.cells[0]|);
            HasSlot(c, LocalIndex(ci, cj, alt)) ==>
              HasAirAlt(c, lonCells, latCells, lon, lat, alt) == Done(c.cells[ci][cj][alt] == Air)
  {
    GoAgreesOnNatural(lon, lonCells / |c.cells|);
    GoAgreesOnNatural(lat, latCells / |c.cells[0]|);
  }

  /** hasAirAlt on a neighbour finer than this chunk on both axes, with the
      whole block of cells it has for (lon, lat) present: the answer is
      whether any of them is air. */
  lemma HasAirAltFine(c: Chunk, lonCells: int, latCells: int, lon: int, lat: int, alt: int)
    requires lonCells > 0 && latCells > 0
    requires |c.cells| > lonCells && |c.cells[0]| > latCells
    ensures var f, g := |c.cells| / lonCells, |c.cells[0]| / latCells;
            BlockInChunk(c, lon * f, (lon + 1) * f, lat * g, (lat + 1) * g, alt) ==>
              HasAirAlt(c, lonCells, latCells, lon, lat, alt) == Done(AirInBlock(c, lon * f, (lon + 1) * f, lat * g, (lat + 1) * g, alt))
  {
    var f, g := |c.cells| / lonCells, |c.cells[0]| / latCells;
    if BlockInChunk(c, lon * f, (lon + 1) * f, lat * g, (lat + 1) * g, alt) {
      BlockHasAirMeansAir(c, lon * f, (lon + 1) * f, lat * g, lat * g, (lat + 1) * g, alt);
      AirAheadOfBlock(c, lon * f, (lon + 1) * f, lat * g, (lat + 1) * g, alt);
    }
  }

  /** An empty neighbour (a placeholder) divides by zero. */
  lemma HasAirAltEmptyPanics(c: Chunk, lonCells: int, latCells: int, lon: int, lat: int, alt: int)
    requires lonCells > 0 && latCells > 0 && c.cells == []
    ensures HasAirAlt(c, lonCells, latCells, lon, lat, alt) == Panic("integer divide by zero")
  {
  }

  /** hasAirLat: a latitude neighbour must have this chunk's latitude
      count, else it panics; longitudes are matched as in hasAirAlt. */
  function HasAirLat(c: Chunk, lonCells: int, latCells: int, lon: int, lat: int, alt: int): (r: Outcome<bool>)
    requires lonCells > 0
    ensures |c.cells| > 0 && |c.cells[0]| != latCells ==>
              r == Panic("Chunks with same lon and alt should have the same lat cells")
  {
    var n := |c.cells|;
    if n == 0 then Panic("index out of range")
    else if |c.cells[0]| != latCells then Panic("Chunks with same lon and alt should have the same lat cells")
    else if n <= lonCells then
      var lonFactor := lonCells / n;
      var m :- Cell(c, GoDiv(lon, lonFactor), lat, alt);
      Done(m == Air)
    else
      var lonFactor := n / lonCells;
      BlockHasAir(c, lon * lonFactor, (lon + 1) * lonFactor, lat, lat, lat + 1, alt)
  }

  /** hasAirLon: a longitude neighbour must have this chunk's dimensions,
      else it panics; then the cell itself answers. */
  function HasAirLon(c: Chunk, lonCells: int, latCells: int, lon: int, lat: int, alt: int): (r: Outcome<bool>)
    requires lonCells > 0
    ensures (|c.cells| != lonCells || |c.cells[0]| != latCells) <==>
              r == Panic("Chunks with same lat and alt should have the same cell dimensions")
    ensures |c.cells| == lonCells && |c.cells[0]| == latCells && HasSlot(c, LocalIndex(lon, lat, alt)) ==>
              r == Done(c.cells[lon][lat][alt] == Air)
  {
    if |c.cells| != lonCells || |c.cells[0]| != latCells then
      Panic("Chunks with same lat and alt should have the same cell dimensions")
    else
      var m :- Cell(c, lon, lat, alt);
      Done(m == Air)
  }

  datatype Dir = PosAlt | NegAlt | PosLon | NegLon | PosLat | NegLat

  /** What a chunk's faces are decided by: its resolution, its six
      neighbours (None where the planet has no chunk) and whether it is the
      top or the bottom chunk of its column. */
  datatype Env = MakeEnv(
    lonCells: int, latCells: int,
    posAlt: Option<Chunk>, maxAltChunk: bool,
    negAlt: Option<Chunk>, minAltChunk: bool,
    posLat: Option<Chunk>, negLat: Option<Chunk>,
    posLon: Option<Chunk>, negLon: Option<Chunk>)

  predicate ValidEnv(env: Env) {
    env.lonCells > 0 && env.latCells > 0
  }

  /** `a || b` with Go's short circuit over a value that may panic. */
  function OrElse(a: Outcome<bool>, b: bool): Outcome<bool> {
    match a
    case Panic(why) => Panic(why)
    case Done(x) => Done(x || b)
  }

  /** A neighbour's answer: false with no neighbour, else the check. */
  function Neighbour(n: Option<Chunk>, check: Chunk -> Outcome<bool>): Outcome<bool> {
    match n
    case None => Done(false)
    case Some(c) => check(c)
  }

  /** The visibility test of the face of cell (cLon, cLat, cAlt) facing
      `dir`: inside the chunk, the adjacent cell is air; across the chunk
      boundary, the neighbour chunk has air there, or (for altitude only)
      the chunk is the topmost or bottom one. */
  function FaceVisible(env: Env, c: Chunk, cLon: int, cLat: int, cAlt: int, dir: Dir): (r: Outcome<bool>)
    requires ValidEnv(env)
    ensures Interior(env, cLon, cLat, cAlt, dir) ==>
              var l := Step(cLon, cLat, cAlt, dir);
              r == if HasSlot(c, l) then Done(c.cells[l.lon][l.lat][l.alt] == Air) else Panic("index out of range")
  {
    match dir
    case PosAlt =>
      if cAlt + 1 >= ChunkSize then
        OrElse(Neighbour(env.posAlt, n => HasAirAlt(n, env.lonCells, env.latCells, cLon, cLat, 0)), env.maxAltChunk)
      else var m :- Cell(c, cLon, cLat, cAlt + 1); Done(m == Air)
    case NegAlt =>
      if cAlt - 1 < 0 then
        OrElse(Neighbour(env.negAlt, n => HasAirAlt(n, env.lonCells, env.latCells, cLon, cLat, ChunkSize - 1)), env.minAltChunk)
      else var m :- Cell(c, cLon, cLat, cAlt - 1); Done(m == Air)
    case PosLon =>
      if cLon + 1 >= env.lonCells then
        Neighbour(env.posLon, n => HasAirLon(n, env.lonCells, env.latCells, 0, cLat, cAlt))
      else var m :- Cell(c, cLon + 1, cLat, cAlt); Done(m == Air)
    case NegLon =>
      if cLon - 1 < 0 then
        Neighbour(env.negLon, n => HasAirLon(n, env.lonCells, env.latCells, env.lonCells - 1, cLat, cAlt))
      else var m :- Cell(c, cLon - 1, cLat, cAlt); Done(m == Air)
    case PosLat =>
      if cLat + 1 >= env.latCells then
        Neighbour(env.posLat, n => HasAirLat(n, env.lonCells, env.latCells, cLon, 0, cAlt))
      else var m :- Cell(c, cLon, cLat + 1, cAlt); Done(m == Air)
    case NegLat =>
      if cLat - 1 < 0 then
        Neighbour(env.negLat, n => HasAirLat(n, env.lonCells, env.latCells, cLon, env.latCells - 1, cAlt))
      else var m :- Cell(c, cLon, cLat - 1, cAlt); Done(m == Air)
  }

  /** The cell one step in `dir`, when it is inside the chunk. */
  predicate Interior(env: Env, cLon: int, cLat: int, cAlt: int, dir: Dir) {
    match dir
    case PosAlt => cAlt + 1 < ChunkSize
    case NegAlt => cAlt - 1 >= 0
    case PosLon => cLon + 1 < env.lonCells
    case NegLon => cLon - 1 >= 0
    case PosLat => cLat + 1 < env.latCells
    case NegLat => cLat - 1 >= 0
  }

  function Step(cLon: int, cLat: int, cAlt: int, dir: Dir): LocalIndex {
    match dir
    case PosAlt => LocalIndex(cLon, cLat, cAlt + 1)
    case NegAlt => LocalIndex(cLon, cLat, cAlt - 1)
    case PosLon => LocalIndex(cLon + 1, cLat, cAlt)
    case NegLon => LocalIndex(cLon - 1, cLat, cAlt)
    case PosLat => LocalIndex(cLon, cLat + 1, cAlt)
    case NegLat => LocalIndex(cLon, cLat - 1, cAlt)
  }

  /** Inside the chunk a face is emitted exactly when the cell it faces is
      air; at a boundary with no neighbour chunk it is emitted only for the
      top face of the topmost chunk and the bottom face of chunk 0, and
      those two are emitted whatever the neighbour says, unless asking it
      panics. */
  lemma FaceVisibleRules(env: Env, c: Chunk, cLon: int, cLat: int, cAlt: int, dir: Dir)
    requires ValidEnv(env)
    ensures var l := Step(cLon, cLat, cAlt, dir);
            Interior(env, cLon, cLat, cAlt, dir) && HasSlot(c, l) ==>
              FaceVisible(env, c, cLon, cLat, cAlt, dir) == Done(c.cells[l.lon][l.lat][l.alt] == Air)
    ensures !Interior(env, cLon, cLat, cAlt, dir) ==>
              match dir
              case PosAlt => (env.posAlt.None? ==> FaceVisible(env, c, cLon, cLat, cAlt, dir) == Done(env.maxAltChunk))
                             && (env.maxAltChunk && FaceVisible(env, c, cLon, cLat, cAlt, dir).Done? ==> FaceVisible(env, c, cLon, cLat, cAlt, dir).value)
              case NegAlt => (env.negAlt.None? ==> FaceVisible(env, c, cLon, cLat, cAlt, dir) == Done(env.minAltChunk))
                             && (env.minAltChunk && FaceVisible(env, c, cLon, cLat, cAlt, dir).Done? ==> FaceVisible(env, c, cLon, cLat, cAlt, dir).value)
              case PosLon => env.posLon.None? ==> FaceVisible(env, c, cLon, cLat, cAlt, dir) == Done(false)
              case NegLon => env.negLon.None? ==> FaceVisible(env, c, cLon, cLat, cAlt, dir) == Done(false)
              case PosLat => env.posLat.None? ==> FaceVisible(env, c, cLon, cLat, cAlt, dir) == Done(false)
              case NegLat => env.negLat.None? ==> FaceVisible(env, c, cLon, cLat, cAlt, dir) == Done(false)
  {
  }

  /** Adds the faces of one direction to a running count. */
  function AddFace(count: Outcome<nat>, env: Env, c: Chunk, cLon: int, cLat: int, cAlt: int, dir: Dir): Outcome<nat>
    requires ValidEnv(env)
  {
    var n :- count;
    var v :- FaceVisible(env, c, cLon, cLat, cAlt, dir);
    Done(if v then n + 1 else n)
  }

  /** The faces emitted for one cell: none for air, otherwise one per
      visible direction, checked in the order the source checks them. */
  function CellFaces(env: Env, c: Chunk, cLon: int, cLat: int, cAlt: int): (r: Outcome<nat>)
    requires ValidEnv(env)
    ensures r.Done? ==> r.value <= 6
  {
    var m :- Cell(c, cLon, cLat, cAlt);
    if m == Air then Done(0)
    else
      var r := AddFace(AddFace(AddFace(AddFace(AddFace(AddFace(Done(0), env, c, cLon, cLat, cAlt, PosAlt),
                  env, c, cLon, cLat, cAlt, NegAlt), env, c, cLon, cLat, cAlt, PosLon), env, c, cLon, cLat, cAlt, NegLon),
                  env, c, cLon, cLat, cAlt, PosLat), env, c, cLon, cLat, cAlt, NegLat);
      assert r.Done? ==> r.value <= 6;
      r
  }

  /** An air cell produces no faces. */
  lemma AirHasNoFaces(env: Env, c: Chunk, cLon: int, cLat: int, cAlt: int)
    requires ValidEnv(env) && HasSlot(c, LocalIndex(cLon, cLat, cAlt)) && c.cells[cLon][cLat][cAlt] == Air
    ensures CellFaces(env, c, cLon, cLat, cAlt) == Done(0)
  {
  }

  /** A cell whose face test panics makes the whole cell panic. */
  lemma FacePanicIsCellPanic(env: Env, c: Chunk, cLon: int, cLat: int, cAlt: int, dir: Dir)
    requires ValidEnv(env) && HasSlot(c, LocalIndex(cLon, cLat, cAlt)) && c.cells[cLon][cLat][cAlt] != Air
    requires FaceVisible(env, c, cLon, cLat, cAlt, dir).Panic?
    ensures CellFaces(env, c, cLon, cLat, cAlt).Panic?
  {
  }

  /** The cells of a chunk at a resolution, in the loop order of
      updateGeometry (longitude, then latitude, then altitude). */
  function AltRun(i: int, j: int, k: int): (s: seq<LocalIndex>)
    ensures forall l :: l in s <==> (l.lon == i && l.lat == j && k <= l.alt < ChunkSize)
    decreases ChunkSize - k
  {
    if k >= ChunkSize then [] else [LocalIndex(i, j, k)] + AltRun(i, j, k + 1)
  }

  function LatRun(i: int, j: int, latCells: int): (s: seq<LocalIndex>)
    ensures forall l :: l in s ==> l.lon == i && j <= l.lat < latCells && 0 <= l.alt < ChunkSize
    decreases latCells - j
  {
    if j >= latCells then [] else AltRun(i, j, 0) + LatRun(i, j + 1, latCells)
  }

  function CellOrder(i: int, lonCells: int, latCells: int): (s: seq<LocalIndex>)
    ensures forall l :: l in s ==> i <= l.lon < lonCells && 0 <= l.lat < latCells && 0 <= l.alt < ChunkSize
    decreases lonCells - i
  {
    if i >= lonCells then [] else LatRun(i, 0, latCells) + CellOrder(i + 1, lonCells, latCells)
  }

  lemma {:induction false} LatRunCovers(i: int, j: int, latCells: int, l: LocalIndex)
    requires l.lon == i && j <= l.lat < latCells && 0 <= l.alt < ChunkSize
    ensures l in LatRun(i, j, latCells)
    decreases latCells - j
  {
    assert LatRun(i, j, latCells) == AltRun(i, j, 0) + LatRun(i, j + 1, latCells);
    if l.lat > j {
      LatRunCovers(i, j + 1, latCells, l);
    } else {
      assert l in AltRun(i, j, 0);
    }
  }

  /** The loop visits every cell of the resolution, and only those. */
  lemma {:induction false} CellOrderCovers(i: int, lonCells: int, latCells: int, l: LocalIndex)
    ensures l in CellOrder(i, lonCells, latCells) <==>
              (i <= l.lon < lonCells && 0 <= l.lat < latCells && 0 <= l.alt < ChunkSize)
    decreases lonCells - i
  {
    if i <= l.lon < lonCells && 0 <= l.lat < latCells && 0 <= l.alt < ChunkSize {
      assert CellOrder(i, lonCells, latCells) == LatRun(i, 0, latCells) + CellOrder(i + 1, lonCells, latCells);
      if l.lon == i {
        LatRunCovers(i, 0, latCells, l);
      } else {
        CellOrderCovers(i + 1, lonCells, latCells, l);
      }
    }
  }

  /** The faces of a sequence of cells, stopping at the first panic. */
  function CountFaces(env: Env, c: Chunk, cells: seq<LocalIndex>): (r: Outcome<nat>)
    requires ValidEnv(env)
    ensures r.Done? ==> r.value <= 6 * |cells|
    decreases |cells|
  {
    if cells == [] then Done(0)
    else
      var n :- CellFaces(env, c, cells[0].lon, cells[0].lat, cells[0].alt);
      var rest :- CountFaces(env, c, cells[1..]);
      Done(n + rest)
  }

  /** The count panics exactly when some cell's faces do. */
  lemma {:induction false} CountFacesPanics(env: Env, c: Chunk, cells: seq<LocalIndex>)
    requires ValidEnv(env)
    ensures CountFaces(env, c, cells).Panic? <==>
              exists i :: 0 <= i < |cells| && CellFaces(env, c, cells[i].lon, cells[i].lat, cells[i].alt).Panic?
    ensures CountFaces(env, c, cells).Done? ==> CountFaces(env, c, cells).value <= 6 * |cells|
    decreases |cells|
  {
    if cells != [] {
      CountFacesPanics(env, c, cells[1..]);
      assert forall i :: 1 <= i < |cells| ==> cells[1..][i - 1] == cells[i];
      if exists i :: 1 <= i < |cells| && CellFaces(env, c, cells[i].lon, cells[i].lat, cells[i].alt).Panic? {
        var i :| 1 <= i < |cells| && CellFaces(env, c, cells[i].lon, cells[i].lat, cells[i].alt).Panic?;
        assert CellFaces(env, c, cells[1..][i - 1].lon, cells[1..][i - 1].lat, cells[1..][i - 1].alt).Panic?;
      }
    }
  }

  /** The renderer's state after updateGeometry: with `faceVertices`
      vertices per face (the cube tables are not part of this model), the
      triangle count is the vertex count, and the geometry is marked
      up to date only when it is positive. */
  datatype ChunkRenderer = ChunkRenderer(geometryUpdated: bool, numTriangles: int)

  function ApplyFaces(cr: ChunkRenderer, faces: nat, faceVertices: nat): (r: ChunkRenderer)
    ensures r.numTriangles == faces * faceVertices
    ensures r.geometryUpdated <==> (cr.geometryUpdated || faces * faceVertices > 0)
  {
    var n := faces * faceVertices;
    if n > 0 then ChunkRenderer(true, n) else cr.(numTriangles := n)
  }

  /** The neighbour environment as updateGeometry builds it: a map lookup
      per neighbour, so a WaitingForData placeholder counts as a neighbour.
      `(lon + 1) % lonChunks` divides by zero on a planet with fewer than
      16 longitude cells. */
  function EnvAsWritten(p: Planet, key: ChunkIndex): (r: Outcome<Env>)
    ensures r.Done? ==> ValidEnv(r.value)
  {
    EnvWith(p, key, k => if k in p.chunks then Some(p.chunks[k]) else None)
  }

  /** The corrected environment: a chunk still waiting for its data is no
      neighbour, as if absent. */
  function EnvOf(p: Planet, key: ChunkIndex): (r: Outcome<Env>)
    ensures r.Done? ==> ValidEnv(r.value)
  {
    EnvWith(p, key, k => if k in p.chunks && !p.chunks[k].waitingForData then Some(p.chunks[k]) else None)
  }

  function EnvWith(p: Planet, key: ChunkIndex, lookup: ChunkIndex -> Option<Chunk>): (r: Outcome<Env>)
    ensures r.Done? ==> ValidEnv(r.value)
    ensures r.Done? <==> GoDiv(p.lonCells, ChunkSize) != 0
    ensures r.Done? ==> forall d :: Toward(r.value, d) == lookup(Adjacent(key, d, GoDiv(p.lonCells, ChunkSize)))
  {
    var res := LonLatCellsInChunkIndex(DimsOf(p), key);
    var lonChunks := GoDiv(p.lonCells, ChunkSize);
    if lonChunks == 0 then Panic("integer divide by zero")
    else
      Done(MakeEnv(res.lonCells, res.latCells,
                   lookup(Adjacent(key, PosAlt, lonChunks)), key.alt >= GoDiv(p.state.altCells, ChunkSize) - 1,
                   lookup(Adjacent(key, NegAlt, lonChunks)), key.alt == 0,
                   lookup(Adjacent(key, PosLat, lonChunks)), lookup(Adjacent(key, NegLat, lonChunks)),
                   lookup(Adjacent(key, PosLon, lonChunks)), lookup(Adjacent(key, NegLon, lonChunks))))
  }

  /** The neighbour environment's chunk in direction `d`. */
  function Toward(e: Env, d: Dir): Option<Chunk> {
    match d
    case PosAlt => e.posAlt
    case NegAlt => e.negAlt
    case PosLon => e.posLon
    case NegLon => e.negLon
    case PosLat => e.posLat
    case NegLat => e.negLat
  }

  /** The key of the chunk next to `key` in direction `d`: longitude wraps
      around the ring of `lonChunks` chunks (`(lon + 1) % lonChunks`
      forward, the last chunk before chunk 0), latitude and altitude do
      not wrap. */
  function Adjacent(key: ChunkIndex, d: Dir, lonChunks: int): ChunkIndex
    requires d == PosLon ==> lonChunks != 0
  {
    match d
    case PosAlt => key.(alt := key.alt + 1)
    case NegAlt => key.(alt := key.alt - 1)
    case PosLat => key.(lat := key.lat + 1)
    case NegLat => key.(lat := key.lat - 1)
    case PosLon => key.(lon := GoRem(key.lon + 1, lonChunks))
    case NegLon => key.(lon := if key.lon - 1 < 0 then lonChunks - 1 else key.lon - 1)
  }

  function Opposite(d: Dir): Dir {
    match d
    case PosAlt => NegAlt
    case NegAlt => PosAlt
    case PosLon => NegLon
    case NegLon => PosLon
    case PosLat => NegLat
    case NegLat => PosLat
  }

  /** On a ring of chunks, stepping to a neighbour and back returns to the
      start, so adjacency is symmetric. */
  lemma AdjacentInverse(key: ChunkIndex, d: Dir, lonChunks: int)
    requires lonChunks > 0 && 0 <= key.lon < lonChunks
    ensures 0 <= Adjacent(key, d, lonChunks).lon < lonChunks
    ensures Adjacent(Adjacent(key, d, lonChunks), Opposite(d), lonChunks) == key
  {
    var n := lonChunks;
    if d == PosLon {
      GoAgreesOnNatural(key.lon + 1, n);
      if key.lon + 1 < n {
        SmallRem(key.lon + 1, n);
      } else {
        assert (key.lon + 1) % n == 0 by { SmallRem(0, n); assert key.lon + 1 == n; }
      }
    } else if d == NegLon {
      var back := if key.lon == 0 then n - 1 else key.lon - 1;
      GoAgreesOnNatural(back + 1, n);
      if back + 1 < n {
        SmallRem(back + 1, n);
      } else {
        assert (back + 1) % n == 0 by { SmallRem(0, n); assert back + 1 == n; }
      }
    }
  }

  lemma SmallRem(a: int, n: int)
    requires 0 <= a < n
    ensures a % n == a && (a + n) % n == a
  {
  }

  /** The chunk next to `key` in direction `d` sees `key` as its neighbour
      in the opposite direction: a cell on that face of `key` is read when
      the neighbour computes its faces. */
  lemma AdjacentSeesBack(p: Planet, key: ChunkIndex, d: Dir)
    requires GoDiv(p.lonCells, ChunkSize) > 0 && 0 <= key.lon < GoDiv(p.lonCells, ChunkSize)
    ensures var n := Adjacent(key, d, GoDiv(p.lonCells, ChunkSize));
            Toward(EnvOf(p, n).value, Opposite(d))
              == if key in p.chunks && !p.chunks[key].waitingForData then Some(p.chunks[key]) else None
  {
    AdjacentInverse(key, d, GoDiv(p.lonCells, ChunkSize));
  }

  /** The longitude neighbours wrap around: the next one is
      `(lon + 1) mod lonChunks` and the previous one of chunk 0 is the last
      chunk. */
  lemma LonNeighboursWrap(p: Planet, key: ChunkIndex)
    requires GoDiv(p.lonCells, ChunkSize) > 0 && 0 <= key.lon < GoDiv(p.lonCells, ChunkSize)
    ensures var n := GoDiv(p.lonCells, ChunkSize);
            var e := EnvOf(p, key).value;
            && e.posLon == (var k := ChunkIndex((key.lon + 1) % n, key.lat, key.alt);
                            if k in p.chunks && !p.chunks[k].waitingForData then Some(p.chunks[k]) else None)
            && e.negLon == (var k := ChunkIndex(if key.lon == 0 then n - 1 else key.lon - 1, key.lat, key.alt);
                            if k in p.chunks && !p.chunks[k].waitingForData then Some(p.chunks[k]) else None)
  {
    GoAgreesOnNatural(key.lon + 1, GoDiv(p.lonCells, ChunkSize));
  }

  /** updateGeometry's face count for a chunk: every cell's faces, in the
      loop order. */
  function FaceCount(e: Env, c: Chunk): Outcome<nat>
    requires ValidEnv(e)
  {
    CountFaces(e, c, CellOrder(0, e.lonCells, e.latCells))
  }

  /** updateGeometry on a renderer: the new face count, or the panic. */
  function UpdateGeometry(p: Planet, key: ChunkIndex, c: Chunk, cr: ChunkRenderer, faceVertices: nat): (r: Outcome<ChunkRenderer>)
    ensures GoDiv(p.lonCells, ChunkSize) == 0 ==> r.Panic?
    ensures r.Done? ==> (r.value.geometryUpdated <==> (cr.geometryUpdated || r.value.numTriangles > 0))
  {
    var e :- EnvOf(p, key);
    var faces :- FaceCount(e, c);
    Done(ApplyFaces(cr, faces, faceVertices))
  }

  /** updateGeometry as written, with the map-lookup environment. */
  function UpdateGeometryAsWritten(p: Planet, key: ChunkIndex, c: Chunk, cr: ChunkRenderer, faceVertices: nat): (r: Outcome<ChunkRenderer>)
    ensures GoDiv(p.lonCells, ChunkSize) == 0 ==> r.Panic?
    ensures r.Done? ==> (r.value.geometryUpdated <==> (cr.geometryUpdated || r.value.numTriangles > 0))
  {
    var e :- EnvAsWritten(p, key);
    var faces :- FaceCount(e, c);
    Done(ApplyFaces(cr, faces, faceVertices))
  }

  /** As written, a placeholder above the chunk (its fetch still pending)
      makes updateGeometry divide by zero in hasAirAlt as soon as the top
      layer holds a non-air cell: the placeholder has no cells, and only a
      nil neighbour is skipped. */
  lemma PlaceholderNeighbourPanics(p: Planet, key: ChunkIndex, c: Chunk, cr: ChunkRenderer, faceVertices: nat, i: int, j: int)
    requires GoDiv(p.lonCells, ChunkSize) != 0
    requires ChunkIndex(key.lon, key.lat, key.alt + 1) in p.chunks
    requires p.chunks[ChunkIndex(key.lon, key.lat, key.alt + 1)] == Placeholder
    requires var res := LonLatCellsInChunkIndex(DimsOf(p), key); 0 <= i < res.lonCells && 0 <= j < res.latCells
    requires HasSlot(c, LocalIndex(i, j, ChunkSize - 1)) && c.cells[i][j][ChunkSize - 1] != Air
    ensures UpdateGeometryAsWritten(p, key, c, cr, faceVertices).Panic?
  {
    var e := EnvAsWritten(p, key).value;
    assert ValidEnv(e) && e.posAlt == Some(Placeholder) && 0 <= i < e.lonCells && 0 <= j < e.latCells by {
      assert Toward(e, PosAlt) == Some(Placeholder);
      assert e.lonCells == LonLatCellsInChunkIndex(DimsOf(p), key).lonCells;
      assert e.latCells == LonLatCellsInChunkIndex(DimsOf(p), key).latCells;
    }
    PlaceholderAboveFaceCount(e, c, i, j);
    CountPanicIsUpdatePanic(p, key, c, cr, faceVertices);
  }

  /** A face count that panics makes the update panic. */
  lemma CountPanicIsUpdatePanic(p: Planet, key: ChunkIndex, c: Chunk, cr: ChunkRenderer, faceVertices: nat)
    requires EnvAsWritten(p, key).Done? && FaceCount(EnvAsWritten(p, key).value, c).Panic?
    ensures UpdateGeometryAsWritten(p, key, c, cr, faceVertices).Panic?
  {
  }

  /** Within one environment: a placeholder above and a solid top-layer
      cell make the face count panic. */
  lemma PlaceholderAboveFaceCount(e: Env, c: Chunk, i: int, j: int)
    requires ValidEnv(e) && e.posAlt == Some(Placeholder)
    requires 0 <= i < e.lonCells && 0 <= j < e.latCells
    requires HasSlot(c, LocalIndex(i, j, ChunkSize - 1)) && c.cells[i][j][ChunkSize - 1] != Air
    ensures FaceCount(e, c).Panic?
  {
    assert FaceVisible(e, c, i, j, ChunkSize - 1, PosAlt) == Panic("integer divide by zero");
    FacePanicIsCellPanic(e, c, i, j, ChunkSize - 1, PosAlt);
    FaceCountPanicsAt(e, c, LocalIndex(i, j, ChunkSize - 1));
  }

  /** One cell whose faces panic makes the whole count panic. */
  lemma FaceCountPanicsAt(e: Env, c: Chunk, l: LocalIndex)
    requires ValidEnv(e)
    requires 0 <= l.lon < e.lonCells && 0 <= l.lat < e.latCells && 0 <= l.alt < ChunkSize
    requires CellFaces(e, c, l.lon, l.lat, l.alt).Panic?
    ensures FaceCount(e, c).Panic?
  {
    var cells := CellOrder(0, e.lonCells, e.latCells);
    CellOrderCovers(0, e.lonCells, e.latCells, l);
    var n :| 0 <= n < |cells| && cells[n] == l;
    CountFacesPanics(e, c, cells);
  }

  /** Corrected, a waiting neighbour is treated like a missing one: the top
      face of the top layer then follows the topmost-chunk rule alone, and
      the whole environment is the one of the planet without that
      placeholder. */
  lemma WaitingNeighbourIsAbsent(p: Planet, key: ChunkIndex, c: Chunk, i: int, j: int)
    requires GoDiv(p.lonCells, ChunkSize) != 0
    requires ChunkIndex(key.lon, key.lat, key.alt + 1) in p.chunks
    requires p.chunks[ChunkIndex(key.lon, key.lat, key.alt + 1)].waitingForData
    ensures var e := EnvOf(p, key).value;
            && FaceVisible(e, c, i, j, ChunkSize - 1, PosAlt) == Done(key.alt >= GoDiv(p.state.altCells, ChunkSize) - 1)
            && EnvOf(p, key) == EnvOf(p.(chunks := p.chunks - {ChunkIndex(key.lon, key.lat, key.alt + 1)}), key)
  {
  }
}
