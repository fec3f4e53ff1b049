/** The planet renderer of pkg/scene/planet.go: the chunk renderers of the
    player's own planet, which edits mark for redrawing, and the coarse
    surface strip drawn for every other planet. OpenGL calls, shaders,
    textures and the view and orbit matrices are not modelled; what is
    kept is which renderer is recomputed when, and with how many
    vertices. */
module ScenePlanet {
  import opened Wrappers
  import opened GoInt
  import opened Grid
  import opened Chunks
  import opened Materials
  import opened Generators
  import opened CommonPlanet
  import opened CommonGeometry
  import opened SceneChunk

  /** The planet, a renderer per chunk key, and the surface strip's state. */
  datatype PlanetRenderer = PlanetRenderer(
    planet: Planet,
    chunkRenderers: map<ChunkIndex, ChunkRenderer>,
    geometryUpdated: bool,
    numTriangles: int)

  /** A chunk renderer draws the planet's chunk under the same key (the
      source keeps a pointer to it), and it is only made for a chunk that
      holds data. */
  predicate Valid(pr: PlanetRenderer) {
    forall k :: k in pr.chunkRenderers ==> k in pr.planet.chunks && !pr.planet.chunks[k].waitingForData
  }

  const NewChunkRenderer: ChunkRenderer := ChunkRenderer(false, 0)

  /** NewPlanet: no chunk renderer yet, nothing drawn, and the planet's
      geometry requested asynchronously, so that it is either present or
      being fetched afterwards. */
  function NewPlanetRenderer(p: Planet, w: World, noise: Noise): (r: (PlanetRenderer, World))
    ensures Valid(r.0) && r.0.chunkRenderers == map[] && !r.0.geometryUpdated && r.0.numTriangles == 0
    ensures r.0.planet.geometry.Some?
    ensures r.0.planet == p.(geometry := r.0.planet.geometry)
    ensures p.geometry.Some? ==> r == (PlanetRenderer(p, map[], false, 0), w)
  {
    var s := GetGeometry(p, w, true, noise, None).value;
    (PlanetRenderer(s.planet, map[], false, 0), s.world)
  }

  // ---------------------------------------------------------------------
  // Editing a cell
  // ---------------------------------------------------------------------

  /** `geometryUpdated = false` on the renderer under `k`, if there is one. */
  function Mark(rs: map<ChunkIndex, ChunkRenderer>, k: ChunkIndex): map<ChunkIndex, ChunkRenderer> {
    if k in rs then rs[k := rs[k].(geometryUpdated := false)] else rs
  }

  /** The slot of a cell in a chunk with the given longitude and latitude
      counts. */
  function Slot(ind: CellIndex, lonCells: int, latCells: int): LocalIndex
    requires 0 < lonCells <= ChunkSize && 0 < latCells <= ChunkSize
  {
    LocalIndex(GoDiv(GoRem(ind.lon, ChunkSize), ChunkSize / lonCells),
               GoDiv(GoRem(ind.lat, ChunkSize), ChunkSize / latCells),
               GoRem(ind.alt, ChunkSize))
  }

  /** The slot lies on the chunk's face toward `d`. */
  predicate OnFace(l: LocalIndex, lonCells: int, latCells: int, d: Dir) {
    match d
    case PosAlt => l.alt == ChunkSize - 1
    case NegAlt => l.alt == 0
    case PosLon => l.lon == lonCells - 1
    case NegLon => l.lon == 0
    case PosLat => l.lat == latCells - 1
    case NegLat => l.lat == 0
  }

  const AllDirs: set<Dir> := {PosAlt, NegAlt, PosLon, NegLon, PosLat, NegLat}

  /** The renderers an edit of slot `l` of chunk `key` invalidates: the
      chunk's own, and the neighbour's across every face the slot lies
      on. */
  function Dirty(key: ChunkIndex, l: LocalIndex, lonCells: int, latCells: int, lonChunks: int): set<ChunkIndex>
    requires OnFace(l, lonCells, latCells, PosLon) ==> lonChunks != 0
  {
    {key} + set d | d in AllDirs && OnFace(l, lonCells, latCells, d) :: Adjacent(key, d, lonChunks)
  }

  /** Marks each renderer of `targets`, in order. */
  function MarkEach(rs: map<ChunkIndex, ChunkRenderer>, targets: seq<ChunkIndex>): (r: map<ChunkIndex, ChunkRenderer>)
    decreases |targets|
  {
    if targets == [] then rs else MarkEach(Mark(rs, targets[0]), targets[1..])
  }

  /** Marking keeps the set of renderers and turns off exactly the
      targets' `geometryUpdated`. */
  lemma {:induction false} MarkEachEffect(rs: map<ChunkIndex, ChunkRenderer>, targets: seq<ChunkIndex>)
    ensures MarkEach(rs, targets).Keys == rs.Keys
    ensures forall k :: k in rs ==>
              MarkEach(rs, targets)[k] == if k in targets then rs[k].(geometryUpdated := false) else rs[k]
    decreases |targets|
  {
    if targets != [] {
      MarkEachEffect(Mark(rs, targets[0]), targets[1..]);
      assert forall k :: k in targets <==> k == targets[0] || k in targets[1..];
    }
  }

  /** The neighbours the source marks, in its order: the previous and next
      longitude, latitude and altitude chunk when the slot lies on that
      face. */
  function Neighbours(key: ChunkIndex, l: LocalIndex, lonCells: int, latCells: int, lonChunks: int): (r: seq<ChunkIndex>)
    requires OnFace(l, lonCells, latCells, PosLon) ==> lonChunks != 0
  {
    (if l.lon == 0 then [Adjacent(key, NegLon, lonChunks)] else [])
    + (if l.lon == lonCells - 1 then [Adjacent(key, PosLon, lonChunks)] else [])
    + (if l.lat == 0 then [Adjacent(key, NegLat, lonChunks)] else [])
    + (if l.lat == latCells - 1 then [Adjacent(key, PosLat, lonChunks)] else [])
    + (if l.alt == 0 then [Adjacent(key, NegAlt, lonChunks)] else [])
    + (if l.alt == ChunkSize - 1 then [Adjacent(key, PosAlt, lonChunks)] else [])
  }

  /** The chunk and the neighbours marked are exactly Dirty. */
  lemma NeighboursAreDirty(key: ChunkIndex, l: LocalIndex, lonCells: int, latCells: int, lonChunks: int)
    requires OnFace(l, lonCells, latCells, PosLon) ==> lonChunks != 0
    ensures forall k :: k in Dirty(key, l, lonCells, latCells, lonChunks) <==>
                        k == key || k in Neighbours(key, l, lonCells, latCells, lonChunks)
  {
    var ns := Neighbours(key, l, lonCells, latCells, lonChunks);
    forall k | k in ns
      ensures k in Dirty(key, l, lonCells, latCells, lonChunks)
    {
      var d :| d in AllDirs && OnFace(l, lonCells, latCells, d) && Adjacent(key, d, lonChunks) == k;
    }
  }

  /** An edit keeps every cached chunk, its placeholder flag and the
      lengths of its cell arrays. */
  lemma EditKeepsChunks(p: Planet, w: World, c: CellIndex, m: int, updateServer: bool, noise: Noise)
    requires CommonPlanet.SetCellMaterialAsWritten(p, w, c, m, updateServer, noise).Done?
    ensures var s := CommonPlanet.SetCellMaterialAsWritten(p, w, c, m, updateServer, noise).value;
            forall k :: k in p.chunks ==>
              && k in s.planet.chunks
              && s.planet.chunks[k].waitingForData == p.chunks[k].waitingForData
              && |s.planet.chunks[k].cells| == |p.chunks[k].cells|
              && forall i :: 0 <= i < |p.chunks[k].cells| ==> |s.planet.chunks[k].cells[i]| == |p.chunks[k].cells[i]|
  {
    SetCellMaterialKeepsShape(0, p, w, c, m, updateServer, noise);
  }

  /** SetCellMaterial: the planet's edit as the program writes it (the
      stored row it updates is row 0, see SetCellMaterialAsWritten), then
      the marking of the renderers it affects (MarkEdited). A failed edit
      is the renderer's failure; a successful one leaves the renderer
      holding the edited planet, with the same renderers and strip. */
  function SetCellMaterial(pr: PlanetRenderer, w: World, ind: CellIndex, m: int, updateServer: bool, noise: Noise): (r: Outcome<(PlanetRenderer, World)>)
    requires Valid(pr)
    ensures CommonPlanet.SetCellMaterialAsWritten(pr.planet, w, ind, m, updateServer, noise).Panic? ==> r.Panic?
    ensures r.Done? ==>
              var s := CommonPlanet.SetCellMaterialAsWritten(pr.planet, w, ind, m, updateServer, noise).value;
              && r.value.0.planet == s.planet && r.value.1 == s.world
              && r.value.0.chunkRenderers.Keys == pr.chunkRenderers.Keys
              && r.value.0.geometryUpdated == pr.geometryUpdated && r.value.0.numTriangles == pr.numTriangles
              && Valid(r.value.0)
  {
    var s :- CommonPlanet.SetCellMaterialAsWritten(pr.planet, w, ind, m, updateServer, noise);
    EditKeepsChunks(pr.planet, w, ind, m, updateServer, noise);
    var marked :- MarkEdited(pr.(planet := s.planet), ind);
    Done((marked, s.world))
  }

  /** The marking after an edit of the cell `ind` (the renderer already
      holding the edited planet): when the cell's chunk has a renderer,
      that renderer and those of the neighbours across the faces the cell
      lies on are marked for recomputation, the slot being taken from the
      chunk's own array lengths. An empty array is an index panic, a chunk
      finer than 16 cells a division by zero, and so is a cell on the last
      longitude slot of a planet with fewer than 16 longitude cells. */
  function MarkEdited(pr: PlanetRenderer, ind: CellIndex): (r: Outcome<PlanetRenderer>)
    requires Valid(pr)
    ensures CellIndexToChunkIndex(ind) !in pr.chunkRenderers ==> r == Done(pr)
    ensures r.Done? ==>
              && r.value.planet == pr.planet
              && r.value.geometryUpdated == pr.geometryUpdated && r.value.numTriangles == pr.numTriangles
              && r.value.chunkRenderers.Keys == pr.chunkRenderers.Keys
              && Valid(r.value)
    ensures r.Done? && CellIndexToChunkIndex(ind) in pr.chunkRenderers ==>
              !r.value.chunkRenderers[CellIndexToChunkIndex(ind)].geometryUpdated
  {
    var key := CellIndexToChunkIndex(ind);
    if key !in pr.chunkRenderers then Done(pr)
    else
      var cells := pr.planet.chunks[key].cells;
      var rs := MarkEach(pr.chunkRenderers, [key]);
      MarkEachEffect(pr.chunkRenderers, [key]);
      if |cells| == 0 then Panic("index out of range")
      else if |cells[0]| == 0 || ChunkSize / |cells| == 0 || ChunkSize / |cells[0]| == 0 then Panic("integer divide by zero")
      else
        var lonCells, latCells := |cells|, |cells[0]|;
        var l := Slot(ind, lonCells, latCells);
        var lonChunks := GoDiv(pr.planet.lonCells, ChunkSize);
        if l.lon == lonCells - 1 && lonChunks == 0 then Panic("integer divide by zero")
        else
          MarkEachEffect(rs, Neighbours(key, l, lonCells, latCells, lonChunks));
          Done(pr.(chunkRenderers := MarkEach(rs, Neighbours(key, l, lonCells, latCells, lonChunks))))
  }

  /** What the marking does: the planet and the strip are left alone, no
      renderer appears or disappears, and exactly the renderers of Dirty
      are marked, all others keep their state. */
  lemma MarkEditedMarksDirty(pr: PlanetRenderer, ind: CellIndex)
    requires Valid(pr) && MarkEdited(pr, ind).Done?
    ensures var r := MarkEdited(pr, ind).value;
            var key := CellIndexToChunkIndex(ind);
            && r.planet == pr.planet
            && r.geometryUpdated == pr.geometryUpdated && r.numTriangles == pr.numTriangles
            && r.chunkRenderers.Keys == pr.chunkRenderers.Keys
            && Valid(r)
            && (key !in pr.chunkRenderers ==> r.chunkRenderers == pr.chunkRenderers)
            && (key in pr.chunkRenderers ==>
                  var cells := pr.planet.chunks[key].cells;
                  && 0 < |cells| <= ChunkSize && 0 < |cells[0]| <= ChunkSize
                  && var l := Slot(ind, |cells|, |cells[0]|);
                     var lonChunks := GoDiv(pr.planet.lonCells, ChunkSize);
                     && (OnFace(l, |cells|, |cells[0]|, PosLon) ==> lonChunks != 0)
                     && forall k :: k in pr.chunkRenderers ==>
                          r.chunkRenderers[k] ==
                            if k in Dirty(key, l, |cells|, |cells[0]|, lonChunks)
                            then pr.chunkRenderers[k].(geometryUpdated := false)
                            else pr.chunkRenderers[k])
  {
    var key := CellIndexToChunkIndex(ind);
    if key in pr.chunkRenderers {
      var cells := pr.planet.chunks[key].cells;
      var l := Slot(ind, |cells|, |cells[0]|);
      var lonChunks := GoDiv(pr.planet.lonCells, ChunkSize);
      var ns := Neighbours(key, l, |cells|, |cells[0]|, lonChunks);
      assert MarkEdited(pr, ind).value.chunkRenderers == MarkEach(MarkEach(pr.chunkRenderers, [key]), ns);
      MarkTwice(pr.chunkRenderers, key, ns);
      NeighboursAreDirty(key, l, |cells|, |cells[0]|, lonChunks);
    }
  }

  /** Marking one renderer and then a list of others marks exactly the
      renderers of either. */
  lemma MarkTwice(rs: map<ChunkIndex, ChunkRenderer>, key: ChunkIndex, ns: seq<ChunkIndex>)
    ensures var r := MarkEach(MarkEach(rs, [key]), ns);
            && r.Keys == rs.Keys
            && forall k :: k in rs ==> r[k] == if k == key || k in ns then rs[k].(geometryUpdated := false) else rs[k]
  {
    MarkEachEffect(rs, [key]);
    MarkEachEffect(MarkEach(rs, [key]), ns);
  }

  /** What an edit does to the renderers: the planet becomes the edited
      one, the surface strip is left alone, no renderer appears or
      disappears, and exactly the renderers of Dirty are marked, all others
      keep their state. */
  lemma SetCellMaterialMarksDirty(pr: PlanetRenderer, w: World, ind: CellIndex, m: int, updateServer: bool, noise: Noise)
    requires Valid(pr) && SetCellMaterial(pr, w, ind, m, updateServer, noise).Done?
    ensures var s := CommonPlanet.SetCellMaterialAsWritten(pr.planet, w, ind, m, updateServer, noise).value;
            var r := SetCellMaterial(pr, w, ind, m, updateServer, noise).value;
            && r.1 == s.world
            && r.0.planet == s.planet
            && r.0.geometryUpdated == pr.geometryUpdated && r.0.numTriangles == pr.numTriangles
            && r.0.chunkRenderers.Keys == pr.chunkRenderers.Keys
            && Valid(r.0)
            && r == (MarkEdited(pr.(planet := s.planet), ind).value, s.world)
  {
    var s := CommonPlanet.SetCellMaterialAsWritten(pr.planet, w, ind, m, updateServer, noise).value;
    EditKeepsChunks(pr.planet, w, ind, m, updateServer, noise);
    MarkEditedMarksDirty(pr.(planet := s.planet), ind);
  }

  /** The renderers an edit marks are exactly those whose face culling
      reads the edited chunk across the face the cell lies on: for a chunk
      inside the planet's longitude ring, each marked neighbour's
      environment has the edited chunk in the opposite direction. */
  lemma DirtyNeighboursSeeTheEdit(p: Planet, key: ChunkIndex, l: LocalIndex, lonCells: int, latCells: int, d: Dir)
    requires GoDiv(p.lonCells, ChunkSize) > 0 && 0 <= key.lon < GoDiv(p.lonCells, ChunkSize)
    requires d in AllDirs && OnFace(l, lonCells, latCells, d)
    ensures var n := Adjacent(key, d, GoDiv(p.lonCells, ChunkSize));
            && n in Dirty(key, l, lonCells, latCells, GoDiv(p.lonCells, ChunkSize))
            && Toward(EnvOf(p, n).value, Opposite(d))
                 == if key in p.chunks && !p.chunks[key].waitingForData then Some(p.chunks[key]) else None
  {
    AdjacentSeesBack(p, key, d);
  }

  // ---------------------------------------------------------------------
  // Drawing the player's planet
  // ---------------------------------------------------------------------

  /** What Draw does with one chunk, given its renderer. */
  type TurnFn = (ChunkIndex, Chunk, ChunkRenderer) -> Outcome<ChunkRenderer>

  /** Which updateGeometry a turn runs: the one the source calls, or the
      corrected one that treats a placeholder neighbour as absent. */
  datatype Build = AsWritten | Corrected

  /** updateGeometry in the chosen build. */
  function Update(b: Build, p: Planet, k: ChunkIndex, c: Chunk, cr: ChunkRenderer, faceVertices: nat): Outcome<ChunkRenderer> {
    match b
    case AsWritten => UpdateGeometryAsWritten(p, k, c, cr, faceVertices)
    case Corrected => UpdateGeometry(p, k, c, cr, faceVertices)
  }

  /** The neighbour environment of the chosen build. */
  function BuildEnv(b: Build, p: Planet, k: ChunkIndex): Outcome<Env> {
    match b
    case AsWritten => EnvAsWritten(p, k)
    case Corrected => EnvOf(p, k)
  }

  /** A chunk's turn in Draw: its renderer, recomputed unless it is up to
      date. */
  function ChunkTurn(b: Build, p: Planet, faceVertices: nat, k: ChunkIndex, c: Chunk, cr: ChunkRenderer): Outcome<ChunkRenderer> {
    if cr.geometryUpdated then Done(cr) else Update(b, p, k, c, cr, faceVertices)
  }

  /** A second turn on the renderer a turn produced gives it back, in
      either build: the face count does not depend on the renderer, and a
      renderer left "not updated" had no vertices. */
  lemma ChunkTurnSettles(b: Build, p: Planet, faceVertices: nat, k: ChunkIndex, c: Chunk, cr: ChunkRenderer)
    requires ChunkTurn(b, p, faceVertices, k, c, cr).Done?
    ensures ChunkTurn(b, p, faceVertices, k, c, ChunkTurn(b, p, faceVertices, k, c, cr).value) == ChunkTurn(b, p, faceVertices, k, c, cr)
  {
    if !cr.geometryUpdated {
      var e := BuildEnv(b, p, k).value;
      var faces := FaceCount(e, c).value;
      var cr' := ApplyFaces(cr, faces, faceVertices);
      UpdateApplies(b, p, k, c, cr, faceVertices);
      if !cr'.geometryUpdated {
        UpdateApplies(b, p, k, c, cr', faceVertices);
        assert ApplyFaces(cr', faces, faceVertices) == cr';
      }
    }
  }

  /** An update that succeeds applies its build's face count. */
  lemma UpdateApplies(b: Build, p: Planet, k: ChunkIndex, c: Chunk, cr: ChunkRenderer, faceVertices: nat)
    requires Update(b, p, k, c, cr, faceVertices).Done?
    ensures BuildEnv(b, p, k).Done? && FaceCount(BuildEnv(b, p, k).value, c).Done?
    ensures Update(b, p, k, c, cr, faceVertices) == Done(ApplyFaces(cr, FaceCount(BuildEnv(b, p, k).value, c).value, faceVertices))
    ensures forall cr' :: Update(b, p, k, c, cr', faceVertices) == Done(ApplyFaces(cr', FaceCount(BuildEnv(b, p, k).value, c).value, faceVertices))
  {
  }

  /** The renderer a key has, or the one Draw would make for it. */
  function Current(rs: map<ChunkIndex, ChunkRenderer>, k: ChunkIndex): ChunkRenderer {
    if k in rs then rs[k] else NewChunkRenderer
  }

  /** Draw's loop over the chunk map in an iteration order `order`:
      placeholders are skipped, a chunk without renderer gets one. */
  function DrawLoop(chunks: map<ChunkIndex, Chunk>, turn: TurnFn, rs: map<ChunkIndex, ChunkRenderer>, order: seq<ChunkIndex>): (r: Outcome<map<ChunkIndex, ChunkRenderer>>)
    requires forall i :: 0 <= i < |order| ==> order[i] in chunks
    ensures r.Done? ==> rs.Keys <= r.value.Keys
    ensures r.Done? ==> forall k :: k in r.value && k !in rs ==> k in order && !chunks[k].waitingForData
    decreases |order|
  {
    if order == [] then Done(rs)
    else if chunks[order[0]].waitingForData then DrawLoop(chunks, turn, rs, order[1..])
    else
      var cr :- turn(order[0], chunks[order[0]], Current(rs, order[0]));
      DrawLoop(chunks, turn, rs[order[0] := cr], order[1..])
  }

  /** The chunks among `keys` that hold data. */
  function Live(chunks: map<ChunkIndex, Chunk>, keys: seq<ChunkIndex>): set<ChunkIndex>
    requires forall i :: 0 <= i < |keys| ==> keys[i] in chunks
  {
    set i | 0 <= i < |keys| && !chunks[keys[i]].waitingForData :: keys[i]
  }

  /** Some chunk with data whose turn panics. */
  predicate SomeTurnPanics(chunks: map<ChunkIndex, Chunk>, turn: TurnFn, rs: map<ChunkIndex, ChunkRenderer>, live: set<ChunkIndex>)
    requires live <= chunks.Keys
  {
    exists k :: k in live && turn(k, chunks[k], Current(rs, k)).Panic?
  }

  /** Draw as a whole, independently of order: a panic when some chunk's
      turn panics, else every chunk with data gets its turn's renderer and
      the other renderers stay. */
  function DrawAll(chunks: map<ChunkIndex, Chunk>, turn: TurnFn, rs: map<ChunkIndex, ChunkRenderer>, keys: seq<ChunkIndex>): Outcome<map<ChunkIndex, ChunkRenderer>>
    requires forall i :: 0 <= i < |keys| ==> keys[i] in chunks
  {
    var live := Live(chunks, keys);
    if SomeTurnPanics(chunks, turn, rs, live) then Panic("runtime error")
    else Done(map k | k in rs.Keys + live :: if k in live then turn(k, chunks[k], Current(rs, k)).value else rs[k])
  }

  predicate Distinct(s: seq<ChunkIndex>) {
    forall i, j :: 0 <= i < j < |s| ==> s[i] != s[j]
  }

  lemma LiveCons(chunks: map<ChunkIndex, Chunk>, order: seq<ChunkIndex>)
    requires order != [] && forall i :: 0 <= i < |order| ==> order[i] in chunks
    ensures Live(chunks, order) == (if chunks[order[0]].waitingForData then {} else {order[0]}) + Live(chunks, order[1..])
  {
    var rest := order[1..];
    assert forall i :: 0 <= i < |rest| ==> rest[i] == order[i + 1];
    forall k | k in Live(chunks, order)
      ensures k in (if chunks[order[0]].waitingForData then {} else {order[0]}) + Live(chunks, rest)
    {
      var i :| 0 <= i < |order| && !chunks[order[i]].waitingForData && order[i] == k;
      if i > 0 {
        assert rest[i - 1] == k;
      }
    }
  }

  /** Taking the first live key's turn and drawing the rest is drawing
      everything. */
  lemma DrawAllStep(chunks: map<ChunkIndex, Chunk>, turn: TurnFn, rs: map<ChunkIndex, ChunkRenderer>, order: seq<ChunkIndex>)
    requires order != [] && Distinct(order) && forall i :: 0 <= i < |order| ==> order[i] in chunks
    requires !chunks[order[0]].waitingForData && turn(order[0], chunks[order[0]], Current(rs, order[0])).Done?
    ensures var rs1 := rs[order[0] := turn(order[0], chunks[order[0]], Current(rs, order[0])).value];
            && DrawAll(chunks, turn, rs1, order[1..]).Panic? == DrawAll(chunks, turn, rs, order).Panic?
            && (DrawAll(chunks, turn, rs, order).Done? ==>
                  DrawAll(chunks, turn, rs1, order[1..]).value == DrawAll(chunks, turn, rs, order).value)
  {
    var k0, rest := order[0], order[1..];
    var rs1 := rs[k0 := turn(k0, chunks[k0], Current(rs, k0)).value];
    LiveCons(chunks, order);
    var liveRest := Live(chunks, rest);
    assert k0 !in liveRest by {
      forall i | 0 <= i < |rest| ensures rest[i] != k0 { assert rest[i] == order[i + 1]; }
    }
    assert forall k :: k in liveRest ==> Current(rs1, k) == Current(rs, k);
    if SomeTurnPanics(chunks, turn, rs1, liveRest) {
      var k :| k in liveRest && turn(k, chunks[k], Current(rs1, k)).Panic?;
      assert turn(k, chunks[k], Current(rs, k)).Panic?;
    }
    if DrawAll(chunks, turn, rs, order).Done? {
      var a := DrawAll(chunks, turn, rs1, rest).value;
      var b := DrawAll(chunks, turn, rs, order).value;
      assert a.Keys == b.Keys;
      assert forall k :: k in a.Keys ==> a[k] == b[k];
    }
  }

  /** Go's map iteration order is unspecified: any order visiting each key
      once panics exactly when DrawAll does, and otherwise yields DrawAll's
      renderers. */
  lemma {:induction false} DrawLoopIsOrderFree(chunks: map<ChunkIndex, Chunk>, turn: TurnFn, rs: map<ChunkIndex, ChunkRenderer>, order: seq<ChunkIndex>)
    requires forall i :: 0 <= i < |order| ==> order[i] in chunks
    requires Distinct(order)
    ensures DrawLoop(chunks, turn, rs, order).Panic? == DrawAll(chunks, turn, rs, order).Panic?
    ensures DrawLoop(chunks, turn, rs, order).Done? ==>
              DrawLoop(chunks, turn, rs, order).value == DrawAll(chunks, turn, rs, order).value
    decreases |order|
  {
    if order == [] {
      assert Live(chunks, order) == {};
      assert DrawAll(chunks, turn, rs, order).value == rs;
    } else {
      var k0, rest := order[0], order[1..];
      assert Distinct(rest) by {
        forall i, j | 0 <= i < j < |rest| ensures rest[i] != rest[j] { assert rest[i] == order[i + 1] && rest[j] == order[j + 1]; }
      }
      LiveCons(chunks, order);
      if chunks[k0].waitingForData {
        DrawLoopIsOrderFree(chunks, turn, rs, rest);
        assert Live(chunks, order) == Live(chunks, rest);
        assert DrawAll(chunks, turn, rs, order) == DrawAll(chunks, turn, rs, rest);
      } else if turn(k0, chunks[k0], Current(rs, k0)).Panic? {
        assert k0 in Live(chunks, order);
      } else {
        var rs1 := rs[k0 := turn(k0, chunks[k0], Current(rs, k0)).value];
        DrawLoopIsOrderFree(chunks, turn, rs1, rest);
        DrawAllStep(chunks, turn, rs, order);
      }
    }
  }

  /** A turn that returns the renderer it produced when taken again. */
  ghost predicate Settles(chunks: map<ChunkIndex, Chunk>, turn: TurnFn) {
    forall k, cr :: k in chunks && turn(k, chunks[k], cr).Done? ==>
      turn(k, chunks[k], turn(k, chunks[k], cr).value) == turn(k, chunks[k], cr)
  }

  /** With a settling turn, a second Draw after a successful one returns
      the same renderers. */
  lemma DrawAllIsIdempotent(chunks: map<ChunkIndex, Chunk>, turn: TurnFn, rs: map<ChunkIndex, ChunkRenderer>, keys: seq<ChunkIndex>)
    requires forall i :: 0 <= i < |keys| ==> keys[i] in chunks
    requires Settles(chunks, turn) && DrawAll(chunks, turn, rs, keys).Done?
    ensures DrawAll(chunks, turn, DrawAll(chunks, turn, rs, keys).value, keys) == DrawAll(chunks, turn, rs, keys)
  {
    var rs1 := DrawAll(chunks, turn, rs, keys).value;
    var live := Live(chunks, keys);
    assert forall k :: k in live ==> Current(rs1, k) == turn(k, chunks[k], Current(rs, k)).value;
    assert !SomeTurnPanics(chunks, turn, rs1, live);
    var rs2 := DrawAll(chunks, turn, rs1, keys).value;
    assert rs2.Keys == rs1.Keys;
    assert rs2 == rs1;
  }

  /** The turn Draw takes on the player's planet, in the chosen build. */
  function DrawTurn(b: Build, p: Planet, faceVertices: nat): TurnFn {
    (k, c, cr) => ChunkTurn(b, p, faceVertices, k, c, cr)
  }

  /** Draw on the player's own planet: the chunk loop, in the map's
      iteration order (with build AsWritten, the loop as the source runs
      it). The planet and the strip are never touched, no
      renderer is dropped, and a new one appears only for a chunk with
      data, so the renderer invariant is kept. */
  function DrawChunks(b: Build, pr: PlanetRenderer, order: seq<ChunkIndex>, faceVertices: nat): (r: Outcome<PlanetRenderer>)
    requires forall i :: 0 <= i < |order| ==> order[i] in pr.planet.chunks
    ensures r.Done? ==>
              && r.value.planet == pr.planet
              && r.value.geometryUpdated == pr.geometryUpdated && r.value.numTriangles == pr.numTriangles
              && pr.chunkRenderers.Keys <= r.value.chunkRenderers.Keys
              && (Valid(pr) ==> Valid(r.value))
  {
    var rs :- DrawLoop(pr.planet.chunks, DrawTurn(b, pr.planet, faceVertices), pr.chunkRenderers, order);
    Done(pr.(chunkRenderers := rs))
  }

  /** A second draw after a successful one changes nothing. */
  lemma DrawChunksSettles(b: Build, pr: PlanetRenderer, order: seq<ChunkIndex>, faceVertices: nat)
    requires Distinct(order)
    requires forall i :: 0 <= i < |order| ==> order[i] in pr.planet.chunks
    requires DrawChunks(b, pr, order, faceVertices).Done?
    ensures var r := DrawChunks(b, pr, order, faceVertices);
            r.value.planet == pr.planet && DrawChunks(b, r.value, order, faceVertices) == r
  {
    var p, rs := pr.planet, pr.chunkRenderers;
    var turn := DrawTurn(b, p, faceVertices);
    var r := DrawChunks(b, pr, order, faceVertices);
    assert Settles(p.chunks, turn) by {
      forall k, cr | k in p.chunks && turn(k, p.chunks[k], cr).Done?
        ensures turn(k, p.chunks[k], turn(k, p.chunks[k], cr).value) == turn(k, p.chunks[k], cr)
      {
        ChunkTurnSettles(b, p, faceVertices, k, p.chunks[k], cr);
      }
    }
    var rs1 := r.value.chunkRenderers;
    DrawLoopIsOrderFree(p.chunks, turn, rs, order);
    assert DrawAll(p.chunks, turn, rs, order) == Done(rs1);
    DrawAllIsIdempotent(p.chunks, turn, rs, order);
    DrawLoopIsOrderFree(p.chunks, turn, rs1, order);
    assert DrawLoop(p.chunks, turn, rs1, order) == Done(rs1);
    assert DrawTurn(b, r.value.planet, faceVertices) == turn;
    assert r.value.(chunkRenderers := rs1) == r.value;
  }

  /** Every chunk with data is among those the loop visits. */
  lemma LiveIsChunksWithData(p: Planet, order: seq<ChunkIndex>)
    requires forall i :: 0 <= i < |order| ==> order[i] in p.chunks
    requires forall k :: k in p.chunks ==> k in order
    ensures forall k :: k in Live(p.chunks, order) <==> k in p.chunks && !p.chunks[k].waitingForData
  {
    forall k | k in p.chunks && !p.chunks[k].waitingForData
      ensures k in Live(p.chunks, order)
    {
      var i :| 0 <= i < |order| && order[i] == k;
    }
  }

  /** A draw visiting every chunk once panics exactly when some chunk
      with data fails its face culling. */
  lemma DrawChunksPanics(b: Build, pr: PlanetRenderer, order: seq<ChunkIndex>, faceVertices: nat)
    requires Distinct(order)
    requires forall i :: 0 <= i < |order| ==> order[i] in pr.planet.chunks
    requires forall k :: k in pr.planet.chunks ==> k in order
    ensures var p, rs := pr.planet, pr.chunkRenderers;
            DrawChunks(b, pr, order, faceVertices).Panic? <==>
              exists k :: k in p.chunks && !p.chunks[k].waitingForData &&
                          ChunkTurn(b, p, faceVertices, k, p.chunks[k], Current(rs, k)).Panic?
  {
    var p, rs := pr.planet, pr.chunkRenderers;
    DrawLoopIsOrderFree(p.chunks, DrawTurn(b, p, faceVertices), rs, order);
    LiveIsChunksWithData(p, order);
  }

  /** A draw visiting every chunk once that succeeds gives every chunk
      with data a renderer, each renderer its chunk's turn (one up to date
      is untouched), keeps the invariant, and a second draw changes
      nothing. */
  lemma DrawChunksEffect(b: Build, pr: PlanetRenderer, order: seq<ChunkIndex>, faceVertices: nat)
    requires Valid(pr) && Distinct(order)
    requires forall i :: 0 <= i < |order| ==> order[i] in pr.planet.chunks
    requires forall k :: k in pr.planet.chunks ==> k in order
    requires DrawChunks(b, pr, order, faceVertices).Done?
    ensures var p, rs := pr.planet, pr.chunkRenderers;
            var r := DrawChunks(b, pr, order, faceVertices).value;
            && Valid(r) && r.planet == p
            && r.geometryUpdated == pr.geometryUpdated && r.numTriangles == pr.numTriangles
            && (forall k :: k in r.chunkRenderers <==> k in p.chunks && !p.chunks[k].waitingForData)
            && (forall k :: k in r.chunkRenderers ==>
                  Done(r.chunkRenderers[k]) == ChunkTurn(b, p, faceVertices, k, p.chunks[k], Current(rs, k)))
            && (forall k :: k in rs && rs[k].geometryUpdated ==> r.chunkRenderers[k] == rs[k])
            && DrawChunks(b, r, order, faceVertices) == Done(r)
  {
    var p, rs := pr.planet, pr.chunkRenderers;
    DrawLoopIsOrderFree(p.chunks, DrawTurn(b, p, faceVertices), rs, order);
    LiveIsChunksWithData(p, order);
    DrawChunksSettles(b, pr, order, faceVertices);
    assert rs.Keys <= Live(p.chunks, order);
  }

  // ---------------------------------------------------------------------
  // The surface strip of another planet
  // ---------------------------------------------------------------------

  /** appendAttributesForIndex reads the altitude, the material and the
      material's colour (one per catalogue entry): each an index panic when
      missing. */
  predicate PointOk(g: PlanetGeometry, i: int, j: int) {
    && 0 <= i < |g.altitude| && 0 <= j < |g.altitude[i]|
    && i < |g.material| && j < |g.material[i]|
    && IsMaterial(g.material[i][j])
  }

  /** One vertex. */
  function Point(g: PlanetGeometry, i: int, j: int): Outcome<nat> {
    if PointOk(g, i, j) then Done(1) else Panic("index out of range")
  }

  /** The inner loop: vertices (cLon, cLat) and (cLon, cLat + 1) for each
      longitude from `cLon`. */
  function StripRow(g: PlanetGeometry, cLat: int, cLon: int, lonCells: int): Outcome<nat>
    decreases lonCells - cLon
  {
    if cLon >= lonCells then Done(0)
    else
      var a :- Point(g, cLon, cLat);
      var b :- Point(g, cLon, cLat + 1);
      var rest :- StripRow(g, cLat, cLon + 1, lonCells);
      Done(a + b + rest)
  }

  /** The outer loop over the latitude rows `cLat < latCells - 1`. A
      completed strip has two vertices per longitude and latitude
      interval. */
  function Strips(g: PlanetGeometry, cLat: int, latCells: int, lonCells: int): (r: Outcome<nat>)
    ensures r.Done? && 0 <= lonCells ==>
              r.value == if cLat >= latCells - 1 then 0 else 2 * lonCells * (latCells - 1 - cLat)
    decreases latCells - cLat
  {
    if cLat >= latCells - 1 then Done(0)
    else
      StripRowDone(g, cLat, 0, lonCells);
      var a :- StripRow(g, cLat, 0, lonCells);
      var rest :- Strips(g, cLat + 1, latCells, lonCells);
      Done(a + rest)
  }

  /** A completed row has two vertices per longitude. */
  lemma {:induction false} StripRowDone(g: PlanetGeometry, cLat: int, cLon: int, lonCells: int)
    ensures cLon <= lonCells && StripRow(g, cLat, cLon, lonCells).Done? ==>
              StripRow(g, cLat, cLon, lonCells).value == 2 * (lonCells - cLon)
    decreases lonCells - cLon
  {
    if cLon < lonCells {
      StripRowDone(g, cLat, cLon + 1, lonCells);
    }
  }

  /** Every point the rows from `cLat` read is readable. */
  predicate RowsOk(g: PlanetGeometry, cLat: int, latCells: int, lonCells: int) {
    cLat >= latCells - 1 || forall i, j :: 0 <= i < lonCells && cLat <= j < latCells ==> PointOk(g, i, j)
  }

  /** Every point the row reads from `cLon` on is readable. */
  predicate RowOk(g: PlanetGeometry, cLat: int, cLon: int, lonCells: int) {
    forall i :: cLon <= i < lonCells ==> PointOk(g, i, cLat) && PointOk(g, i, cLat + 1)
  }

  lemma RowOkStep(g: PlanetGeometry, cLat: int, cLon: int, lonCells: int)
    requires cLon < lonCells
    ensures RowOk(g, cLat, cLon, lonCells) ==>
              PointOk(g, cLon, cLat) && PointOk(g, cLon, cLat + 1) && RowOk(g, cLat, cLon + 1, lonCells)
    ensures PointOk(g, cLon, cLat) && PointOk(g, cLon, cLat + 1) && RowOk(g, cLat, cLon + 1, lonCells) ==>
              RowOk(g, cLat, cLon, lonCells)
  {
  }

  lemma {:induction false} StripRowCount(g: PlanetGeometry, cLat: int, cLon: int, lonCells: int)
    requires cLon <= lonCells
    ensures StripRow(g, cLat, cLon, lonCells) ==
              if RowOk(g, cLat, cLon, lonCells) then Done(2 * (lonCells - cLon)) else Panic("index out of range")
    decreases lonCells - cLon
  {
    if cLon < lonCells {
      StripRowCount(g, cLat, cLon + 1, lonCells);
      RowOkStep(g, cLat, cLon, lonCells);
    }
  }

  /** The strip holds two vertices per longitude and latitude interval,
      and panics exactly when one of the points it reads is missing. */
  lemma {:induction false} StripsCount(g: PlanetGeometry, cLat: int, latCells: int, lonCells: int)
    requires 0 <= lonCells
    ensures Strips(g, cLat, latCells, lonCells) ==
              if RowsOk(g, cLat, latCells, lonCells)
              then Done(if cLat >= latCells - 1 then 0 else 2 * lonCells * (latCells - 1 - cLat))
              else Panic("index out of range")
    decreases latCells - cLat
  {
    if cLat < latCells - 1 {
      StripRowCount(g, cLat, 0, lonCells);
      StripsCount(g, cLat + 1, latCells, lonCells);
      var rowOk := RowOk(g, cLat, 0, lonCells);
      if RowsOk(g, cLat, latCells, lonCells) {
        assert rowOk;
        assert RowsOk(g, cLat + 1, latCells, lonCells);
        if cLat + 1 < latCells - 1 {
          assert 2 * lonCells + 2 * lonCells * (latCells - 1 - (cLat + 1)) == 2 * lonCells * (latCells - 1 - cLat);
        }
      } else if rowOk {
        var i, j :| 0 <= i < lonCells && cLat <= j < latCells && !PointOk(g, i, j);
        assert 0 <= i < lonCells;
        assert PointOk(g, i, cLat) && PointOk(g, i, cLat + 1);
        assert j != cLat && j != cLat + 1;
        assert !RowsOk(g, cLat + 1, latCells, lonCells);
      }
    }
  }

  /** The surface strip's update: the geometry's longitude and latitude
      counts come from its altitude array, so a nil geometry is a nil
      dereference and an empty one (the loading marker) an index panic.
      Afterwards the strip counts as updated. */
  function UpdatePlanetGeometry(pr: PlanetRenderer): (r: Outcome<PlanetRenderer>)
    ensures pr.planet.geometry.None? ==> r == Panic("invalid memory address or nil pointer dereference")
    ensures pr.planet.geometry.Some? && |pr.planet.geometry.value.altitude| == 0 ==> r == Panic("index out of range")
    ensures r.Done? ==>
              var g := pr.planet.geometry.value;
              && r.value == pr.(geometryUpdated := true, numTriangles := r.value.numTriangles)
              && r.value.numTriangles == (if |g.altitude[0]| <= 1 then 0 else 2 * |g.altitude| * (|g.altitude[0]| - 1))
    ensures pr.planet.geometry.Some? && |pr.planet.geometry.value.altitude| > 0 ==>
              var g := pr.planet.geometry.value;
              (r.Done? <==> RowsOk(g, 0, |g.altitude[0]|, |g.altitude|))
  {
    match pr.planet.geometry
    case None => Panic("invalid memory address or nil pointer dereference")
    case Some(g) =>
      if |g.altitude| == 0 then Panic("index out of range")
      else
        StripsCount(g, 0, |g.altitude[0]|, |g.altitude|);
        var n :- Strips(g, 0, |g.altitude[0]|, |g.altitude|);
        Done(pr.(geometryUpdated := true, numTriangles := n))
  }

  /** drawGeometry as written: the strip is rebuilt before the check for a
      missing or loading geometry. */
  function DrawGeometryAsWritten(pr: PlanetRenderer): (r: Outcome<PlanetRenderer>)
    ensures r.Done? ==> r.value.planet == pr.planet && r.value.geometryUpdated
    ensures !pr.geometryUpdated && (pr.planet.geometry.None? || |pr.planet.geometry.value.altitude| == 0) ==> r.Panic?
  {
    if !pr.geometryUpdated then UpdatePlanetGeometry(pr) else Done(pr)
  }

  /** drawGeometry with the check first: nothing happens until the
      geometry has arrived. */
  function DrawGeometry(pr: PlanetRenderer): (r: Outcome<PlanetRenderer>)
    ensures pr.planet.geometry.None? || pr.planet.geometry.value.isLoading ==> r == Done(pr)
  {
    if pr.planet.geometry.None? || pr.planet.geometry.value.isLoading then Done(pr)
    else if !pr.geometryUpdated then UpdatePlanetGeometry(pr) else Done(pr)
  }

  /** As written, the first draw of a remote planet whose geometry is still
      being fetched panics: the loading marker has no altitude rows. */
  lemma DrawWhileLoadingPanics(p: Planet, w: World, noise: Noise)
    requires p.hasRpc && p.geometry.None?
    ensures var pr := NewPlanetRenderer(p, w, noise).0;
            && pr.planet.geometry == Some(LoadingGeometry)
            && DrawGeometryAsWritten(pr) == Panic("index out of range")
            && DrawGeometry(pr) == Done(pr)
  {
  }

  /** Once the geometry is present the two agree, and the strip of a
      geometry with readable points has two vertices per longitude and
      latitude interval; a second draw changes nothing. */
  lemma DrawGeometryOnceLoaded(pr: PlanetRenderer)
    requires pr.planet.geometry.Some? && !pr.planet.geometry.value.isLoading
    ensures DrawGeometry(pr) == DrawGeometryAsWritten(pr)
    ensures var g := pr.planet.geometry.value;
            !pr.geometryUpdated && |g.altitude| > 0 && RowsOk(g, 0, |g.altitude[0]|, |g.altitude|) ==>
              && DrawGeometry(pr).Done?
              && DrawGeometry(pr).value.geometryUpdated
              && DrawGeometry(pr).value.numTriangles
                   == (if |g.altitude[0]| <= 1 then 0 else 2 * |g.altitude| * (|g.altitude[0]| - 1))
              && DrawGeometry(DrawGeometry(pr).value) == DrawGeometry(pr)
  {
    var g := pr.planet.geometry.value;
    if |g.altitude| > 0 {
      StripsCount(g, 0, |g.altitude[0]|, |g.altitude|);
    }
  }

  /** A local planet's generated geometry (64 columns, 33 rows, generator
      materials) draws as a strip of 2 * 64 * 32 = 4096 vertices. */
  lemma GeneratedGeometryDraws(p: Planet, w: World, noise: Noise)
    requires !p.hasRpc && p.geometry.None?
    ensures var pr := NewPlanetRenderer(p, w, noise).0;
            && DrawGeometry(pr).Done?
            && DrawGeometry(pr).value.numTriangles == 4096
  {
    var pr := NewPlanetRenderer(p, w, noise).0;
    var g := GenerateGeometry(p, noise);
    assert pr.planet.geometry == Some(g);
    forall i, j | 0 <= i < GeometryLonCells && 0 <= j < GeometryLatCells
      ensures PointOk(g, i, j)
    {
      GeometryIsTopmostSolid(p, noise, i, j);
    }
    DrawGeometryOnceLoaded(pr);
  }

  /** Draw as written: the player's own planet runs the chunk loop with
      the source's updateGeometry, any other planet runs drawGeometry as
      written. */
  function Draw(pr: PlanetRenderer, ownPlanet: bool, order: seq<ChunkIndex>, faceVertices: nat): (r: Outcome<PlanetRenderer>)
    requires forall i :: 0 <= i < |order| ==> order[i] in pr.planet.chunks
    ensures r.Done? ==> r.value.planet == pr.planet
    ensures ownPlanet ==> r == DrawChunks(AsWritten, pr, order, faceVertices)
    ensures !ownPlanet ==> r == DrawGeometryAsWritten(pr)
  {
    if ownPlanet then DrawChunks(AsWritten, pr, order, faceVertices) else DrawGeometryAsWritten(pr)
  }

  /** Draw with both corrections: placeholder neighbours count as absent,
      and another planet's strip waits for its geometry. */
  function DrawCorrected(pr: PlanetRenderer, ownPlanet: bool, order: seq<ChunkIndex>, faceVertices: nat): (r: Outcome<PlanetRenderer>)
    requires forall i :: 0 <= i < |order| ==> order[i] in pr.planet.chunks
    ensures r.Done? ==> r.value.planet == pr.planet
    ensures ownPlanet ==> r == DrawChunks(Corrected, pr, order, faceVertices)
    ensures !ownPlanet ==> r == DrawGeometry(pr)
  {
    if ownPlanet then DrawChunks(Corrected, pr, order, faceVertices) else DrawGeometry(pr)
  }

  /** As written, drawing a remote planet other than the player's while
      its geometry is still being fetched panics; the corrected draw leaves
      the renderer as it is. */
  lemma DrawLoadingPlanetPanics(p: Planet, w: World, noise: Noise, order: seq<ChunkIndex>, faceVertices: nat)
    requires p.hasRpc && p.geometry.None?
    ensures var pr := NewPlanetRenderer(p, w, noise).0;
            (forall i :: 0 <= i < |order| ==> order[i] in pr.planet.chunks) ==>
              && Draw(pr, false, order, faceVertices) == Panic("index out of range")
              && DrawCorrected(pr, false, order, faceVertices) == Done(pr)
  {
    DrawWhileLoadingPanics(p, w, noise);
  }

  /** As written, drawing the player's planet panics when a chunk with
      data, whose renderer is not up to date, has a solid cell in its top
      layer under a placeholder still waiting for its data: the draw visits
      every chunk, whatever the map's order. */
  lemma DrawPlaceholderNeighbourPanics(pr: PlanetRenderer, order: seq<ChunkIndex>, faceVertices: nat, key: ChunkIndex, i: int, j: int)
    requires Distinct(order)
    requires forall n :: 0 <= n < |order| ==> order[n] in pr.planet.chunks
    requires forall k :: k in pr.planet.chunks ==> k in order
    requires var p := pr.planet;
             && GoDiv(p.lonCells, ChunkSize) != 0
             && key in p.chunks && !p.chunks[key].waitingForData
             && !Current(pr.chunkRenderers, key).geometryUpdated
             && ChunkIndex(key.lon, key.lat, key.alt + 1) in p.chunks
             && p.chunks[ChunkIndex(key.lon, key.lat, key.alt + 1)] == Placeholder
             && (var res := LonLatCellsInChunkIndex(DimsOf(p), key); 0 <= i < res.lonCells && 0 <= j < res.latCells)
             && HasSlot(p.chunks[key], LocalIndex(i, j, ChunkSize - 1))
             && p.chunks[key].cells[i][j][ChunkSize - 1] != Air
    ensures Draw(pr, true, order, faceVertices).Panic?
  {
    var p, rs := pr.planet, pr.chunkRenderers;
    PlaceholderNeighbourPanics(p, key, p.chunks[key], Current(rs, key), faceVertices, i, j);
    assert ChunkTurn(AsWritten, p, faceVertices, key, p.chunks[key], Current(rs, key)).Panic?;
    DrawChunksPanics(AsWritten, pr, order, faceVertices);
  }
}
