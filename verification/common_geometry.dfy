/** The planet's low-resolution geometry (generateGeometry and GetGeometry
    in pkg/common/planet.go): a 64 x 33 grid of surface columns, each giving
    the altitude and material of the topmost non-air cell. */
module CommonGeometry {
  import opened Wrappers
  import opened Grid
  import opened Materials
  import opened Generators
  import opened CommonPlanet

  /** Longitude columns of the geometry grid. */
  const GeometryLonCells: int := 64
  /** Latitude rows: 32 intervals plus one so that both poles are sampled. */
  const GeometryLatCells: int := 32 + 1

  /** The generator's material at a whole altitude of a column (no stone
      core here: the geometry calls the generator directly). */
  function MaterialAt(p: Planet, noise: Noise, lon: real, lat: real, alt: int): int {
    Generate(p.generator, ContextOf(p), noise, CellLoc(lon, lat, alt as real))
  }

  /** The downward search: starting at `alt`, step down while the material
      is air and the altitude is positive. Returns the altitude and the
      material where the search stopped. */
  function Surface(p: Planet, noise: Noise, lon: real, lat: real, alt: int): (r: (int, int))
    ensures r.0 <= alt
    ensures r.1 == MaterialAt(p, noise, lon, lat, r.0)
    ensures r.1 == Air ==> r.0 <= 0
    ensures alt <= 0 ==> r.0 == alt
    ensures forall a :: r.0 < a <= alt ==> MaterialAt(p, noise, lon, lat, a) == Air
    decreases if alt > 0 then alt else 0
  {
    var m := MaterialAt(p, noise, lon, lat, alt);
    if m == Air && alt > 0 then Surface(p, noise, lon, lat, alt - 1) else (alt, m)
  }

  /** The column sampled for geometry cell (lon, lat): `floor(LonCells *
      lon / 64)` and `floor(LatCells * lat / 32)`, so lat 0 and lat 32 hit
      the two poles. */
  function ColumnLon(p: Planet, lon: int): real {
    (((p.lonCells * lon) as real) / (GeometryLonCells as real)).Floor as real
  }

  function ColumnLat(p: Planet, lat: int): real {
    (((p.latCells * lat) as real) / ((GeometryLatCells - 1) as real)).Floor as real
  }

  /** generateGeometry: one downward search per grid cell, from altitude
      AltCells - 1. */
  function GenerateGeometry(p: Planet, noise: Noise): (g: PlanetGeometry)
    ensures !g.isLoading
    ensures |g.altitude| == GeometryLonCells && |g.material| == GeometryLonCells
    ensures forall i :: 0 <= i < GeometryLonCells ==>
              |g.altitude[i]| == GeometryLatCells && |g.material[i]| == GeometryLatCells
  {
    PlanetGeometry(
      seq(GeometryLonCells, i => seq(GeometryLatCells, j => Surface(p, noise, ColumnLon(p, i), ColumnLat(p, j), p.state.altCells - 1).0)),
      seq(GeometryLonCells, i => seq(GeometryLatCells, j => Surface(p, noise, ColumnLon(p, i), ColumnLat(p, j), p.state.altCells - 1).1)),
      false)
  }

  /** Each geometry cell records the topmost cell of its column that is not
      air, or the bottom (altitude 0) when the whole column is air: the
      recorded material is the generator's at the recorded altitude, and
      every cell above it, up to the top of the planet, is air. */
  lemma GeometryIsTopmostSolid(p: Planet, noise: Noise, i: int, j: int)
    requires 0 <= i < GeometryLonCells && 0 <= j < GeometryLatCells
    ensures var g := GenerateGeometry(p, noise);
            var alt := g.altitude[i][j];
            var lon := ColumnLon(p, i);
            var lat := ColumnLat(p, j);
            && alt <= p.state.altCells - 1
            && g.material[i][j] == MaterialAt(p, noise, lon, lat, alt)
            && (g.material[i][j] == Air ==> alt <= 0)
            && (forall a :: alt < a < p.state.altCells ==> MaterialAt(p, noise, lon, lat, a) == Air)
  {
    var lon := ColumnLon(p, i);
    var lat := ColumnLat(p, j);
    var r := Surface(p, noise, lon, lat, p.state.altCells - 1);
    assert GenerateGeometry(p, noise).altitude[i][j] == r.0;
    assert GenerateGeometry(p, noise).material[i][j] == r.1;
  }

  /** The geometry grid's columns span the planet: column 0 is longitude 0
      and latitude 0, and row 32 is the far pole, latitude LatCells. */
  lemma GeometryHitsPoles(p: Planet)
    ensures ColumnLon(p, 0) == 0.0 && ColumnLat(p, 0) == 0.0
    ensures ColumnLat(p, GeometryLatCells - 1) == p.latCells as real
  {
  }

  /** The marker cached while a remote geometry fetch is in flight. */
  const LoadingGeometry: PlanetGeometry := PlanetGeometry([], [], true)

  /** GetGeometry. A pending fetch: nil. A cached geometry is returned. With
      a remote link, an asynchronous call caches the loading marker and
      returns it (not nil); a synchronous call caches and returns the
      fetched geometry, panicking when the call fails. Otherwise the
      geometry is generated and cached. */
  function GetGeometry(p: Planet, w: World, async: bool, noise: Noise, fetched: Option<PlanetGeometry>): (r: Outcome<Step<Option<PlanetGeometry>>>)
    ensures r.Panic? <==> (p.geometry.None? && p.hasRpc && !async && fetched.None?)
    ensures r.Done? ==> r.value.planet == p.(geometry := r.value.planet.geometry)
    ensures r.Done? && r.value.value.Some? ==> r.value.planet.geometry == r.value.value
  {
    match p.geometry
    case Some(g) =>
      if g.isLoading then Done(Step(p, w, None)) else Done(Step(p, w, Some(g)))
    case None =>
      if p.hasRpc then
        var w' := w.(outbox := w.outbox + [GetPlanetGeometryCall(p.state.id)]);
        if async then Done(Step(p.(geometry := Some(LoadingGeometry)), w', Some(LoadingGeometry)))
        else
          match fetched
          case None => Panic("API.GetPlanetGeometry failed")
          case Some(g) => Done(Step(p.(geometry := Some(g)), w', Some(g)))
      else
        var g := GenerateGeometry(p, noise);
        Done(Step(p.(geometry := Some(g)), w, Some(g)))
  }

  /** The asynchronous geometry fetch's completion. */
  function CompleteGeometry(p: Planet, g: PlanetGeometry): (p': Planet)
    ensures p' == p.(geometry := p'.geometry) && p'.geometry == Some(g)
  {
    p.(geometry := Some(g))
  }

  /** GetGeometry's life cycle: a geometry once returned (other than the
      loading marker) is returned again with nothing changed; the loading
      marker makes the next call return nil and send nothing; a local planet
      computes its geometry at most once. */
  lemma GetGeometryMemo(p: Planet, w: World, async: bool, noise: Noise, fetched: Option<PlanetGeometry>,
                        async2: bool, noise2: Noise, fetched2: Option<PlanetGeometry>)
    requires GetGeometry(p, w, async, noise, fetched).Done?
    ensures var s := GetGeometry(p, w, async, noise, fetched).value;
            var again := GetGeometry(s.planet, s.world, async2, noise2, fetched2);
            && again.Done? && again.value.planet == s.planet && again.value.world == s.world
            && (s.value.Some? && !s.value.value.isLoading ==> again.value.value == s.value)
            && (s.value.Some? && s.value.value.isLoading ==> again.value.value.None?)
            && (!p.hasRpc && p.geometry.None? ==> s.world == w && s.value.Some? && !s.value.value.isLoading)
  {
  }

  /** An asynchronous remote request returns the loading marker and sends
      one GetPlanetGeometry call; once it completes the fetched geometry is
      returned. */
  lemma RemoteGeometryLifecycle(p: Planet, w: World, noise: Noise, g: PlanetGeometry, async2: bool)
    requires p.hasRpc && p.geometry.None? && !g.isLoading
    ensures var s := GetGeometry(p, w, true, noise, None).value;
            && s.value == Some(LoadingGeometry)
            && s.world.outbox == w.outbox + [GetPlanetGeometryCall(p.state.id)]
            && GetGeometry(CompleteGeometry(s.planet, g), s.world, async2, noise, None)
               == Done(Step(CompleteGeometry(s.planet, g), s.world, Some(g)))
  {
  }
}
