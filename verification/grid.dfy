/** The planet's integer index space (pkg/common/planet.go): chunk and cell
    indices, the rounding of grid dimensions, the cell-to-chunk mapping, the
    variable per-chunk resolution and the local offset of a cell inside its
    chunk's cell array. */
module Grid {
  import opened GoInt

  /** Number of cells along each side of a full-resolution chunk. */
  const ChunkSize: int := 16

  datatype ChunkIndex = ChunkIndex(lon: int, lat: int, alt: int)
  datatype CellIndex = CellIndex(lon: int, lat: int, alt: int)

  /** Fractional cell coordinates; the source's float32 is modelled as a real. */
  datatype CellLoc = CellLoc(lon: real, lat: real, alt: real)

  /** The derived grid dimensions of a planet, plus its radius (which drives
      the core coarsening). */
  datatype Dims = Dims(lonCells: int, latCells: int, altCells: int, radius: real)

  /** `n / ChunkSize * ChunkSize` with Go's truncating division. */
  function RoundToChunks(n: int): (r: int)
    ensures r % ChunkSize == 0
    ensures 0 <= n ==> 0 <= r <= n < r + ChunkSize
    ensures n < 0 ==> n <= r <= 0 && r - ChunkSize < n
  {
    GoDiv(n, ChunkSize) * ChunkSize
  }

  /** Number of chunks along an axis with `cells` cells: Go's `cells / ChunkSize`. */
  function Chunks(cells: int): int {
    GoDiv(cells, ChunkSize)
  }

  /** The range check at the top of GetChunk and CellIndexToChunk. */
  predicate ChunkInRange(d: Dims, ind: ChunkIndex) {
    && 0 <= ind.lon < Chunks(d.lonCells)
    && 0 <= ind.lat < Chunks(d.latCells)
    && 0 <= ind.alt < Chunks(d.altCells)
  }

  /** The chunk holding a cell: `floor(x / 16)` on each axis. */
  function CellIndexToChunkIndex(c: CellIndex): (k: ChunkIndex)
    ensures ChunkSize * k.lon <= c.lon < ChunkSize * (k.lon + 1)
    ensures ChunkSize * k.lat <= c.lat < ChunkSize * (k.lat + 1)
    ensures ChunkSize * k.alt <= c.alt < ChunkSize * (k.alt + 1)
  {
    ChunkIndex(c.lon / ChunkSize, c.lat / ChunkSize, c.alt / ChunkSize)
  }

  /** A chunk is in range exactly when the cells it holds are inside the grid:
      every in-range cell maps to an in-range chunk and back. */
  lemma ChunkInRangeIffCellInRange(d: Dims, c: CellIndex)
    requires d.lonCells % ChunkSize == 0 && d.latCells % ChunkSize == 0 && d.altCells % ChunkSize == 0
    ensures ChunkInRange(d, CellIndexToChunkIndex(c)) <==>
      (0 <= c.lon < d.lonCells && 0 <= c.lat < d.latCells && 0 <= c.alt < d.altCells)
  {
    AxisInRange(d.lonCells, c.lon);
    AxisInRange(d.latCells, c.lat);
    AxisInRange(d.altCells, c.alt);
  }

  lemma AxisInRange(cells: int, x: int)
    requires cells % ChunkSize == 0
    ensures (0 <= x / ChunkSize < Chunks(cells)) <==> (0 <= x < cells)
  {
    if cells >= 0 {
      GoAgreesOnNatural(cells, ChunkSize);
      assert Chunks(cells) * ChunkSize == cells;
    } else {
      assert Chunks(cells) <= 0;
    }
  }

  // ---------------------------------------------------------------------
  // Variable resolution (LonLatCellsInChunkIndex)
  // ---------------------------------------------------------------------

  /** Twice the offset, in cells, of the chunk's latitude band centre from the
      equator: `2 * (16*lat + 8) - latCells`. */
  function BandOffset(latCells: int, lat: int): int {
    32 * lat + 16 - latCells
  }

  /** The band centre is at least 60 degrees from the equator. With LatMax = 90
      the source computes theta = 180 * (16*lat + 8) / latCells and tests
      |theta - 90| >= 60; multiplying through by |latCells| gives this exact
      integer form. For latCells = 0 the float quotient is infinite and the
      test holds, as it does here. */
  predicate Beyond60(latCells: int, lat: int) {
    3 * Abs(BandOffset(latCells, lat)) >= 2 * Abs(latCells)
  }

  /** The band centre is at least 80 degrees from the equator. */
  predicate Beyond80(latCells: int, lat: int) {
    9 * Abs(BandOffset(latCells, lat)) >= 8 * Abs(latCells)
  }

  /** The altitude band's midpoint `(alt + 0.5) * 16` is below radius / 4. */
  predicate BelowQuarterRadius(radius: real, alt: int) {
    ((alt as real) + 0.5) * 16.0 < radius / 4.0
  }

  /** The altitude band's midpoint is below radius / 8. */
  predicate BelowEighthRadius(radius: real, alt: int) {
    ((alt as real) + 0.5) * 16.0 < radius / 8.0
  }

  /** Longitude and latitude cell counts actually stored in one chunk. */
  datatype Resolution = Resolution(lonCells: int, latCells: int)

  /** The chunk's resolution: longitude cells halved near the poles (once at
      60 degrees, again at 80), and both counts halved near the core (once
      below radius / 4, again below radius / 8). */
  function LonLatCellsInChunkIndex(d: Dims, ind: ChunkIndex): (r: Resolution)
    ensures r.lonCells in {1, 2, 4, 8, 16} && r.latCells in {4, 8, 16}
    ensures ChunkSize % r.lonCells == 0 && ChunkSize % r.latCells == 0
    ensures r.lonCells <= r.latCells
  {
    var lon1 := if Beyond60(d.latCells, ind.lat) then ChunkSize / 2 else ChunkSize;
    var lon2 := if Beyond80(d.latCells, ind.lat) then lon1 / 2 else lon1;
    var lon3 := if BelowQuarterRadius(d.radius, ind.alt) then lon2 / 2 else lon2;
    var lat3 := if BelowQuarterRadius(d.radius, ind.alt) then ChunkSize / 2 else ChunkSize;
    var lon4 := if BelowEighthRadius(d.radius, ind.alt) then lon3 / 2 else lon3;
    var lat4 := if BelowEighthRadius(d.radius, ind.alt) then lat3 / 2 else lat3;
    Resolution(lon4, lat4)
  }

  function Pow2(n: nat): (r: nat)
    ensures r >= 1
  {
    if n == 0 then 1 else 2 * Pow2(n - 1)
  }

  function Count(b: bool): nat {
    if b then 1 else 0
  }

  /** How many times the longitude count is halved for the chunk's latitude. */
  function PolarHalvings(latCells: int, lat: int): nat {
    Count(Beyond60(latCells, lat)) + Count(Beyond80(latCells, lat))
  }

  /** How many times both counts are halved for the chunk's altitude. */
  function CoreHalvings(radius: real, alt: int): nat {
    Count(BelowQuarterRadius(radius, alt)) + Count(BelowEighthRadius(radius, alt))
  }

  /** Reference form of the resolution rule: the chunk edge divided by one
      power of two per halving condition that holds. */
  lemma ResolutionIsPowerOfTwoSplit(d: Dims, ind: ChunkIndex)
    ensures LonLatCellsInChunkIndex(d, ind).lonCells
      == ChunkSize / Pow2(PolarHalvings(d.latCells, ind.lat) + CoreHalvings(d.radius, ind.alt))
    ensures LonLatCellsInChunkIndex(d, ind).latCells
      == ChunkSize / Pow2(CoreHalvings(d.radius, ind.alt))
  {
    var n := PolarHalvings(d.latCells, ind.lat) + CoreHalvings(d.radius, ind.alt);
    assert n <= 4;
    assert Pow2(1) == 2 && Pow2(2) == 4 && Pow2(3) == 8 && Pow2(4) == 16;
  }

  /** Being 80 degrees out implies being 60 degrees out, so the polar rule
      yields 16, 8 or 4 longitude cells and never skips a step. */
  lemma Beyond80ImpliesBeyond60(latCells: int, lat: int)
    ensures Beyond80(latCells, lat) ==> Beyond60(latCells, lat)
  {
  }

  function RealAbs(x: real): real {
    if x < 0.0 then -x else x
  }

  /** The polar angle of the centre of a chunk's latitude band, in degrees,
      as the source computes it with LatMax = 90. */
  function BandTheta(latCells: int, lat: int): real
    requires latCells != 0
  {
    (90.0 - 90.0 + ((lat as real) + 0.5) * (ChunkSize as real) / (latCells as real)) * (2.0 * 90.0)
  }

  /** The integer band tests agree with the source's angle tests on theta. */
  lemma BandTestsMatchAngle(latCells: int, lat: int)
    requires latCells != 0
    ensures RealAbs(BandTheta(latCells, lat) - 90.0) >= 60.0 <==> Beyond60(latCells, lat)
    ensures RealAbs(BandTheta(latCells, lat) - 90.0) >= 80.0 <==> Beyond80(latCells, lat)
  {
    var t := RealAbs(BandTheta(latCells, lat) - 90.0);
    var an: real := Abs(BandOffset(latCells, lat)) as real;
    var alc: real := Abs(latCells) as real;
    AbsThetaOffset(latCells, lat);
    RealScaleCompare(t, alc, 90.0 * an, 60.0);
    RealScaleCompare(t, alc, 90.0 * an, 80.0);
  }

  lemma ThetaOffset(latCells: int, lat: int)
    requires latCells != 0
    ensures (BandTheta(latCells, lat) - 90.0) * (latCells as real) == 90.0 * (BandOffset(latCells, lat) as real)
  {
    var lc: real := latCells as real;
    var x: real := ((lat as real) + 0.5) * 16.0;
    var theta := BandTheta(latCells, lat);
    assert theta == x / lc * 180.0;
    assert theta * lc == x * 180.0;
  }

  lemma AbsThetaOffset(latCells: int, lat: int)
    requires latCells != 0
    ensures RealAbs(BandTheta(latCells, lat) - 90.0) * (Abs(latCells) as real)
         == 90.0 * (Abs(BandOffset(latCells, lat)) as real)
  {
    ThetaOffset(latCells, lat);
    var y := BandTheta(latCells, lat) - 90.0;
    var lc: real := latCells as real;
    var n: real := BandOffset(latCells, lat) as real;
    assert y * lc == 90.0 * n;
    if lc > 0.0 {
      assert (y < 0.0) == (n < 0.0);
    } else {
      assert (y < 0.0) == (n > 0.0);
      assert (-y) * (-lc) == 90.0 * n;
    }
  }

  /** If x * a == b with a > 0 then x >= t exactly when b >= t * a. */
  lemma RealScaleCompare(x: real, a: real, b: real, t: real)
    requires a > 0.0 && x * a == b
    ensures x >= t <==> b >= t * a
  {
    if x >= t {
      assert x * a >= t * a;
    } else {
      assert x * a < t * a;
    }
  }

  /** Two coarsening instances: a band centred at least 80 degrees from
      the equator above the core has a quarter of the longitude cells, and a
      chunk below an eighth of a positive radius has both counts quartered. */
  lemma CoarseningExamples(d: Dims, ind: ChunkIndex)
    ensures Beyond80(d.latCells, ind.lat) && !BelowQuarterRadius(d.radius, ind.alt) && !BelowEighthRadius(d.radius, ind.alt)
      ==> LonLatCellsInChunkIndex(d, ind) == Resolution(ChunkSize / 4, ChunkSize)
    ensures d.radius > 0.0 && BelowEighthRadius(d.radius, ind.alt)
      ==> LonLatCellsInChunkIndex(d, ind).latCells == ChunkSize / 4
          && LonLatCellsInChunkIndex(d, ind).lonCells <= ChunkSize / 4
  {
  }

  // ---------------------------------------------------------------------
  // Local offsets
  // ---------------------------------------------------------------------

  /** Position of a cell inside its chunk's cell array. */
  datatype LocalIndex = LocalIndex(lon: int, lat: int, alt: int)

  /** CellIndexToCell's offset arithmetic: `(x % 16) / (16 / cells)` on lon and
      lat, `alt % 16` on alt, with Go's truncating operators. */
  function LocalOffset(d: Dims, c: CellIndex): LocalIndex {
    var r := LonLatCellsInChunkIndex(d, CellIndexToChunkIndex(c));
    LocalIndex(
      GoDiv(GoRem(c.lon, ChunkSize), ChunkSize / r.lonCells),
      GoDiv(GoRem(c.lat, ChunkSize), ChunkSize / r.latCells),
      GoRem(c.alt, ChunkSize))
  }

  /** Containment: a cell whose chunk is in range has a local offset inside
      the lonCells x latCells x 16 array built for that chunk, and the array
      slot's lower corner (the location the generator is sampled at) is the
      cell rounded down to the slot's width, so the slot covers the cell. */
  lemma LocalOffsetInChunk(d: Dims, c: CellIndex)
    requires ChunkInRange(d, CellIndexToChunkIndex(c))
    ensures var k := CellIndexToChunkIndex(c);
            var r := LonLatCellsInChunkIndex(d, k);
            var l := LocalOffset(d, c);
            && 0 <= l.lon < r.lonCells && 0 <= l.lat < r.latCells && 0 <= l.alt < ChunkSize
            && SlotCovers(ChunkSize * k.lon, l.lon, ChunkSize / r.lonCells, c.lon)
            && SlotCovers(ChunkSize * k.lat, l.lat, ChunkSize / r.latCells, c.lat)
            && ChunkSize * k.alt + l.alt == c.alt
  {
    var k := CellIndexToChunkIndex(c);
    var r := LonLatCellsInChunkIndex(d, k);
    assert c.lon >= 0 && c.lat >= 0 && c.alt >= 0;
    AxisOffset(c.lon, r.lonCells);
    AxisOffset(c.lat, r.latCells);
    GoAgreesOnNatural(c.alt, ChunkSize);
  }

  /** Slot `i` of width `w` starting at `base` contains coordinate `x`. */
  predicate SlotCovers(base: int, i: int, w: int, x: int) {
    base + i * w <= x < base + (i + 1) * w
  }

  lemma AxisOffset(x: int, cells: int)
    requires x >= 0 && cells in {1, 2, 4, 8, 16}
    ensures var w := ChunkSize / cells;
            var i := GoDiv(GoRem(x, ChunkSize), w);
            0 <= i < cells && SlotCovers(ChunkSize * (x / ChunkSize), i, w, x)
  {
    var w := ChunkSize / cells;
    GoAgreesOnNatural(x, ChunkSize);
    var m := x % ChunkSize;
    GoAgreesOnNatural(m, w);
    var i := m / w;
    assert w * cells == ChunkSize;
    assert i * w <= m < (i + 1) * w;
    assert i < cells;
    assert x == ChunkSize * (x / ChunkSize) + m;
  }

  // ---------------------------------------------------------------------
  // Fractional locations
  // ---------------------------------------------------------------------

  /** validateCellLoc: a negative longitude gets one turn added, then whole
      turns are subtracted while it is at least a turn. The source loops
      forever on a non-negative longitude when the longitude count is not
      positive. */
  function ValidateCellLoc(lonCells: int, l: CellLoc): (r: CellLoc)
    requires lonCells > 0
    ensures r.lat == l.lat && r.alt == l.alt
    ensures 0.0 <= l.lon < lonCells as real ==> r == l
    ensures -(lonCells as real) <= l.lon ==> 0.0 <= r.lon < lonCells as real
    ensures l.lon < -(lonCells as real) ==> r.lon == l.lon + lonCells as real
  {
    var lon := if l.lon < 0.0 then l.lon + lonCells as real else l.lon;
    CellLoc(SubtractTurns(lon, lonCells as real), l.lat, l.alt)
  }

  /** The `for l.Lon >= turn { l.Lon -= turn }` loop. */
  function SubtractTurns(lon: real, turn: real): (r: real)
    requires turn >= 1.0
    ensures lon < turn ==> r == lon
    ensures lon >= turn ==> 0.0 <= r < turn
    ensures r <= lon
    decreases lon.Floor
  {
    if lon >= turn then SubtractTurns(lon - turn, turn) else lon
  }

  /** CellLocToNearestCellCenter: wrap longitude, then round every axis to
      the nearest whole cell (`floor(x + 0.5)`). */
  function CellLocToNearestCellCenter(lonCells: int, l: CellLoc): (r: CellLoc)
    requires lonCells > 0
    ensures var v := ValidateCellLoc(lonCells, l);
            && NearestWhole(v.lon, r.lon) && NearestWhole(v.lat, r.lat) && NearestWhole(v.alt, r.alt)
  {
    var v := ValidateCellLoc(lonCells, l);
    CellLoc(RoundHalfUp(v.lon), RoundHalfUp(v.lat), RoundHalfUp(v.alt))
  }

  function RoundHalfUp(x: real): real {
    (x + 0.5).Floor as real
  }

  /** `w` is a whole number within half a cell of `x` (ties go up). */
  predicate NearestWhole(x: real, w: real) {
    w == w.Floor as real && w - 0.5 <= x < w + 0.5
  }

  /** CellLocToCellIndex: wrap, round to the nearest centre, wrap again (a
      longitude that rounds up to a full turn becomes 0), then truncate. */
  function CellLocToCellIndex(lonCells: int, l: CellLoc): (c: CellIndex)
    requires lonCells > 0
    ensures -(lonCells as real) <= l.lon ==> 0 <= c.lon < lonCells
    ensures NearestWhole(l.lat, c.lat as real) && NearestWhole(l.alt, c.alt as real)
  {
    var v := ValidateCellLoc(lonCells, l);
    var n := CellLocToNearestCellCenter(lonCells, v);
    var w := ValidateCellLoc(lonCells, n);
    CellIndex(w.lon.Floor, w.lat.Floor, w.alt.Floor)
  }
}
