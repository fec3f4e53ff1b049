/** The oldest planet, of server/planet.go, and the RPC handlers of
    server/rpc.go and pkg/server/rpc.go. Chunks here have no placeholder
    state: the `waitingForData` flag of the shared chunk type is always
    false. */
module ServerPlanet {
  import opened Wrappers
  import opened GoInt
  import opened Grid
  import opened Chunks
  import opened Generators

  /** This version's two materials (`iota` constants). */
  const Air: int := 0
  const Rock: int := 1

  datatype Planet = Planet(
    altMin: real,
    altDelta: real,
    latMax: real,
    lonCells: int,
    latCells: int,
    altCells: int,
    hasRpc: bool,
    chunks: map<ChunkIndex, Chunk>)

  /** The one remote call this planet makes. */
  datatype GetChunkArgs = GetChunkArgs(lat: int, lon: int, alt: int)

  datatype Step<T> = Step(planet: Planet, outbox: seq<GetChunkArgs>, value: T)

  /** NewPlanet: the three counts are rounded down to whole chunks; AltMin,
      AltDelta and LatMax are stored as given. */
  function NewPlanet(altMin: real, altDelta: real, latMax: real, lonCells: int, latCells: int, altCells: int, hasRpc: bool): (p: Planet)
    ensures p.altMin == altMin && p.altDelta == altDelta && p.latMax == latMax
    ensures p.hasRpc == hasRpc && p.chunks == map[]
    ensures p.lonCells % ChunkSize == 0 && p.latCells % ChunkSize == 0 && p.altCells % ChunkSize == 0
    ensures lonCells >= 0 ==> p.lonCells <= lonCells < p.lonCells + ChunkSize
    ensures latCells >= 0 ==> p.latCells <= latCells < p.latCells + ChunkSize
    ensures altCells >= 0 ==> p.altCells <= altCells < p.altCells + ChunkSize
  {
    Planet(altMin, altDelta, latMax, RoundToChunks(lonCells), RoundToChunks(latCells), RoundToChunks(altCells), hasRpc, map[])
  }

  /** The material of slot (i, j, k): rock when the slot's altitude index
      within the chunk (not its altitude on the planet) is at most the noise
      height `(n + 1) * AltCells / 4`. */
  function SlotMaterial(p: Planet, noise: Noise, key: ChunkIndex, i: int, j: int, k: int): int {
    var loc := CellLoc((ChunkSize * key.lon + i) as real, (ChunkSize * key.lat + j) as real, (ChunkSize * key.alt + k) as real);
    var height := (noise(loc) + 1.0) * (p.altCells as real) / 4.0;
    if (k as real) <= height then Rock else Air
  }

  /** newChunk: always 16 x 16 x 16, rock and air only. */
  function NewChunk(p: Planet, key: ChunkIndex, noise: Noise): (c: Chunk)
    ensures !c.waitingForData
    ensures HasShape(c, ChunkSize, ChunkSize, ChunkSize)
    ensures forall i, j, k :: 0 <= i < |c.cells| && 0 <= j < |c.cells[i]| && 0 <= k < |c.cells[i][j]| ==>
              c.cells[i][j][k] in {Rock, Air}
  {
    Chunk(false, seq(ChunkSize, i => seq(ChunkSize, j => seq(ChunkSize, k => SlotMaterial(p, noise, key, i, j, k)))))
  }

  /** Because the test uses the altitude index within the chunk, every
      chunk column of a given noise sample looks the same at every chunk
      altitude: with a noise sample of at least -1 the bottom slot is rock
      in every chunk, however high. */
  lemma NewChunkBottomIsRock(p: Planet, key: ChunkIndex, noise: Noise, i: int, j: int)
    requires 0 <= i < ChunkSize && 0 <= j < ChunkSize && p.altCells >= 0
    requires noise(CellLoc((ChunkSize * key.lon + i) as real, (ChunkSize * key.lat + j) as real, (ChunkSize * key.alt) as real)) >= -1.0
    ensures NewChunk(p, key, noise).cells[i][j][0] == Rock
  {
  }

  /** GetChunk: memoising. An uncached chunk is generated locally, or
      fetched synchronously from the server (a failure is fatal); the
      fetched chunk is cached but nil is returned on that call. There is no
      range check. */
  function GetChunk(p: Planet, out: seq<GetChunkArgs>, lon: int, lat: int, alt: int, noise: Noise, fetched: Option<Chunk>): (r: Outcome<Step<Option<Chunk>>>)
    ensures r.Panic? <==> (ChunkIndex(lon, lat, alt) !in p.chunks && p.hasRpc && fetched.None?)
    ensures r.Done? ==> r.value.planet == p.(chunks := r.value.planet.chunks) && ChunkIndex(lon, lat, alt) in r.value.planet.chunks
    ensures r.Done? && r.value.value.Some? ==> r.value.planet.chunks[ChunkIndex(lon, lat, alt)] == r.value.value.value
  {
    var key := ChunkIndex(lon, lat, alt);
    if key in p.chunks then Done(Step(p, out, Some(p.chunks[key])))
    else if !p.hasRpc then
      var c := NewChunk(p, key, noise);
      Done(Step(p.(chunks := p.chunks[key := c]), out, Some(c)))
    else
      match fetched
      case None => Panic("GetChunk error")
      case Some(c) => Done(Step(p.(chunks := p.chunks[key := c]), out + [GetChunkArgs(lat, lon, alt)], None))
  }

  /** Memoisation: a second request for the same key returns the cached
      chunk with nothing changed; locally the first request already
      returns it, remotely only the second one does. */
  lemma GetChunkMemo(p: Planet, out: seq<GetChunkArgs>, lon: int, lat: int, alt: int, noise: Noise, fetched: Option<Chunk>,
                     noise2: Noise, fetched2: Option<Chunk>)
    requires GetChunk(p, out, lon, lat, alt, noise, fetched).Done?
    ensures var s := GetChunk(p, out, lon, lat, alt, noise, fetched).value;
            var key := ChunkIndex(lon, lat, alt);
            && GetChunk(s.planet, s.outbox, lon, lat, alt, noise2, fetched2) == Done(Step(s.planet, s.outbox, Some(s.planet.chunks[key])))
            && (key !in p.chunks && !p.hasRpc ==> s.value == Some(NewChunk(p, key, noise)))
            && (key !in p.chunks && p.hasRpc ==> s.value.None? && s.planet.chunks[key] == fetched.value)
  {
  }

  /** IndexToChunk's bounds: no chunk for a negative coordinate or one
      whose integer part reaches its dimension. */
  predicate InBounds(p: Planet, lon: real, lat: real, alt: real) {
    && 0.0 <= lon && 0.0 <= lat && 0.0 <= alt
    && Trunc(lon) < p.lonCells && Trunc(lat) < p.latCells && Trunc(alt) < p.altCells
  }

  /** IndexToChunk: the chunk `floor(x) / 16` on each axis, or nil out of
      bounds. */
  function IndexToChunk(p: Planet, out: seq<GetChunkArgs>, lon: real, lat: real, alt: real, noise: Noise, fetched: Option<Chunk>): (r: Outcome<Step<Option<Chunk>>>)
    ensures !InBounds(p, lon, lat, alt) ==> r == Done(Step(p, out, None))
  {
    if !InBounds(p, lon, lat, alt) then Done(Step(p, out, None))
    else GetChunk(p, out, GoDiv(lon.Floor, ChunkSize), GoDiv(lat.Floor, ChunkSize), GoDiv(alt.Floor, ChunkSize), noise, fetched)
  }

  /** On a planet of whole chunks (as NewPlanet makes them) an in-bounds
      location's chunk key is in range and holds the location:
      `16 * key <= x < 16 * (key + 1)` on each axis. */
  lemma IndexToChunkKey(p: Planet, lon: real, lat: real, alt: real)
    requires p.lonCells % ChunkSize == 0 && p.latCells % ChunkSize == 0 && p.altCells % ChunkSize == 0
    requires InBounds(p, lon, lat, alt)
    ensures var key := ChunkIndex(GoDiv(lon.Floor, ChunkSize), GoDiv(lat.Floor, ChunkSize), GoDiv(alt.Floor, ChunkSize));
            && 0 <= key.lon < Grid.Chunks(p.lonCells) && 0 <= key.lat < Grid.Chunks(p.latCells) && 0 <= key.alt < Grid.Chunks(p.altCells)
            && (ChunkSize * key.lon) as real <= lon < (ChunkSize * (key.lon + 1)) as real
            && (ChunkSize * key.lat) as real <= lat < (ChunkSize * (key.lat + 1)) as real
            && (ChunkSize * key.alt) as real <= alt < (ChunkSize * (key.alt + 1)) as real
  {
    GoAgreesOnNatural(lon.Floor, ChunkSize);
    GoAgreesOnNatural(lat.Floor, ChunkSize);
    GoAgreesOnNatural(alt.Floor, ChunkSize);
    GoAgreesOnNatural(p.lonCells, ChunkSize);
    GoAgreesOnNatural(p.latCells, ChunkSize);
    GoAgreesOnNatural(p.altCells, ChunkSize);
  }

  /** IndexToCell: nil when IndexToChunk is, else slot
      `[int(lon) % 16][int(lat) % 16][int(alt) % 16]`; Go's index panic when
      the chunk lacks that slot (a fetched chunk may be empty). */
  function IndexToCell(p: Planet, out: seq<GetChunkArgs>, lon: real, lat: real, alt: real, noise: Noise, fetched: Option<Chunk>): (r: Outcome<Step<Option<int>>>)
    ensures !InBounds(p, lon, lat, alt) ==> r == Done(Step(p, out, None))
  {
    match IndexToChunk(p, out, lon, lat, alt, noise, fetched)
    case Panic(why) => Panic(why)
    case Done(s) =>
      match s.value
      case None => Done(Step(s.planet, s.outbox, None))
      case Some(chunk) =>
        match CellAt(chunk, LocalIndex(GoRem(Trunc(lon), ChunkSize), GoRem(Trunc(lat), ChunkSize), GoRem(Trunc(alt), ChunkSize)))
        case None => Panic("index out of range")
        case Some(m) => Done(Step(s.planet, s.outbox, Some(m)))
  }

  /** On a local planet every in-bounds location has a cell, read from the
      generated chunk's slot for it, and it is rock or air. */
  lemma LocalIndexToCellFound(p: Planet, out: seq<GetChunkArgs>, lon: real, lat: real, alt: real, noise: Noise, fetched: Option<Chunk>)
    requires !p.hasRpc && InBounds(p, lon, lat, alt)
    requires forall k :: k in p.chunks ==> p.chunks[k] == NewChunk(p, k, noise)
    ensures var r := IndexToCell(p, out, lon, lat, alt, noise, fetched);
            r.Done? && r.value.value.Some? && r.value.value.value in {Rock, Air}
  {
    GoAgreesOnNatural(Trunc(lon), ChunkSize);
    GoAgreesOnNatural(Trunc(lat), ChunkSize);
    GoAgreesOnNatural(Trunc(alt), ChunkSize);
  }

  /** IndexToCellCenterIndex: `floor(x + 0.5)` on each axis, the nearest
      whole cell with ties rounding up. */
  function IndexToCellCenterIndex(lon: real, lat: real, alt: real): (r: CellLoc)
    ensures NearestWhole(lon, r.lon) && NearestWhole(lat, r.lat) && NearestWhole(alt, r.alt)
  {
    CellLoc(RoundHalfUp(lon), RoundHalfUp(lat), RoundHalfUp(alt))
  }

  // ---------------------------------------------------------------------
  // RPC handlers
  // ---------------------------------------------------------------------

  /** Server.GetChunk (server/rpc.go and pkg/server/rpc.go): the planet is
      asked for `GetChunk(args.Lat, args.Lon, args.Alt)`, so the latitude
      travels in the longitude position; a non-nil chunk is copied into the
      reply, a nil one leaves the reply as it was. The error is always nil. */
  function GetChunkHandler(p: Planet, args: GetChunkArgs, reply: Chunk, noise: Noise): (r: Outcome<(Planet, Chunk)>)
    requires !p.hasRpc
    ensures r.Done? && r.value.0 == p.(chunks := r.value.0.chunks)
    ensures var key := ChunkIndex(args.lat, args.lon, args.alt);
            key in r.value.0.chunks && r.value.1 == r.value.0.chunks[key]
  {
    match GetChunk(p, [], args.lat, args.lon, args.alt, noise, None)
    case Panic(why) => Panic(why)
    case Done(s) => Done((s.planet, if s.value.Some? then s.value.value else reply))
  }

  /** The handler never fails on a local planet, and the reply is the chunk
      stored under key (Lat, Lon, Alt): the transpose of the requested
      (Lon, Lat) position. When the two differ, the requested key is left
      untouched. */
  lemma HandlerSwapsLatLon(p: Planet, args: GetChunkArgs, reply: Chunk, noise: Noise)
    requires !p.hasRpc
    ensures var r := GetChunkHandler(p, args, reply, noise);
            && r.Done?
            && var swapped := ChunkIndex(args.lat, args.lon, args.alt);
               && swapped in r.value.0.chunks && r.value.1 == r.value.0.chunks[swapped]
               && (swapped !in p.chunks ==> r.value.1 == NewChunk(p, swapped, noise))
               && (args.lat != args.lon ==>
                     var asked := ChunkIndex(args.lon, args.lat, args.alt);
                     (asked in r.value.0.chunks <==> asked in p.chunks))
  {
  }

  /** If the server answers a remote planet's request for (lon, lat) with
      Server.GetChunk on a local planet, the answer is the server's chunk
      at longitude `lat` and latitude `lon`. The program itself never gets
      that far: neither server registers Server with its RPC server
      (server/start.go:105 registers Arith, pkg/server/start.go:121 an API
      value), and the handler's planet variable is never bound. */
  lemma RemoteFetchIsTransposed(client: Planet, lon: int, lat: int, alt: int, noise: Noise, fetched: Chunk,
                                server: Planet, reply: Chunk)
    requires client.hasRpc && ChunkIndex(lon, lat, alt) !in client.chunks && !server.hasRpc
    ensures var args := GetChunk(client, [], lon, lat, alt, noise, Some(fetched)).value.outbox[0];
            && args == GetChunkArgs(lat, lon, alt)
            && GetChunkHandler(server, args, reply, noise).value.1
               == GetChunk(server, [], lat, lon, alt, noise, None).value.value.value
  {
  }

  /** Arith.Multiply: the product, wrapped to Go's 64-bit int. */
  function Multiply(a: int, b: int): (r: int)
    requires IsInt64(a) && IsInt64(b)
    ensures IsInt64(r) && (r - a * b) % 0x1_0000_0000_0000_0000 == 0
    ensures IsInt64(a * b) ==> r == a * b
  {
    Wrap64(a * b)
  }

  datatype Quotient = Quotient(quo: int, rem: int)

  /** Arith.Divide: "divide by zero" for B = 0, leaving the reply untouched;
      otherwise Go's truncating quotient (wrapped, for MinInt64 / -1) and
      remainder. Here `Panic` stands for the error value the method returns
      to its caller; the server itself does not stop. */
  function Divide(a: int, b: int, reply: Quotient): (r: Outcome<Quotient>)
    requires IsInt64(a) && IsInt64(b)
    ensures b == 0 <==> r == Panic("divide by zero")
  {
    if b == 0 then Panic("divide by zero")
    else Done(Quotient(Wrap64(GoDiv(a, b)), GoRem(a, b)))
  }

  /** Divide's reply satisfies Go's division laws: Quo * B + Rem = A,
      |Rem| < |B|, Rem is 0 or has A's sign, and Quo truncates toward zero;
      the one overflowing case, MinInt64 / -1, wraps back to MinInt64 with
      remainder 0. The reply differs from Dafny's Euclidean `/` and `%`
      whenever A is negative and B does not divide it. */
  lemma DivideLaws(a: int, b: int, reply: Quotient)
    requires IsInt64(a) && IsInt64(b) && b != 0
    ensures var q := Divide(a, b, reply).value;
            && Abs(q.rem) < Abs(b)
            && (q.rem == 0 || (q.rem < 0 <==> a < 0))
            && (a == MinInt64 && b == -1 ==> q == Quotient(MinInt64, 0))
            && (!(a == MinInt64 && b == -1) ==>
                  q.quo * b + q.rem == a && Abs(q.quo) == Abs(a) / Abs(b)
                  && (q.quo == 0 || (q.quo < 0 <==> (a < 0) != (b < 0))))
            && (a < 0 && a % b != 0 ==> q.rem != a % b)
  {
    GoRemSign(a, b);
    var q := Divide(a, b, reply).value;
    var d := GoDiv(a, b);
    assert q.rem == GoRem(a, b);
    if a == MinInt64 && b == -1 {
      assert Abs(d) == 0x8000_0000_0000_0000 by { DivByOne(Abs(a)); }
      assert d == 0x8000_0000_0000_0000;
      assert q.quo == MinInt64;
    } else {
      assert IsInt64(d) by { QuotientFits(a, b); }
      assert q.quo == d;
    }
  }

  lemma DivByOne(x: nat)
    ensures x / 1 == x
  {
  }

  /** Outside MinInt64 / -1 the truncated quotient of int64 values is an
      int64. */
  lemma QuotientFits(a: int, b: int)
    requires IsInt64(a) && IsInt64(b) && b != 0 && !(a == MinInt64 && b == -1)
    ensures IsInt64(GoDiv(a, b))
  {
    var d := GoDiv(a, b);
    var A, B := Abs(a), Abs(b);
    assert Abs(d) == A / B;
    assert A <= 0x8000_0000_0000_0000;
    DivAtMost(A, B);
    if B == 1 {
      DivByOne(A);
      if b == 1 {
        assert d == a;
      } else {
        assert A < 0x8000_0000_0000_0000;
      }
    } else {
      assert A / 2 < 0x8000_0000_0000_0000;
    }
  }

  lemma DivAtMost(x: nat, y: int)
    requires y >= 1
    ensures x / y <= x
    ensures y >= 2 ==> x / y <= x / 2
  {
  }
}
