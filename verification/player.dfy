/** The player rules of pkg/common/player.go: creation, spawning, health,
    the Apex location lock, the look-altitude clamp, the nearby-chunk sweep
    and the jump/fall rule of UpdatePosition. Vectors are real triples; the
    float32 rounding of mgl32 is not modelled. */
module Player {
  import opened Wrappers
  import opened GoInt
  import opened Grid
  import opened Chunks
  import opened Generators
  import opened CommonPlanet
  import opened GeomUtil
  import opened Materials

  /** Game modes (`iota` constants). */
  const Normal: int := 0
  const Flying: int := 1
  const NumGameModes: int := 2

  const MaxHealth: int := 10
  const HotbarSlots: int := 12
  /** The Apex player's fixed location. */
  const ApexLocation: Vec3 := Vec3(0.0, 0.0, 750.0)
  /** The look altitude stays within this many degrees of the horizon. */
  const MaxLookAltitude: real := 89.9
  /** The largest time step UpdatePosition integrates over. */
  const MaxStep: real := 0.05
  const Gravity: real := 20.0
  const JumpVel: real := 7.0

  datatype Player = Player(
    upVel: real, downVel: real, forwardVel: real, backVel: real,
    rightVel: real, leftVel: real, fallVel: real, walkVel: real,
    loc: Vec3,
    lookAltitude: real,
    height: real,
    radius: real,
    gameMode: int,
    holdingJump: bool,
    inJump: bool,
    name: string,
    activeHotBarSlot: int,
    focusCellIndex: CellIndex,
    inInventory: bool,
    hotbarOn: bool,
    hotbar: seq<int>,
    renderDistance: int,
    health: int,
    intext: bool,
    text: string,
    apex: bool)

  /** Go's zero value of the struct. */
  const ZeroPlayer: Player := Player(0.0, 0.0, 0.0, 0.0, 0.0, 0.0, 0.0, 0.0, Vec3(0.0, 0.0, 0.0), 0.0, 0.0, 0.0,
                                     0, false, false, "", 0, CellIndex(0, 0, 0), false, false, seq(HotbarSlots, _ => 0), 0, 0, false, "", false)

  /** NewPlayer: walking speed 5, height 2, radius 0.25, Normal mode, slot 0
      active with the hotbar shown, render distance 4, and hotbar slot i
      holding material i + 1; everything else is zero. */
  function NewPlayer(name: string): (p: Player)
    ensures p.walkVel == 5.0 && p.gameMode == Normal && p.name == name
    ensures p.activeHotBarSlot == 0 && p.hotbarOn && p.renderDistance == 4
    ensures |p.hotbar| == HotbarSlots && forall i :: 0 <= i < HotbarSlots ==> p.hotbar[i] == i + 1
    ensures p.health == 0 && !p.apex && !p.intext && p.text == ""
  {
    ZeroPlayer.(walkVel := 5.0, height := 2.0, radius := 0.25, gameMode := Normal, name := name,
                activeHotBarSlot := 0, hotbarOn := true, renderDistance := 4,
                hotbar := seq(HotbarSlots, i => i + 1))
  }

  predicate AtRest(p: Player) {
    p.upVel == 0.0 && p.downVel == 0.0 && p.forwardVel == 0.0 && p.backVel == 0.0
    && p.rightVel == 0.0 && p.leftVel == 0.0 && p.fallVel == 0.0
  }

  /** The point `k` steps down from `start`. */
  function Back(start: real, k: nat): real {
    start - k as real
  }

  /** Spawn's landing search along the x axis: starting at `start`, step
      down by one while the cell there is missing or air (`solid` is false)
      and x is positive. */
  method Landing(start: real, solid: real -> bool) returns (x: real)
    ensures x <= start && (start - x).Floor as real == start - x
    ensures x <= 0.0 || solid(x)
    ensures forall k: nat :: k as real < start - x ==> Back(start, k) > 0.0 && !solid(Back(start, k))
  {
    x := start;
    var steps: nat := 0;
    while !solid(x) && x > 0.0
      invariant x == start - steps as real
      invariant forall k: nat :: k < steps ==> Back(start, k) > 0.0 && !solid(Back(start, k))
      decreases if x > 0.0 then x.Floor + 1 else 0
    {
      x := x - 1.0;
      steps := steps + 1;
    }
  }

  /** Location: the fixed Apex point for an Apex player. */
  function Location(p: Player): (l: Vec3)
    ensures p.apex ==> l == ApexLocation
    ensures !p.apex ==> l == p.loc
  {
    if p.apex then ApexLocation else p.loc
  }

  /** SetLocation: ignored for an Apex player. */
  function SetLocation(p: Player, l: Vec3): (q: Player)
    ensures p.apex ==> q == p
    ensures !p.apex ==> q == p.(loc := l) && Location(q) == l
  {
    if !p.apex then p.(loc := l) else p
  }

  /** An Apex player's location is locked: whatever is set, it reads the
      Apex point. */
  lemma ApexLocationLocked(p: Player, l: Vec3)
    ensures Location(SetLocation(p, l)) == (if p.apex then ApexLocation else l)
  {
  }

  /** Swivel's altitude update: down by a tenth of the mouse's y movement,
      then clamped to [-89.9, 89.9]. The heading's rotation is not
      modelled. */
  function Swivel(p: Player, deltaY: real): (q: Player)
    ensures -MaxLookAltitude <= q.lookAltitude <= MaxLookAltitude
    ensures -MaxLookAltitude <= p.lookAltitude - 0.1 * deltaY <= MaxLookAltitude ==>
              q.lookAltitude == p.lookAltitude - 0.1 * deltaY
    ensures q == p.(lookAltitude := q.lookAltitude)
  {
    var a := p.lookAltitude - 0.1 * deltaY;
    var lower := if a < MaxLookAltitude then a else MaxLookAltitude;
    p.(lookAltitude := if lower > -MaxLookAltitude then lower else -MaxLookAltitude)
  }

  // ---------------------------------------------------------------------
  // LoadNearbyChunks
  // ---------------------------------------------------------------------

  /** The first wrapping loop: add `n` while negative. */
  function WrapUp(v: int, n: int): (r: int)
    requires n > 0
    ensures v >= 0 ==> r == v
    ensures v < 0 ==> r == v % n
    decreases if v < 0 then -v else 0
  {
    if v < 0 then
      ModShift(v, n, 1);
      assert v + n >= 0 ==> (v + n) % n == v + n by {
        if v + n >= 0 { ModSmall(v + n, n); }
      }
      WrapUp(v + n, n)
    else v
  }

  /** The second wrapping loop: subtract `n` while at least `n`. */
  function WrapDown(v: int, n: int): (r: int)
    requires n > 0
    ensures v < n ==> r == v
    ensures v >= n ==> r == v % n
    decreases if v >= n then v else 0
  {
    if v >= n then
      ModShift(v, n, -1);
      assert v - n < n ==> (v - n) % n == v - n by {
        if v - n < n { ModSmall(v - n, n); }
      }
      WrapDown(v - n, n)
    else v
  }

  /** The longitude wrap: the two loops together give the residue modulo
      the number of longitude chunks. Both loops would spin forever without
      a positive chunk count. */
  function WrapLon(v: int, n: int): (r: int)
    requires n > 0
    ensures 0 <= r < n && r == v % n
  {
    var u := WrapUp(v, n);
    assert 0 <= v < n ==> v % n == v by {
      if 0 <= v < n { ModSmall(v, n); }
    }
    WrapDown(u, n)
  }

  /** How many integers lie in `lo .. hi`. */
  function Span(lo: int, hi: int): nat {
    if lo <= hi then hi - lo + 1 else 0
  }

  /** Every altitude of column (lon, lat), bottom up. */
  function AltColumn(lon: int, lat: int, alt: int, altChunks: int): (s: seq<ChunkIndex>)
    ensures forall k :: k in s <==> (k.lon == lon && k.lat == lat && alt <= k.alt < altChunks)
    ensures |s| == Span(alt, altChunks - 1)
    decreases altChunks - alt
  {
    if alt >= altChunks then [] else [ChunkIndex(lon, lat, alt)] + AltColumn(lon, lat, alt + 1, altChunks)
  }

  /** Latitudes `lat .. latMax` of longitude `lon`, each with all its
      altitudes. */
  function LatSweep(lon: int, lat: int, latMax: int, altChunks: int): (s: seq<ChunkIndex>)
    ensures |s| == Span(lat, latMax) * Span(0, altChunks - 1)
    decreases latMax - lat
  {
    if lat > latMax then [] else AltColumn(lon, lat, 0, altChunks) + LatSweep(lon, lat + 1, latMax, altChunks)
  }

  lemma {:induction false} LatSweepMembers(lon: int, lat: int, latMax: int, altChunks: int)
    ensures forall k :: k in LatSweep(lon, lat, latMax, altChunks) <==>
              (k.lon == lon && lat <= k.lat <= latMax && 0 <= k.alt < altChunks)
    decreases latMax - lat
  {
    if lat <= latMax {
      LatSweepMembers(lon, lat + 1, latMax, altChunks);
    }
  }

  /** The requests of LoadNearbyChunks in order: longitudes `lon .. lonMax`
      (wrapped), each over latitudes clamped to the planet and all
      altitudes: one request per longitude step, latitude and altitude. */
  function LonSweep(lon: int, lonMax: int, latMin: int, latMax: int, lonChunks: int, altChunks: int): (s: seq<ChunkIndex>)
    requires lonChunks > 0
    ensures |s| == Span(lon, lonMax) * (Span(latMin, latMax) * Span(0, altChunks - 1))
    decreases lonMax - lon
  {
    if lon > lonMax then []
    else LatSweep(WrapLon(lon, lonChunks), latMin, latMax, altChunks) + LonSweep(lon + 1, lonMax, latMin, latMax, lonChunks, altChunks)
  }

  lemma {:induction false} LonSweepMembers(lon: int, lonMax: int, latMin: int, latMax: int, lonChunks: int, altChunks: int)
    requires lonChunks > 0
    ensures forall k :: k in LonSweep(lon, lonMax, latMin, latMax, lonChunks, altChunks) <==>
              ((exists d :: lon <= d <= lonMax && k.lon == WrapLon(d, lonChunks))
               && latMin <= k.lat <= latMax && 0 <= k.alt < altChunks)
    decreases lonMax - lon
  {
    if lon <= lonMax {
      LatSweepMembers(WrapLon(lon, lonChunks), latMin, latMax, altChunks);
      LonSweepMembers(lon + 1, lonMax, latMin, latMax, lonChunks, altChunks);
      forall k: ChunkIndex | (exists d :: lon <= d <= lonMax && k.lon == WrapLon(d, lonChunks)) && latMin <= k.lat <= latMax && 0 <= k.alt < altChunks
        ensures k in LonSweep(lon, lonMax, latMin, latMax, lonChunks, altChunks)
      {
        var d :| lon <= d <= lonMax && k.lon == WrapLon(d, lonChunks);
        if d > lon {
          assert k in LonSweep(lon + 1, lonMax, latMin, latMax, lonChunks, altChunks);
        }
      }
    }
  }

  /** The chunk requests LoadNearbyChunks makes around the chunk `ind`
      under the player's feet (found from the Cartesian location, which is
      not part of this model): `2 * renderDistance + 1` longitude steps,
      each over the clamped latitudes and every altitude, so a longitude
      the wrap reaches twice is requested twice. */
  function NearbyChunks(p: Planet, ind: ChunkIndex, renderDistance: int): (s: seq<ChunkIndex>)
    requires Grid.Chunks(p.lonCells) > 0
    ensures renderDistance >= 0 ==>
              |s| == (2 * renderDistance + 1) *
                       (Span(Max(ind.lat - renderDistance, 0), Min(ind.lat + renderDistance, Grid.Chunks(p.latCells) - 1))
                        * Span(0, Grid.Chunks(p.state.altCells) - 1))
  {
    LonSweep(ind.lon - renderDistance, ind.lon + renderDistance,
             Max(ind.lat - renderDistance, 0), Min(ind.lat + renderDistance, Grid.Chunks(p.latCells) - 1),
             Grid.Chunks(p.lonCells), Grid.Chunks(p.state.altCells))
  }

  /** LoadNearbyChunks requests exactly the chunks whose longitude is one
      of `ind.lon ± renderDistance` wrapped onto the planet (taken modulo
      the longitude chunk count, by WrapLon's contract), whose latitude
      is within `renderDistance` of `ind.lat` and on the planet, and every
      altitude of the planet. */
  lemma NearbyChunksAre(p: Planet, ind: ChunkIndex, renderDistance: int, k: ChunkIndex)
    requires Grid.Chunks(p.lonCells) > 0
    ensures k in NearbyChunks(p, ind, renderDistance) <==>
              && (exists lon :: ind.lon - renderDistance <= lon <= ind.lon + renderDistance && k.lon == WrapLon(lon, Grid.Chunks(p.lonCells)))
              && ind.lat - renderDistance <= k.lat <= ind.lat + renderDistance
              && 0 <= k.lat < Grid.Chunks(p.latCells)
              && 0 <= k.alt < Grid.Chunks(p.state.altCells)
  {
    LonSweepMembers(ind.lon - renderDistance, ind.lon + renderDistance,
                    Max(ind.lat - renderDistance, 0), Min(ind.lat + renderDistance, Grid.Chunks(p.latCells) - 1),
                    Grid.Chunks(p.lonCells), Grid.Chunks(p.state.altCells));
  }

  /** Requests the chunks in order through GetChunk; a synchronous fetch
      that fails is fatal. `fetch` stands for the server's answers. */
  function LoadChunks(p: Planet, w: World, reqs: seq<ChunkIndex>, async: bool, noise: Noise,
                      fetch: ChunkIndex -> Option<Chunk>): (r: Outcome<(Planet, World)>)
    ensures r.Done? ==> r.value.0 == p.(chunks := r.value.0.chunks)
    decreases |reqs|
  {
    if reqs == [] then Done((p, w))
    else
      match GetChunk(p, w, reqs[0], async, noise, fetch(reqs[0]))
      case Panic(why) => Panic(why)
      case Done(s) => LoadChunks(s.planet, s.world, reqs[1..], async, noise, fetch)
  }

  /** After loading, every requested chunk on the planet is in the cache
      (resident, or a placeholder while an asynchronous fetch is pending),
      and no cached chunk has been dropped. */
  lemma {:induction false} LoadChunksCaches(p: Planet, w: World, reqs: seq<ChunkIndex>, async: bool, noise: Noise,
                                            fetch: ChunkIndex -> Option<Chunk>)
    requires LoadChunks(p, w, reqs, async, noise, fetch).Done?
    ensures var q := LoadChunks(p, w, reqs, async, noise, fetch).value.0;
            && (forall k :: k in p.chunks ==> k in q.chunks && q.chunks[k] == p.chunks[k])
            && (forall k :: k in reqs && ChunkInRange(DimsOf(p), k) ==> k in q.chunks)
    decreases |reqs|
  {
    if reqs != [] {
      var s := GetChunk(p, w, reqs[0], async, noise, fetch(reqs[0])).value;
      assert ChunkInRange(DimsOf(p), reqs[0]) ==> reqs[0] in s.planet.chunks;
      assert forall k :: k in p.chunks ==> k in s.planet.chunks && s.planet.chunks[k] == p.chunks[k];
      assert DimsOf(s.planet) == DimsOf(p);
      LoadChunksCaches(s.planet, s.world, reqs[1..], async, noise, fetch);
      forall k | k in reqs
        ensures k == reqs[0] || k in reqs[1..]
      {
        var i :| 0 <= i < |reqs| && reqs[i] == k;
        if i > 0 {
          assert reqs[1..][i - 1] == k;
        }
      }
    }
  }

  /** A load never fails when it is asynchronous (as UpdatePosition's is)
      or the planet has no remote link. */
  lemma {:induction false} LoadNeverFails(p: Planet, w: World, reqs: seq<ChunkIndex>, async: bool, noise: Noise,
                                          fetch: ChunkIndex -> Option<Chunk>)
    requires async || !p.hasRpc
    ensures LoadChunks(p, w, reqs, async, noise, fetch).Done?
    decreases |reqs|
  {
    if reqs != [] {
      var s := GetChunk(p, w, reqs[0], async, noise, fetch(reqs[0])).value;
      LoadNeverFails(s.planet, s.world, reqs[1..], async, noise, fetch);
    }
  }

  /** Request `i` reaches the server with nothing to answer it: the chunk
      is on the planet, neither cached beforehand nor requested earlier in
      the same load, and `fetch` has no reply for it. */
  predicate Unanswered(p: Planet, reqs: seq<ChunkIndex>, fetch: ChunkIndex -> Option<Chunk>, i: int) {
    && 0 <= i < |reqs|
    && ChunkInRange(DimsOf(p), reqs[i])
    && reqs[i] !in p.chunks
    && reqs[i] !in reqs[..i]
    && fetch(reqs[i]).None?
  }

  /** A synchronous load on a remote planet fails exactly when one of its
      requests goes unanswered: every earlier on-planet request has been
      cached by then, so only a chunk new to the load is fetched. */
  lemma {:induction false} SyncLoadFails(p: Planet, w: World, reqs: seq<ChunkIndex>, noise: Noise,
                                         fetch: ChunkIndex -> Option<Chunk>)
    requires p.hasRpc
    ensures LoadChunks(p, w, reqs, false, noise, fetch).Panic? <==> exists i :: Unanswered(p, reqs, fetch, i)
    decreases |reqs|
  {
    if reqs != [] {
      match GetChunk(p, w, reqs[0], false, noise, fetch(reqs[0]))
      case Panic(_) =>
        assert Unanswered(p, reqs, fetch, 0);
      case Done(s) =>
        SyncLoadFails(s.planet, s.world, reqs[1..], noise, fetch);
        UnansweredAfterFirst(p, w, reqs, noise, fetch);
    }
  }

  /** Once the first request has been served, the unanswered requests of
      the rest are those of the whole load, shifted by one. */
  lemma UnansweredAfterFirst(p: Planet, w: World, reqs: seq<ChunkIndex>, noise: Noise, fetch: ChunkIndex -> Option<Chunk>)
    requires p.hasRpc && reqs != [] && GetChunk(p, w, reqs[0], false, noise, fetch(reqs[0])).Done?
    ensures var s := GetChunk(p, w, reqs[0], false, noise, fetch(reqs[0])).value;
            (exists i :: Unanswered(p, reqs, fetch, i)) <==> (exists j :: Unanswered(s.planet, reqs[1..], fetch, j))
  {
    var s := GetChunk(p, w, reqs[0], false, noise, fetch(reqs[0])).value;
    GetChunkFrame(p, w, reqs[0], false, noise, fetch(reqs[0]));
    assert DimsOf(s.planet) == DimsOf(p);
    assert ChunkInRange(DimsOf(p), reqs[0]) ==> reqs[0] in s.planet.chunks;
    assert !Unanswered(p, reqs, fetch, 0);
    forall i | 1 <= i < |reqs|
      ensures Unanswered(p, reqs, fetch, i) <==> Unanswered(s.planet, reqs[1..], fetch, i - 1)
    {
      assert reqs[..i] == [reqs[0]] + reqs[1..][..i - 1];
      assert reqs[1..][i - 1] == reqs[i];
    }
    if exists i :: Unanswered(p, reqs, fetch, i) {
      var i :| Unanswered(p, reqs, fetch, i);
      assert Unanswered(s.planet, reqs[1..], fetch, i - 1);
    }
    if exists j :: Unanswered(s.planet, reqs[1..], fetch, j) {
      var j :| Unanswered(s.planet, reqs[1..], fetch, j);
      assert Unanswered(p, reqs, fetch, j + 1);
    }
  }

  // ---------------------------------------------------------------------
  // Spawning and health
  // ---------------------------------------------------------------------

  /** Spawn: the look direction and location reset, health full and all
      seven velocities zero; the chunks around the spawn point are loaded
      synchronously, so on a remote planet a request the server does not
      answer is fatal; then the landing search runs. `feet` is the chunk
      under the feet at the spawn point and `landing` is where Landing,
      started at Radius + 5, stops; both come from the Cartesian-to-cell
      conversion, which is not part of this model. `fetch` stands for the
      server's answers. */
  function Spawn(p: Player, planet: Planet, w: World, feet: ChunkIndex, noise: Noise,
                 fetch: ChunkIndex -> Option<Chunk>, landing: real): (r: Outcome<(Player, Planet, World)>)
    requires Grid.Chunks(planet.lonCells) > 0
    ensures r.Panic? <==> planet.hasRpc && exists i :: Unanswered(planet, NearbyChunks(planet, feet, p.renderDistance), fetch, i)
    ensures r.Done? ==>
              var q := r.value.0;
              && q.health == MaxHealth && AtRest(q)
              && q.loc == Vec3(landing + 5.0, 0.0, 0.0)
              && q.(upVel := p.upVel, downVel := p.downVel, forwardVel := p.forwardVel, backVel := p.backVel,
                    rightVel := p.rightVel, leftVel := p.leftVel, fallVel := p.fallVel,
                    health := p.health, loc := p.loc) == p
    ensures r.Done? ==>
              && r.value.1 == planet.(chunks := r.value.1.chunks)
              && (forall k :: k in planet.chunks ==> k in r.value.1.chunks)
              && (forall k :: k in NearbyChunks(planet, feet, p.renderDistance) && ChunkInRange(DimsOf(planet), k) ==> k in r.value.1.chunks)
  {
    var reqs := NearbyChunks(planet, feet, p.renderDistance);
    if planet.hasRpc then SyncLoadFails(planet, w, reqs, noise, fetch); SpawnAfterLoad(p, planet, w, reqs, noise, fetch, landing)
    else LoadNeverFails(planet, w, reqs, false, noise, fetch); SpawnAfterLoad(p, planet, w, reqs, noise, fetch, landing)
  }

  /** Spawn's synchronous load followed by its field updates. */
  function SpawnAfterLoad(p: Player, planet: Planet, w: World, reqs: seq<ChunkIndex>, noise: Noise,
                          fetch: ChunkIndex -> Option<Chunk>, landing: real): (r: Outcome<(Player, Planet, World)>)
    ensures r.Panic? <==> LoadChunks(planet, w, reqs, false, noise, fetch).Panic?
    ensures r.Done? ==>
              && r.value.1 == planet.(chunks := r.value.1.chunks)
              && (forall k :: k in planet.chunks ==> k in r.value.1.chunks)
              && (forall k :: k in reqs && ChunkInRange(DimsOf(planet), k) ==> k in r.value.1.chunks)
  {
    var loaded :- LoadChunks(planet, w, reqs, false, noise, fetch);
    LoadChunksCaches(planet, w, reqs, false, noise, fetch);
    Done((p.(health := MaxHealth, upVel := 0.0, downVel := 0.0, forwardVel := 0.0, backVel := 0.0,
             rightVel := 0.0, leftVel := 0.0, fallVel := 0.0, loc := Vec3(landing + 5.0, 0.0, 0.0)),
          loaded.0, loaded.1))
  }

  /** UpdateHealth: the sum (a 64-bit int) respawns the player at full
      health when it is not positive, and is capped at MaxHealth. Spawn
      overwrites the health, so it is passed the player as it was (and the
      cap has nothing left to do after a respawn). A respawn
      needs a planet with longitude chunks, or the load's wrapping loops
      would not end. */
  function UpdateHealth(p: Player, amount: int, planet: Planet, w: World, feet: ChunkIndex, noise: Noise,
                        fetch: ChunkIndex -> Option<Chunk>, landing: real): (r: Outcome<(Player, Planet, World)>)
    requires IsInt64(p.health) && IsInt64(amount)
    requires Wrap64(p.health + amount) <= 0 ==> Grid.Chunks(planet.lonCells) > 0
    ensures r.Done? ==> 1 <= r.value.0.health <= MaxHealth
    ensures Wrap64(p.health + amount) <= 0 ==> r == Spawn(p, planet, w, feet, noise, fetch, landing)
    ensures 0 < Wrap64(p.health + amount) ==> r == Done((p.(health := Min(Wrap64(p.health + amount), MaxHealth)), planet, w))
  {
    var h := Wrap64(p.health + amount);
    if h <= 0 then Spawn(p, planet, w, feet, noise, fetch, landing)
    else Done((p.(health := Min(h, MaxHealth)), planet, w))
  }

  /** Healing within range adds exactly the amount and touches neither the
      planet nor the world. */
  lemma UpdateHealthAdds(p: Player, amount: int, planet: Planet, w: World, feet: ChunkIndex, noise: Noise,
                         fetch: ChunkIndex -> Option<Chunk>, landing: real)
    requires 0 < p.health + amount <= MaxHealth && IsInt64(p.health) && IsInt64(amount)
    ensures UpdateHealth(p, amount, planet, w, feet, noise, fetch, landing) == Done((p.(health := p.health + amount), planet, w))
  {
  }

  /** A fatal blow on a planet without a remote link always respawns the
      player at full health, at rest, with the nearby chunks loaded. */
  lemma LocalDeathRespawns(p: Player, amount: int, planet: Planet, w: World, feet: ChunkIndex, noise: Noise,
                           fetch: ChunkIndex -> Option<Chunk>, landing: real)
    requires IsInt64(p.health) && IsInt64(amount) && Wrap64(p.health + amount) <= 0
    requires Grid.Chunks(planet.lonCells) > 0 && !planet.hasRpc
    ensures var r := UpdateHealth(p, amount, planet, w, feet, noise, fetch, landing);
            && r.Done? && r.value.0.health == MaxHealth && AtRest(r.value.0)
            && forall k :: k in NearbyChunks(planet, feet, p.renderDistance) && ChunkInRange(DimsOf(planet), k) ==> k in r.value.1.chunks
  {
  }

  // ---------------------------------------------------------------------
  // UpdatePosition
  // ---------------------------------------------------------------------

  /** The time step is capped at 0.05. */
  function ClampStep(h: real): (r: real)
    ensures r <= MaxStep && (h <= MaxStep ==> r == h)
  {
    if h > MaxStep then MaxStep else h
  }

  /** The jump/fall rule of a Normal-mode step, `falling` meaning the cell
      at the feet is missing or air: gravity accelerates a falling player,
      a standing player holding jump (and not already jumping) takes off,
      and any other standing player stops. */
  function JumpFall(p: Player, h: real, falling: bool): (q: Player)
    ensures q == p.(fallVel := q.fallVel, inJump := q.inJump)
    ensures falling ==> q.fallVel == p.fallVel - Gravity * ClampStep(h) && q.inJump == p.inJump
    ensures !falling && p.holdingJump && !p.inJump ==> q.fallVel == JumpVel && q.inJump
    ensures !falling && !(p.holdingJump && !p.inJump) ==> q.fallVel == 0.0 && !q.inJump
  {
    var h' := ClampStep(h);
    if falling then p.(fallVel := p.fallVel - Gravity * h')
    else if p.holdingJump && !p.inJump then p.(fallVel := JumpVel, inJump := true)
    else p.(fallVel := 0.0, inJump := false)
  }

  /** A jump lasts one step: holding jump while standing takes off once,
      and standing again clears the jump flag before the next take-off. */
  lemma JumpOnce(p: Player, h: real)
    requires p.holdingJump && !p.inJump
    ensures var q := JumpFall(p, h, false);
            q.inJump && JumpFall(q, h, false).fallVel == 0.0 && !JumpFall(q, h, false).inJump
  {
  }

  /** UpdatePosition. The chunks around the player are loaded
      asynchronously. In Normal mode the cell at the feet is then looked up
      (`feetCell`, the index the Cartesian feet point falls in), which may
      start a load of its own and panics when the chunk found has no slot
      for the cell, as a fetch that failed leaves it; the jump/fall rule
      applies with `falling` meaning no cell or air. In Normal and Flying
      mode the player then moves through SetLocation (so an Apex player
      stays put); `moved` is where the velocity step and the collision
      pushes put the player, which is float geometry outside this model.
      Finally the focus cell is reset to index 0 and set to the first
      non-air cell the look ray meets (`focus`, also left to the caller,
      None when the ray meets none within its 100 steps). */
  function UpdatePosition(p: Player, planet: Planet, w: World, ind: ChunkIndex, h: real, feetCell: CellIndex,
                          moved: Vec3, focus: Option<CellIndex>,
                          noise: Noise, fetch: ChunkIndex -> Option<Chunk>): (r: Outcome<(Player, Planet, World)>)
    requires Grid.Chunks(planet.lonCells) > 0
    ensures var loaded := LoadNearbyAsync(planet, w, ind, p.renderDistance, noise, fetch);
            var look := CellIndexToCell(loaded.0, loaded.1, feetCell, noise);
            && (r.Panic? <==> p.gameMode == Normal && look.Panic?)
            && (r.Done? && p.gameMode == Normal ==>
                  r.value == (MovePlayer(p, h, Falling(look.value.value), moved, focus), look.value.planet, look.value.world))
            && (p.gameMode != Normal ==> r == Done((MovePlayer(p, h, false, moved, focus), loaded.0, loaded.1)))
    ensures r.Done? ==> r.value.0.loc == if !p.apex && (p.gameMode == Normal || p.gameMode == Flying) then moved else p.loc
    ensures r.Done? ==> r.value.0.focusCellIndex == if focus.Some? then focus.value else CellIndex(0, 0, 0)
    ensures r.Done? ==> r.value.1 == planet.(chunks := r.value.1.chunks)
    ensures r.Done? ==> forall k :: k in planet.chunks ==> k in r.value.1.chunks
    ensures r.Done? ==> forall k :: k in NearbyChunks(planet, ind, p.renderDistance) && ChunkInRange(DimsOf(planet), k) ==> k in r.value.1.chunks
  {
    var g :- Ground(p, planet, w, ind, feetCell, noise, fetch);
    Done((MovePlayer(p, h, g.0, moved, focus), g.1, g.2))
  }

  /** The part of UpdatePosition that reads the planet: the asynchronous
      load, then in Normal mode the feet lookup. The result is whether the
      player falls, and the planet and world afterwards. */
  function Ground(p: Player, planet: Planet, w: World, ind: ChunkIndex, feetCell: CellIndex,
                  noise: Noise, fetch: ChunkIndex -> Option<Chunk>): (r: Outcome<(bool, Planet, World)>)
    requires Grid.Chunks(planet.lonCells) > 0
    ensures var loaded := LoadNearbyAsync(planet, w, ind, p.renderDistance, noise, fetch);
            var look := CellIndexToCell(loaded.0, loaded.1, feetCell, noise);
            && (r.Panic? <==> p.gameMode == Normal && look.Panic?)
            && (r.Done? && p.gameMode == Normal ==>
                  r.value == (Falling(look.value.value), look.value.planet, look.value.world))
            && (p.gameMode != Normal ==> r == Done((false, loaded.0, loaded.1)))
  {
    var loaded := LoadNearbyAsync(planet, w, ind, p.renderDistance, noise, fetch);
    if p.gameMode == Normal then
      var look :- CellIndexToCell(loaded.0, loaded.1, feetCell, noise);
      Done((Falling(look.value), look.planet, look.world))
    else
      Done((false, loaded.0, loaded.1))
  }

  /** The feet lookup finds no cell, or air. */
  predicate Falling(cell: Option<int>) {
    cell.None? || cell.value == Air
  }

  /** LoadNearbyChunks(true): the asynchronous load around the chunk
      `ind`, which never fails. */
  function LoadNearbyAsync(planet: Planet, w: World, ind: ChunkIndex, renderDistance: int, noise: Noise,
                           fetch: ChunkIndex -> Option<Chunk>): (r: (Planet, World))
    requires Grid.Chunks(planet.lonCells) > 0
    ensures r.0 == planet.(chunks := r.0.chunks) && (forall k :: k in planet.chunks ==> k in r.0.chunks)
    ensures forall k :: k in NearbyChunks(planet, ind, renderDistance) && ChunkInRange(DimsOf(planet), k) ==> k in r.0.chunks
    ensures forall k :: k in planet.chunks ==> r.0.chunks[k] == planet.chunks[k]
  {
    var reqs := NearbyChunks(planet, ind, renderDistance);
    LoadNeverFails(planet, w, reqs, true, noise, fetch);
    LoadChunksCaches(planet, w, reqs, true, noise, fetch);
    LoadChunks(planet, w, reqs, true, noise, fetch).value
  }

  /** UpdatePosition's changes to the player itself. */
  function MovePlayer(p: Player, h: real, falling: bool, moved: Vec3, focus: Option<CellIndex>): (q: Player)
    ensures q.loc == if !p.apex && (p.gameMode == Normal || p.gameMode == Flying) then moved else p.loc
    ensures q.focusCellIndex == if focus.Some? then focus.value else CellIndex(0, 0, 0)
    ensures q == (if p.gameMode == Normal then JumpFall(p, h, falling) else p).(loc := q.loc, focusCellIndex := q.focusCellIndex)
  {
    var q := if p.gameMode == Normal then JumpFall(p, h, falling) else p;
    var l := if !p.apex && (p.gameMode == Normal || p.gameMode == Flying) then moved else p.loc;
    q.(loc := l, focusCellIndex := if focus.Some? then focus.value else CellIndex(0, 0, 0))
  }

  /** The Apex lock holds through a position update: whatever the
      movement, the player still reads the Apex point. */
  lemma ApexStaysPut(p: Player, planet: Planet, w: World, ind: ChunkIndex, h: real, feetCell: CellIndex,
                     moved: Vec3, focus: Option<CellIndex>, noise: Noise, fetch: ChunkIndex -> Option<Chunk>)
    requires Grid.Chunks(planet.lonCells) > 0 && p.apex
    ensures var r := UpdatePosition(p, planet, w, ind, h, feetCell, moved, focus, noise, fetch);
            r.Done? ==> Location(r.value.0) == ApexLocation && r.value.0.loc == p.loc
  {
  }

  /** Only movement and the focus differ between two updates with the
      same state: whether the update panics, the jump/fall fields and the
      loaded planet depend on neither the movement nor the ray. */
  lemma UpdateIgnoresGeometry(p: Player, planet: Planet, w: World, ind: ChunkIndex, h: real, feetCell: CellIndex,
                              moved: Vec3, focus: Option<CellIndex>, moved2: Vec3, focus2: Option<CellIndex>,
                              noise: Noise, fetch: ChunkIndex -> Option<Chunk>)
    requires Grid.Chunks(planet.lonCells) > 0
    ensures var r := UpdatePosition(p, planet, w, ind, h, feetCell, moved, focus, noise, fetch);
            var r2 := UpdatePosition(p, planet, w, ind, h, feetCell, moved2, focus2, noise, fetch);
            && r.Panic? == r2.Panic?
            && (r.Done? ==>
                  && r.value.0 == r2.value.0.(loc := r.value.0.loc, focusCellIndex := r.value.0.focusCellIndex)
                  && r.value.1 == r2.value.1 && r.value.2 == r2.value.2)
  {
    var g := Ground(p, planet, w, ind, feetCell, noise, fetch);
    if g.Done? {
      MoveIgnoresGeometry(p, h, g.value.0, moved, focus, moved2, focus2);
    }
  }

  /** The player's part of the update: the movement and the ray reach
      the location and the focus cell and nothing else. */
  lemma MoveIgnoresGeometry(p: Player, h: real, falling: bool, moved: Vec3, focus: Option<CellIndex>,
                            moved2: Vec3, focus2: Option<CellIndex>)
    ensures var q := MovePlayer(p, h, falling, moved, focus);
            q == MovePlayer(p, h, falling, moved2, focus2).(loc := q.loc, focusCellIndex := q.focusCellIndex)
  {
  }

  /** A fetch whose call failed leaves an empty chunk (not waiting, no
      cells) where the feet are: the next Normal-mode update panics on the
      cell read, whatever the load around it does. */
  lemma FailedFetchFeetPanics(p: Player, planet: Planet, w: World, ind: ChunkIndex, h: real, feetCell: CellIndex,
                              moved: Vec3, focus: Option<CellIndex>, noise: Noise, fetch: ChunkIndex -> Option<Chunk>)
    requires Grid.Chunks(planet.lonCells) > 0 && p.gameMode == Normal
    requires ChunkInRange(DimsOf(planet), CellIndexToChunkIndex(feetCell))
    ensures var q := CompleteFetch(planet, CellIndexToChunkIndex(feetCell), Chunk(false, []));
            UpdatePosition(p, q, w, ind, h, feetCell, moved, focus, noise, fetch).Panic?
  {
    var k := CellIndexToChunkIndex(feetCell);
    var q := CompleteFetch(planet, k, Chunk(false, []));
    var loaded := LoadNearbyAsync(q, w, ind, p.renderDistance, noise, fetch);
    assert loaded.0.chunks[k] == Chunk(false, []);
    assert DimsOf(loaded.0) == DimsOf(planet);
  }

  /** While the chunk at the feet is still being fetched, a Normal-mode
      update does not panic: the placeholder reads as no cell, so the
      player falls. */
  lemma PendingFetchFalls(p: Player, planet: Planet, w: World, ind: ChunkIndex, h: real, feetCell: CellIndex,
                          moved: Vec3, focus: Option<CellIndex>, noise: Noise, fetch: ChunkIndex -> Option<Chunk>)
    requires Grid.Chunks(planet.lonCells) > 0 && p.gameMode == Normal
    requires CellIndexToChunkIndex(feetCell) in planet.chunks && planet.chunks[CellIndexToChunkIndex(feetCell)].waitingForData
    ensures var r := UpdatePosition(p, planet, w, ind, h, feetCell, moved, focus, noise, fetch);
            && r.Done?
            && r.value.0.fallVel == p.fallVel - Gravity * ClampStep(h)
  {
    var k := CellIndexToChunkIndex(feetCell);
    var loaded := LoadNearbyAsync(planet, w, ind, p.renderDistance, noise, fetch);
    assert loaded.0.chunks[k] == planet.chunks[k];
  }
}
