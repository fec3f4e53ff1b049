/** The terrain generators and planetary-system tables of
    pkg/common/generators.go. Noise is not modelled: each generator receives
    the noise sample its source would draw for the location as the value of
    an arbitrary function `noise`. */
module Generators {
  import opened Wrappers
  import opened GoInt
  import opened Grid
  import opened Materials
  import opened PlanetStates

  datatype GeneratorKind = Sphere | Rings | Bumpy | Caves | Rocks

  /** The entries of the `generators` map. */
  function GeneratorNamed(name: string): (g: Option<GeneratorKind>)
    ensures g.None? <==> name !in {"sphere", "rings", "bumpy", "caves", "rocks"}
  {
    if name == "sphere" then Some(Sphere)
    else if name == "rings" then Some(Rings)
    else if name == "bumpy" then Some(Bumpy)
    else if name == "caves" then Some(Caves)
    else if name == "rocks" then Some(Rocks)
    else None
  }

  /** NewPlanet's lookup: an unknown generator type falls back to "sphere". */
  function GeneratorFor(name: string): (g: GeneratorKind)
    ensures GeneratorNamed(name).Some? ==> g == GeneratorNamed(name).value
    ensures GeneratorNamed(name).None? ==> g == Sphere
  {
    match GeneratorNamed(name)
    case Some(k) => k
    case None => Sphere
  }

  /** The name each generator is registered under. */
  function GeneratorName(g: GeneratorKind): string {
    match g
    case Sphere => "sphere"
    case Rings => "rings"
    case Bumpy => "bumpy"
    case Caves => "caves"
    case Rocks => "rocks"
  }

  /** Looking a generator up by its registered name finds it again. */
  lemma GeneratorNameRoundTrip(g: GeneratorKind)
    ensures GeneratorNamed(GeneratorName(g)) == Some(g)
    ensures GeneratorFor(GeneratorName(g)) == g
  {
  }

  /** The planet fields a generator reads. */
  datatype GenContext = GenContext(altCells: int, latCells: int)

  /** The noise sample drawn for a location (OpenSimplex is not modelled). */
  type Noise = CellLoc -> real

  /** `float64(x) / float64(d) < t` under IEEE 754 for a positive threshold:
      with d = 0 the quotient is -Inf, NaN or +Inf as x is negative, zero or
      positive. */
  predicate QuotientBelow(x: real, d: int, t: real)
    requires t > 0.0
  {
    if d == 0 then x < 0.0 else x / (d as real) < t
  }

  /** `float64(x) / float64(d) > t` under IEEE 754 for a positive threshold. */
  predicate QuotientAbove(x: real, d: int, t: real)
    requires t > 0.0
  {
    if d == 0 then x > 0.0 else x / (d as real) > t
  }

  /** The material a generator assigns to a location. */
  function Generate(g: GeneratorKind, ctx: GenContext, noise: Noise, loc: CellLoc): (m: int)
    ensures m in {Air, Stone, Grass, YellowBlock, RedBlock}
    ensures g != Rings ==> m in {Air, Stone}
  {
    match g
    case Sphere =>
      if QuotientBelow(loc.alt, ctx.altCells, 0.5) then Stone else Air
    case Rings =>
      if QuotientBelow(loc.alt, ctx.altCells, 0.5) then Grass
      else if QuotientAbove(loc.alt, ctx.altCells, 0.6) && Trunc(loc.lat) == GoDiv(ctx.latCells, 2) then
        (if noise(loc) > 0.1 then YellowBlock else RedBlock)
      else Air
    case Bumpy =>
      var height := (ctx.altCells as real) / 2.0 + noise(loc) * 4.0;
      if loc.alt <= height then Stone else Air
    case Caves =>
      var height := (noise(loc) + 1.0) * (ctx.altCells as real) / 2.0;
      if height > (ctx.altCells as real) / 2.0 then Stone else Air
    case Rocks =>
      if noise(loc) > 0.5 then Stone else Air
  }

  /** On a planet with a positive altitude count, "sphere" is solid exactly
      in the lower half of the altitude range, whatever the longitude,
      latitude or noise. */
  lemma SphereIsLowerHalf(ctx: GenContext, noise: Noise, loc: CellLoc)
    requires ctx.altCells > 0
    ensures Generate(Sphere, ctx, noise, loc) == Stone <==> 2.0 * loc.alt < ctx.altCells as real
    ensures Generate(Sphere, ctx, noise, loc) != Stone ==> Generate(Sphere, ctx, noise, loc) == Air
  {
    QuotientScale(loc.alt, ctx.altCells as real, 0.5);
  }

  /** With no altitude cells the quotient is infinite or NaN: only negative
      altitudes are solid. */
  lemma SphereWithoutAltitudes(ctx: GenContext, noise: Noise, loc: CellLoc)
    requires ctx.altCells == 0
    ensures Generate(Sphere, ctx, noise, loc) == Stone <==> loc.alt < 0.0
  {
  }

  /** "rings": grass in the lower half; above 0.6 of the height only the
      middle latitude row (`int(lat) == LatCells / 2`) is solid, and there it
      is yellow or red as the noise is above 0.1 or not; the rest is air. */
  lemma RingsLayout(ctx: GenContext, noise: Noise, loc: CellLoc)
    requires ctx.altCells > 0
    ensures Generate(Rings, ctx, noise, loc) == Grass <==> 2.0 * loc.alt < ctx.altCells as real
    ensures Generate(Rings, ctx, noise, loc) in {YellowBlock, RedBlock} <==>
      (loc.alt > 0.6 * (ctx.altCells as real) && Trunc(loc.lat) == GoDiv(ctx.latCells, 2))
    ensures Generate(Rings, ctx, noise, loc) == YellowBlock ==> noise(loc) > 0.1
  {
    QuotientScale(loc.alt, ctx.altCells as real, 0.5);
    QuotientScale(loc.alt, ctx.altCells as real, 0.6);
  }

  /** For a positive divisor, comparing a quotient with a threshold is
      comparing the dividend with the scaled threshold. */
  lemma QuotientScale(x: real, a: real, t: real)
    requires a > 0.0
    ensures x / a < t <==> x < t * a
    ensures x / a > t <==> x > t * a
  {
    assert x == (x / a) * a;
    if x / a < t { assert (x / a) * a < t * a; }
    if x / a > t { assert (x / a) * a > t * a; }
    if x / a == t { assert x == t * a; }
  }

  /** "caves" with a positive altitude count is solid exactly where the noise
      sample is positive. */
  lemma CavesFollowNoiseSign(ctx: GenContext, noise: Noise, loc: CellLoc)
    requires ctx.altCells > 0
    ensures Generate(Caves, ctx, noise, loc) == Stone <==> noise(loc) > 0.0
  {
    var a := ctx.altCells as real;
    var n := noise(loc);
    assert (n + 1.0) * a / 2.0 - a / 2.0 == n * a / 2.0;
    if n > 0.0 {
      assert n * a > 0.0;
    } else {
      assert n * a <= 0.0;
    }
  }

  /** "bumpy" is solid up to a surface within four cells of half height. */
  lemma BumpySurface(ctx: GenContext, noise: Noise, loc: CellLoc)
    requires -1.0 <= noise(loc) <= 1.0
    ensures loc.alt <= (ctx.altCells as real) / 2.0 - 4.0 ==> Generate(Bumpy, ctx, noise, loc) == Stone
    ensures loc.alt > (ctx.altCells as real) / 2.0 + 4.0 ==> Generate(Bumpy, ctx, noise, loc) == Air
  {
  }

  // ---------------------------------------------------------------------
  // Planetary systems
  // ---------------------------------------------------------------------

  /** A state with only the fields the tables set; the rest are Go zero
      values. */
  function TableEntry(id: int, name: string, gen: string, radius: real, altCells: int,
                      orbitPlanet: int, orbitDistance: real, orbitSeconds: real,
                      rotationSeconds: real): PlanetState
  {
    PlanetState(id, name, gen, radius, altCells, 0, orbitPlanet, orbitDistance, orbitSeconds, rotationSeconds)
  }

  const SpawnEntry: PlanetState := TableEntry(0, "Spawn", "bumpy", 64.0, 64, 0, 0.0, 0.0, 10.0)
  const MoonEntry: PlanetState := TableEntry(1, "Moon", "sphere", 32.0, 32, 0, 100.0, 5.0, 10.0)

  /** The "planet" table. */
  const PlanetSystem: seq<PlanetState> := [SpawnEntry]

  /** The "moon" table. */
  const MoonSystem: seq<PlanetState> := [SpawnEntry, MoonEntry]

  /** The "sun-moon" table. */
  const SunMoonSystem: seq<PlanetState> := [
    SpawnEntry.(orbitPlanet := 2, orbitDistance := 300.0, orbitSeconds := 100.0),
    MoonEntry,
    TableEntry(2, "Sun", "sphere", 128.0, 128, 2, 0.0, 0.0, 9000000.0)]

  /** The `systems` map. */
  function System(name: string): (s: Option<seq<PlanetState>>)
    ensures s.Some? <==> name in {"planet", "moon", "sun-moon"}
  {
    if name == "planet" then Some(PlanetSystem)
    else if name == "moon" then Some(MoonSystem)
    else if name == "sun-moon" then Some(SunMoonSystem)
    else None
  }

  /** The orbit parent of the first state with identifier `id`. */
  function Parent(states: seq<PlanetState>, id: int): Option<int> {
    if states == [] then None
    else if states[0].id == id then Some(states[0].orbitPlanet)
    else Parent(states[1..], id)
  }

  /** Following orbit parents from `id` reaches `root` within `steps` hops. */
  predicate ReachesWithin(states: seq<PlanetState>, id: int, root: int, steps: nat)
    decreases steps
  {
    id == root ||
    (steps > 0 && Parent(states, id).Some? && ReachesWithin(states, Parent(states, id).value, root, steps - 1))
  }

  /** What a system table promises: distinct identifiers, orbits naming a
      member of the same system, exactly one root (a planet orbiting itself)
      reached from every member, and altitude counts equal to the radius and
      whole chunks thick. */
  predicate WellFormedSystem(states: seq<PlanetState>, root: int) {
    && DistinctIds(states)
    && (forall i :: 0 <= i < |states| ==> HasId(states, states[i].orbitPlanet))
    && (forall i :: 0 <= i < |states| ==> (states[i].orbitPlanet == states[i].id <==> states[i].id == root))
    && HasId(states, root)
    && (forall i :: 0 <= i < |states| ==> ReachesWithin(states, states[i].id, root, |states|))
    && (forall i :: 0 <= i < |states| ==>
          states[i].altCells as real == states[i].radius && states[i].altCells % ChunkSize == 0)
  }

  /** The "planet" system is Spawn alone, orbiting itself. */
  lemma PlanetSystemWellFormed()
    ensures WellFormedSystem(PlanetSystem, 0)
  {
    assert HasId(PlanetSystem, 0) by { assert PlanetSystem[0].id == 0; }
  }

  /** The "moon" system: the Moon orbits Spawn, which is the root. */
  lemma MoonSystemWellFormed()
    ensures WellFormedSystem(MoonSystem, 0)
  {
    var m := MoonSystem;
    assert HasId(m, 0) by { assert m[0].id == 0; }
    assert ReachesWithin(m, 1, 0, 2) by { assert Parent(m, 1) == Some(0); }
  }

  /** The "sun-moon" system: the Moon orbits Spawn, Spawn orbits the Sun,
      and the Sun is the root. */
  lemma SunMoonSystemWellFormed()
    ensures WellFormedSystem(SunMoonSystem, 2)
  {
    SunMoonOrbits();
    SunMoonReaches();
  }

  /** In the "sun-moon" table the identifiers are 0, 1 and 2, each orbit
      names one of them, and only the Sun orbits itself. */
  lemma SunMoonOrbits()
    ensures DistinctIds(SunMoonSystem) && HasId(SunMoonSystem, 2)
    ensures forall i :: 0 <= i < |SunMoonSystem| ==> HasId(SunMoonSystem, SunMoonSystem[i].orbitPlanet)
    ensures forall i :: 0 <= i < |SunMoonSystem| ==>
              (SunMoonSystem[i].orbitPlanet == SunMoonSystem[i].id <==> SunMoonSystem[i].id == 2)
  {
    var s := SunMoonSystem;
    assert s[0].id == 0 && s[1].id == 1 && s[2].id == 2;
    assert HasId(s, 2) by { assert s[2].id == 2; }
    assert HasId(s, 0) by { assert s[0].id == 0; }
  }

  /** In the "sun-moon" table every member reaches the Sun in at most
      three hops. */
  lemma SunMoonReaches()
    ensures forall i :: 0 <= i < |SunMoonSystem| ==> ReachesWithin(SunMoonSystem, SunMoonSystem[i].id, 2, 3)
  {
    var s := SunMoonSystem;
    assert Parent(s, 0) == Some(2);
    assert ReachesWithin(s, 0, 2, 3);
    assert ReachesWithin(s, 1, 2, 3) by {
      assert Parent(s, 1) == Some(0);
      assert ReachesWithin(s, 0, 2, 2) by { assert Parent(s, 0) == Some(2); }
    }
  }
}
