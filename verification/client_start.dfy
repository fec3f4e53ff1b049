/** The older client loop of pkg/client/start.go: its key handler (which
    ignores every key while the cursor is free), the cursor handler's look
    altitude clamp, the mouse handler's re-grab, and the per-frame update
    in Normal mode (chunk sweep around the feet and the jump/fall rule).
    It drives a planet of the older package. */
module ClientStart {
  import opened Wrappers
  import opened GoInt
  import opened Grid
  import opened Chunks
  import opened Generators
  import opened GeomUtil
  import GeomPlanet
  import Player
  import Input

  /** The chunk radius of the sweep. */
  const RenderDistance: int := 4
  const MaxLookAltitude: real := 89.9

  /** The person record; vectors other than the location (the look
      heading) are not modelled. */
  datatype Person = Person(
    upVel: real, downVel: real, forwardVel: real, backVel: real,
    rightVel: real, leftVel: real, walkVel: real, fallVel: real,
    loc: Vec3,
    lookAltitude: real,
    height: real,
    radius: real,
    gameMode: int,
    holdingJump: bool,
    inJump: bool)

  /** newPerson: walking speed 5, at (55, 0, 0), 2 high, radius 0.25, in
      Normal mode; everything else zero. */
  function NewPerson(): (p: Person)
    ensures p.walkVel == 5.0 && p.loc == Vec3(55.0, 0.0, 0.0) && p.gameMode == Player.Normal
    ensures p.fallVel == 0.0 && !p.holdingJump && !p.inJump && p.lookAltitude == 0.0
  {
    Person(0.0, 0.0, 0.0, 0.0, 0.0, 0.0, 5.0, 0.0, Vec3(55.0, 0.0, 0.0), 0.0, 2.0, 0.25, Player.Normal, false, false)
  }

  /** The client's globals: the person, whether the cursor is grabbed, and
      the last cursor position (`None` for the NaN marker). */
  datatype Session = Session(person: Person, grabbed: bool, lastCursor: Option<(real, real)>)

  /** Start grabs the cursor before the first frame. */
  function StartSession(): (s: Session)
    ensures s.grabbed && s.lastCursor.None? && s.person == NewPerson()
  {
    Session(NewPerson(), true, None)
  }

  // ---------------------------------------------------------------------
  // Keys
  // ---------------------------------------------------------------------

  /** The game mode after M: a 64-bit increment, back to 0 at the number
      of modes. */
  function NextMode(g: int): (r: int)
    requires IsInt64(g)
    ensures IsInt64(r) && r < Player.NumGameModes
    ensures 0 <= g < Player.NumGameModes ==> r == (g + 1) % Player.NumGameModes
  {
    var n := Wrap64(g + 1);
    if n >= Player.NumGameModes then 0 else n
  }

  /** A key press with the cursor grabbed: movement keys start moving at
      walking speed, M changes the game mode and Escape frees the cursor. */
  function Press(s: Session, key: Input.Key): (r: Session)
    requires IsInt64(s.person.gameMode)
    ensures IsInt64(r.person.gameMode)
    ensures r.grabbed == (s.grabbed && key != Input.Escape) && r.lastCursor == s.lastCursor
    ensures key != Input.Letter('m') ==> r.person.gameMode == s.person.gameMode
  {
    var p := s.person;
    match key
    case Space =>
      if p.gameMode == Player.Normal then s.(person := p.(holdingJump := true))
      else s.(person := p.(upVel := p.walkVel))
    case LeftShift =>
      if p.gameMode == Player.Flying then s.(person := p.(downVel := p.walkVel)) else s
    case Letter(ch) =>
      if ch == 'w' then s.(person := p.(forwardVel := p.walkVel))
      else if ch == 's' then s.(person := p.(backVel := p.walkVel))
      else if ch == 'd' then s.(person := p.(rightVel := p.walkVel))
      else if ch == 'a' then s.(person := p.(leftVel := p.walkVel))
      else if ch == 'm' then s.(person := p.(gameMode := NextMode(p.gameMode)))
      else s
    case Escape => s.(grabbed := false)
    case _ => s
  }

  function Release(s: Session, key: Input.Key): (r: Session)
    ensures r.grabbed == s.grabbed && r.lastCursor == s.lastCursor
    ensures r.person.gameMode == s.person.gameMode
  {
    var p := s.person;
    match key
    case Space => s.(person := p.(holdingJump := false, upVel := 0.0))
    case LeftShift => s.(person := p.(downVel := 0.0))
    case Letter(ch) =>
      if ch == 'w' then s.(person := p.(forwardVel := 0.0))
      else if ch == 's' then s.(person := p.(backVel := 0.0))
      else if ch == 'd' then s.(person := p.(rightVel := 0.0))
      else if ch == 'a' then s.(person := p.(leftVel := 0.0))
      else s
    case _ => s
  }

  /** keyCallback: nothing happens while the cursor is free. */
  function KeyCallback(s: Session, e: Input.Event): (r: Session)
    requires IsInt64(s.person.gameMode)
    ensures IsInt64(r.person.gameMode)
    ensures !s.grabbed ==> r == s
    ensures r.lastCursor == s.lastCursor
  {
    if !s.grabbed then s
    else match e.action
         case Press => Press(s, e.key)
         case Release => Release(s, e.key)
         case Repeat => s
  }

  /** With the cursor grabbed, M moves through the modes and comes back
      after NumGameModes presses; Escape frees the cursor, after which
      every key is ignored until a mouse press grabs it again. */
  lemma ModeAndGrab(s: Session, e: Input.Event)
    requires s.grabbed && 0 <= s.person.gameMode < Player.NumGameModes
    ensures var s1 := KeyCallback(s, Input.Event(Input.Letter('m'), Input.Press));
            && s1.person.gameMode == (s.person.gameMode + 1) % Player.NumGameModes
            && KeyCallback(s1, Input.Event(Input.Letter('m'), Input.Press)).person.gameMode == s.person.gameMode
    ensures var s1 := KeyCallback(s, Input.Event(Input.Escape, Input.Press));
            && !s1.grabbed
            && KeyCallback(s1, e) == s1
            && MouseButton(s1, Input.Press).grabbed
  {
  }

  /** With the cursor grabbed, releasing a movement key stops that
      movement, and Space also ends the jump hold. */
  lemma ReleaseStops(s: Session, key: Input.Key)
    requires s.grabbed && IsInt64(s.person.gameMode)
    ensures var r := KeyCallback(s, Input.Event(key, Input.Release)).person;
            && (key == Input.Space ==> !r.holdingJump && r.upVel == 0.0)
            && (key == Input.LeftShift ==> r.downVel == 0.0)
            && (key == Input.Letter('w') ==> r.forwardVel == 0.0)
            && (key == Input.Letter('s') ==> r.backVel == 0.0)
            && (key == Input.Letter('d') ==> r.rightVel == 0.0)
            && (key == Input.Letter('a') ==> r.leftVel == 0.0)
  {
  }

  /** With the cursor grabbed, pressing a movement key starts that
      movement at walking speed and changes nothing else: W, S, D and A set
      the forward, back, right and left velocity; Space holds jump in
      Normal mode and sets the up velocity in any other mode; Left Shift
      sets the down velocity in Flying mode and is ignored otherwise. */
  lemma PressStarts(s: Session, key: Input.Key)
    requires s.grabbed && IsInt64(s.person.gameMode)
    ensures var p := s.person;
            var r := KeyCallback(s, Input.Event(key, Input.Press));
            && (key == Input.Letter('w') ==> r == s.(person := p.(forwardVel := p.walkVel)))
            && (key == Input.Letter('s') ==> r == s.(person := p.(backVel := p.walkVel)))
            && (key == Input.Letter('d') ==> r == s.(person := p.(rightVel := p.walkVel)))
            && (key == Input.Letter('a') ==> r == s.(person := p.(leftVel := p.walkVel)))
            && (key == Input.Space && p.gameMode == Player.Normal ==> r == s.(person := p.(holdingJump := true)))
            && (key == Input.Space && p.gameMode != Player.Normal ==> r == s.(person := p.(upVel := p.walkVel)))
            && (key == Input.LeftShift && p.gameMode == Player.Flying ==> r == s.(person := p.(downVel := p.walkVel)))
            && (key == Input.LeftShift && p.gameMode != Player.Flying ==> r == s)
  {
  }

  /** Pressing a movement key and releasing it again returns a person at
      rest to rest: the release undoes the press. */
  lemma ReleaseUndoesPress(s: Session, key: Input.Key)
    requires s.grabbed && IsInt64(s.person.gameMode)
    requires s.person.forwardVel == 0.0 && s.person.backVel == 0.0 && s.person.rightVel == 0.0 && s.person.leftVel == 0.0
    requires key == Input.Letter('w') || key == Input.Letter('s') || key == Input.Letter('d') || key == Input.Letter('a')
    ensures KeyCallback(KeyCallback(s, Input.Event(key, Input.Press)), Input.Event(key, Input.Release)) == s
  {
    PressStarts(s, key);
  }

  // ---------------------------------------------------------------------
  // Cursor and mouse
  // ---------------------------------------------------------------------

  /** The look-altitude clamp to [-89.9, 89.9]. */
  function ClampLook(a: real): (r: real)
    ensures -MaxLookAltitude <= r <= MaxLookAltitude
    ensures -MaxLookAltitude <= a <= MaxLookAltitude ==> r == a
    ensures a > MaxLookAltitude ==> r == MaxLookAltitude
    ensures a < -MaxLookAltitude ==> r == -MaxLookAltitude
  {
    var lower := if a < MaxLookAltitude then a else MaxLookAltitude;
    if lower > -MaxLookAltitude then lower else -MaxLookAltitude
  }

  /** cursorPosCallback: a free cursor forgets the last position; a
      grabbed one tilts the look altitude down by a tenth of the vertical
      movement since the last position (none on the first move) and
      clamps it. The heading's rotation is not modelled. */
  function CursorPos(s: Session, x: real, y: real): (r: Session)
    ensures !s.grabbed ==> r == s.(lastCursor := None)
    ensures s.grabbed ==> r.lastCursor == Some((x, y))
    ensures s.grabbed ==> -MaxLookAltitude <= r.person.lookAltitude <= MaxLookAltitude
    ensures r.person == s.person.(lookAltitude := r.person.lookAltitude) && r.grabbed == s.grabbed
  {
    if !s.grabbed then s.(lastCursor := None)
    else
      var last := if s.lastCursor.None? then (x, y) else s.lastCursor.value;
      var dy := y - last.1;
      s.(person := s.person.(lookAltitude := ClampLook(s.person.lookAltitude - 0.1 * dy)),
         lastCursor := Some((x, y)))
  }

  /** The first move after a grab only records the position, and moving
      within the clamp range tilts by exactly a tenth of the movement. */
  lemma CursorTilt(s: Session, x: real, y: real)
    requires s.grabbed && -MaxLookAltitude <= s.person.lookAltitude <= MaxLookAltitude
    ensures s.lastCursor.None? ==> CursorPos(s, x, y).person == s.person
    ensures s.lastCursor.Some? && -MaxLookAltitude <= s.person.lookAltitude - 0.1 * (y - s.lastCursor.value.1) <= MaxLookAltitude ==>
              CursorPos(s, x, y).person.lookAltitude == s.person.lookAltitude - 0.1 * (y - s.lastCursor.value.1)
  {
  }

  /** mouseButtonCallback's grab rule: any press on a free cursor grabs
      it. Clicks on a grabbed cursor edit cells by ray casting, which is not
      modelled here and leaves the session as it is. */
  function MouseButton(s: Session, action: Input.Action): (r: Session)
    ensures !s.grabbed && action == Input.Press ==> r == s.(grabbed := true)
    ensures s.grabbed || action != Input.Press ==> r == s
  {
    if !s.grabbed && action == Input.Press then s.(grabbed := true) else s
  }

  // ---------------------------------------------------------------------
  // The frame update
  // ---------------------------------------------------------------------

  /** The chunks drawFrame requests around the feet chunk `ind`, in
      order: nine longitude steps, each over the clamped latitudes and
      every altitude. */
  function Sweep(p: GeomPlanet.Planet, ind: ChunkIndex): (r: seq<ChunkIndex>)
    requires Grid.Chunks(p.lonCells) > 0
    ensures |r| == 9 * (Player.Span(Max(ind.lat - RenderDistance, 0), Min(ind.lat + RenderDistance, Grid.Chunks(p.latCells) - 1))
                        * Player.Span(0, Grid.Chunks(p.altCells) - 1))
  {
    Player.LonSweep(ind.lon - RenderDistance, ind.lon + RenderDistance,
                    Max(ind.lat - RenderDistance, 0), Min(ind.lat + RenderDistance, Grid.Chunks(p.latCells) - 1),
                    Grid.Chunks(p.lonCells), Grid.Chunks(p.altCells))
  }

  /** The sweep requests exactly the longitudes within the render distance
      wrapped onto the planet, the latitudes within it clamped to the
      planet, and every altitude. */
  lemma SweepWrapsAndClamps(p: GeomPlanet.Planet, ind: ChunkIndex, k: ChunkIndex)
    requires Grid.Chunks(p.lonCells) > 0
    ensures k in Sweep(p, ind) <==>
              && (exists lon :: ind.lon - RenderDistance <= lon <= ind.lon + RenderDistance
                                && k.lon == Player.WrapLon(lon, Grid.Chunks(p.lonCells)))
              && Max(ind.lat - RenderDistance, 0) <= k.lat <= Min(ind.lat + RenderDistance, Grid.Chunks(p.latCells) - 1)
              && 0 <= k.alt < Grid.Chunks(p.altCells)
    ensures k in Sweep(p, ind) ==> 0 <= k.lon < Grid.Chunks(p.lonCells) && 0 <= k.lat < Grid.Chunks(p.latCells)
  {
    Player.LonSweepMembers(ind.lon - RenderDistance, ind.lon + RenderDistance,
                           Max(ind.lat - RenderDistance, 0), Min(ind.lat + RenderDistance, Grid.Chunks(p.latCells) - 1),
                           Grid.Chunks(p.lonCells), Grid.Chunks(p.altCells));
  }

  /** Requests the chunks in order (results are discarded). */
  function LoadAll(p: GeomPlanet.Planet, w: GeomPlanet.World, reqs: seq<ChunkIndex>, noise: Noise): (r: (GeomPlanet.Planet, GeomPlanet.World))
    ensures r.0 == p.(chunks := r.0.chunks)
    ensures |w.outbox| <= |r.1.outbox| && r.1.outbox[..|w.outbox|] == w.outbox
    decreases |reqs|
  {
    if reqs == [] then (p, w)
    else
      var s := GeomPlanet.GetChunk(p, w, reqs[0], noise);
      var r := LoadAll(s.planet, s.world, reqs[1..], noise);
      assert r.1.outbox[..|w.outbox|] == r.1.outbox[..|s.world.outbox|][..|w.outbox|];
      r
  }

  /** After the requests every requested in-range chunk is cached
      (resident, or a placeholder while its fetch is pending) and nothing
      cached is dropped. */
  lemma {:induction false} LoadAllCaches(p: GeomPlanet.Planet, w: GeomPlanet.World, reqs: seq<ChunkIndex>, noise: Noise)
    ensures var q := LoadAll(p, w, reqs, noise).0;
            && (forall k :: k in p.chunks ==> k in q.chunks)
            && (forall k :: k in reqs && GeomPlanet.InRange(p, k) ==> k in q.chunks)
    decreases |reqs|
  {
    if reqs != [] {
      var s := GeomPlanet.GetChunk(p, w, reqs[0], noise);
      assert forall k :: k in p.chunks ==> k in s.planet.chunks;
      assert GeomPlanet.InRange(p, reqs[0]) ==> reqs[0] in s.planet.chunks;
      LoadAllCaches(s.planet, s.world, reqs[1..], noise);
      forall k | k in reqs
        ensures k == reqs[0] || k in reqs[1..]
      {
        var i :| 0 <= i < |reqs| && reqs[i] == k;
        if i > 0 {
          assert reqs[1..][i - 1] == k;
        }
      }
    }
  }

  /** The jump/fall rule of this version, with the frame time `h`
      unclamped. */
  function FrameFall(p: Person, h: real, falling: bool): (q: Person)
    ensures q == p.(fallVel := q.fallVel, inJump := q.inJump)
    ensures falling ==> q.fallVel == p.fallVel - 20.0 * h && q.inJump == p.inJump
    ensures !falling && p.holdingJump && !p.inJump ==> q.fallVel == 7.0 && q.inJump
    ensures !falling && !(p.holdingJump && !p.inJump) ==> q.fallVel == 0.0 && !q.inJump
  {
    if falling then p.(fallVel := p.fallVel - 20.0 * h)
    else if p.holdingJump && !p.inJump then p.(fallVel := 7.0, inJump := true)
    else p.(fallVel := 0.0, inJump := false)
  }

  /** A long frame falls further here than in the later version, which
      caps the step at 0.05 s. */
  lemma FrameFallIsUncapped(p: Person, pl: Player.Player)
    requires p.fallVel == pl.fallVel && p.inJump == pl.inJump && p.holdingJump == pl.holdingJump
    ensures FrameFall(p, 1.0, true).fallVel == p.fallVel - 20.0
    ensures Player.JumpFall(pl, 1.0, true).fallVel == p.fallVel - 1.0
  {
  }

  /** drawFrame's state update. A free cursor freezes the world. In Normal
      mode the cell under the feet is looked up first (which may request
      its chunk, or panic on a chunk without the slot), then the chunks
      around the feet chunk are requested, and the jump/fall rule applies
      with `falling` meaning the lookup found no cell or air. In Flying
      mode the person moves; in any other mode nothing happens. Movement
      and collision are floating-point geometry: the location they arrive
      at is the parameter `moved`, and `feetCell` is the cell index of the
      feet's Cartesian position. */
  function Frame(s: Session, p: GeomPlanet.Planet, w: GeomPlanet.World, feetCell: CellIndex, h: real,
                 moved: Vec3, noise: Noise): (r: Outcome<(Session, GeomPlanet.Planet, GeomPlanet.World)>)
    requires Grid.Chunks(p.lonCells) > 0
    ensures !s.grabbed ==> r == Done((s, p, w))
    ensures s.grabbed && s.person.gameMode == Player.Normal ==>
              && (r.Panic? <==> GeomPlanet.CellIndexToCell(p, w, feetCell, noise).Panic?)
              && (r.Done? ==>
                    var look := GeomPlanet.CellIndexToCell(p, w, feetCell, noise).value;
                    && r.value.0 == s.(person := FrameFall(s.person, h, Falling(look.value)).(loc := moved))
                    && r.value.1 == p.(chunks := r.value.1.chunks)
                    && |look.world.outbox| <= |r.value.2.outbox| && r.value.2.outbox[..|look.world.outbox|] == look.world.outbox
                    && (forall k :: k in p.chunks ==> k in r.value.1.chunks)
                    && (forall k :: k in Sweep(p, CellIndexToChunkIndex(feetCell)) && GeomPlanet.InRange(p, k) ==> k in r.value.1.chunks))
    ensures s.grabbed && s.person.gameMode == Player.Flying ==> r == Done((s.(person := s.person.(loc := moved)), p, w))
    ensures s.grabbed && s.person.gameMode != Player.Normal && s.person.gameMode != Player.Flying ==> r == Done((s, p, w))
  {
    if !s.grabbed then Done((s, p, w))
    else if s.person.gameMode == Player.Normal then
      var look :- GeomPlanet.CellIndexToCell(p, w, feetCell, noise);
      FrameLookKeeps(p, w, feetCell, noise);
      assert Sweep(look.planet, CellIndexToChunkIndex(feetCell)) == Sweep(p, CellIndexToChunkIndex(feetCell));
      Done(NormalFrame(s, look, feetCell, h, moved, noise))
    else if s.person.gameMode == Player.Flying then Done((s.(person := s.person.(loc := moved)), p, w))
    else Done((s, p, w))
  }

  /** A Normal-mode frame after the feet lookup `look`: the sweep's
      requests, then the jump/fall rule and the move. */
  function NormalFrame(s: Session, look: GeomPlanet.Step<Option<int>>, feetCell: CellIndex, h: real,
                       moved: Vec3, noise: Noise): (r: (Session, GeomPlanet.Planet, GeomPlanet.World))
    requires Grid.Chunks(look.planet.lonCells) > 0
    ensures r.0 == s.(person := FrameFall(s.person, h, Falling(look.value)).(loc := moved))
    ensures r.1 == look.planet.(chunks := r.1.chunks)
    ensures |look.world.outbox| <= |r.2.outbox| && r.2.outbox[..|look.world.outbox|] == look.world.outbox
    ensures forall k :: k in look.planet.chunks ==> k in r.1.chunks
    ensures forall k :: k in Sweep(look.planet, CellIndexToChunkIndex(feetCell)) && GeomPlanet.InRange(look.planet, k) ==> k in r.1.chunks
  {
    var reqs := Sweep(look.planet, CellIndexToChunkIndex(feetCell));
    var loaded := LoadAll(look.planet, look.world, reqs, noise);
    LoadAllCaches(look.planet, look.world, reqs, noise);
    (s.(person := FrameFall(s.person, h, Falling(look.value)).(loc := moved)), loaded.0, loaded.1)
  }

  /** The feet lookup finds no cell, or air. */
  predicate Falling(cell: Option<int>) {
    cell.None? || cell.value == GeomPlanet.Air
  }

  /** The feet lookup drops no cached chunk. */
  lemma FrameLookKeeps(p: GeomPlanet.Planet, w: GeomPlanet.World, c: CellIndex, noise: Noise)
    requires GeomPlanet.CellIndexToCell(p, w, c, noise).Done?
    ensures forall k :: k in p.chunks ==> k in GeomPlanet.CellIndexToCell(p, w, c, noise).value.planet.chunks
  {
  }

  /** On a remote planet the first Normal-mode frame over an uncached feet
      chunk finds no cell: the person falls, and the frame's first request
      is the feet chunk's, ahead of the sweep. */
  lemma FirstRemoteFrameFalls(s: Session, p: GeomPlanet.Planet, w: GeomPlanet.World, feetCell: CellIndex, h: real,
                              moved: Vec3, noise: Noise)
    requires Grid.Chunks(p.lonCells) > 0 && s.grabbed && s.person.gameMode == Player.Normal
    requires p.hasRpc && GeomPlanet.InRange(p, CellIndexToChunkIndex(feetCell)) && CellIndexToChunkIndex(feetCell) !in p.chunks
    ensures var r := Frame(s, p, w, feetCell, h, moved, noise);
            && r.Done?
            && r.value.0.person.fallVel == s.person.fallVel - 20.0 * h
            && r.value.2.outbox[|w.outbox|] == GeomPlanet.GetChunkCall(CellIndexToChunkIndex(feetCell))
  {
    var look := GeomPlanet.CellIndexToCell(p, w, feetCell, noise).value;
    assert look.world.outbox == w.outbox + [GeomPlanet.GetChunkCall(CellIndexToChunkIndex(feetCell))];
    var r := Frame(s, p, w, feetCell, h, moved, noise).value;
    assert r.2.outbox[|w.outbox|] == r.2.outbox[..|look.world.outbox|][|w.outbox|];
  }

  /** A fetch whose call failed leaves an empty chunk (not waiting, no
      cells) under the feet: the next Normal-mode frame panics on the cell
      read. */
  lemma FailedFetchPanics(s: Session, p: GeomPlanet.Planet, w: GeomPlanet.World, feetCell: CellIndex, h: real,
                          moved: Vec3, noise: Noise)
    requires Grid.Chunks(p.lonCells) > 0 && s.grabbed && s.person.gameMode == Player.Normal
    requires p.hasRpc && GeomPlanet.InRange(p, CellIndexToChunkIndex(feetCell))
    ensures var q := GeomPlanet.CompleteFetch(p, CellIndexToChunkIndex(feetCell), Chunk(false, []));
            Frame(s, q, w, feetCell, h, moved, noise).Panic?
  {
  }
}
