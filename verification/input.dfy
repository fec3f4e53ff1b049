/** The key handler of pkg/client/input.go: the O respawn key, the
    inventory's hotbar assignment, the command keys (movement, jump, game
    mode, hotbar slots, toggles) and the chat text buffer. The window's
    cursor mode is the `grabbed` flag; texts sent with `API.SendText` are
    appended to an outbox. */
module Input {
  import opened Wrappers
  import opened GoInt
  import opened Grid
  import opened Chunks
  import opened Generators
  import opened CommonPlanet
  import Materials
  import Player

  /** The 26 letter keys, named by their lower-case character. */
  type LowerCase = c: char | 'a' <= c <= 'z' witness 'a'
  /** The ten digit keys. */
  type DigitValue = d: int | 0 <= d <= 9 witness 0

  /** The keys the handler tells apart; every other key is `Unbound`. */
  datatype Key =
    | Letter(c: LowerCase)
    | Digit(d: DigitValue)
    | Minus | Equal | Space | LeftShift | Enter | Delete | Backspace | Escape
    | Unbound

  datatype Action = Press | Release | Repeat

  datatype Event = Event(key: Key, action: Action)

  /** The player, the planet they stand on and the world around it. */
  datatype Client = Client(player: Player.Player, planet: Planet, world: World, grabbed: bool, sentTexts: seq<string>)

  /** What a respawn takes from outside the key handler: the chunk under
      the feet at the spawn point and where the landing search stops (both
      from the Cartesian conversion), the terrain noise and the server's
      answers to chunk fetches. */
  datatype Respawn = Respawn(feet: ChunkIndex, landing: real, noise: Noise, fetch: ChunkIndex -> Option<Chunk>)

  /** What the handler relies on: the hotbar is a 12-element array, the
      game mode an `int` (64 bits), and the planet has longitude chunks
      (the respawn's chunk load needs them). */
  predicate WellFormed(c: Client) {
    |c.player.hotbar| == Player.HotbarSlots && IsInt64(c.player.gameMode) && Grid.Chunks(c.planet.lonCells) > 0
  }

  /** The hotbar slot a key selects: 1..9 are slots 0..8, then 0, - and =
      are slots 9, 10 and 11. */
  function SlotOf(key: Key): (r: Option<nat>)
    ensures r.Some? ==> r.value < Player.HotbarSlots
    ensures r.Some? <==> key.Digit? || key == Minus || key == Equal
  {
    match key
    case Digit(d) => Some(if d == 0 then 9 else d - 1)
    case Minus => Some(10)
    case Equal => Some(11)
    case _ => None
  }

  /** The text a key types in chat mode; "enter" and "delete" are the two
      editing tokens. Letters, digits and space type their one character;
      Enter sends, Delete and Backspace both delete, and every other key
      types nothing. */
  function TextOf(key: Key): (r: Option<string>)
    ensures r.Some? <==> key.Letter? || key.Digit? || key == Space || key == Enter || key == Delete || key == Backspace
    ensures r == Some("enter") <==> key == Enter
    ensures r == Some("delete") <==> key == Delete || key == Backspace
    ensures key.Letter? ==> r == Some([key.c])
  {
    match key
    case Letter(c) => Some([c])
    case Digit(d) => Some(["0123456789"[d]])
    case Space => Some(" ")
    case Enter => Some("enter")
    case Delete => Some("delete")
    case Backspace => Some("delete")
    case _ => None
  }

  // ---------------------------------------------------------------------
  // The chat buffer
  // ---------------------------------------------------------------------

  /** Sendtext: "enter" sends the buffer and leaves chat mode with the
      buffer cleared, "delete" drops the last byte (if any), and any other
      text is appended. */
  function SendText(c: Client, text: string): (r: Client)
    ensures text == "enter" ==>
              r == c.(player := c.player.(intext := false, text := ""), sentTexts := c.sentTexts + [c.player.text])
    ensures text == "delete" && c.player.text != [] ==>
              r == c.(player := c.player.(text := c.player.text[..|c.player.text| - 1]))
    ensures text == "delete" && c.player.text == [] ==> r == c
    ensures text != "enter" && text != "delete" ==> r == c.(player := c.player.(text := c.player.text + text))
    ensures r.player == c.player.(intext := r.player.intext, text := r.player.text) && r.grabbed == c.grabbed
    ensures r.planet == c.planet && r.world == c.world
  {
    if text == "enter" then
      c.(player := c.player.(intext := false, text := ""), sentTexts := c.sentTexts + [c.player.text])
    else if text == "delete" then
      if |c.player.text| != 0 then c.(player := c.player.(text := c.player.text[..|c.player.text| - 1]))
      else c
    else c.(player := c.player.(text := c.player.text + text))
  }

  // ---------------------------------------------------------------------
  // Hotbar assignment in the inventory
  // ---------------------------------------------------------------------

  /** The assignment loop over the catalogue from material `m` on: every
      material whose swatch is under the cursor (`pointed`) is written to
      the slot in turn. The swatch layout is floating-point window
      geometry and is left to `pointed`. */
  function AssignHits(hotbar: seq<int>, slot: nat, pointed: int -> bool, m: nat): (r: seq<int>)
    requires slot < |hotbar|
    requires m <= |Materials.Names|
    ensures |r| == |hotbar|
    decreases |Materials.Names| - m
  {
    if m == |Materials.Names| then hotbar
    else AssignHits(if pointed(m) then hotbar[slot := m] else hotbar, slot, pointed, m + 1)
  }

  /** The last pointed material in [lo, hi). */
  function LastPointed(pointed: int -> bool, lo: int, hi: int): (r: Option<int>)
    ensures r.Some? ==> lo <= r.value < hi && pointed(r.value)
                        && forall k :: r.value < k < hi ==> !pointed(k)
    ensures r.None? ==> forall k :: lo <= k < hi ==> !pointed(k)
    decreases hi - lo
  {
    if hi <= lo then None
    else if pointed(hi - 1) then Some(hi - 1)
    else LastPointed(pointed, lo, hi - 1)
  }

  /** Peeling the lowest candidate off the range. */
  lemma {:induction false} LastPointedFrom(pointed: int -> bool, lo: int, hi: int)
    requires lo < hi
    ensures LastPointed(pointed, lo, hi) ==
              if LastPointed(pointed, lo + 1, hi).Some? then LastPointed(pointed, lo + 1, hi)
              else if pointed(lo) then Some(lo) else None
    decreases hi - lo
  {
    if lo + 1 < hi && !pointed(hi - 1) {
      LastPointedFrom(pointed, lo, hi - 1);
    }
  }

  /** The slot ends up holding the last material under the cursor, and is
      left alone when there is none. */
  lemma {:induction false} AssignHitsKeepsLast(hotbar: seq<int>, slot: nat, pointed: int -> bool, m: nat)
    requires slot < |hotbar| && m <= |Materials.Names|
    ensures AssignHits(hotbar, slot, pointed, m) ==
              match LastPointed(pointed, m, |Materials.Names|)
              case Some(v) => hotbar[slot := v]
              case None => hotbar
    decreases |Materials.Names| - m
  {
    if m < |Materials.Names| {
      var next := if pointed(m) then hotbar[slot := m] else hotbar;
      AssignHitsKeepsLast(next, slot, pointed, m + 1);
      LastPointedFrom(pointed, m, |Materials.Names|);
      match LastPointed(pointed, m + 1, |Materials.Names|)
      case Some(v) =>
        assert next[slot := v] == hotbar[slot := v];
      case None =>
    }
  }

  // ---------------------------------------------------------------------
  // Command keys (outside chat mode)
  // ---------------------------------------------------------------------

  /** A key press outside chat mode. */
  function CommandPress(c: Client, key: Key): (r: Client)
    requires WellFormed(c)
    ensures r.planet == c.planet && r.world == c.world
    ensures WellFormed(r) && r.player.name == c.player.name && r.player.hotbar == c.player.hotbar
  {
    var p := c.player;
    match key
    case Space =>
      if !c.grabbed then c
      else if p.gameMode == Player.Normal then c.(player := p.(holdingJump := true))
      else c.(player := p.(upVel := p.walkVel))
    case LeftShift =>
      if c.grabbed && p.gameMode == Player.Flying then c.(player := p.(downVel := p.walkVel)) else c
    case Digit(_) => c.(player := p.(activeHotBarSlot := SlotOf(key).value))
    case Minus => c.(player := p.(activeHotBarSlot := SlotOf(key).value))
    case Equal => c.(player := p.(activeHotBarSlot := SlotOf(key).value))
    case Letter(ch) => LetterPress(c, ch)
    case Escape => c.(grabbed := false)
    case _ => c
  }

  /** A letter key pressed outside chat mode: E opens or closes the
      inventory, T enters chat mode, H toggles the hotbar, W, S, D and A
      start walking, M changes the game mode. */
  function LetterPress(c: Client, ch: LowerCase): (r: Client)
    requires WellFormed(c)
    ensures r.planet == c.planet && r.world == c.world
    ensures WellFormed(r) && r.player.name == c.player.name && r.player.hotbar == c.player.hotbar
  {
    var p := c.player;
    if ch == 'e' then
      if !p.inInventory then c.(player := p.(hotbarOn := true, inInventory := true), grabbed := false)
      else c.(player := p.(inInventory := false), grabbed := true)
    else if ch == 't' then c.(player := p.(intext := !p.intext))
    else if ch == 'h' then c.(player := p.(hotbarOn := !p.hotbarOn))
    else if ch == 'w' then c.(player := p.(forwardVel := p.walkVel))
    else if ch == 's' then c.(player := p.(backVel := p.walkVel))
    else if ch == 'd' then c.(player := p.(rightVel := p.walkVel))
    else if ch == 'a' then c.(player := p.(leftVel := p.walkVel))
    else if ch == 'm' then c.(player := NextMode(p))
    else c
  }

  /** The M key: the game mode goes up by one (a 64-bit increment), back
      to 0 once it reaches the number of modes; entering Flying stops the
      fall. */
  function NextMode(p: Player.Player): (q: Player.Player)
    requires IsInt64(p.gameMode)
    ensures 0 <= p.gameMode < Player.NumGameModes ==>
              q.gameMode == (p.gameMode + 1) % Player.NumGameModes
    ensures q.gameMode == Player.Flying ==> q.fallVel == 0.0
    ensures q.gameMode != Player.Flying ==> q.fallVel == p.fallVel
    ensures q == p.(gameMode := q.gameMode, fallVel := q.fallVel)
  {
    var g := Wrap64(p.gameMode + 1);
    var g' := if g >= Player.NumGameModes then 0 else g;
    if g' == Player.Flying then p.(gameMode := g', fallVel := 0.0) else p.(gameMode := g')
  }

  /** A key release outside chat mode stops the matching movement. */
  function CommandRelease(c: Client, key: Key): (r: Client)
    ensures r.player == c.player.(holdingJump := r.player.holdingJump, upVel := r.player.upVel, downVel := r.player.downVel,
                                  forwardVel := r.player.forwardVel, backVel := r.player.backVel,
                                  rightVel := r.player.rightVel, leftVel := r.player.leftVel)
    ensures r.grabbed == c.grabbed && r.sentTexts == c.sentTexts && r.planet == c.planet && r.world == c.world
  {
    var p := c.player;
    match key
    case Space => c.(player := p.(holdingJump := false, upVel := 0.0))
    case LeftShift => c.(player := p.(downVel := 0.0))
    case Letter(ch) =>
      if ch == 'w' then c.(player := p.(forwardVel := 0.0))
      else if ch == 's' then c.(player := p.(backVel := 0.0))
      else if ch == 'd' then c.(player := p.(rightVel := 0.0))
      else if ch == 'a' then c.(player := p.(leftVel := 0.0))
      else c
    case _ => c
  }

  /** A key press in chat mode: Escape leaves chat mode, text keys go to
      the buffer. */
  function ChatPress(c: Client, key: Key): (r: Client)
    ensures r.player == c.player.(intext := r.player.intext, text := r.player.text)
    ensures r.planet == c.planet && r.world == c.world
  {
    if key == Escape then c.(player := c.player.(intext := false))
    else match TextOf(key)
         case Some(t) => SendText(c, t)
         case None => c
  }

  /** The O key: Spawn, with its synchronous chunk load, on the client's
      planet. */
  function Respawned(c: Client, env: Respawn): (r: Outcome<Client>)
    requires WellFormed(c)
    ensures var s := Player.Spawn(c.player, c.planet, c.world, env.feet, env.noise, env.fetch, env.landing);
            && (r.Panic? <==> s.Panic?)
            && (r.Done? ==> r.value == c.(player := s.value.0, planet := s.value.1, world := s.value.2) && WellFormed(r.value))
  {
    var s :- Player.Spawn(c.player, c.planet, c.world, env.feet, env.noise, env.fetch, env.landing);
    Done(c.(player := s.0, planet := s.1, world := s.2))
  }

  /** keyCallback after the O key: a slot key pressed in the inventory
      assigns the pointed material to that slot, then the event is a
      command or, in chat mode, text. */
  function Dispatch(c: Client, e: Event, pointed: int -> bool): (r: Client)
    requires WellFormed(c)
    ensures WellFormed(r)
    ensures r.player.name == c.player.name && r.planet == c.planet && r.world == c.world
  {
    var c2 :=
      if c.player.inInventory && e.action == Press && SlotOf(e.key).Some? then
        c.(player := c.player.(hotbar := AssignHits(c.player.hotbar, SlotOf(e.key).value, pointed, 0)))
      else c;
    if !c2.player.intext then
      match e.action
      case Press => CommandPress(c2, e.key)
      case Release => CommandRelease(c2, e.key)
      case Repeat => c2
    else if e.action == Press then ChatPress(c2, e.key)
    else c2
  }

  /** keyCallback: O respawns the player (in any mode), then the event is
      dispatched. Only the respawn can fail. */
  function KeyCallback(c: Client, e: Event, env: Respawn, pointed: int -> bool): (r: Outcome<Client>)
    requires WellFormed(c)
    ensures r.Panic? ==> e == Event(Letter('o'), Press)
    ensures r.Done? ==> WellFormed(r.value) && r.value.player.name == c.player.name
  {
    var c1 :- if e.action == Press && e.key == Letter('o') then Respawned(c, env) else Done(c);
    Done(Dispatch(c1, e, pointed))
  }

  /** A run of events; it stops at the first failure. */
  function Run(c: Client, events: seq<Event>, env: Respawn, pointed: int -> bool): (r: Outcome<Client>)
    requires WellFormed(c)
    ensures r.Done? ==> WellFormed(r.value)
    ensures (forall i :: 0 <= i < |events| ==> events[i] != Event(Letter('o'), Press)) ==> r.Done?
    decreases |events|
  {
    if events == [] then Done(c)
    else
      var c1 :- KeyCallback(c, events[0], env, pointed);
      Run(c1, events[1..], env, pointed)
  }

  // ---------------------------------------------------------------------
  // Properties
  // ---------------------------------------------------------------------

  /** Pressing O respawns the player even in chat mode, where the letter is
      also typed: the press fails exactly when Spawn's chunk load does, and
      otherwise the player, planet and world are Spawn's. */
  lemma PressOSpawns(c: Client, env: Respawn, pointed: int -> bool)
    requires WellFormed(c)
    ensures var r := KeyCallback(c, Event(Letter('o'), Press), env, pointed);
            var s := Player.Spawn(c.player, c.planet, c.world, env.feet, env.noise, env.fetch, env.landing);
            && (r.Panic? <==> s.Panic?)
            && (r.Done? ==>
                  && r.value.player.health == Player.MaxHealth && Player.AtRest(r.value.player)
                  && r.value.player.loc == s.value.0.loc
                  && r.value.planet == s.value.1 && r.value.world == s.value.2
                  && (c.player.intext ==> r.value.player.text == c.player.text + "o")
                  && (!c.player.intext ==> r.value == c.(player := s.value.0, planet := s.value.1, world := s.value.2)))
  {
  }

  /** The press of a letter key, as an event. */
  function Type(ch: LowerCase): Event {
    Event(Letter(ch), Press)
  }

  function TypeAll(word: seq<LowerCase>): (s: seq<Event>)
    ensures |s| == |word|
  {
    seq(|word|, i requires 0 <= i < |word| => Type(word[i]))
  }

  /** In chat mode, typing a word (without the O key, which also
      respawns) appends exactly the word to the buffer and changes nothing
      else. */
  lemma {:induction false} TypingAppends(c: Client, word: seq<LowerCase>, env: Respawn, pointed: int -> bool)
    requires WellFormed(c) && c.player.intext && 'o' !in word
    ensures Run(c, TypeAll(word), env, pointed) == Done(c.(player := c.player.(text := c.player.text + word)))
    decreases |word|
  {
    if word != [] {
      var c1 := c.(player := c.player.(text := c.player.text + [word[0]]));
      TypeFirst(c, word, env, pointed);
      assert 'o' !in word[1..];
      TypingAppends(c1, word[1..], env, pointed);
      AppendFirst(c, word);
    } else {
      assert c.player.text + word == c.player.text;
      assert c.(player := c.player.(text := c.player.text)) == c;
    }
  }

  /** Appending the first letter, then the rest, appends the word. */
  lemma AppendFirst(c: Client, word: seq<LowerCase>)
    requires word != []
    ensures var c1 := c.(player := c.player.(text := c.player.text + [word[0]]));
            c1.(player := c1.player.(text := c1.player.text + word[1..])) == c.(player := c.player.(text := c.player.text + word))
  {
    assert c.player.text + [word[0]] + word[1..] == c.player.text + word;
  }

  /** Typing a word is typing its first letter, then the rest. */
  lemma TypeFirst(c: Client, word: seq<LowerCase>, env: Respawn, pointed: int -> bool)
    requires WellFormed(c) && c.player.intext && word != [] && word[0] != 'o'
    ensures Run(c, TypeAll(word), env, pointed) ==
              Run(c.(player := c.player.(text := c.player.text + [word[0]])), TypeAll(word[1..]), env, pointed)
  {
    TypeOne(c, word[0], env, pointed);
    assert TypeAll(word)[0] == Type(word[0]);
    assert TypeAll(word)[1..] == TypeAll(word[1..]);
  }

  /** In chat mode a typed letter other than O is appended to the buffer
      and nothing else changes. */
  lemma TypeOne(c: Client, ch: LowerCase, env: Respawn, pointed: int -> bool)
    requires WellFormed(c) && c.player.intext && ch != 'o'
    ensures KeyCallback(c, Type(ch), env, pointed) == Done(c.(player := c.player.(text := c.player.text + [ch])))
  {
    ChatKeyPress(c, Letter(ch), env, pointed);
    assert [ch] != "enter" && [ch] != "delete" by { assert |[ch]| == 1; }
  }

  /** In chat mode a press of any key but O and the inventory's slot keys
      is a chat key. */
  lemma ChatKeyPress(c: Client, key: Key, env: Respawn, pointed: int -> bool)
    requires WellFormed(c) && c.player.intext && key != Letter('o') && !(c.player.inInventory && SlotOf(key).Some?)
    ensures KeyCallback(c, Event(key, Press), env, pointed) == Done(ChatPress(c, key))
  {
  }

  /** Typing a word and pressing Enter sends the buffer followed by the
      word, clears the buffer and leaves chat mode. */
  lemma SendWord(c: Client, word: seq<LowerCase>, env: Respawn, pointed: int -> bool)
    requires WellFormed(c) && c.player.intext && 'o' !in word
    ensures var r := Run(c, TypeAll(word) + [Event(Enter, Press)], env, pointed);
            && r.Done?
            && r.value.sentTexts == c.sentTexts + [c.player.text + word]
            && r.value.player.text == "" && !r.value.player.intext
  {
    RunAppend(c, TypeAll(word), [Event(Enter, Press)], env, pointed);
    TypingAppends(c, word, env, pointed);
    EnterSends(c.(player := c.player.(text := c.player.text + word)), env, pointed);
  }

  /** In chat mode Enter sends the buffer, clears it and leaves chat mode. */
  lemma EnterSends(c: Client, env: Respawn, pointed: int -> bool)
    requires WellFormed(c) && c.player.intext
    ensures var r := Run(c, [Event(Enter, Press)], env, pointed);
            && r.Done?
            && r.value.sentTexts == c.sentTexts + [c.player.text]
            && r.value.player.text == "" && !r.value.player.intext
  {
    ChatKeyPress(c, Enter, env, pointed);
    assert [Event(Enter, Press)][1..] == [];
  }

  /** Running two event lists one after the other is running their
      concatenation; a failure in the first ends the run. */
  lemma {:induction false} RunAppend(c: Client, a: seq<Event>, b: seq<Event>, env: Respawn, pointed: int -> bool)
    requires WellFormed(c)
    ensures Run(c, a + b, env, pointed) == match Run(c, a, env, pointed)
                                           case Panic(why) => Panic(why)
                                           case Done(c2) => Run(c2, b, env, pointed)
    decreases |a|
  {
    if a != [] {
      assert (a + b)[0] == a[0];
      assert (a + b)[1..] == a[1..] + b;
      match KeyCallback(c, a[0], env, pointed)
      case Panic(_) =>
      case Done(c1) =>
        assert Run(c, a + b, env, pointed) == Run(c1, a[1..] + b, env, pointed);
        assert Run(c, a, env, pointed) == Run(c1, a[1..], env, pointed);
        RunAppend(c1, a[1..], b, env, pointed);
    } else {
      assert a + b == b;
    }
  }

  /** In chat mode a typed key is undone by Backspace; on an empty buffer
      Backspace does nothing. */
  lemma DeleteUndoesTyping(c: Client, ch: LowerCase, env: Respawn, pointed: int -> bool)
    requires WellFormed(c) && c.player.intext && ch != 'o'
    ensures var c1 := KeyCallback(c, Type(ch), env, pointed).value;
            KeyCallback(c1, Event(Backspace, Press), env, pointed) == Done(c)
    ensures c.player.text == [] ==> KeyCallback(c, Event(Backspace, Press), env, pointed) == Done(c)
  {
    TypeOne(c, ch, env, pointed);
    var c1 := KeyCallback(c, Type(ch), env, pointed).value;
    ChatKeyPress(c1, Backspace, env, pointed);
    ChatKeyPress(c, Backspace, env, pointed);
    assert c1.player.text[..|c1.player.text| - 1] == c.player.text;
  }

  /** Outside chat mode, M moves through the game modes and comes back
      after NumGameModes presses; entering Flying stops the fall. */
  lemma ModeCycles(c: Client, env: Respawn, pointed: int -> bool)
    requires WellFormed(c) && !c.player.intext && 0 <= c.player.gameMode < Player.NumGameModes
    ensures var c1 := KeyCallback(c, Event(Letter('m'), Press), env, pointed).value;
            && c1.player.gameMode == (c.player.gameMode + 1) % Player.NumGameModes
            && (c1.player.gameMode == Player.Flying ==> c1.player.fallVel == 0.0)
            && KeyCallback(c1, Event(Letter('m'), Press), env, pointed).value.player.gameMode == c.player.gameMode
  {
    var c1 := KeyCallback(c, Event(Letter('m'), Press), env, pointed).value;
    PressM(c, env, pointed);
    PressM(c1, env, pointed);
  }

  /** One press of M outside chat mode moves to the next game mode and
      leaves chat mode off. */
  lemma PressM(c: Client, env: Respawn, pointed: int -> bool)
    requires WellFormed(c) && !c.player.intext && 0 <= c.player.gameMode < Player.NumGameModes
    ensures var c1 := KeyCallback(c, Event(Letter('m'), Press), env, pointed).value;
            && !c1.player.intext
            && c1.player.gameMode == (c.player.gameMode + 1) % Player.NumGameModes
            && (c1.player.gameMode == Player.Flying ==> c1.player.fallVel == 0.0)
  {
    CommandKey(c, Letter('m'), env, pointed);
  }

  /** Outside chat mode the keys 1-9, 0, - and = select slots 0-11. */
  lemma SlotKeysSelect(c: Client, key: Key, env: Respawn, pointed: int -> bool)
    requires WellFormed(c) && !c.player.intext && SlotOf(key).Some?
    ensures KeyCallback(c, Event(key, Press), env, pointed).value.player.activeHotBarSlot == SlotOf(key).value
    ensures key == Digit(1) ==> SlotOf(key) == Some(0)
    ensures key == Digit(0) ==> SlotOf(key) == Some(9)
  {
  }

  /** In the inventory a slot key also writes the last pointed material
      into that slot. */
  lemma InventoryAssigns(c: Client, key: Key, env: Respawn, pointed: int -> bool)
    requires WellFormed(c) && c.player.inInventory && SlotOf(key).Some?
    ensures var r := KeyCallback(c, Event(key, Press), env, pointed).value;
            var slot := SlotOf(key).value;
            match LastPointed(pointed, 0, |Materials.Names|)
            case Some(v) => r.player.hotbar == c.player.hotbar[slot := v]
            case None => r.player.hotbar == c.player.hotbar
  {
    AssignHitsKeepsLast(c.player.hotbar, SlotOf(key).value, pointed, 0);
  }

  /** E opens the inventory (showing the hotbar and freeing the cursor)
      and closes it again (grabbing the cursor); H toggles the hotbar; T
      enters chat mode. */
  lemma Toggles(c: Client, env: Respawn, pointed: int -> bool)
    requires WellFormed(c) && !c.player.intext
    ensures var r := KeyCallback(c, Type('e'), env, pointed).value;
            && (!c.player.inInventory ==> r.player.inInventory && r.player.hotbarOn && !r.grabbed)
            && (c.player.inInventory ==> !r.player.inInventory && r.grabbed && r.player.hotbarOn == c.player.hotbarOn)
    ensures var r := KeyCallback(c, Type('h'), env, pointed).value;
            r.player.hotbarOn == !c.player.hotbarOn && KeyCallback(r, Type('h'), env, pointed) == Done(c)
    ensures KeyCallback(c, Type('t'), env, pointed).value.player.intext
  {
    CommandKey(c, Letter('e'), env, pointed);
    CommandKey(c, Letter('h'), env, pointed);
    CommandKey(c, Letter('t'), env, pointed);
    var r := CommandPress(c, Letter('h'));
    CommandKey(r, Letter('h'), env, pointed);
  }

  /** Outside chat mode a press of any key but O and the inventory's slot
      keys is a command. */
  lemma CommandKey(c: Client, key: Key, env: Respawn, pointed: int -> bool)
    requires WellFormed(c) && !c.player.intext && key != Letter('o') && !(c.player.inInventory && SlotOf(key).Some?)
    ensures KeyCallback(c, Event(key, Press), env, pointed) == Done(CommandPress(c, key))
  {
  }

  /** Outside chat mode, pressing a movement key starts that movement at
      walking speed and changes nothing else: W, S, D and A set the
      forward, back, right and left velocity; with the cursor grabbed Space
      holds jump in Normal mode and sets the up velocity in any other
      mode, and Left Shift sets the down velocity in Flying mode. */
  lemma PressStarts(c: Client, key: Key, env: Respawn, pointed: int -> bool)
    requires WellFormed(c) && !c.player.intext
    ensures var p := c.player;
            var r := KeyCallback(c, Event(key, Press), env, pointed);
            && (key == Letter('w') ==> r == Done(c.(player := p.(forwardVel := p.walkVel))))
            && (key == Letter('s') ==> r == Done(c.(player := p.(backVel := p.walkVel))))
            && (key == Letter('d') ==> r == Done(c.(player := p.(rightVel := p.walkVel))))
            && (key == Letter('a') ==> r == Done(c.(player := p.(leftVel := p.walkVel))))
            && (key == Space && c.grabbed && p.gameMode == Player.Normal ==> r == Done(c.(player := p.(holdingJump := true))))
            && (key == Space && c.grabbed && p.gameMode != Player.Normal ==> r == Done(c.(player := p.(upVel := p.walkVel))))
            && (key == LeftShift && c.grabbed && p.gameMode == Player.Flying ==> r == Done(c.(player := p.(downVel := p.walkVel))))
  {
    if key.Letter? {
      LetterStarts(c, key.c, env, pointed);
    }
  }

  /** The letter half of PressStarts. */
  lemma LetterStarts(c: Client, ch: LowerCase, env: Respawn, pointed: int -> bool)
    requires WellFormed(c) && !c.player.intext
    ensures var p := c.player;
            var r := KeyCallback(c, Type(ch), env, pointed);
            && (ch == 'w' ==> r == Done(c.(player := p.(forwardVel := p.walkVel))))
            && (ch == 's' ==> r == Done(c.(player := p.(backVel := p.walkVel))))
            && (ch == 'd' ==> r == Done(c.(player := p.(rightVel := p.walkVel))))
            && (ch == 'a' ==> r == Done(c.(player := p.(leftVel := p.walkVel))))
  {
  }

  /** Outside chat mode, releasing a movement key stops that movement
      (Space also ends the jump hold); in chat mode releases do nothing. */
  lemma ReleaseStops(c: Client, key: Key, env: Respawn, pointed: int -> bool)
    requires WellFormed(c)
    ensures var r := KeyCallback(c, Event(key, Release), env, pointed).value;
            && (c.player.intext ==> r == c)
            && (!c.player.intext && key == Space ==> !r.player.holdingJump && r.player.upVel == 0.0)
            && (!c.player.intext && key == LeftShift ==> r.player.downVel == 0.0)
            && (!c.player.intext && key == Letter('w') ==> r.player.forwardVel == 0.0)
            && (!c.player.intext && key == Letter('s') ==> r.player.backVel == 0.0)
            && (!c.player.intext && key == Letter('d') ==> r.player.rightVel == 0.0)
            && (!c.player.intext && key == Letter('a') ==> r.player.leftVel == 0.0)
  {
    ReleaseIsCommand(c, key, env, pointed);
  }

  /** A release is a command outside chat mode and ignored inside it. */
  lemma ReleaseIsCommand(c: Client, key: Key, env: Respawn, pointed: int -> bool)
    requires WellFormed(c)
    ensures KeyCallback(c, Event(key, Release), env, pointed) == Done(if c.player.intext then c else CommandRelease(c, key))
  {
  }

  /** Pressing a movement key and releasing it again leaves the player at
      rest as before: the release undoes the press. */
  lemma ReleaseUndoesPress(c: Client, ch: LowerCase, env: Respawn, pointed: int -> bool)
    requires WellFormed(c) && !c.player.intext && Player.AtRest(c.player)
    requires ch == 'w' || ch == 's' || ch == 'd' || ch == 'a'
    ensures var c1 := KeyCallback(c, Type(ch), env, pointed).value;
            KeyCallback(c1, Event(Letter(ch), Release), env, pointed) == Done(c)
  {
    LetterStarts(c, ch, env, pointed);
    var c1 := KeyCallback(c, Type(ch), env, pointed).value;
    ReleaseIsCommand(c1, Letter(ch), env, pointed);
  }

  /** Jump and fly-down need the cursor grabbed: with a free cursor Space
      and Left Shift change nothing. */
  lemma MovementNeedsGrab(c: Client, env: Respawn, pointed: int -> bool)
    requires WellFormed(c) && !c.player.intext && !c.grabbed
    ensures KeyCallback(c, Event(Space, Press), env, pointed) == Done(c)
    ensures KeyCallback(c, Event(LeftShift, Press), env, pointed) == Done(c)
  {
  }
}
