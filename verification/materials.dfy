/** The material catalogue of pkg/common/planet.go: a list of names whose
    positions are the integer material codes stored in cells. */
module Materials {

  /** The catalogue, in code order. */
  const Names: seq<string> := [
    "air", "grass", "dirt", "stone", "moon", "asteroid", "sun",
    "blue_block", "blue_sand", "purple_block", "purple_sand",
    "red_block", "red_sand", "yellow_block", "yellow_sand"]

  /** stringSlice.pos: the position of the first entry equal to `value`, or
      -1 when there is none. */
  function Pos(slice: seq<string>, value: string): (p: int)
    ensures -1 <= p < |slice|
    ensures p == -1 <==> value !in slice
    ensures p >= 0 ==> slice[p] == value && value !in slice[..p]
  {
    PosFrom(slice, value, 0)
  }

  function PosFrom(slice: seq<string>, value: string, i: nat): (p: int)
    requires i <= |slice|
    ensures -1 <= p < |slice|
    ensures p == -1 <==> value !in slice[i..]
    ensures p >= 0 ==> i <= p && slice[p] == value && value !in slice[i..p]
    decreases |slice| - i
  {
    if i == |slice| then -1
    else if slice[i] == value then i
    else
      var p := PosFrom(slice, value, i + 1);
      assert slice[i..] == [slice[i]] + slice[i + 1..];
      assert p >= 0 ==> slice[i..p] == [slice[i]] + slice[i + 1..p];
      p
  }

  /** The codes the program derives with `pos` at start-up; each is
      shown to be that position by MaterialCodes. */
  const Air: int := 0
  const Grass: int := 1
  const Dirt: int := 2
  const Stone: int := 3
  const Moon: int := 4
  const Asteroid: int := 5
  const Sun: int := 6
  const BlueBlock: int := 7
  const BlueSand: int := 8
  const PurpleBlock: int := 9
  const PurpleSand: int := 10
  const RedBlock: int := 11
  const RedSand: int := 12
  const YellowBlock: int := 13
  const YellowSand: int := 14

  /** A code that names an entry of the catalogue. */
  predicate IsMaterial(m: int) {
    0 <= m < |Names|
  }

  /** Every code is the position of its own name in the catalogue: air is
      0 (the "empty" code), stone is 3, and so on in catalogue order. */
  lemma MaterialCodes()
    ensures Pos(Names, "air") == Air
    ensures Pos(Names, "grass") == Grass
    ensures Pos(Names, "dirt") == Dirt
    ensures Pos(Names, "stone") == Stone
    ensures Pos(Names, "moon") == Moon
    ensures Pos(Names, "asteroid") == Asteroid
    ensures Pos(Names, "sun") == Sun
    ensures Pos(Names, "blue_block") == BlueBlock
    ensures Pos(Names, "blue_sand") == BlueSand
    ensures Pos(Names, "purple_block") == PurpleBlock
    ensures Pos(Names, "purple_sand") == PurpleSand
    ensures Pos(Names, "red_block") == RedBlock
    ensures Pos(Names, "red_sand") == RedSand
    ensures Pos(Names, "yellow_block") == YellowBlock
    ensures Pos(Names, "yellow_sand") == YellowSand
  {
    CodeAir();
    CodeGrass();
    CodeDirt();
    CodeStone();
    CodeMoon();
    CodeAsteroid();
    CodeSun();
    CodeBlueBlock();
    CodeBlueSand();
    CodePurpleBlock();
    CodePurpleSand();
    CodeRedBlock();
    CodeRedSand();
    CodeYellowBlock();
    CodeYellowSand();
  }

  // One lemma per code: each keeps a single catalogue lookup in view.
  lemma CodeAir() ensures Pos(Names, "air") == Air { PosBySig(Names, 0); }
  lemma CodeGrass() ensures Pos(Names, "grass") == Grass { PosBySig(Names, 1); }
  lemma CodeDirt() ensures Pos(Names, "dirt") == Dirt { PosBySig(Names, 2); }
  lemma CodeStone() ensures Pos(Names, "stone") == Stone { PosBySig(Names, 3); }
  lemma CodeMoon() ensures Pos(Names, "moon") == Moon { PosBySig(Names, 4); }
  lemma CodeAsteroid() ensures Pos(Names, "asteroid") == Asteroid { PosBySig(Names, 5); }
  lemma CodeSun() ensures Pos(Names, "sun") == Sun { PosBySig(Names, 6); }
  lemma CodeBlueBlock() ensures Pos(Names, "blue_block") == BlueBlock { PosBySig(Names, 7); }
  lemma CodeBlueSand() ensures Pos(Names, "blue_sand") == BlueSand { PosBySig(Names, 8); }
  lemma CodePurpleBlock() ensures Pos(Names, "purple_block") == PurpleBlock { PosBySig(Names, 9); }
  lemma CodePurpleSand() ensures Pos(Names, "purple_sand") == PurpleSand { PosBySig(Names, 10); }
  lemma CodeRedBlock() ensures Pos(Names, "red_block") == RedBlock { PosBySig(Names, 11); }
  lemma CodeRedSand() ensures Pos(Names, "red_sand") == RedSand { PosBySig(Names, 12); }
  lemma CodeYellowBlock() ensures Pos(Names, "yellow_block") == YellowBlock { PosBySig(Names, 13); }
  lemma CodeYellowSand() ensures Pos(Names, "yellow_sand") == YellowSand { PosBySig(Names, 14); }

  /** A name that differs from every earlier one in length or first
      letter is found at its own position. */
  lemma PosBySig(names: seq<string>, i: int)
    requires 0 <= i < |names| && names[i] != []
    requires forall j :: 0 <= j < i ==> |names[j]| != |names[i]| || (names[j] != [] && names[j][0] != names[i][0])
    ensures Pos(names, names[i]) == i
  {
    PosOfFirst(names, i);
  }

  /** A name that does not occur earlier is found at its own position. */
  lemma PosOfFirst(names: seq<string>, i: int)
    requires 0 <= i < |names| && names[i] !in names[..i]
    ensures Pos(names, names[i]) == i
  {
  }
}
