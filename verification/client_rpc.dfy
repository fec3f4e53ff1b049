/** The client's RPC endpoint (pkg/client/rpc.go): cell edits pushed by the
    server, and the roster of other connected people. The endpoint owns a
    planet of the older package (with its cache, store and outbox), the
    local person's name and location, and the roster in arrival order. */
module ClientRpc {
  import opened Wrappers
  import opened Grid
  import opened Generators
  import opened GeomUtil
  import GeomPlanet

  /** A roster entry. The client code reads and writes a look direction,
      which the older package's state record does not declare. */
  datatype PersonState = PersonState(name: string, position: Vec3, lookDir: Vec3)

  datatype Api = Api(
    planet: GeomPlanet.Planet,
    world: GeomPlanet.World,
    name: string,
    loc: Vec3,
    connectedPeople: seq<PersonState>)

  /** No two roster entries share a name. */
  predicate DistinctNames(people: seq<PersonState>) {
    forall i, j :: 0 <= i < j < |people| ==> people[i].name != people[j].name
  }

  predicate HasName(people: seq<PersonState>, name: string) {
    exists i :: 0 <= i < |people| && people[i].name == name
  }

  // ---------------------------------------------------------------------
  // SetCellMaterial
  // ---------------------------------------------------------------------

  /** API.SetCellMaterial: the reply is the planet's "changed" flag; a
      planet that panics takes the call down with it. Only the planet and
      its world change. */
  function SetCellMaterial(a: Api, index: CellIndex, material: int, noise: Noise): (r: Outcome<(Api, bool)>)
    ensures r.Done? <==> GeomPlanet.SetCellMaterial(a.planet, a.world, index, material, noise).Done?
    ensures r.Done? ==>
              var s := GeomPlanet.SetCellMaterial(a.planet, a.world, index, material, noise).value;
              && r.value.1 == s.value
              && r.value.0.name == a.name && r.value.0.loc == a.loc
              && r.value.0.connectedPeople == a.connectedPeople
  {
    var s :- GeomPlanet.SetCellMaterial(a.planet, a.world, index, material, noise);
    Done((a.(planet := s.planet, world := s.world), s.value))
  }

  /** A repeated push of the same edit reports "unchanged" and leaves the
      endpoint as the first push left it. */
  lemma SetCellMaterialTwice(a: Api, index: CellIndex, material: int, noise: Noise)
    requires SetCellMaterial(a, index, material, noise).Done?
    ensures var b := SetCellMaterial(a, index, material, noise).value.0;
            SetCellMaterial(b, index, material, noise) == Done((b, false))
  {
    GeomPlanet.SetCellMaterialProperties(a.planet, a.world, index, material, noise);
  }

  // ---------------------------------------------------------------------
  // GetPersonState
  // ---------------------------------------------------------------------

  /** API.GetPersonState: fills in the local person's name and location;
      the rest of the reply is left as the caller passed it. */
  function GetPersonState(a: Api, ret: PersonState): (r: PersonState)
    ensures r.name == a.name && r.position == a.loc && r.lookDir == ret.lookDir
  {
    ret.(name := a.name, position := a.loc)
  }

  // ---------------------------------------------------------------------
  // PersonDisconnected
  // ---------------------------------------------------------------------

  /** The roster entries whose name differs from `name`, in order. */
  function Without(people: seq<PersonState>, name: string): seq<PersonState>
    decreases |people|
  {
    if people == [] then []
    else
      var last := people[|people| - 1];
      Without(people[..|people| - 1], name) + (if last.name != name then [last] else [])
  }

  /** Exactly the entries under other names survive. */
  lemma {:induction false} WithoutMembers(people: seq<PersonState>, name: string)
    ensures forall p :: p in Without(people, name) <==> p in people && p.name != name
    decreases |people|
  {
    if people != [] {
      var init := people[..|people| - 1];
      WithoutMembers(init, name);
      assert people == init + [people[|people| - 1]];
    }
  }

  /** Removing a name nobody has changes nothing. */
  lemma {:induction false} WithoutAbsentName(people: seq<PersonState>, name: string)
    requires !HasName(people, name)
    ensures Without(people, name) == people
    decreases |people|
  {
    if people != [] {
      var init := people[..|people| - 1];
      assert !HasName(init, name) by {
        forall i | 0 <= i < |init| ensures init[i].name != name {
          assert init[i] == people[i];
        }
      }
      WithoutAbsentName(init, name);
      assert people == init + [people[|people| - 1]];
    }
  }

  /** Removing keeps the remaining names distinct. */
  lemma {:induction false} WithoutKeepsDistinct(people: seq<PersonState>, name: string)
    requires DistinctNames(people)
    ensures DistinctNames(Without(people, name))
    decreases |people|
  {
    if people != [] {
      var init := people[..|people| - 1];
      var last := people[|people| - 1];
      assert DistinctNames(init);
      WithoutKeepsDistinct(init, name);
      WithoutMembers(init, name);
      forall p | p in Without(init, name) ensures p.name != last.name {
        var i :| 0 <= i < |init| && init[i] == p;
        assert people[i] == p;
      }
    }
  }

  /** API.PersonDisconnected: the roster keeps the entries under other
      names in their order, and the reply is true iff anyone is left. */
  method PersonDisconnected(a: Api, name: string) returns (b: Api, ret: bool)
    ensures b == a.(connectedPeople := Without(a.connectedPeople, name))
    ensures ret <==> b.connectedPeople != []
    ensures ret <==> exists i :: 0 <= i < |a.connectedPeople| && a.connectedPeople[i].name != name
  {
    var people := a.connectedPeople;
    var kept: seq<PersonState> := [];
    ret := false;
    var i := 0;
    while i < |people|
      invariant 0 <= i <= |people|
      invariant kept == Without(people[..i], name)
      invariant ret <==> kept != []
    {
      var c := people[i];
      assert people[..i + 1][..i] == people[..i];
      if c.name != name {
        kept := kept + [c];
        ret := true;
      }
      i := i + 1;
    }
    assert people[..i] == people;
    b := a.(connectedPeople := kept);
    WithoutMembers(people, name);
    if ret {
      var p := kept[0];
      assert p in people;
    } else {
      forall j | 0 <= j < |people| ensures people[j].name == name {
        assert people[j] !in kept;
      }
    }
  }

  // ---------------------------------------------------------------------
  // UpdatePersonState
  // ---------------------------------------------------------------------

  /** The position of the first entry carrying `name`, if any. */
  function FirstNamed(people: seq<PersonState>, name: string): (r: Option<nat>)
    ensures r.None? <==> !HasName(people, name)
    ensures r.Some? ==> r.value < |people| && people[r.value].name == name
                        && forall i :: 0 <= i < r.value ==> people[i].name != name
    decreases |people|
  {
    if people == [] then None
    else if people[0].name == name then Some(0)
    else
      match FirstNamed(people[1..], name)
      case None =>
        assert !HasName(people, name) by {
          forall i | 0 <= i < |people| ensures people[i].name != name {
            if i > 0 { assert people[i] == people[1..][i - 1]; }
          }
        }
        None
      case Some(k) =>
        assert people[k + 1] == people[1..][k];
        assert forall i :: 1 <= i < k + 1 ==> people[i] == people[1..][i - 1];
        Some(k + 1)
  }

  /** API.UpdatePersonState: a state under the local person's own name is
      ignored; the first entry with the state's name takes its position and
      look direction; a new name is appended. */
  function UpdatePersonState(a: Api, state: PersonState): (b: Api)
    ensures b == a.(connectedPeople := b.connectedPeople)
    ensures state.name == a.name ==> b == a
    ensures state.name != a.name && !HasName(a.connectedPeople, state.name) ==>
              b.connectedPeople == a.connectedPeople + [state]
    ensures state.name != a.name && HasName(a.connectedPeople, state.name) ==>
              && |b.connectedPeople| == |a.connectedPeople|
              && exists k :: 0 <= k < |a.connectedPeople| && a.connectedPeople[k].name == state.name
                   && (forall i :: 0 <= i < k ==> a.connectedPeople[i].name != state.name)
                   && b.connectedPeople == a.connectedPeople[k := a.connectedPeople[k].(position := state.position, lookDir := state.lookDir)]
  {
    if state.name == a.name then a
    else
      match FirstNamed(a.connectedPeople, state.name)
      case None => a.(connectedPeople := a.connectedPeople + [state])
      case Some(k) =>
        var c := a.connectedPeople[k];
        a.(connectedPeople := a.connectedPeople[k := c.(position := state.position, lookDir := state.lookDir)])
  }

  /** Updates keep the roster's names distinct, and afterwards the state's
      name is on the roster exactly once, with the state's position and
      look direction (unless it is the local person's own name). */
  lemma UpdateKeepsNamesDistinct(a: Api, state: PersonState)
    requires DistinctNames(a.connectedPeople)
    ensures var people := UpdatePersonState(a, state).connectedPeople;
            && DistinctNames(people)
            && (state.name != a.name ==>
                  exists k :: 0 <= k < |people| && people[k].name == state.name
                    && people[k].position == state.position && people[k].lookDir == state.lookDir)
  {
    var people := UpdatePersonState(a, state).connectedPeople;
    if state.name != a.name {
      if !HasName(a.connectedPeople, state.name) {
        assert people[|people| - 1] == state;
      } else {
        var k := FirstNamed(a.connectedPeople, state.name).value;
        assert people[k].name == state.name;
      }
    }
  }

  /** The local person's own state, as GetPersonState reports it, never
      enters the local roster. */
  lemma OwnStateIgnored(a: Api, ret: PersonState)
    ensures UpdatePersonState(a, GetPersonState(a, ret)) == a
  {
  }

  /** A disconnect of a name just updated removes it again: with distinct
      names, update-then-disconnect of a new name restores the roster. */
  lemma DisconnectUndoesJoin(a: Api, state: PersonState)
    requires state.name != a.name && !HasName(a.connectedPeople, state.name)
    ensures Without(UpdatePersonState(a, state).connectedPeople, state.name) == a.connectedPeople
  {
    var people := a.connectedPeople + [state];
    assert people[..|people| - 1] == a.connectedPeople;
    WithoutAbsentName(a.connectedPeople, state.name);
  }
}
