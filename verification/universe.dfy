/** The planet table and the universe built from it (pkg/common/universe.go).
    The SQL table `planet (id INT PRIMARY KEY, data BLOB)` is a sequence of
    rows in the order a plain SELECT returns them; a row's blob either
    decodes to a state or does not (`None`). */
module Universe {
  import opened Wrappers
  import opened PlanetStates
  import opened Generators
  import opened CommonPlanet

  datatype Row = Row(id: int, data: Option<PlanetState>)

  type Table = seq<Row>

  predicate HasRow(t: Table, id: int) {
    exists i :: 0 <= i < |t| && t[i].id == id
  }

  /** savePlanetState: `INSERT INTO planet VALUES (id, blob)`. The primary
      key makes a second row with the same id an error, and every error
      panics. */
  function SavePlanetState(t: Table, s: PlanetState): (r: Outcome<Table>)
    ensures r.Panic? <==> HasRow(t, s.id)
    ensures r.Done? ==> r.value == t + [Row(s.id, Some(s))]
  {
    if HasRow(t, s.id) then Panic("UNIQUE constraint failed: planet.id")
    else Done(t + [Row(s.id, Some(s))])
  }

  /** queryPlanetStates: every row's state, in order; a blob that does not
      decode panics. */
  function QueryPlanetStates(t: Table): (r: Outcome<seq<PlanetState>>)
    ensures r.Panic? <==> exists i :: 0 <= i < |t| && t[i].data.None?
    ensures r.Done? ==> |r.value| == |t| && forall i :: 0 <= i < |t| ==> t[i].data == Some(r.value[i])
  {
    if t == [] then Done([])
    else if t[0].data.None? then Panic("gob: decode error")
    else
      match QueryPlanetStates(t[1..])
      case Panic(why) => Panic(why)
      case Done(rest) => Done([t[0].data.value] + rest)
  }

  /** The i-th state cannot be inserted: its id is in the table already or
      an earlier state has it. */
  predicate Clash(t: Table, states: seq<PlanetState>, i: int) {
    0 <= i < |states| && (HasRow(t, states[i].id) || states[i].id in Ids(states[..i]))
  }

  /** Saving states one after another, stopping at the first failure: it
      fails exactly when some state clashes, and otherwise appends one row
      per state, in order. */
  function SaveAll(t: Table, states: seq<PlanetState>): (r: Outcome<Table>)
    ensures r.Panic? <==> exists i :: Clash(t, states, i)
    ensures r.Done? ==> |r.value| == |t| + |states| && r.value[..|t|] == t
    ensures r.Done? ==> forall i :: 0 <= i < |states| ==> r.value[|t| + i] == Row(states[i].id, Some(states[i]))
    decreases |states|
  {
    if states == [] then Done(t)
    else
      match SavePlanetState(t, states[0])
      case Panic(why) =>
        assert Clash(t, states, 0);
        Panic(why)
      case Done(t') =>
        var r := SaveAll(t', states[1..]);
        SaveAllStep(t, states, t', r);
        r
  }

  /** One step of SaveAll: after the first state is inserted, the clashes
      of the rest against the grown table are the clashes of the whole. */
  lemma SaveAllStep(t: Table, states: seq<PlanetState>, t': Table, r: Outcome<Table>)
    requires states != [] && !HasRow(t, states[0].id)
    requires t' == t + [Row(states[0].id, Some(states[0]))]
    requires r.Panic? <==> exists i :: Clash(t', states[1..], i)
    requires r.Done? ==> |r.value| == |t'| + |states| - 1 && r.value[..|t'|] == t'
    requires r.Done? ==> forall i :: 0 <= i < |states| - 1 ==> r.value[|t'| + i] == Row(states[1..][i].id, Some(states[1..][i]))
    ensures r.Panic? <==> exists i :: Clash(t, states, i)
    ensures r.Done? ==> |r.value| == |t| + |states| && r.value[..|t|] == t
    ensures r.Done? ==> forall i :: 0 <= i < |states| ==> r.value[|t| + i] == Row(states[i].id, Some(states[i]))
  {
    forall i | 0 <= i < |states| - 1
      ensures Clash(t', states[1..], i) <==> Clash(t, states, i + 1)
    {
      assert states[1..][i] == states[i + 1];
      assert states[..i + 1] == [states[0]] + states[1..][..i];
      var id := states[i + 1].id;
      if HasRow(t', id) && !HasRow(t, id) {
        assert id == states[0].id;
      }
      if id == states[0].id {
        assert t'[|t|].id == id;
      }
      if HasRow(t, id) {
        var j :| 0 <= j < |t| && t[j].id == id;
        assert t'[j] == t[j];
      }
      if id in Ids(states[1..][..i]) {
        var j :| 0 <= j < i && states[1..][..i][j].id == id;
        assert states[..i + 1][j + 1].id == id;
      }
      if id in Ids(states[..i + 1]) && id != states[0].id {
        var j :| 0 <= j < i + 1 && states[..i + 1][j].id == id;
        assert states[1..][..i][j - 1].id == id;
      }
    }
    assert !Clash(t, states, 0);
    if exists i :: Clash(t, states, i) {
      var i :| Clash(t, states, i);
      assert Clash(t', states[1..], i - 1);
    }
    if r.Done? {
      assert r.value[..|t|] == t' [..|t|];
      forall i | 0 <= i < |states|
        ensures r.value[|t| + i] == Row(states[i].id, Some(states[i]))
      {
        if i == 0 {
          assert r.value[|t|] == r.value[..|t'|][|t|];
        } else {
          assert r.value[|t'| + (i - 1)] == Row(states[1..][i - 1].id, Some(states[1..][i - 1]));
        }
      }
    }
  }

  /** Saving states with distinct ids, none already in the table, succeeds,
      and the table then ends with exactly those states, in order. */
  lemma {:induction false} SaveAllDistinct(t: Table, states: seq<PlanetState>)
    requires DistinctIds(states)
    requires forall i :: 0 <= i < |states| ==> !HasRow(t, states[i].id)
    ensures SaveAll(t, states).Done?
    ensures var t' := SaveAll(t, states).value;
            && |t'| == |t| + |states| && t'[..|t|] == t
            && forall i :: 0 <= i < |states| ==> t'[|t| + i] == Row(states[i].id, Some(states[i]))
    decreases |states|
  {
    if states != [] {
      var t1 := t + [Row(states[0].id, Some(states[0]))];
      assert SavePlanetState(t, states[0]) == Done(t1);
      forall i | 0 <= i < |states[1..]|
        ensures !HasRow(t1, states[1..][i].id)
      {
        assert states[1..][i] == states[i + 1];
      }
      SaveAllDistinct(t1, states[1..]);
      var t' := SaveAll(t1, states[1..]).value;
      assert t'[..|t|] == t by {
        assert t'[..|t1|] == t1;
        assert t'[..|t|] == t1[..|t|];
      }
      forall i | 0 <= i < |states|
        ensures t'[|t| + i] == Row(states[i].id, Some(states[i]))
      {
        if i == 0 {
          assert t'[|t|] == t'[..|t1|][|t|];
        } else {
          assert t'[|t1| + (i - 1)] == Row(states[1..][i - 1].id, Some(states[1..][i - 1]));
        }
      }
    }
  }

  datatype Universe = Universe(planetMap: map<int, Planet>)

  /** The planets of a list of states, keyed by id; a later state replaces
      an earlier one with the same id. `products` gives each planet's two
      circumference products (floating point, not modelled). */
  function PlanetMap(states: seq<PlanetState>, products: PlanetState -> (real, real), hasDb: bool): (m: map<int, Planet>)
    ensures forall i :: 0 <= i < |states| ==> states[i].id in m
    ensures forall k :: k in m ==> exists i :: 0 <= i < |states| && states[i].id == k
    decreases |states|
  {
    if states == [] then map[]
    else
      var last := states[|states| - 1];
      var (lon, lat) := products(last);
      PlanetMap(states[..|states| - 1], products, hasDb)[last.id := NewPlanet(last, lon, lat, false, hasDb)]
  }

  /** With distinct ids every state has its own planet, made from it (the
      planet's state differs only in its rounded AltCells). */
  lemma {:induction false} PlanetMapByID(states: seq<PlanetState>, products: PlanetState -> (real, real), hasDb: bool, i: int)
    requires DistinctIds(states) && 0 <= i < |states|
    ensures var m := PlanetMap(states, products, hasDb);
            states[i].id in m && m[states[i].id].state == states[i].(altCells := m[states[i].id].state.altCells)
    decreases |states|
  {
    var n := |states| - 1;
    var last := states[n];
    var m0 := PlanetMap(states[..n], products, hasDb);
    var pl := NewPlanet(last, products(last).0, products(last).1, false, hasDb);
    assert PlanetMap(states, products, hasDb) == m0[last.id := pl];
    if i < n {
      assert DistinctIds(states[..n]);
      assert states[..n][i] == states[i];
      PlanetMapByID(states[..n], products, hasDb, i);
      assert last.id != states[i].id;
    } else {
      assert pl.state == last.(altCells := pl.state.altCells);
    }
  }

  /** The system a universe starts from: the named one, or "planet". */
  function SystemOrDefault(systemType: string): (s: seq<PlanetState>)
    ensures System(systemType).Some? ==> s == System(systemType).value
    ensures System(systemType).None? ==> s == PlanetSystem
  {
    match System(systemType)
    case Some(s) => s
    case None => PlanetSystem
  }

  /** NewUniverse: the stored planet states, or, when the table has none,
      the generated system saved row by row; then one planet per state.
      Planets are created without a remote link. */
  function NewUniverse(t: Table, systemType: string, products: PlanetState -> (real, real)): (r: Outcome<(Universe, Table)>)
    ensures r.Panic? <==> exists i :: 0 <= i < |t| && t[i].data.None?
    ensures r.Done? && t != [] ==> r.value.1 == t
    ensures r.Done? ==> Persisted(r.value.0, r.value.1)
  {
    match QueryPlanetStates(t)
    case Panic(why) => Panic(why)
    case Done(stored) =>
      if |stored| == 0 then
        var states := SystemOrDefault(systemType);
        SystemSaves(systemType);
        match SaveAll(t, states)
        case Panic(why) => assert false; Panic(why)
        case Done(t') =>
          PersistedStates(t', states, products);
          Done((Universe(PlanetMap(states, products, true)), t'))
      else
        PersistedStates(t, stored, products);
        Done((Universe(PlanetMap(stored, products, true)), t))
  }

  /** A table whose rows hold exactly the given states agrees with the
      universe of those states. */
  lemma PersistedStates(t: Table, states: seq<PlanetState>, products: PlanetState -> (real, real))
    requires |t| == |states| && forall i :: 0 <= i < |t| ==> t[i].data == Some(states[i])
    ensures Persisted(Universe(PlanetMap(states, products, true)), t)
  {
  }

  /** The universe and the table agree: every row holds a state whose
      planet is in the universe, and every planet has such a row. */
  predicate Persisted(u: Universe, t: Table) {
    && (forall i :: 0 <= i < |t| ==> t[i].data.Some? && t[i].data.value.id in u.planetMap)
    && (forall k :: k in u.planetMap ==> exists i :: 0 <= i < |t| && t[i].data.Some? && t[i].data.value.id == k)
  }

  /** A generated system saves into an empty table without a clash. */
  lemma SystemSaves(systemType: string)
    ensures DistinctIds(SystemOrDefault(systemType))
    ensures SaveAll([], SystemOrDefault(systemType)).Done?
  {
    var states := SystemOrDefault(systemType);
    PlanetSystemWellFormed();
    MoonSystemWellFormed();
    SunMoonSystemWellFormed();
    assert DistinctIds(states);
    assert forall i :: 0 <= i < |states| ==> !Clash([], states, i);
  }

  /** Stored states win: a table with readable rows is used as it is,
      nothing is saved, and the planets are keyed by the stored states'
      ids. */
  lemma NewUniverseUsesStored(t: Table, systemType: string, products: PlanetState -> (real, real))
    requires t != [] && forall i :: 0 <= i < |t| ==> t[i].data.Some?
    ensures var r := NewUniverse(t, systemType, products);
            && r.Done? && r.value.1 == t
            && r.value.0.planetMap.Keys == set i | 0 <= i < |t| :: t[i].data.value.id
  {
    var stored := QueryPlanetStates(t).value;
    assert (set i | 0 <= i < |stored| :: stored[i].id) == set i | 0 <= i < |t| :: t[i].data.value.id;
  }

  /** An empty table gets the named system (or "planet" for an unknown
      name): every state is saved, in order, and becomes a planet under its
      id. */
  lemma NewUniverseGenerates(systemType: string, products: PlanetState -> (real, real))
    ensures var r := NewUniverse([], systemType, products);
            var states := SystemOrDefault(systemType);
            && r.Done?
            && r.value.1 == seq(|states|, i requires 0 <= i < |states| => Row(states[i].id, Some(states[i])))
            && forall i :: 0 <= i < |states| ==>
                 && states[i].id in r.value.0.planetMap
                 && r.value.0.planetMap[states[i].id].state == states[i].(altCells := r.value.0.planetMap[states[i].id].state.altCells)
  {
    var states := SystemOrDefault(systemType);
    SystemSaves(systemType);
    var t' := SaveAll([], states).value;
    assert QueryPlanetStates([]) == Done([]);
    assert NewUniverse([], systemType, products) == Done((Universe(PlanetMap(states, products, true)), t'));
    assert t' == seq(|states|, i requires 0 <= i < |states| => Row(states[i].id, Some(states[i])));
    GeneratedPlanets(states, products);
  }

  /** Each generated state has its own planet. */
  lemma GeneratedPlanets(states: seq<PlanetState>, products: PlanetState -> (real, real))
    requires DistinctIds(states)
    ensures var m := PlanetMap(states, products, true);
            forall i :: 0 <= i < |states| ==>
              states[i].id in m && m[states[i].id].state == states[i].(altCells := m[states[i].id].state.altCells)
  {
    forall i | 0 <= i < |states|
      ensures var m := PlanetMap(states, products, true);
              states[i].id in m && m[states[i].id].state == states[i].(altCells := m[states[i].id].state.altCells)
    {
      PlanetMapByID(states, products, true, i);
    }
  }
}
