/** The server's planet-state bootstrap (queryPlanetState and the defaults
    in Start, pkg/server/start.go) over the planet table of the Universe
    module. */
module ServerStart {
  import opened Wrappers
  import opened PlanetStates
  import opened Universe

  /** The first row with the given id, if any. */
  function RowWithId(t: Table, id: int): (r: Option<Row>)
    ensures r.None? <==> !HasRow(t, id)
    ensures r.Some? ==> r.value in t && r.value.id == id
  {
    if t == [] then None
    else if t[0].id == id then Some(t[0])
    else
      var r := RowWithId(t[1..], id);
      assert HasRow(t, id) ==> HasRow(t[1..], id) by {
        if HasRow(t, id) {
          var i :| 0 <= i < |t| && t[i].id == id;
          assert t[1..][i - 1] == t[i];
        }
      }
      r
  }

  /** queryPlanetState: the stored state of the default's id (a blob that
      does not decode is fatal), or else the default, inserted. */
  function QueryPlanetState(t: Table, default: PlanetState): (r: Outcome<(PlanetState, Table)>)
    ensures HasRow(t, default.id) ==> r.Panic? || r.value.1 == t
    ensures !HasRow(t, default.id) ==> r == Done((default, t + [Row(default.id, Some(default))]))
    ensures r.Done? ==> HasRow(r.value.1, default.id)
  {
    match RowWithId(t, default.id)
    case Some(row) =>
      if row.data.None? then Panic("gob: decode error") else Done((row.data.value, t))
    case None =>
      match SavePlanetState(t, default)
      case Panic(why) => Panic(why)
      case Done(t') =>
        AppendKeepsRows(t, Row(default.id, Some(default)), default.id);
        Done((default, t'))
  }

  /** A table that extends another has every id the other has. */
  lemma PrefixKeepsRow(a: Table, b: Table, id: int)
    requires |a| <= |b| && b[..|a|] == a && HasRow(a, id)
    ensures HasRow(b, id)
  {
    var i :| 0 <= i < |a| && a[i].id == id;
    assert b[i] == b[..|a|][i];
  }

  /** A second query with the same default returns the same state and
      inserts nothing; and a stored state wins over any other default for
      the same id (so, for example, a new seed is ignored). */
  lemma QueryPlanetStateIdempotent(t: Table, default: PlanetState, other: PlanetState)
    requires QueryPlanetState(t, default).Done? && other.id == default.id
    ensures var (s, t1) := QueryPlanetState(t, default).value;
            && QueryPlanetState(t1, default) == Done((s, t1))
            && QueryPlanetState(t1, other) == Done((s, t1))
  {
    var (s, t1) := QueryPlanetState(t, default).value;
    if !HasRow(t, default.id) {
      assert t1[|t|] == Row(default.id, Some(default));
      assert RowWithId(t1, default.id) == Some(Row(default.id, Some(default))) by {
        FirstRowOfAppend(t, Row(default.id, Some(default)));
      }
    }
  }

  /** Appending a row does not change the lookup of an id the table
      already has, and a lookup of another id that it lacks still finds
      nothing. */
  lemma {:induction false} AppendKeepsRows(t: Table, row: Row, id: int)
    ensures HasRow(t, id) ==> RowWithId(t + [row], id) == RowWithId(t, id)
    ensures !HasRow(t, id) && row.id != id ==> RowWithId(t + [row], id).None?
    ensures HasRow(t + [row], id) <==> HasRow(t, id) || row.id == id
  {
    if t != [] {
      assert (t + [row])[1..] == t[1..] + [row];
      AppendKeepsRows(t[1..], row, id);
      if HasRow(t, id) && t[0].id != id {
        var i :| 0 <= i < |t| && t[i].id == id;
        assert t[1..][i - 1] == t[i];
      }
    }
    if HasRow(t + [row], id) && !HasRow(t, id) {
      var i :| 0 <= i < |t + [row]| && (t + [row])[i].id == id;
      if i < |t| {
        assert t[i] == (t + [row])[i];
      }
    }
    if HasRow(t, id) {
      var i :| 0 <= i < |t| && t[i].id == id;
      assert (t + [row])[i] == t[i];
    }
    if row.id == id {
      assert (t + [row])[|t|] == row;
    }
  }

  lemma {:induction false} FirstRowOfAppend(t: Table, row: Row)
    requires !HasRow(t, row.id)
    ensures RowWithId(t + [row], row.id) == Some(row)
  {
    if t != [] {
      assert (t + [row])[1..] == t[1..] + [row];
      assert forall i :: 0 <= i < |t[1..]| ==> t[1..][i] == t[i + 1];
      FirstRowOfAppend(t[1..], row);
    }
  }

  /** Start's default planet: "Spawn", bumpy, radius 128 with 128
      altitude cells, a 300-second day, the server's seed. */
  function DefaultPlanetState(seed: int): (s: PlanetState)
    ensures s.id == 0 && s.name == "Spawn" && s.generatorType == "bumpy"
    ensures s.radius == 128.0 && s.altCells == 128 && s.seed == seed && s.rotationSeconds == 300.0
  {
    PlanetState(0, "Spawn", "bumpy", 128.0, 128, seed, 0, 0.0, 0.0, 300.0)
  }

  /** Start's default moon: "Moon", sphere, radius 64 with 64 altitude
      cells, orbiting planet 0 at distance 1000 every 1000 seconds, a
      500-second day, the server's seed. */
  function DefaultMoonState(seed: int): (s: PlanetState)
    ensures s.id == 1 && s.name == "Moon" && s.generatorType == "sphere"
    ensures s.radius == 64.0 && s.altCells == 64 && s.seed == seed
    ensures s.orbitPlanet == 0 && s.orbitDistance == 1000.0 && s.orbitSeconds == 1000.0 && s.rotationSeconds == 500.0
  {
    PlanetState(1, "Moon", "sphere", 64.0, 64, seed, 0, 1000.0, 1000.0, 500.0)
  }

  /** The table has a row for `id`, and the first such row does not decode. */
  predicate Unreadable(t: Table, id: int) {
    RowWithId(t, id).Some? && RowWithId(t, id).value.data.None?
  }

  /** What the table holds for `id`: the first row's state, or the default
      when there is no row. */
  function StoredOr(t: Table, default: PlanetState): PlanetState
    requires !Unreadable(t, default.id)
  {
    match RowWithId(t, default.id)
    case Some(row) => row.data.value
    case None => default
  }

  /** Start's bootstrap: the planet's state, then the moon's. It fails
      exactly when the stored row of either does not decode; otherwise each
      is the stored state or the default, and afterwards the table, which
      only grew, has a row for both. */
  function StartStates(t: Table, seed: int): (r: Outcome<(PlanetState, PlanetState, Table)>)
    ensures r.Panic? <==> Unreadable(t, 0) || Unreadable(t, 1)
    ensures r.Done? ==> && r.value.0 == StoredOr(t, DefaultPlanetState(seed))
                        && r.value.1 == StoredOr(t, DefaultMoonState(seed))
    ensures r.Done? ==> && |t| <= |r.value.2| && r.value.2[..|t|] == t
                        && HasRow(r.value.2, 0) && HasRow(r.value.2, 1)
  {
    AppendKeepsRows(t, Row(0, Some(DefaultPlanetState(seed))), 1);
    AppendKeepsRows(t, Row(0, Some(DefaultPlanetState(seed))), 0);
    match QueryPlanetState(t, DefaultPlanetState(seed))
    case Panic(why) => Panic(why)
    case Done((planet, t1)) =>
      match QueryPlanetState(t1, DefaultMoonState(seed))
      case Panic(why) => Panic(why)
      case Done((moon, t2)) =>
        PrefixKeepsRow(t1, t2, 0);
        Done((planet, moon, t2))
  }

  /** A fresh world stores both defaults, planet 0 then moon 1; a restart
      with any seed reads them back and stores nothing. */
  lemma StartRegistersDefaults(seed: int, seed2: int)
    ensures var r := StartStates([], seed);
            && r == Done((DefaultPlanetState(seed), DefaultMoonState(seed),
                          [Row(0, Some(DefaultPlanetState(seed))), Row(1, Some(DefaultMoonState(seed)))]))
            && StartStates(r.value.2, seed2) == Done((DefaultPlanetState(seed), DefaultMoonState(seed), r.value.2))
  {
    var p, m := DefaultPlanetState(seed), DefaultMoonState(seed);
    var t1 := [Row(0, Some(p))];
    var t2 := t1 + [Row(1, Some(m))];
    var empty: Table := [];
    assert !HasRow(empty, 0);
    assert empty + [Row(0, Some(p))] == t1;
    assert !HasRow(t1, 1);
    assert StartStates(empty, seed) == Done((p, m, t2));
    assert RowWithId(t2, 0) == Some(t2[0]);
    assert t2[1..] == [Row(1, Some(m))];
    assert RowWithId(t2, 1) == Some(t2[1]);
    assert QueryPlanetState(t2, DefaultPlanetState(seed2)) == Done((p, t2));
    assert QueryPlanetState(t2, DefaultMoonState(seed2)) == Done((m, t2));
    assert StartStates(t2, seed2) == Done((p, m, t2));
    assert t2 == [Row(0, Some(p)), Row(1, Some(m))];
  }
}
