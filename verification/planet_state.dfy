/** The serialisable part of a planet (PlanetState in pkg/common/planet.go),
    shared by the planet, the universe, the server and the system tables. */
module PlanetStates {

  /** Go's float64 fields are modelled as reals. */
  datatype PlanetState = PlanetState(
    id: int,
    name: string,
    generatorType: string,
    radius: real,
    altCells: int,
    seed: int,
    orbitPlanet: int,
    orbitDistance: real,
    orbitSeconds: real,
    rotationSeconds: real)

  /** The identifiers of a list of states, in order. */
  function Ids(states: seq<PlanetState>): (ids: seq<int>)
    ensures |ids| == |states|
    ensures forall i :: 0 <= i < |states| ==> ids[i] == states[i].id
  {
    if states == [] then [] else [states[0].id] + Ids(states[1..])
  }

  /** No two states in the list share an identifier. */
  predicate DistinctIds(states: seq<PlanetState>) {
    forall i, j :: 0 <= i < j < |states| ==> states[i].id != states[j].id
  }

  /** Some state in the list has identifier `id`. */
  predicate HasId(states: seq<PlanetState>, id: int) {
    exists i :: 0 <= i < |states| && states[i].id == id
  }
}
