/** The traffic simulator as the environment sees it: a finite trace of per-tick snapshots,
    a log of the commands sent to it, and the road-distance query. */
module Simulation {

  type Road = string
  type VehicleId = string

  /** One tick's state: the road each subscribed vehicle is on, and the vehicles present. */
  datatype Tick = Tick(roads: map<VehicleId, Road>, vehicles: set<VehicleId>)

  /** A command that changes the simulator; advancing time is recorded by consuming the trace. */
  datatype Command =
    | SetRoute(vehicle: VehicleId, edges: seq<Road>)
    | Add(vehicle: VehicleId, routeId: string)
    | Subscribe(vehicle: VehicleId)
    | Unsubscribe(vehicle: VehicleId)
    | Remove(vehicle: VehicleId)

  /** The sentinel that stands for an internal (junction) segment or for a missing reading. */
  const InternalMark: Road := ":"

  /** `road.startswith(":")`: a junction-internal segment. */
  predicate Internal(road: Road) {
    |road| > 0 && road[0] == ':'
  }

  /** Road identifiers are never empty. */
  predicate TickOk(t: Tick) {
    forall v :: v in t.roads ==> t.roads[v] != ""
  }

  ghost predicate IsSuffix<T>(a: seq<T>, b: seq<T>) {
    |a| <= |b| && a == b[|b| - |a|..]
  }

  lemma SuffixOfSuffix<T>(a: seq<T>, b: seq<T>, c: seq<T>)
    requires IsSuffix(a, b) && IsSuffix(b, c)
    ensures IsSuffix(a, c)
  {
    assert c[|c| - |a|..] == c[|c| - |b|..][|b| - |a|..];
  }

  /** What a subscription read of vehicle `v` gives at tick `t`: its road, or the sentinel
      when the reading is missing (the lookup that raises). */
  function ReadingIn(t: Tick, v: VehicleId): (road: Road)
    ensures road == InternalMark || (v in t.roads && road == t.roads[v])
    ensures TickOk(t) ==> road != ""
  {
    if v in t.roads then t.roads[v] else InternalMark
  }

  class Simulator {
    var now: Tick
    var future: seq<Tick>
    var log: seq<Command>
    /** `getDistanceRoad(from, 0, to, 0, False)`, an opaque ordered value. */
    const distance: (Road, Road) -> int
    /** `traci.edge.getIDList()`: the fixed enumeration of all segments. */
    const edgeIds: seq<Road>

    ghost predicate WellFormed()
      reads this
    {
      TickOk(now) && forall i :: 0 <= i < |future| ==> TickOk(future[i])
    }

    constructor (start: Tick, ticks: seq<Tick>, dist: (Road, Road) -> int, ids: seq<Road>)
      ensures now == start && future == ticks && log == []
      ensures distance == dist && edgeIds == ids
    {
      now, future, log := start, ticks, [];
      distance, edgeIds := dist, ids;
    }

    /** `traci.simulationStep()`: advance one tick; false once the trace is exhausted,
        where the real simulator has ended. */
    method SimulationStep() returns (ok: bool)
      requires WellFormed()
      modifies this`now, this`future
      ensures WellFormed()
      ensures ok <==> old(future) != []
      ensures ok ==> now == old(future)[0] && future == old(future)[1..]
      ensures !ok ==> now == old(now) && future == old(future)
    {
      ok := future != [];
      if ok {
        now, future := future[0], future[1..];
      }
    }

    /** `getSubscriptionResults(v)[VAR_ROAD_ID]` at the current tick. */
    function RoadOf(v: VehicleId): (road: Road)
      reads this
      ensures WellFormed() ==> road != ""
    {
      ReadingIn(now, v)
    }

    /** `traci.vehicle.getIDList()`. */
    function IdList(): set<VehicleId>
      reads this
    {
      now.vehicles
    }

    method Send(c: Command)
      modifies this`log
      ensures log == old(log) + [c]
    {
      log := log + [c];
    }
  }
}
