/** The episode state machine of RoutePlanner.py: a gym environment whose `step` drives the
    simulator to the next decision point, applies the chosen outgoing edge and scores the move. */
module Planner {
  import opened Wrappers
  import opened Seqs
  import opened Decimal
  import opened Simulation

  /** The road network (`sumo_net`): the ordered outgoing segments of each segment.
      A segment without an entry is one whose lookup raises, which the source treats as
      having no outgoing segments. */
  type Network = map<Road, seq<Road>>

  function Outgoing(graph: Network, road: Road): seq<Road> {
    if road in graph then graph[road] else []
  }

  /** `f"EGO_{ego_idx}"`. */
  function EgoName(idx: int): VehicleId {
    "EGO_" + IntToString(idx)
  }

  /** Each respawn yields a vehicle id never used before in the session. */
  lemma EgoNameInjective(i: int, j: int)
    ensures EgoName(i) == EgoName(j) ==> i == j
  {
    if EgoName(i) == EgoName(j) {
      assert EgoName(i)[4..] == IntToString(i);
      assert EgoName(j)[4..] == IntToString(j);
      IntToStringInjective(i, j);
    }
  }

  /** What `step` returns to the trainer (the empty info dictionary is dropped). */
  datatype Transition = Transition(observation: nat, reward: int, done: bool)

  /** Ways a call can abort: the simulation ended under a tick, the tick-skipping loop would
      spin forever without taking a tick, or `edges.index` raised for an unknown segment. */
  datatype Fault = SimulationEnded | Stuck | UnknownEdge(road: Road)

  /** How a `step` ended (ghost bookkeeping for the contracts). */
  datatype Ending =
    | Aborted     // a Fault other than UnknownEdge
    | Succeeded   // reached the last goal segment
    | Reversed    // reached the reverse-start segment (generic termination)
    | Rejected    // dead end or action index out of range
    | Advanced    // moved on to a new segment

  /** The route extension a step with the given decision point makes. */
  function Choice(graph: Network, decision: Option<Road>, action: nat): seq<Road> {
    match decision
    case None => []
    case Some(f) =>
      var outs := Outgoing(graph, f);
      if action < |outs| then [outs[action]] else []
  }

  /** The `setRoute` command a step with the given decision point sends. */
  function RouteCommand(ego: VehicleId, graph: Network, decision: Option<Road>, action: nat): seq<Command> {
    match decision
    case None => []
    case Some(f) =>
      var outs := Outgoing(graph, f);
      if action < |outs| then [SetRoute(ego, [f, outs[action]])] else []
  }

  /** The commands `add_vehicle` sends: the old vehicle is dropped only if one was spawned
      before and it is still present. */
  function RespawnCommands(oldIdx: int, oldEgo: VehicleId, present: bool, newEgo: VehicleId, baseRoute: string): seq<Command> {
    (if oldIdx > -1 && present then [Unsubscribe(oldEgo), Remove(oldEgo)] else []) +
    [Add(newEgo, baseRoute), Subscribe(newEgo)]
  }

  /** The reward of a move that no earlier rule scored, and whether it reaches the awaited goal. */
  datatype Score = Score(reward: int, advancesGoal: bool)

  function ProgressBonus(preferred: map<Road, int>, road: Road): int {
    if road in preferred then preferred[road] else 1
  }

  /** The default reward rules, in their fixed priority: revisiting, reaching the awaited goal,
      getting strictly closer to it, anything else. */
  function DefaultScore(visited: seq<Road>, goal: Road, prevDist: int, dist: int,
                        preferred: map<Road, int>, road: Road): (s: Score)
    ensures s.advancesGoal <==> road !in visited && road == goal
    ensures s.advancesGoal ==> s.reward == 10
    ensures road in visited ==> s.reward == -10
    ensures road !in visited && road != goal && dist < prevDist ==> s.reward == ProgressBonus(preferred, road)
    ensures road !in visited && road != goal && dist >= prevDist ==> s.reward == -1
  {
    if |visited| > 0 && road in visited then Score(-10, false)
    else if road == goal then Score(10, true)
    else if dist < prevDist then Score(ProgressBonus(preferred, road), false)
    else Score(-1, false)
  }

  /** The revisit penalty outranks the goal reward: a revisited segment scores -10 even when
      it is the awaited goal. */
  lemma RevisitOutranksGoal(visited: seq<Road>, goal: Road, prevDist: int, dist: int,
                            preferred: map<Road, int>, road: Road)
    requires road in visited
    ensures DefaultScore(visited, goal, prevDist, dist, preferred, road) == Score(-10, false)
  {
  }

  function Last(ends: seq<Road>): Road
    requires |ends| > 0
  {
    ends[|ends| - 1]
  }

  /** The terminal test of `step` at a reading, for goal index `goal`: the last goal once it is
      the awaited one, or the reverse-start segment at any time. */
  predicate IsTerminal(ends: seq<Road>, goal: nat, revStart: Road, road: Road)
    requires |ends| > 0
  {
    (goal == |ends| - 1 && road == Last(ends)) || road == revStart
  }

  /** How a terminal reading ends the step: only the last goal counts as a success. */
  function TerminalEnding(ends: seq<Road>, road: Road): Ending
    requires |ends| > 0
  {
    if road == Last(ends) then Succeeded else Reversed
  }

  /** How the first pass of `step` ends at the decision point `d` when nothing faults. */
  function DecisionEnding(ends: seq<Road>, goal: nat, revStart: Road, graph: Network, action: nat, d: Road): Ending
    requires |ends| > 0
  {
    if IsTerminal(ends, goal, revStart, d) then TerminalEnding(ends, d)
    else if action >= |Outgoing(graph, d)| then Rejected
    else Advanced
  }

  /** A reading together with the snapshot and the remaining trace it leaves. */
  datatype Reading = Reading(res: Result<Road, Fault>, now: Tick, future: seq<Tick>)

  /** The inner loop of the first pass of `step`, on a trace: a tick is taken first only when
      the step follows `reset`; an internal reading after that can never change again. */
  function FirstReading(now: Tick, future: seq<Tick>, ego: VehicleId, firstRun: bool): (r: Reading)
    ensures r.res.Ok? ==> !Internal(r.res.value) && r.res.value == ReadingIn(r.now, ego)
    ensures r.res.Err? ==> r.res.error == Stuck || (r.res.error == SimulationEnded && firstRun && future == [])
    ensures |r.future| + (if firstRun && future != [] then 1 else 0) == |future|
    ensures IsSuffix(r.future, future)
  {
    if firstRun && future == [] then Reading(Err(SimulationEnded), now, future)
    else
      var t := if firstRun then future[0] else now;
      var road := ReadingIn(t, ego);
      Reading(if Internal(road) then Err(Stuck) else Ok(road), t, if firstRun then future[1..] else future)
  }

  /** An index into a suffix of a trace, as an index into the whole trace. */
  function Shift(k: Option<nat>, n: nat): Option<nat> {
    match k
    case None => None
    case Some(i) => Some(i + n)
  }

  /** A tick at which the later passes of `step` stop: `ego` reads as on a real segment that
      terminates the episode or differs from the decision point `prev`. */
  predicate Departs(t: Tick, ego: VehicleId, prev: Road, ends: seq<Road>, goal: nat, revStart: Road)
    requires |ends| > 0
  {
    var road := ReadingIn(t, ego);
    !Internal(road) && (IsTerminal(ends, goal, revStart, road) || road != prev)
  }

  /** The index in `ticks` of the first tick whose reading departs from `prev`. */
  function FirstDeparture(ticks: seq<Tick>, ego: VehicleId, prev: Road, ends: seq<Road>, goal: nat,
                          revStart: Road): (k: Option<nat>)
    requires |ends| > 0
    ensures k.Some? ==> k.value < |ticks|
    decreases |ticks|
  {
    if ticks == [] then None
    else if Departs(ticks[0], ego, prev, ends, goal, revStart) then Some(0)
    else Shift(FirstDeparture(ticks[1..], ego, prev, ends, goal, revStart), 1)
  }

  /** `FirstDeparture` finds the first departing reading, and only when there is one. */
  lemma {:induction false} FirstDepartureSpec(ticks: seq<Tick>, ego: VehicleId, prev: Road, ends: seq<Road>,
                                              goal: nat, revStart: Road)
    requires |ends| > 0
    ensures FirstDeparture(ticks, ego, prev, ends, goal, revStart).Some? ==>
      var k := FirstDeparture(ticks, ego, prev, ends, goal, revStart).value;
      Departs(ticks[k], ego, prev, ends, goal, revStart) &&
      forall j :: 0 <= j < k ==> !Departs(ticks[j], ego, prev, ends, goal, revStart)
    ensures FirstDeparture(ticks, ego, prev, ends, goal, revStart).None? ==>
      forall j :: 0 <= j < |ticks| ==> !Departs(ticks[j], ego, prev, ends, goal, revStart)
    decreases |ticks|
  {
    if ticks != [] && !Departs(ticks[0], ego, prev, ends, goal, revStart) {
      FirstDepartureSpec(ticks[1..], ego, prev, ends, goal, revStart);
    }
  }

  /** The first departure is the one index before which no reading departs. */
  lemma FirstDepartureAt(ticks: seq<Tick>, ego: VehicleId, prev: Road, ends: seq<Road>, goal: nat,
                         revStart: Road, k: nat)
    requires |ends| > 0 && k < |ticks| && Departs(ticks[k], ego, prev, ends, goal, revStart)
    requires forall j :: 0 <= j < k ==> !Departs(ticks[j], ego, prev, ends, goal, revStart)
    ensures FirstDeparture(ticks, ego, prev, ends, goal, revStart) == Some(k)
  {
    FirstDepartureSpec(ticks, ego, prev, ends, goal, revStart);
  }

  /** No departure is found in a trace none of whose readings departs. */
  lemma NoDepartureIn(ticks: seq<Tick>, ego: VehicleId, prev: Road, ends: seq<Road>, goal: nat, revStart: Road)
    requires |ends| > 0
    requires forall j :: 0 <= j < |ticks| ==> !Departs(ticks[j], ego, prev, ends, goal, revStart)
    ensures FirstDeparture(ticks, ego, prev, ends, goal, revStart) == None
  {
    FirstDepartureSpec(ticks, ego, prev, ends, goal, revStart);
  }

  /** Internal readings never depart, so a run of them extends a stretch without departures. */
  lemma StaysWhileInternal(ticks: seq<Tick>, ego: VehicleId, prev: Road, ends: seq<Road>, goal: nat, revStart: Road,
                           c: nat, n: nat)
    requires |ends| > 0 && c + n <= |ticks|
    requires forall j :: 0 <= j < c ==> !Departs(ticks[j], ego, prev, ends, goal, revStart)
    requires forall j :: 0 <= j < n ==> Internal(ReadingIn(ticks[c..][j], ego))
    ensures forall j :: 0 <= j < c + n ==> !Departs(ticks[j], ego, prev, ends, goal, revStart)
  {
    forall j | c <= j < c + n
      ensures !Departs(ticks[j], ego, prev, ends, goal, revStart)
    {
      assert ticks[j] == ticks[c..][j - c];
    }
  }

  /** A stretch without departures followed by a tick that does not depart is one tick longer. */
  lemma StaysOneMore(ticks: seq<Tick>, ego: VehicleId, prev: Road, ends: seq<Road>, goal: nat, revStart: Road, k: nat)
    requires |ends| > 0 && k < |ticks|
    requires forall j :: 0 <= j < k ==> !Departs(ticks[j], ego, prev, ends, goal, revStart)
    requires !Departs(ticks[k], ego, prev, ends, goal, revStart)
    ensures forall j :: 0 <= j < k + 1 ==> !Departs(ticks[j], ego, prev, ends, goal, revStart)
  {
  }

  /** What the outer loop of `step` does on a trace: the reading it stops on (or the fault),
      the decision point where the action was applied, how it ended, and the snapshot and
      remaining trace it leaves. */
  datatype Outcome = Outcome(res: Result<Road, Fault>, decision: Option<Road>, ending: Ending,
                             now: Tick, future: seq<Tick>)

  /** The `while True` loop of `step` on a trace, for goal index `goal` and `action`: the first
      pass reads the decision point and terminates, rejects or applies the action there; once
      the action is applied, the later passes run to the first departing tick. */
  function DriveSpec(now: Tick, future: seq<Tick>, ego: VehicleId, firstRun: bool, ends: seq<Road>,
                     goal: nat, revStart: Road, graph: Network, action: nat): (o: Outcome)
    requires goal < |ends|
    ensures o.ending == Aborted <==> o.res.Err?
    ensures o.res.Err? ==> !o.res.error.UnknownEdge?
    ensures o.res == Err(SimulationEnded) ==> o.future == []
    ensures o.res.Ok? ==> !Internal(o.res.value) && o.res.value == ReadingIn(o.now, ego)
    ensures o.ending.Succeeded? <==> o.res.Ok? && IsTerminal(ends, goal, revStart, o.res.value) && o.res.value == Last(ends)
    ensures o.ending.Reversed? <==> o.res.Ok? && IsTerminal(ends, goal, revStart, o.res.value) && o.res.value != Last(ends)
    ensures o.ending.Rejected? ==> o.decision == None && action >= |Outgoing(graph, o.res.value)|
    ensures o.ending.Advanced? ==> o.decision.Some?
    ensures o.decision.Some? ==>
      !Internal(o.decision.value) && !IsTerminal(ends, goal, revStart, o.decision.value) &&
      action < |Outgoing(graph, o.decision.value)| && (o.res.Ok? ==> o.decision.value != o.res.value)
    ensures IsSuffix(o.future, future)
  {
    var first := FirstReading(now, future, ego, firstRun);
    match first.res
    case Err(_) => Outcome(first.res, None, Aborted, first.now, first.future)
    case Ok(d) =>
      var ending := DecisionEnding(ends, goal, revStart, graph, action, d);
      if ending != Advanced then Outcome(first.res, None, ending, first.now, first.future)
      else
        assert !IsTerminal(ends, goal, revStart, d) && action < |Outgoing(graph, d)|;
        var o := PlanAfter(first.now, first.future, ego, d, ends, goal, revStart);
        SuffixOfSuffix(o.future, first.future, future);
        o
  }

  /** The later passes of `step`, once the action has been applied at the decision point `d`
      read at `now`; when the trace runs out, the snapshot left is not tracked. */
  function PlanAfter(now: Tick, future: seq<Tick>, ego: VehicleId, d: Road, ends: seq<Road>, goal: nat, revStart: Road): (o: Outcome)
    requires |ends| > 0
    ensures o.decision == Some(d)
    ensures o.ending == Aborted <==> o.res.Err?
    ensures o.res.Err? ==> o.res == Err(SimulationEnded) && o.future == []
    ensures o.res.Ok? ==> !Internal(o.res.value) && o.res.value == ReadingIn(o.now, ego) &&
                          (IsTerminal(ends, goal, revStart, o.res.value) || o.res.value != d)
    ensures o.ending.Succeeded? <==> o.res.Ok? && IsTerminal(ends, goal, revStart, o.res.value) && o.res.value == Last(ends)
    ensures o.ending.Reversed? <==> o.res.Ok? && IsTerminal(ends, goal, revStart, o.res.value) && o.res.value != Last(ends)
    ensures !o.ending.Rejected?
    ensures IsSuffix(o.future, future)
  {
    FirstDepartureSpec(future, ego, d, ends, goal, revStart);
    match FirstDeparture(future, ego, d, ends, goal, revStart)
    case None => Outcome(Err(SimulationEnded), Some(d), Aborted, now, [])
    case Some(k) =>
      var road := ReadingIn(future[k], ego);
      Outcome(Ok(road), Some(d), if IsTerminal(ends, goal, revStart, road) then TerminalEnding(ends, road) else Advanced,
              future[k], future[k + 1..])
  }

  class RoutePlanner {
    const sim: Simulator
    const startEdge: Road
    const revStartEdge: Road
    const endEdges: seq<Road>
    const baseRoute: string
    const preferredRoads: map<Road, int>
    const graph: Network

    var egoIdx: int
    var currentEgo: VehicleId
    var prevDist: int
    var visitedRoads: seq<Road>
    var endEdgeToReach: nat
    var optimalRoute: seq<Road>
    var firstRun: bool
    /** The routes handed to `save_optimal_route`, in order. */
    ghost var savedRoutes: seq<seq<Road>>

    ghost predicate Valid()
      reads this, sim
    {
      Inv() && sim.WellFormed()
    }

    /** The invariant of the episode state, apart from the simulator. */
    ghost predicate Inv()
      reads this`egoIdx, this`currentEgo, this`optimalRoute, this`visitedRoads, this`endEdgeToReach, this`savedRoutes
    {
      |endEdges| > 0 && endEdgeToReach < |endEdges| &&
      egoIdx >= 0 && currentEgo == EgoName(egoIdx) &&
      |optimalRoute| > 0 && optimalRoute[0] == startEdge &&
      Distinct(visitedRoads) &&
      (forall i :: 0 <= i < |visitedRoads| ==> visitedRoads[i] != "" && !Internal(visitedRoads[i])) &&
      (forall i :: 0 <= i < |savedRoutes| ==> |savedRoutes[i]| > 0 && savedRoutes[i][0] == startEdge)
    }

    /** What the outer loop of the next `step` with `action` does on the remaining trace. */
    ghost function Plan(action: nat): Outcome
      reads this, sim
      requires endEdgeToReach < |endEdges|
    {
      DriveSpec(sim.now, sim.future, currentEgo, firstRun, endEdges, endEdgeToReach, revStartEdge, graph, action)
    }

    constructor (sim: Simulator, startEdge: Road, revStartEdge: Road, endEdges: seq<Road>,
                 baseRoute: string, preferredRoads: map<Road, int>, graph: Network)
      requires |endEdges| > 0 && sim.WellFormed()
      modifies sim`log
      ensures Valid()
      ensures this.sim == sim && this.startEdge == startEdge && this.revStartEdge == revStartEdge
      ensures this.endEdges == endEdges && this.baseRoute == baseRoute
      ensures this.preferredRoads == preferredRoads && this.graph == graph
      ensures egoIdx == 0 && currentEgo == EgoName(0) && firstRun
      ensures optimalRoute == [startEdge] && visitedRoads == [] && endEdgeToReach == 0
      ensures prevDist == sim.distance(startEdge, endEdges[0]) && savedRoutes == []
      ensures sim.log == old(sim.log) + [Add(EgoName(0), baseRoute), Subscribe(EgoName(0))]
    {
      this.sim := sim;
      this.startEdge := startEdge;
      this.revStartEdge := revStartEdge;
      this.endEdges := endEdges;
      this.baseRoute := baseRoute;
      this.preferredRoads := preferredRoads;
      this.graph := graph;
      egoIdx := -1;
      currentEgo := EgoName(-1);
      prevDist := 0;
      visitedRoads := [];
      endEdgeToReach := 0;
      optimalRoute := [startEdge];
      firstRun := true;
      savedRoutes := [];
      new;
      AddVehicle();
    }

    /** `reset`: only marks that the next step takes a tick first; answers the start index. */
    method Reset() returns (r: Result<nat, Fault>)
      requires Valid()
      modifies this`firstRun
      ensures Valid() && firstRun
      ensures r.Ok? ==> r.value < |sim.edgeIds| && sim.edgeIds[r.value] == startEdge &&
                        startEdge !in sim.edgeIds[..r.value]
      ensures r.Err? <==> startEdge !in sim.edgeIds
      ensures r.Err? ==> r.error == UnknownEdge(startEdge)
    {
      firstRun := true;
      match IndexOf(sim.edgeIds, startEdge)
      case None => r := Err(UnknownEdge(startEdge));
      case Some(i) => r := Ok(i);
    }

    /** The inner `while` of `step`: advance the simulator while the controlled vehicle reads as
        on an internal segment. A tick is taken only once a decision point has been recorded
        (`prev` is set) or at the first step after `reset`; otherwise the same reading is read
        again, which never changes, so an internal reading there spins forever (`Stuck`). */
    method ReadRoad(prev: Road) returns (r: Result<Road, Fault>, ghost i: nat)
      requires sim.WellFormed()
      modifies this`firstRun, sim`now, sim`future
      ensures sim.WellFormed()
      ensures |prev| == 0 ==>
        var first := FirstReading(old(sim.now), old(sim.future), currentEgo, old(firstRun));
        r == first.res && sim.now == first.now && sim.future == first.future &&
        firstRun == (r == Err(SimulationEnded))
      // with `prev` set, the reading is that of the first tick with a real segment
      ensures |prev| > 0 ==>
        i <= |old(sim.future)| && forall j :: 0 <= j < i ==> Internal(ReadingIn(old(sim.future)[j], currentEgo))
      ensures |prev| > 0 && r.Err? ==> r == Err(SimulationEnded) && i == |old(sim.future)| && sim.future == []
      ensures |prev| > 0 && r.Ok? ==>
        i < |old(sim.future)| && r.value == ReadingIn(old(sim.future)[i], currentEgo) && !Internal(r.value) &&
        sim.now == old(sim.future)[i] && sim.future == old(sim.future)[i + 1..] && !firstRun
    {
      i := 0;
      var road := InternalMark;
      ghost var ticks := sim.future;
      ghost var taken: nat := 0;
      while Internal(road)
        invariant sim.WellFormed()
        invariant taken <= |ticks| && sim.future == ticks[taken..]
        invariant sim.now == if taken == 0 then old(sim.now) else ticks[taken - 1]
        invariant firstRun == (old(firstRun) && taken == 0)
        invariant |prev| == 0 ==> taken <= 1 && (taken == 1 ==> old(firstRun))
        invariant taken > 0 || !Internal(road) ==> road == ReadingIn(sim.now, currentEgo)
        invariant !Internal(road) && taken == 0 ==> |prev| == 0 && !old(firstRun)
        invariant |prev| > 0 ==> forall j :: 0 <= j < taken - 1 ==> Internal(ReadingIn(ticks[j], currentEgo))
        invariant |prev| > 0 && !Internal(road) ==> taken > 0
        decreases |sim.future| + (if Internal(road) then 1 else 0)
      {
        if prev != "" || firstRun {
          var ok := sim.SimulationStep();
          if !ok {
            return Err(SimulationEnded), taken;
          }
          firstRun := false;
          taken := taken + 1;
          road := sim.RoadOf(currentEgo);
        } else {
          road := sim.RoadOf(currentEgo);
          if Internal(road) {
            return Err(Stuck), 0;
          }
        }
      }
      if |prev| > 0 {
        i := taken - 1;
      }
      r := Ok(road);
    }

    /** The action branch of `step`: look up the outgoing segments of `road` and either
        extend the route by the chosen one and command it, or refuse the action. */
    method ApplyAction(road: Road, action: nat) returns (accepted: bool)
      requires Valid()
      modifies this`optimalRoute, sim`log
      ensures Valid()
      ensures accepted <==> action < |Outgoing(graph, road)|
      ensures optimalRoute == old(optimalRoute) + Choice(graph, Some(road), action)
      ensures sim.log == old(sim.log) + RouteCommand(currentEgo, graph, Some(road), action)
    {
      var outEdges := Outgoing(graph, road);
      if |outEdges| > 0 {
        if action >= |outEdges| {
          accepted := false;
        } else {
          optimalRoute := optimalRoute + [outEdges[action]];
          sim.Send(SetRoute(currentEgo, [road, outEdges[action]]));
          accepted := true;
        }
      } else {
        accepted := false;
      }
    }

    /** The terminal branch of `step`: on the last goal segment report the route and score 10,
        then respawn the vehicle in every case. */
    method Terminate(road: Road) returns (reward: int, ghost ending: Ending)
      requires Valid() && IsTerminal(endEdges, endEdgeToReach, revStartEdge, road)
      modifies this, sim`log
      ensures Valid()
      ensures ending == TerminalEnding(endEdges, road)
      ensures reward == if road == Last(endEdges) then 10 else 0
      ensures savedRoutes == old(savedRoutes) + (if road == Last(endEdges) then [old(optimalRoute)] else [])
      ensures egoIdx == old(egoIdx) + 1 && currentEgo == EgoName(egoIdx)
      ensures optimalRoute == [startEdge] && visitedRoads == [] && endEdgeToReach == 0
      ensures prevDist == sim.distance(startEdge, endEdges[0]) && firstRun == old(firstRun)
      ensures sim.log == old(sim.log) +
        RespawnCommands(old(egoIdx), old(currentEgo), old(currentEgo) in sim.IdList(), currentEgo, baseRoute)
    {
      reward := 0;
      ending := Reversed;
      if road == Last(endEdges) {
        reward := 10;
        savedRoutes := savedRoutes + [optimalRoute];
        ending := Succeeded;
      }
      AddVehicle();
    }

    /** The vehicle has left `prev` for a new segment: remember `prev` as visited, once. */
    method Depart(prev: Road)
      requires Valid() && prev != "" && !Internal(prev)
      modifies this`visitedRoads
      ensures Valid()
      ensures visitedRoads == old(visitedRoads) + (if prev in old(visitedRoads) then [] else [prev])
    {
      if prev !in visitedRoads {
        visitedRoads := visitedRoads + [prev];
      }
    }

    /** The outer loop of `step`: find the next decision point, apply `action` there, and stop
        when the vehicle reaches a new segment or the episode terminates; all of which is
        what `Plan(action)` computes from the trace. */
    method Drive(action: nat) returns (res: Result<Road, Fault>, reward: int, done: bool,
                                       ghost decision: Option<Road>, ghost ending: Ending)
      requires Valid()
      modifies this, sim
      ensures Valid()
      ensures var o := old(Plan(action));
        res == o.res && decision == o.decision && ending == o.ending && sim.future == o.future &&
        (o.res.Ok? || o.decision.None? ==> sim.now == o.now)
      ensures ending != Aborted ==> !firstRun
      ensures done <==> ending != Aborted && !ending.Advanced?
      ensures reward == if ending.Succeeded? then 10 else if ending.Rejected? then -10 else 0
      // a move on to a new segment
      ensures ending.Advanced? ==>
        optimalRoute == old(optimalRoute) + Choice(graph, decision, action) &&
        visitedRoads == old(visitedRoads) + (if decision.value in old(visitedRoads) then [] else [decision.value]) &&
        egoIdx == old(egoIdx) && currentEgo == old(currentEgo) &&
        endEdgeToReach == old(endEdgeToReach) && prevDist == old(prevDist) &&
        sim.log == old(sim.log) + RouteCommand(old(currentEgo), graph, decision, action)
      // every other ending respawns the vehicle
      ensures done ==>
        egoIdx == old(egoIdx) + 1 && currentEgo == EgoName(egoIdx) &&
        optimalRoute == [startEdge] && visitedRoads == [] && endEdgeToReach == 0 &&
        prevDist == sim.distance(startEdge, endEdges[0]) &&
        sim.log == old(sim.log) + RouteCommand(old(currentEgo), graph, decision, action) +
                   RespawnCommands(old(egoIdx), old(currentEgo), old(currentEgo) in sim.IdList(), currentEgo, baseRoute)
      ensures ending.Succeeded? ==> savedRoutes == old(savedRoutes) + [old(optimalRoute) + Choice(graph, decision, action)]
      ensures !ending.Succeeded? ==> savedRoutes == old(savedRoutes)
    {
      ghost var o := Plan(action);
      ghost var first := FirstReading(sim.now, sim.future, currentEgo, firstRun);
      var proceed;
      res, reward, done, proceed, ending := FirstPass(action);
      decision := None;
      if !proceed {
        assert o == Outcome(first.res, None, ending, first.now, first.future);
        assert old(optimalRoute) + Choice(graph, decision, action) == old(optimalRoute);
        assert old(sim.log) + RouteCommand(old(currentEgo), graph, decision, action) == old(sim.log);
        return;
      }
      var prevCurrentRoad := res.value;
      decision := Some(prevCurrentRoad);
      assert first.res == Ok(prevCurrentRoad);
      assert o == PlanAfter(first.now, first.future, old(currentEgo), prevCurrentRoad, endEdges, old(endEdgeToReach), revStartEdge);
      ghost var route, log := optimalRoute, sim.log;
      assert route == old(optimalRoute) + Choice(graph, decision, action);
      assert log == old(sim.log) + RouteCommand(old(currentEgo), graph, decision, action);
      assert savedRoutes == old(savedRoutes);
      res, reward, done, ending := LeaveSegment(prevCurrentRoad);
      if ending.Succeeded? {
        assert savedRoutes == old(savedRoutes) + [route];
      } else {
        assert savedRoutes == old(savedRoutes);
      }
    }

    /** The first pass of the `while True` loop of `step`, while `prev_current_road` is still "":
        the reading becomes the decision point. `proceed` says that the action was applied and
        the loop goes round again. */
    method FirstPass(action: nat) returns (res: Result<Road, Fault>, reward: int, done: bool,
                                           proceed: bool, ghost ending: Ending)
      requires Valid()
      modifies this, sim
      ensures Valid()
      ensures var first := FirstReading(old(sim.now), old(sim.future), old(currentEgo), old(firstRun));
        res == first.res && sim.now == first.now && sim.future == first.future
      ensures res.Err? ==> ending == Aborted && !proceed && !done && reward == 0 && unchanged(this`savedRoutes)
      ensures res.Ok? ==> !firstRun && ending == DecisionEnding(endEdges, old(endEdgeToReach), revStartEdge, graph, action, res.value)
      ensures proceed <==> ending.Advanced?
      ensures done <==> ending.Succeeded? || ending.Reversed? || ending.Rejected?
      ensures reward == if ending.Succeeded? then 10 else if ending.Rejected? then -10 else 0
      ensures proceed ==>
        optimalRoute == old(optimalRoute) + Choice(graph, Some(res.value), action) &&
        sim.log == old(sim.log) + RouteCommand(old(currentEgo), graph, Some(res.value), action) &&
        egoIdx == old(egoIdx) && currentEgo == old(currentEgo) && visitedRoads == old(visitedRoads) &&
        endEdgeToReach == old(endEdgeToReach) && prevDist == old(prevDist)
      ensures done ==>
        egoIdx == old(egoIdx) + 1 && currentEgo == EgoName(egoIdx) &&
        optimalRoute == [startEdge] && visitedRoads == [] && endEdgeToReach == 0 &&
        prevDist == sim.distance(startEdge, endEdges[0]) &&
        sim.log == old(sim.log) +
                   RespawnCommands(old(egoIdx), old(currentEgo), old(currentEgo) in sim.IdList(), currentEgo, baseRoute)
      ensures savedRoutes == old(savedRoutes) + (if ending.Succeeded? then [old(optimalRoute)] else [])
    {
      reward := 0;
      done := false;
      proceed := false;
      ending := Aborted;
      var reading, _ := ReadRoad("");
      if reading.Err? {
        res := Err(reading.error);
        return;
      }
      res := reading;
      reward, done, proceed, ending := AtDecisionPoint(reading.value, action);
    }

    /** A pass of the `while True` loop of `step` at the decision point `road` itself: the
        terminal test, then the action branch. */
    method AtDecisionPoint(road: Road, action: nat) returns (reward: int, done: bool, proceed: bool,
                                                             ghost ending: Ending)
      requires Valid()
      modifies this, sim`log
      ensures Valid() && firstRun == old(firstRun)
      ensures ending == DecisionEnding(endEdges, old(endEdgeToReach), revStartEdge, graph, action, road)
      ensures proceed <==> ending.Advanced?
      ensures done <==> !ending.Advanced?
      ensures reward == if ending.Succeeded? then 10 else if ending.Rejected? then -10 else 0
      ensures proceed ==>
        optimalRoute == old(optimalRoute) + Choice(graph, Some(road), action) &&
        sim.log == old(sim.log) + RouteCommand(old(currentEgo), graph, Some(road), action) &&
        egoIdx == old(egoIdx) && currentEgo == old(currentEgo) && visitedRoads == old(visitedRoads) &&
        endEdgeToReach == old(endEdgeToReach) && prevDist == old(prevDist)
      ensures done ==>
        egoIdx == old(egoIdx) + 1 && currentEgo == EgoName(egoIdx) &&
        optimalRoute == [startEdge] && visitedRoads == [] && endEdgeToReach == 0 &&
        prevDist == sim.distance(startEdge, endEdges[0]) &&
        sim.log == old(sim.log) +
                   RespawnCommands(old(egoIdx), old(currentEgo), old(currentEgo) in sim.IdList(), currentEgo, baseRoute)
      ensures savedRoutes == old(savedRoutes) + (if ending.Succeeded? then [old(optimalRoute)] else [])
    {
      done := IsTerminal(endEdges, endEdgeToReach, revStartEdge, road);
      if done {
        proceed := false;
        reward, ending := Terminate(road);
        return;
      }
      var accepted := Decide(road, action);
      if !accepted {
        reward, done, proceed, ending := -10, true, false, Rejected;
        return;
      }
      reward, proceed, ending := 0, true, Advanced;
    }

    /** The action branch of `step` at a decision point: apply the action, or, for a dead end
        or an index past the outgoing segments, fail the episode and respawn. */
    method Decide(road: Road, action: nat) returns (accepted: bool)
      requires Valid()
      modifies this`egoIdx, this`currentEgo, this`optimalRoute, this`visitedRoads, this`endEdgeToReach,
               this`prevDist, sim`log
      ensures Valid()
      ensures accepted <==> action < |Outgoing(graph, road)|
      ensures accepted ==>
        optimalRoute == old(optimalRoute) + Choice(graph, Some(road), action) &&
        sim.log == old(sim.log) + RouteCommand(old(currentEgo), graph, Some(road), action) &&
        egoIdx == old(egoIdx) && currentEgo == old(currentEgo) && visitedRoads == old(visitedRoads) &&
        endEdgeToReach == old(endEdgeToReach) && prevDist == old(prevDist)
      ensures !accepted ==>
        egoIdx == old(egoIdx) + 1 && currentEgo == EgoName(egoIdx) &&
        optimalRoute == [startEdge] && visitedRoads == [] && endEdgeToReach == 0 &&
        prevDist == sim.distance(startEdge, endEdges[0]) &&
        sim.log == old(sim.log) +
                   RespawnCommands(old(egoIdx), old(currentEgo), old(currentEgo) in sim.IdList(), currentEgo, baseRoute)
    {
      accepted := ApplyAction(road, action);
      if !accepted {
        AddVehicle();
      }
    }

    /** The later passes of the `while True` loop of `step`, once the action is applied at
        `prev`: a reading equal to `prev` changes nothing and the loop goes round again; the
        first reading that departs from `prev` ends the step. */
    method LeaveSegment(prev: Road) returns (res: Result<Road, Fault>, reward: int, done: bool, ghost ending: Ending)
      requires Valid() && prev != "" && !Internal(prev) && !IsTerminal(endEdges, endEdgeToReach, revStartEdge, prev)
      modifies this, sim
      ensures Valid()
      ensures var o := old(PlanAfter(sim.now, sim.future, currentEgo, prev, endEdges, endEdgeToReach, revStartEdge));
        res == o.res && ending == o.ending && sim.future == o.future && (res.Ok? ==> sim.now == o.now && !firstRun)
      ensures ending == Aborted ==>
        !done && reward == 0 && optimalRoute == old(optimalRoute) && sim.log == old(sim.log) &&
        egoIdx == old(egoIdx) && currentEgo == old(currentEgo) && visitedRoads == old(visitedRoads) &&
        endEdgeToReach == old(endEdgeToReach) && prevDist == old(prevDist)
      ensures reward == if ending.Succeeded? then 10 else 0
      ensures done <==> ending.Succeeded? || ending.Reversed?
      ensures ending.Advanced? ==>
        visitedRoads == old(visitedRoads) + (if prev in old(visitedRoads) then [] else [prev]) &&
        optimalRoute == old(optimalRoute) && sim.log == old(sim.log) &&
        egoIdx == old(egoIdx) && currentEgo == old(currentEgo) &&
        endEdgeToReach == old(endEdgeToReach) && prevDist == old(prevDist)
      ensures ending.Succeeded? || ending.Reversed? ==>
        egoIdx == old(egoIdx) + 1 && currentEgo == EgoName(egoIdx) &&
        optimalRoute == [startEdge] && visitedRoads == [] && endEdgeToReach == 0 &&
        prevDist == sim.distance(startEdge, endEdges[0]) &&
        sim.log == old(sim.log) +
                   RespawnCommands(old(egoIdx), old(currentEgo), old(currentEgo) in sim.IdList(), currentEgo, baseRoute)
      ensures savedRoutes == old(savedRoutes) + (if ending.Succeeded? then [old(optimalRoute)] else [])
    {
      reward, done, ending := 0, false, Aborted;
      ghost var ticks := sim.future;
      ghost var k;
      res, k := AwaitDeparture(prev);
      if res.Err? {
        NoDepartureIn(ticks, currentEgo, prev, endEdges, endEdgeToReach, revStartEdge);
      } else {
        FirstDepartureAt(ticks, currentEgo, prev, endEdges, endEdgeToReach, revStartEdge, k);
        reward, done, ending := Arrive(prev, res.value);
      }
    }

    /** The loop of the later passes, without their terminal and departing branches: take
        readings until one departs from `prev`; `k` is the index of that tick in the trace. */
    method AwaitDeparture(prev: Road) returns (res: Result<Road, Fault>, ghost k: nat)
      requires sim.WellFormed() && |endEdges| > 0 && |prev| > 0 && !Internal(prev)
      modifies this`firstRun, sim`now, sim`future
      ensures sim.WellFormed()
      ensures k <= |old(sim.future)|
      ensures forall j :: 0 <= j < k ==>
        !Departs(old(sim.future)[j], currentEgo, prev, endEdges, endEdgeToReach, revStartEdge)
      ensures res.Err? ==> res == Err(SimulationEnded) && k == |old(sim.future)| && sim.future == []
      ensures res.Ok? ==>
        k < |old(sim.future)| && res.value == ReadingIn(old(sim.future)[k], currentEgo) &&
        Departs(old(sim.future)[k], currentEgo, prev, endEdges, endEdgeToReach, revStartEdge) &&
        sim.now == old(sim.future)[k] && sim.future == old(sim.future)[k + 1..] && !firstRun
    {
      ghost var ticks := sim.future;
      ghost var c: nat := 0;
      while true
        invariant sim.WellFormed()
        invariant c <= |ticks| && sim.future == ticks[c..]
        invariant forall j :: 0 <= j < c ==>
          !Departs(ticks[j], currentEgo, prev, endEdges, endEdgeToReach, revStartEdge)
        decreases |sim.future|
      {
        ghost var i;
        var reading;
        reading, i := ReadRoad(prev);
        StaysWhileInternal(ticks, currentEgo, prev, endEdges, endEdgeToReach, revStartEdge, c, i);
        if reading.Err? {
          return reading, |ticks|;
        }
        k := c + i;
        DropDrop(ticks, c, i + 1);
        var currentRoad := reading.value;
        assert currentRoad == ReadingIn(ticks[k], currentEgo);
        var done := IsTerminal(endEdges, endEdgeToReach, revStartEdge, currentRoad);
        if done || currentRoad != prev {
          return reading, k;
        }
        StaysOneMore(ticks, currentEgo, prev, endEdges, endEdgeToReach, revStartEdge, k);
        c := k + 1;
      }
    }

    /** A later pass of the `while True` loop of `step` whose reading `road` departs from the
        decision point `prev`: the terminal branch, or the move on to a new segment. */
    method Arrive(prev: Road, road: Road) returns (reward: int, done: bool, ghost ending: Ending)
      requires Valid() && prev != "" && !Internal(prev)
      modifies this, sim`log
      ensures Valid() && firstRun == old(firstRun)
      ensures ending == if IsTerminal(endEdges, old(endEdgeToReach), revStartEdge, road)
                        then TerminalEnding(endEdges, road) else Advanced
      ensures reward == if ending.Succeeded? then 10 else 0
      ensures done <==> ending.Succeeded? || ending.Reversed?
      ensures ending.Advanced? ==>
        visitedRoads == old(visitedRoads) + (if prev in old(visitedRoads) then [] else [prev]) &&
        optimalRoute == old(optimalRoute) && sim.log == old(sim.log) &&
        egoIdx == old(egoIdx) && currentEgo == old(currentEgo) &&
        endEdgeToReach == old(endEdgeToReach) && prevDist == old(prevDist)
      ensures done ==>
        egoIdx == old(egoIdx) + 1 && currentEgo == EgoName(egoIdx) &&
        optimalRoute == [startEdge] && visitedRoads == [] && endEdgeToReach == 0 &&
        prevDist == sim.distance(startEdge, endEdges[0]) &&
        sim.log == old(sim.log) +
                   RespawnCommands(old(egoIdx), old(currentEgo), old(currentEgo) in sim.IdList(), currentEgo, baseRoute)
      ensures savedRoutes == old(savedRoutes) + (if ending.Succeeded? then [old(optimalRoute)] else [])
    {
      done := IsTerminal(endEdges, endEdgeToReach, revStartEdge, road);
      if done {
        reward, ending := Terminate(road);
        return;
      }
      Depart(prev);
      reward, ending := 0, Advanced;
    }

    /** `step`: drive the vehicle to its next decision point, apply `action` there, and score
        the transition with the rules that no terminal branch preempted. */
    method Step(action: nat) returns (r: Result<Transition, Fault>, ghost road: Road,
                                      ghost decision: Option<Road>, ghost ending: Ending)
      requires Valid()
      modifies this, sim
      ensures Valid()
      // the loop, on the trace
      ensures var o := old(Plan(action));
        decision == o.decision && ending == o.ending && sim.future == o.future &&
        (o.res.Ok? || o.decision.None? ==> sim.now == o.now) &&
        road == (if o.res.Ok? then o.res.value else InternalMark) &&
        (o.res.Err? ==> r == Err(o.res.error))
      ensures ending != Aborted ==> !firstRun
      // what is returned
      ensures r.Err? && r.error.UnknownEdge? ==> r.error.road == road && road !in sim.edgeIds
      ensures ending != Aborted && road !in sim.edgeIds ==> r == Err(UnknownEdge(road))
      ensures r.Ok? <==> ending != Aborted && road in sim.edgeIds
      ensures r.Ok? ==> r.value.observation < |sim.edgeIds| && sim.edgeIds[r.value.observation] == road &&
                        road !in sim.edgeIds[..r.value.observation]
      ensures r.Ok? ==> (r.value.done <==> !ending.Advanced?)
      // a move on to a new segment
      ensures ending.Advanced? ==>
        optimalRoute == old(optimalRoute) + Choice(graph, decision, action) &&
        visitedRoads == old(visitedRoads) + (if decision.value in old(visitedRoads) then [] else [decision.value]) &&
        egoIdx == old(egoIdx) && currentEgo == old(currentEgo) &&
        sim.log == old(sim.log) + RouteCommand(old(currentEgo), graph, decision, action)
      // every other ending respawns the vehicle
      ensures ending.Succeeded? || ending.Reversed? || ending.Rejected? ==>
        egoIdx == old(egoIdx) + 1 && currentEgo == EgoName(egoIdx) &&
        optimalRoute == [startEdge] && visitedRoads == [] &&
        sim.log == old(sim.log) + RouteCommand(old(currentEgo), graph, decision, action) +
                   RespawnCommands(old(egoIdx), old(currentEgo), old(currentEgo) in sim.IdList(), currentEgo, baseRoute)
      ensures ending.Succeeded? ==> savedRoutes == old(savedRoutes) + [old(optimalRoute) + Choice(graph, decision, action)]
      ensures !ending.Succeeded? ==> savedRoutes == old(savedRoutes)
      // rewards, goal index and distance baseline
      ensures ending.Succeeded? || ending.Rejected? ==>
        endEdgeToReach == 0 && prevDist == sim.distance(road, endEdges[0]) &&
        (r.Ok? ==> r.value.reward == if ending.Succeeded? then 10 else -10)
      ensures ending.Reversed? ==>
        var s := DefaultScore([], endEdges[0], sim.distance(startEdge, endEdges[0]),
                              sim.distance(road, endEdges[0]), preferredRoads, road);
        endEdgeToReach == (if s.advancesGoal then 1 else 0) && prevDist == sim.distance(road, endEdges[0]) &&
        (r.Ok? ==> r.value.reward == s.reward)
      ensures ending.Advanced? ==>
        var g := old(endEdgeToReach);
        var s := DefaultScore(visitedRoads, endEdges[g], old(prevDist), sim.distance(road, endEdges[g]),
                              preferredRoads, road);
        endEdgeToReach == g + (if s.advancesGoal then 1 else 0) && prevDist == sim.distance(road, endEdges[g]) &&
        (r.Ok? ==> r.value.reward == s.reward)
    {
      var res, reward, done;
      res, reward, done, decision, ending := Drive(action);
      if res.Err? {
        road := InternalMark;
        r := Err(res.error);
        return;
      }
      var currentRoad := res.value;
      road := currentRoad;
      r := Observe(currentRoad, reward, done);
    }

    /** The tail of `step` at the segment `road` reached: score it with the default rules
        unless a terminal branch already set the reward (reaching the last goal always sets it), shift the distance baseline, and
        encode `road` as its position among all segments. */
    method Observe(road: Road, reward: int, done: bool) returns (r: Result<Transition, Fault>)
      requires Valid() && (reward == 0 ==> !(endEdgeToReach == |endEdges| - 1 && road == Last(endEdges)))
      modifies this`endEdgeToReach, this`prevDist
      ensures Valid()
      ensures var g := old(endEdgeToReach);
        prevDist == sim.distance(road, endEdges[g]) &&
        (reward != 0 ==> endEdgeToReach == g && (r.Ok? ==> r.value.reward == reward)) &&
        (reward == 0 ==>
          var s := DefaultScore(visitedRoads, endEdges[g], old(prevDist), sim.distance(road, endEdges[g]),
                                preferredRoads, road);
          endEdgeToReach == g + (if s.advancesGoal then 1 else 0) && (r.Ok? ==> r.value.reward == s.reward))
      ensures r.Err? <==> road !in sim.edgeIds
      ensures r.Err? ==> r == Err(UnknownEdge(road))
      ensures r.Ok? ==> r.value.done == done && r.value.observation < |sim.edgeIds| &&
                        sim.edgeIds[r.value.observation] == road && road !in sim.edgeIds[..r.value.observation]
    {
      var stepReward := reward;
      var currentDist := sim.distance(road, endEdges[endEdgeToReach]);
      if reward == 0 {
        var s := DefaultScore(visitedRoads, endEdges[endEdgeToReach], prevDist, currentDist, preferredRoads, road);
        stepReward := s.reward;
        if s.advancesGoal {
          endEdgeToReach := endEdgeToReach + 1;
        }
      }
      prevDist := currentDist;
      match IndexOf(sim.edgeIds, road)
      case None => r := Err(UnknownEdge(road));
      case Some(i) => r := Ok(Transition(i, stepReward, done));
    }

    /** `add_vehicle`: drop the controlled vehicle, spawn its successor and start a fresh episode. */
    method AddVehicle()
      requires |endEdges| > 0 && egoIdx >= -1 && currentEgo == EgoName(egoIdx)
      modifies this`egoIdx, this`currentEgo, this`optimalRoute, this`visitedRoads, this`endEdgeToReach,
               this`prevDist, sim`log
      ensures egoIdx == old(egoIdx) + 1 && currentEgo == EgoName(egoIdx)
      ensures optimalRoute == [startEdge] && visitedRoads == [] && endEdgeToReach == 0
      ensures prevDist == sim.distance(startEdge, endEdges[0])
      ensures sim.log == old(sim.log) +
        RespawnCommands(old(egoIdx), old(currentEgo), old(currentEgo) in sim.IdList(), currentEgo, baseRoute)
    {
      ghost var dropped: seq<Command> := [];
      if egoIdx > -1 && currentEgo in sim.IdList() {
        sim.Send(Unsubscribe(currentEgo));
        sim.Send(Remove(currentEgo));
        dropped := [Unsubscribe(currentEgo), Remove(currentEgo)];
      }
      assert sim.log == old(sim.log) + dropped;
      egoIdx := egoIdx + 1;
      currentEgo := EgoName(egoIdx);
      optimalRoute := [startEdge];
      sim.Send(Add(currentEgo, baseRoute));
      sim.Send(Subscribe(currentEgo));
      assert sim.log == old(sim.log) + dropped + [Add(currentEgo, baseRoute), Subscribe(currentEgo)];
      visitedRoads := [];
      endEdgeToReach := 0;
      prevDist := sim.distance(startEdge, endEdges[endEdgeToReach]);
    }
  }
}
