# Route planner environment, modelled in Dafny

The repository trains a reinforcement-learning agent to find a route through a SUMO road
network. Its core is `RoutePlanner`, a gym environment. Each `step` does four things:

- it advances the simulator tick by tick until the controlled vehicle (`EGO_<n>`) is on a new
  real (non-junction) segment or the episode ends;
- it applies the chosen action, an index into the current segment's outgoing segments;
- it scores the move;
- it respawns the vehicle when the episode is over.

Four helpers in `utils.py` then pick the best epoch, the shortest routes and the route with the
most preferred roads, and format times.

The project has six modules:

| file | module | models |
|---|---|---|
| `planner.dfy` | `Planner` | `RoutePlanner.py`. The class `RoutePlanner` has the source's fields: `visitedRoads`, `optimalRoute`, `endEdgeToReach`, `prevDist`, `egoIdx`, `currentEgo`, `firstRun`, and the configuration. It also has the ghost route-sink log `savedRoutes`. `Step` is split into `Drive` (the `while True` loop) and `Observe` (the scoring and observation after it). `Drive` runs `FirstPass` and then `LeaveSegment`, the loop's first and later passes. `LeaveSegment` runs `AwaitDeparture` (the passes that change nothing) and then `Arrive`. `ReadRoad` is the inner tick-skipping loop. `AtDecisionPoint`, `Terminate`, `Decide`, `ApplyAction` and `Depart` are the loop's branches, and `DefaultScore` holds the reward rules. The functions `FirstReading`, `FirstDeparture`, `PlanAfter` and `DriveSpec` state on the trace what the loop computes. |
| `simulation.dfy` | `Simulation` | The TraCI connection as an abstract input. A `Simulator` holds the current snapshot `now` and the finite trace `future` that each `SimulationStep` consumes. It also keeps a log of the commands sent (`setRoute`, add, remove, subscribe, unsubscribe), the distance query `getDistanceRoad` as a function to `int`, and the fixed edge list `traci.edge.getIDList()`. |
| `utils.dfy` | `Utils` | `get_max_erm`, `get_min_length_routes`, `get_route_with_max_pr`, `format_seconds`. |
| `decimal.dfy` | `Decimal` | Python's `str(int)` and `format(int, "02d")`, with digit parsing as their inverse. |
| `seqs.dfy` | `Seqs` | `list.index` and a "no duplicates" predicate. |
| `wrappers.dfy` | `Wrappers` | `Option` and `Result`. |

The road network is a `map` from segment id to its ordered outgoing ids. A segment without an
entry is one whose `getEdge` lookup raises, which the source treats as having no outgoing edges.
Exceptions the source raises become `Fault` values:
- `SimulationEnded`: the trace ran out under a tick.
- `Stuck`: the inner loop spins forever without ticking (see below).
- `UnknownEdge`: `edges.index` raised `ValueError`.

Two facts are proved about every step. `Valid()` keeps the goal index inside `end_edges`, so the
increment at `RoutePlanner.py:101` never overruns. It also keeps `visitedRoads` free of
duplicates and of junction segments, and makes every reported route begin with the start segment.

Some behaviours of the code are easy to miss:
- A step that ends on the reverse-start segment (generic termination) is scored after the
  respawn. `add_vehicle` runs first, and the default reward rules are then evaluated against the
  fresh episode. That reward can be +10, and it can raise the goal index to 1 (`Step`, ending
  `Reversed`).
- After any respawn, `prev_dist` is the distance from the segment the step ended on to the first
  goal. The distance from the start segment that `add_vehicle` computes is overwritten at
  `RoutePlanner.py:110`.
- The observation can fail. `edges.index` raises for a segment missing from
  `traci.edge.getIDList()`, and so does `reset` for a missing start segment.
- Outgoing segments are an ordered list. The order decides which segment an action
  index names.
- Visited segments are an ordered list without duplicates.
- The inner loop ticks only when `prev_current_road != ""` or `first_run` holds. Suppose the
  first tick after `reset` leaves the vehicle on a junction-internal segment, or a later step's
  first reading is internal. Then the loop reads the same reading forever without ticking. The
  model returns `Stuck` there (`ReadRoad`).

`step`'s loop is specified on the trace. `DriveSpec` (through `RoutePlanner.Plan`) computes
the reading the loop stops on, the decision point where the action was applied, how the step
ended, and the snapshot and trace left. It does this from the trace, the vehicle, `first_run`, the goal index and the action. `FirstReading` gives
the first pass's reading. `FirstDeparture` gives the index of the first later tick whose
reading departs from the decision point: a real segment that terminates or differs from it.
`Drive` and `Step` are proved to end exactly as `Plan` says.

The first pass of the source's `while True` loop is written out separately (`FirstPass`) from
the later ones (`LeaveSegment`). On the first pass `prev_current_road` is still `""`, so the
comparison at `RoutePlanner.py:66` cannot succeed and only the action branch can run. On later
passes the action is already applied, so a reading equal to `prev_current_road` changes nothing.
The behaviour is that of the single loop.

## Model

| member | source | states |
|---|---|---|
| `Seqs.IndexOf` | RoutePlanner.py:111 | `edges.index(road)`: the first position holding `road`, or None exactly when `road` is not listed (where Python raises) |
| `Decimal.IntToStringInjective` | RoutePlanner.py:118-119 | `IntToString` models `str(i)`: distinct vehicle indices give distinct `f"EGO_{i}"` suffixes (`str(i)` is injective, with or without a sign) |
| `Decimal.PadTwoNonNegative` | utils.py:102 | `PadTwo` models `format(i, "02d")`; for a non-negative `i` it is all digits, at least two of them, exactly two exactly when `i < 100`, with no leading zero when longer, and parses back to `i` |
| `Decimal.DigitsRoundTrip` | utils.py:102 | the decimal numeral of `n` parses back to `n` |
| `Utils.ArgMax` | utils.py:25 | `np.argmax`: an index of a maximal element such that every earlier element is strictly smaller |
| `Utils.GetMaxErm` | utils.py:23-26 | the returned index is the first epoch whose `episode_reward_mean` is maximal, and the returned value is that mean |
| `Utils.MinLength` | utils.py:45 | `routes_len.min()`: no route is shorter, and some route has exactly this length |
| `Utils.RoutesOfLength` | utils.py:46-47 | a route is kept exactly when it is an input route of the given length |
| `Utils.Dedup` | utils.py:48 | the set conversion: no duplicates, and the same routes as the input |
| `Utils.GetMinLengthRoutes` | utils.py:44-48 | non-empty, pairwise distinct, every result is an input route of minimum length, and every minimum-length input route is in the result |
| `Utils.PreferredCount` | utils.py:69 | the number of positions of a route that hold a preferred road, at most the route's length |
| `Utils.PreferredCountAppend` | utils.py:69 | the count of a concatenation is the sum of the counts, so repeated roads count every time |
| `Utils.PreferredCountFull` | utils.py:69 | a route's count equals its length exactly when every road on it is preferred |
| `Utils.GetRouteWithMaxPr` | utils.py:68-71 | the result is an input route whose count is at least every route's count, and every earlier route has a strictly smaller count (argmax's first-wins rule) |
| `Utils.FormatSecondsRoundTrip` | utils.py:101-102 | `FormatSeconds` models `format_seconds`; for `seconds >= 0` its result is `MM:SS`: at least two minute digits, exactly two second digits below 60, and `60*MM + SS == seconds`; `MM` is two characters exactly below 6000 seconds and has no leading zero when longer |
| `Simulation.Simulator.SimulationStep` | RoutePlanner.py:47 | one tick consumes the head of the trace and makes it the current snapshot; with an empty trace the tick fails and nothing changes |
| `Simulation.ReadingIn` | RoutePlanner.py:49-53 | the subscription reading of a snapshot: the road the snapshot maps the vehicle to, or `":"` when there is none (the lookup that raises); never the empty id in a well-formed snapshot |
| `Simulation.Simulator.RoadOf` | RoutePlanner.py:49-53 | the vehicle's subscribed reading, as `ReadingIn` defines it, is never the empty id on a well-formed trace |
| `Planner.EgoNameInjective` | RoutePlanner.py:118-119 | `EgoName` models `f"EGO_{ego_idx}"`; each respawn's `EGO_<ego_idx>` differs from every earlier vehicle id |
| `Planner.DefaultScore` | RoutePlanner.py:96-108 | the fixed priority: a visited segment scores -10; otherwise the awaited goal scores +10 and advances the goal index; otherwise strict progress scores the preferred bonus or 1; otherwise -1 |
| `Planner.RevisitOutranksGoal` | RoutePlanner.py:97-101 | a revisited segment scores -10 and does not advance the goal even when it is the awaited goal |
| `Planner.FirstReading` | RoutePlanner.py:43-53 | the inner loop with `prev_current_road == ""`: a real reading is the vehicle's road at the snapshot read. The only faults are `Stuck` and a first run on an empty trace. Exactly one tick is consumed when `first_run` holds and the trace is not empty, none otherwise |
| `Planner.FirstDepartureSpec` | RoutePlanner.py:42-69 | `FirstDeparture` finds a departing tick with no departing tick before it, and finds none only when no tick of the trace departs |
| `Planner.FirstDepartureAt` | RoutePlanner.py:42-69 | conversely, a departing tick with no departing tick before it is the one `FirstDeparture` finds |
| `Planner.NoDepartureIn` | RoutePlanner.py:42-69 | conversely, a trace none of whose ticks departs has no first departure |
| `Planner.PlanAfter` | RoutePlanner.py:42-69 | the later passes with the action applied at `d`: they end at a real reading that terminates or differs from `d`, as success exactly on the last goal segment. They never reject an action, and they end with `SimulationEnded` only on an exhausted trace |
| `Planner.DriveSpec` | RoutePlanner.py:42-92 | the ways the loop can end, as functions of the reading it stops on. A fault is only `SimulationEnded` (with the trace exhausted) or `Stuck`, never `UnknownEdge`. Success and reverse-start termination hold exactly at terminal readings on and off the last goal. A rejection applies no action and needs an index past the outgoing list. An action is applied only at a real, non-terminal segment with that index in range, and a step that goes on ends on a different segment. The trace is consumed from the front |
| `Planner.RoutePlanner.constructor` | RoutePlanner.py:9-29 | the initial fields, then one `add_vehicle`. The result is vehicle `EGO_0` with route `[start_edge]`, no visited segments, goal index 0 and `prev_dist` measured from the start. Only add and subscribe are sent, because `ego_idx` was -1 |
| `Planner.RoutePlanner.Reset` | RoutePlanner.py:32-34 | only `first_run` changes (to true); returns the first index of `start_edge`, or `UnknownEdge` when it is not listed |
| `Planner.RoutePlanner.ReadRoad` | RoutePlanner.py:43-53 | with `prev_current_road == ""`, exactly `FirstReading` of the trace, with `first_run` cleared unless the trace was empty. With it set, the reading of the first tick of the trace whose segment is real, with every earlier tick internal; or `SimulationEnded` with the trace exhausted when every tick is internal |
| `Planner.RoutePlanner.ApplyAction` | RoutePlanner.py:71-87 | `Outgoing` models the `out_edges_list` lookup; the action is accepted exactly when it indexes that list. Then exactly that outgoing segment is appended to the route and `setRoute(ego, [road, chosen])` is sent; otherwise nothing changes |
| `Planner.RoutePlanner.Decide` | RoutePlanner.py:71-92 | accepted as above; a dead end or an index past the outgoing list respawns the vehicle instead |
| `Planner.RoutePlanner.Terminate` | RoutePlanner.py:55-61 | on the last goal it scores 10 and reports the current route exactly once; in every case it respawns |
| `Planner.RoutePlanner.Depart` | RoutePlanner.py:66-68 | the segment just left joins the visited list unless it is already there |
| `Planner.RoutePlanner.AddVehicle` | RoutePlanner.py:114-130 | `ego_idx` rises by one and `current_ego` is `EGO_<ego_idx>`. The route is `[start_edge]`, the visited list empty and the goal index 0, with `prev_dist` from the start. The command log gains unsubscribe and remove for the old vehicle only when `ego_idx > -1` and it is present, then add and subscribe |
| `Planner.RoutePlanner.FirstPass` | RoutePlanner.py:42-92 | the first pass of the loop: the reading is `FirstReading` of the trace. At it the pass terminates, rejects the action or applies it, as `DecisionEnding` orders the branches |
| `Planner.RoutePlanner.AtDecisionPoint` | RoutePlanner.py:55-92 | a pass at the decision point: the terminal test first, then the action branch, ending as `DecisionEnding` says, with the respawn on every ending but the applied action |
| `Planner.RoutePlanner.AwaitDeparture` | RoutePlanner.py:42-66 | the passes that change nothing: it stops at the first tick whose reading departs from `prev`, no earlier tick departing, or ends with `SimulationEnded` on an exhausted trace none of whose ticks departs |
| `Planner.RoutePlanner.Arrive` | RoutePlanner.py:55-69 | the pass that departs: the terminal branch on a terminal reading, otherwise `prev` joins the visited list once and the step goes on |
| `Planner.RoutePlanner.LeaveSegment` | RoutePlanner.py:42-69 | the later passes end exactly as `PlanAfter` of the trace says. They wait, with the action applied, until the vehicle terminates or reaches a different segment, which records the one it left as visited |
| `Planner.RoutePlanner.Drive` | RoutePlanner.py:37-92 | the whole loop ends exactly as `Plan(action)` of the trace says: the same reading, decision point, ending and remaining trace. It also gives the at most one route extension and `setRoute`, the respawn on every terminal ending, and the route reported on success |
| `Planner.RoutePlanner.Observe` | RoutePlanner.py:94-111 | the default reward rules apply exactly when no branch set a reward, against the current goal and `prev_dist`. The goal index advances only with them, `prev_dist` becomes the fresh distance, and the observation is the first index of the segment, or `UnknownEdge` exactly when it is not listed |
| `Planner.RoutePlanner.Step` | RoutePlanner.py:37-111 | the step ends as `Plan(action)` of the trace says, and it returns a transition exactly when the loop did not abort and the segment reached is listed; otherwise the fault is the loop's or `UnknownEdge`. The new state and transition are given for each way a step ends (success, reverse-start termination, rejected action, move to a new segment), detailed below; the observation is the first index of a non-internal segment |

`Planner.RoutePlanner.Step` keeps `Valid()`. Its ghost outputs are the segment the step ends on
and the segment where the action was applied. It classifies the step by a ghost ending, and
states the whole new state for each:

- **Succeeded:** a terminal reading on `end_edges[-1]`, either at the last goal index or
  because that segment is also `rev_start_edge` (then at any goal index). The reward is 10 and `done`
  holds. The route reported once is the episode's route, the applied edge included. The vehicle
  is respawned.
- **Reversed:** generic termination on `rev_start_edge`. The vehicle is respawned, and the reward
  and goal index come from `DefaultScore` on the fresh episode.
- **Rejected:** a dead end or an out-of-range action. The reward is -10, `done` holds, and no
  route extension remains. The vehicle is respawned.
- **Advanced:** the vehicle reached a different segment. `done` is false. The route grew by
  exactly `out_edges_list[action]`, and the visited list grew by at most the segment just left.
  The reward and goal advance come from `DefaultScore` against the previous goal and
  `prev_dist`.

The scoring after the loop (`Observe`) relies on one fact the loop guarantees. A step that
reaches the last goal segment at the last goal index always ends with reward 10, so the default
rules never advance the goal index past the end of `end_edges`.

In every case `prev_dist` becomes the fresh distance. The observation is the first index of the
segment in the edge list, and that segment is never internal.

## Left out

- TraCI and sumolib calls are not modelled as code: `traci.start`, subscriptions, `getIDList`,
  `setRoute`, and vehicle add, remove and unsubscribe. They appear as the `Simulator` snapshot
  trace and its command log. Subscription status is not tracked: a reading exists exactly when
  the snapshot maps the vehicle to a road.
- Ticks taken are not logged. They show up only as the trace consumed.
- The vehicle's road readings in the trace are assumed non-empty (`Simulator.WellFormed`). The
  source uses `""` as its "no decision point yet" sentinel. The consequence is that with the
  `rev_start_edge = ""` setting of `main.py:19`, the test `current_road == self.rev_start_edge`
  at `RoutePlanner.py:55` can never fire, so the `Reversed` ending is unreachable in the model
  for that configuration.
- Distances (`getDistanceRoad`) and `episode_reward_mean` are floats in the source. They are
  `int` here; only their order is used. NaN handling of `np.argmax` is not modelled.
- The action is a `nat`. gym's `Discrete(3)` space never gives a negative index, so Python's
  negative indexing into `out_edges_list` is not modelled.
- `gym` spaces, Ray/PPO training and all of `main.py` are orchestration and plotting.
- `save_results_on_file`, `create_route_file`, `create_sumocfg`, `print_data` and
  `get_pr_distance` in `utils.py` are file, process, pandas and plotting I/O. The commented-out
  `*_old` functions are dead code.
- The route sink `save_optimal_route` is the ghost log `savedRoutes`.
- Termination of the source's loops rests on the simulator; here it rests on the finite trace.
- Planner.RoutePlanner.Step: when the trace runs out during a later pass, the snapshot left
  current is not stated, only that the trace is exhausted; the source has ended the simulation
  there.
- Planner.RoutePlanner.Drive: leaves that snapshot open in the same way.
- Planner.RoutePlanner.LeaveSegment: leaves that snapshot open in the same way.
- Planner.RoutePlanner.AwaitDeparture: leaves that snapshot open in the same way.
- Planner.RoutePlanner.ReadRoad: leaves that snapshot open in the same way when `prev_current_road` is set.
- Planner.PlanAfter: leaves that snapshot open in the same way.
- Planner.DriveSpec: leaves that snapshot open in the same way.
- Utils.GetMaxErm: `np.argmax` raises `ValueError` on an empty result list; the model requires
  a non-empty list instead of modelling that exception.
- Utils.GetMinLengthRoutes: `.min()` raises `ValueError` on an empty route list; the model
  requires a non-empty list instead of modelling that exception.
- Utils.GetRouteWithMaxPr: `np.argmax` raises `ValueError` on an empty route list; the model
  requires a non-empty list instead of modelling that exception.
- Planner.RoutePlanner.Step: on an aborted step (`Stuck` or `SimulationEnded`) the state left
  behind is not stated: `first_run`, a route extension already applied and its `setRoute` in
  the log. In the source `Stuck` is a loop that never returns and a simulation that ended is a
  fatal TraCI error, so no later step observes that state.
- Planner.RoutePlanner.Drive: leaves the state of an aborted step open in the same way.
- Planner.RoutePlanner.FirstPass: leaves the state open in the same way when the first pass aborts; only `savedRoutes` is stated unchanged.
- Utils.GetMinLengthRoutes: the order of the result comes from a Python set and is unspecified.
  The model keeps first occurrences in input order, and its contract does not depend on the
  order.
