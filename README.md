# Agent-based traffic model at a four-way intersection, in Dafny

This project models the core of an agent-based simulator for traffic at one
four-way intersection, and proves properties of that model. The simulator has
three parts, each modelled in the form its code takes.

**The `traffic_sim` world** (`traffic_sim/model/*.py`, `traffic_sim/backends/*`):
- Vehicles on four one-lane approaches.
- A road network giving every lane the same geometry.
- A fixed-cycle traffic-light controller with an all-red gap after each green.
- A world state that advances in ticks: spawn, then move, then finish.
  - Spawning draws a Bernoulli trial per direction.
  - Moving processes each lane front first; every vehicle is held behind its leader and before a red stop line.
  - Finishing records each finished vehicle's travel time and stop count.
- The registry of simulation backends.
- The bookkeeping of the MPI backend:
  - the round-robin assignment of directions to ranks;
  - the per-rank seeds;
  - the reductions onto rank 0;
  - the broadcast of rank 0's figures.

The world is a class (`WorldStates.WorldState`) whose vehicle list and counters
its methods update. Vehicles are values. The movement, spawning and finishing
rules are functions, each with lemmas about what a step does.

**The queue-based intersection demo** (`demo_intersection.py`):
- Each approach is a first-in-first-out queue of cars.
- Each tick:
  1. cars arrive;
  2. a control mode chooses which queue heads may cross, up to a capacity per tick;
  3. those heads depart and their waits are recorded.
- The control modes are fixed-cycle lights, adaptive ("smart") lights, first come first served, and yield to the right.

`DemoIntersection.Intersection` is the class with one method per method of the
source. Each method is proved equal to a step function of module
`IntersectionRules`. The properties of those step functions are proved as lemmas:
- the invariant every reachable state keeps;
- what each control mode admits;
- how departures account for the recorded waits.

**The array prototype** (`src/model/*.py`, `src/backends/omp_cpu.py`):
- A two-phase signal plan.
- A metrics record updated in place.
- A fleet store: per approach, fixed-capacity arrays of vehicle slots, with:
  - spawning at the end of the slots;
  - headways computed by sorting the positions;
  - in-place compaction of departed vehicles.
- The per-vehicle update kernel.

The fleet and the kernel keep their arrays (`Fleet.Lane`, `OmpKernel.UpdateAgents`).
Each method is specified by a function of the old array contents.

Python floats are modelled as reals. Python's float `%` is `PyMath.FMod`: the
remainder takes the sign of the divisor, and a zero divisor raises. Every
random stream is a function from draw index to value, with a cursor counting
the draws used.

Where the source's evident intent and its text differ, the model follows the
intent only where the text cannot run as written. Each case is explained in a
comment at the member concerned:
- `turn_choice` is declared without a type, which makes it a class attribute and not a field.
- `mark_finished` assigns the misspelt `finihsed` and `finihsed_time`.
- `get_lane` is indented into the network's constructor.
- The MPI backend passes `active_directions` to a world that takes no such parameter.
- The MPI backend reads a `total_spawned` counter that the metrics record does not have.

Everything else follows the code as written:
- The position clamp allows 10 past the lane end (`traffic_sim/model/world_state.py:198`).
- A vehicle can move backward. Both clamps can put it behind its old position; `Movement.RedClampMovesBackwards` and `Movement.LeaderClampMovesBackwards` give concrete cases.
- `remove_departed` leaves `birth_time` uncompacted.
- `headways` gives each vehicle its distance to the vehicle behind it, not to the one ahead (`src/model/agents.py:42-47`). Positions count back from the stop line (`src/model/agents.py:8`) and the kernel moves vehicles toward 0 (`src/backends/omp_cpu.py:31`), so the vehicle in front has the smaller position. The descending sort and `x_sorted[k-1] - x_sorted[k]` therefore measure the gap to the follower: the front vehicle brakes for its follower and the rear one never brakes. `Fleet.HeadwaysToFollower` gives the case of vehicles at 10 and 20.

## Model

| member | source | states |
|---|---|---|
| PyMath.FMod | traffic_sim/model/traffic_lights.py:40 | Python's float `t % c`: for a positive divisor the remainder lies in `[0, c)`, for a negative one in `(c, 0]` |
| PyMath.FModPeriodic | src/model/signals.py:9 | adding one divisor to the dividend leaves the remainder unchanged |
| PyMath.FModOfFirstPeriod | src/model/signals.py:9 | a dividend already in `[0, c)` is its own remainder |
| Vehicles.Direction.Index | traffic_sim/model/vehicles.py:6-10 | each direction's integer value is below 4 and is its position in the enumeration |
| Vehicles.EnumerationOrder | traffic_sim/model/vehicles.py:6-10 | the enumeration lists the four directions once each, in the order NORTH, EAST, SOUTH, WEST |
| Vehicles.NewVehicle | traffic_sim/model/vehicles.py:18-29 | a new vehicle has zero stops, is not finished and has no finish time |
| Vehicles.MarkFinished | traffic_sim/model/vehicles.py:32-34 | marking a vehicle finished at `t` sets the flag and the finish time `t` and changes no other field |
| RoadNetworks.Geometry | traffic_sim/model/road_network.py:28-40 | the lane has the given length; the stop line lies `stop_line_from_center` before the centre; the intersection is `intersection_width` long and centred; the stop line is at or before the intersection start exactly when it lies at least half the width from the centre |
| RoadNetworks.Build | traffic_sim/model/road_network.py:22-44 | the network has a lane for every direction, each with the one geometry built from the arguments |
| RoadNetworks.GetLaneOfBuilt | traffic_sim/model/road_network.py:42-47 | on a built network any two directions get the same lane, whose stop line and intersection bounds are the centre-relative positions |
| RoadNetworks.DefaultGeometry | traffic_sim/model/road_network.py:22-27 | with the default arguments every lane is 100 long, with the stop line and the intersection start at 45 and the intersection end at 55 |
| TrafficLights.GetState | traffic_sim/model/traffic_lights.py:29-67 | every direction has an entry; NORTH agrees with SOUTH and EAST with WEST; the two axes are never green together; NS is green exactly in the first `green_ns` of the cycle, EW exactly in the interval after the first all-red gap |
| TrafficLights.PhaseIntervals | traffic_sim/model/traffic_lights.py:40-58 | with non-negative durations the cycle splits into NS green, all red, EW green, all red, in that order, and the phase time lies within the cycle |
| TrafficLights.GetStatePeriodic | traffic_sim/model/traffic_lights.py:22-27 | the light state repeats with period `cycle_duration` |
| TrafficLights.DefaultCycle | traffic_sim/model/traffic_lights.py:7-11 | the default 30/30/2 configuration gives a 64-second cycle |
| WorldMetrics.SimulationMetricsRaw.constructor | traffic_sim/model/world_state.py:13-17 | a fresh record has empty lists and a zero count |
| WorldMetrics.SimulationMetricsRaw.RecordFinished | traffic_sim/model/world_state.py:20-25 | a vehicle without a finish time changes nothing; otherwise the count rises by one and its travel time and stop count are appended; the count always equals both list lengths |
| WorldMetrics.SimulationMetricsRaw.ComputeSummary | traffic_sim/model/world_state.py:28-35 | all zeros when nothing finished; otherwise the mean travel time times the count is the total, likewise for stops, and the throughput times the simulated minutes is the count |
| Spawning.TurnFromDraw | traffic_sim/model/world_state.py:122-128 | straight exactly below 0.6, right exactly in `[0.6, 0.8)`, left exactly from 0.8 on |
| Spawning.SpawnFromCapacity | traffic_sim/model/world_state.py:107-113 | spawning never takes the world past `max_vehicles` and adds at most one vehicle per direction visited |
| Spawning.SpawnFromCounters | traffic_sim/model/world_state.py:115-131 | the id counter rises by exactly the number of vehicles added; one draw is used per direction visited plus one per vehicle. A full world draws nothing and adds nothing. With room for every direction, the cursor advances by exactly `|todo| + added`. A direction is left undrawn only once the world has filled |
| Spawning.SpawnFromFresh | traffic_sim/model/world_state.py:130-141 | each added vehicle has the next consecutive id, position 0, speed and top speed `max_speed` and the current spawn time, and lies on a visited direction |
| Spawning.SpawnFromIncreasing | traffic_sim/model/world_state.py:111-117 | vehicles are added in enumeration order of their directions, none before the first direction still to visit |
| Spawning.SpawnOrder | traffic_sim/model/world_state.py:102-117 | one spawn phase keeps the world within capacity, adds at most four vehicles and adds them in direction order |
| Spawning.SpawnCertain | traffic_sim/model/world_state.py:102-117 | with probability at least 1 and room for four, one vehicle is added per direction in enumeration order and eight draws are used |
| Movement.MoveOne | traffic_sim/model/world_state.py:167-201 | a move changes only position, speed and stop count. The new speed is 0 or `max_speed`. The position stays in `[0, length + 10]`. The stop count rises by one exactly on a fall of speed from above 0.1 to at most 0.1. A vehicle with a leader ends no further than `max(0, leader - safe_gap)`. A vehicle before a red stop line stays before it |
| Movement.RedClampMovesBackwards | traffic_sim/model/world_state.py:185-192 | concrete case: a vehicle at 44.9 before a red stop line at 45 is put back to 44.5 |
| Movement.LeaderClampMovesBackwards | traffic_sim/model/world_state.py:176-182 | concrete case: a vehicle at 20 behind a leader at 22 is put back to 17 |
| Movement.FollowLaneEffect | traffic_sim/model/world_state.py:165-201 | visiting a lane's vehicles in a list of distinct indices updates each visited vehicle once, behind the vehicle visited just before it at its updated position |
| Movement.FollowLaneFrame | traffic_sim/model/world_state.py:165-201 | a vehicle not visited is unchanged |
| Movement.FollowLaneIdentity | traffic_sim/model/world_state.py:165-201 | the lane pass keeps every vehicle's id, direction, turn, top speed and spawn time |
| Movement.LaneIndices | traffic_sim/model/world_state.py:151-153 | the grouping lists, in ascending list order, exactly the indices of the vehicles of direction `d` |
| Movement.FrontFirstOrder | traffic_sim/model/world_state.py:162-163 | sorting a lane's indices by position, largest first, gives a permutation of them sorted front first |
| Movement.FrontFirstDescending | traffic_sim/model/world_state.py:163 | the sorted order lists positions from largest to smallest |
| Movement.MoveLaneLocal | traffic_sim/model/world_state.py:155-160 | moving lane `d` leaves every vehicle of another direction unchanged and depends only on lane `d`'s vehicles |
| Movement.OutsideLaneUnchanged | traffic_sim/model/world_state.py:155-160 | the pass over lane `d` leaves every vehicle of another direction unchanged |
| Movement.MovePhaseIsPerLane | traffic_sim/model/world_state.py:144-160 | the whole move phase gives each vehicle what its own lane's pass alone gives it, so the order of the lanes does not matter |
| Movement.MovePhaseAt | traffic_sim/model/world_state.py:163-201 | after the move phase, the `k`-th vehicle of a lane in front-first order is one update of itself behind the `(k-1)`-th at its updated position, the first one having no leader |
| Movement.MovePhaseMovesOnce | traffic_sim/model/world_state.py:144-201 | every vehicle is the result of exactly one move of itself, behind some leader or none |
| Movement.MovePhaseVehicle | traffic_sim/model/world_state.py:167-201 | after the move phase every vehicle keeps its identity and has a speed of 0 or `max_speed`. Its position stays within `[0, length + 10]`. Its stop count grows only on a falling edge. It does not cross a red stop line it was before |
| Movement.LaneAloneFollower | traffic_sim/model/world_state.py:176-182 | in one lane's pass every vehicle but the front one keeps the safe gap behind its predecessor, or stands at 0 |
| Movement.MovePhaseFollower | traffic_sim/model/world_state.py:176-182 | after the move phase every vehicle but a lane's front one is no further than `max(0, leader - safe_gap)` |
| WorldStates.Survivors | traffic_sim/model/world_state.py:208-216 | the remaining vehicles are at most as many as before and none of them has reached its lane's end |
| WorldStates.Finishers | traffic_sim/model/world_state.py:209-213 | the finished vehicles are at most as many as before and each has reached its lane's end |
| WorldStates.FinishPartition | traffic_sim/model/world_state.py:204-216 | every vehicle is either kept or finished, according to whether it reached its lane's end; the two lists together are as long as the old list |
| WorldStates.SurvivorsKeepOrder | traffic_sim/model/world_state.py:208-216 | removing finished vehicles keeps the remaining ids distinct, increasing and below the next id |
| WorldStates.SpawnedFresh | traffic_sim/model/world_state.py:102-141 | after spawning, the ids are still increasing and below the new next id; every new vehicle is unfinished; a world within capacity stays within it |
| WorldStates.MovedKeepsOrder | traffic_sim/model/world_state.py:144-201 | the move phase keeps every vehicle's identity, so the ids stay ordered |
| WorldStates.MovedUnfinished | traffic_sim/model/world_state.py:144-201 | the move phase finishes no vehicle and puts none at a negative position |
| WorldStates.SurvivorsOnLanes | traffic_sim/model/world_state.py:204-216 | the remaining vehicles satisfy the world invariant: ordered ids, unfinished, before their lane's end, at a non-negative position |
| WorldStates.StepOnLanes | traffic_sim/model/world_state.py:72-92 | one step (spawn, move, finish) keeps the world invariant and keeps a world within capacity within it |
| WorldStates.WorldState.constructor | traffic_sim/model/world_state.py:43-66 | the world keeps its parameters, starts at time 0 with no vehicles, id counter 0, no draws used and an empty metrics record |
| WorldStates.WorldState.Random | traffic_sim/model/world_state.py:115 | one draw: the next value of the stream, the cursor advanced by one, nothing else changed |
| WorldStates.WorldState.CreateVehicle | traffic_sim/model/world_state.py:120-141 | the new vehicle has the next id, the turn chosen by one draw, position 0, speed `max_speed` and the current time as spawn time; the id counter and the cursor advance by one |
| WorldStates.WorldState.SpawnDirection | traffic_sim/model/world_state.py:111-117 | a draw below the spawn probability appends one fresh vehicle using two draws; otherwise one draw is used and nothing is added |
| WorldStates.WorldState.SpawnVehicles | traffic_sim/model/world_state.py:102-117 | the vehicles spawned, the draws used and the ids given are those of the spawn plan `Spawning.Spawn` |
| WorldStates.WorldState.GroupByDirection | traffic_sim/model/world_state.py:151-153 | every direction has an entry listing exactly its vehicles' indices in list order |
| WorldStates.WorldState.MoveLaneInPlace | traffic_sim/model/world_state.py:159-201 | the vehicles after the in-place lane pass are those of the lane pass `Movement.MoveLane` |
| WorldStates.WorldState.UpdateVehicles | traffic_sim/model/world_state.py:144-201 | the vehicles after the move phase are those of `Movement.MovePhase`; time, ids and draws are unchanged |
| WorldStates.WorldState.RemoveFinishedAndUpdateMetrics | traffic_sim/model/world_state.py:204-216 | the vehicles become the survivors. The metrics gain exactly the finished vehicles, in list order: their travel times to `t_next` and their stop counts |
| WorldStates.WorldState.GetMetricsSummary | traffic_sim/model/world_state.py:95-96 | the summary's count is the number of finished vehicles |
| WorldStates.WorldState.Step | traffic_sim/model/world_state.py:72-92 | a step does four things. It spawns by the spawn plan at the current time. It moves under the lights at the current time. It removes the finishers and records them at `time + dt`. It advances the clock by `dt`. The world invariant is kept, and a world within capacity stays within it |
| BackendRegistry.Lookup | traffic_sim/backends/__init__.py:12-16 | a name is found exactly when it is a registry key, and then with its registered class |
| BackendRegistry.GetBackend | traffic_sim/backends/__init__.py:19-25 | a registered name gives its class. Any other name gives an error whose message quotes the name and ends with the comma-separated registry keys |
| BackendRegistry.RegistryContents | traffic_sim/backends/__init__.py:12-16 | the registry keys are "sequential", "openmp" and "cuda" in that order; the listing reads "sequential, openmp, cuda"; "mpi" is an error |
| BackendRegistry.RegistryKeys | traffic_sim/backends/__init__.py:12-16 | the registry keys, in order |
| BackendRegistry.MpiNotRegistered | traffic_sim/backends/__init__.py:8-10 | "mpi" is not a registry key |
| BackendRegistry.RegisteredLookups | traffic_sim/backends/__init__.py:19-21 | each registered name gives its own backend |
| BackendRegistry.LookupFindsEntry | traffic_sim/backends/__init__.py:21 | in a registry with distinct keys, looking up a registered name gives its class |
| BackendRegistry.GetBackendRegistered | traffic_sim/backends/__init__.py:19-21 | every registered entry is what `get_backend` returns for its name |
| MpiBackend.Modulus | traffic_sim/backends/backend_mpi.py:41 | `max(size, 1)` is positive and at least `size` |
| MpiBackend.Owner | traffic_sim/backends/backend_mpi.py:41 | the rank owning direction `i` is below the modulus and at most `i` |
| MpiBackend.ActiveDirections | traffic_sim/backends/backend_mpi.py:40-45 | a rank's directions are exactly those it owns, in enumeration order |
| MpiBackend.EachDirectionOneOwner | traffic_sim/backends/backend_mpi.py:39-41 | with at least one rank, every direction belongs to exactly one rank |
| MpiBackend.SingleRankOwnsAll | traffic_sim/backends/backend_mpi.py:40-41 | a single rank simulates all four directions in order |
| MpiBackend.IdleRanks | traffic_sim/backends/backend_mpi.py:43-45 | a rank numbered 4 or more gets no direction |
| MpiBackend.RankSeed | traffic_sim/backends/backend_mpi.py:65 | a rank's seed is at least the configured seed |
| MpiBackend.DistinctSeeds | traffic_sim/backends/backend_mpi.py:65 | different ranks get different seeds |
| MpiBackend.RankSpawnsOwnLanes | traffic_sim/backends/backend_mpi.py:60-69 | a rank's world spawns only on directions the rank owns |
| MpiBackend.ReduceMerged | traffic_sim/backends/backend_mpi.py:82-98 | the reduced sums are the sums of all ranks' lists merged; with consistent ranks the reduced count is the merged list length, so each finished vehicle counts once |
| MpiBackend.ReduceWallIsMax | traffic_sim/backends/backend_mpi.py:98 | the reduced wall time bounds every rank's and is one of them |
| MpiBackend.ReduceAppend | traffic_sim/backends/backend_mpi.py:94-98 | reducing two groups of ranks is combining their reductions |
| MpiBackend.RootData | traffic_sim/backends/backend_mpi.py:100-107 | with nothing finished the three rates are 0. Otherwise the mean travel time times the count is the reduced total, likewise for stops, and the throughput times the simulated minutes is the count |
| MpiBackend.BeforeBroadcast | traffic_sim/backends/backend_mpi.py:100-111 | only rank 0 holds global figures before the broadcast, and they are its `RootData` |
| MpiBackend.Broadcast | traffic_sim/backends/backend_mpi.py:112 | every rank receives rank 0's value |
| MpiBackend.RunResults | traffic_sim/backends/backend_mpi.py:110-134 | one result per rank, each built from rank 0's figures and the rank's own counters |
| MpiBackend.AllRanksReportRoot | traffic_sim/backends/backend_mpi.py:110-134 | every rank reports rank 0's global figures (count, averages, throughput, slowest wall time, global spawns); only the debug counters are its own |
| MpiBackend.ReportedAveragesMerged | traffic_sim/backends/backend_mpi.py:82-107 | with consistent ranks and some finished vehicle, every rank reports the mean over all ranks' finished vehicles merged |
| IntersectionRules.PerApproach.Set | demo_intersection.py:108-109 | assigning one approach's entry leaves the other three unchanged |
| IntersectionRules.SampledTurn | demo_intersection.py:95-102 | the draw picks L exactly when it is at most `p_L`, then S up to `p_L + p_S`, then R up to the total, and S beyond |
| IntersectionRules.PhaseHolds | demo_intersection.py:111-122 | before its length is reached, a phase keeps green and its timer counts the ticks |
| IntersectionRules.FixedCycle | demo_intersection.py:111-122 | with positive lengths, a phase lasts `green + amber` ticks and hands over to the other axis; a full cycle returns to the start |
| IntersectionRules.AdvanceNSplit | demo_intersection.py:111-122 | advancing `m + n` times is advancing `m` times and then `n` |
| IntersectionRules.SmartSwitch | demo_intersection.py:147-154 | the phase switches exactly when the timer is at least 5 and the other axis has more than 2 cars more waiting, and then the timer restarts at 0; otherwise nothing changes |
| IntersectionRules.SliceTo | demo_intersection.py:186 | `xs[:n]` is a prefix of `xs`: of `min(n, len(xs))` elements for `n >= 0`, of `max(len(xs) + n, 0)` for negative `n`, and all of `xs` when `n` leaves room |
| IntersectionRules.AxisFromSound | demo_intersection.py:139-145 | the light-controlled choice names distinct waiting heads of the green axis, within capacity, and extends what came before |
| IntersectionRules.HeadsFrom | demo_intersection.py:158-161 | the heads collected are heads of the queues visited, and every non-empty visited queue contributes its head |
| IntersectionRules.HeadsDistinct | demo_intersection.py:158-161 | collecting over distinct approaches gives no head twice |
| IntersectionRules.AdmitPrefix | demo_intersection.py:163-166 | the admitting loop appends exactly the first heads, as many as the capacity leaves room for |
| IntersectionRules.AdmittedAscending | demo_intersection.py:162-166 | admitting a prefix of the sorted heads admits distinct waiting heads in ascending arrival order |
| IntersectionRules.AdmittedOldest | demo_intersection.py:162-166 | no waiting head left out arrived before an admitted one |
| IntersectionRules.FirstComeHeads | demo_intersection.py:156-162 | the sorted head list holds every waiting head once, oldest first |
| IntersectionRules.FirstComeOrder | demo_intersection.py:156-166 | first come first served admits distinct waiting heads within capacity, in arrival order, and skips no older head for a younger one |
| IntersectionRules.RightPrioritySound | demo_intersection.py:168-186 | yielding to the right admits distinct waiting heads within capacity |
| IntersectionRules.AllowedAdmissible | demo_intersection.py:124-186 | in every mode the returned list names distinct waiting heads within capacity. Under the lights it is the green axis's heads. Under first come it is the first-come list |
| IntersectionRules.Waits | demo_intersection.py:192-196 | one wait per allowed movement |
| IntersectionRules.DepartQueues | demo_intersection.py:188-197 | each named queue loses exactly its head and every other queue is unchanged |
| IntersectionRules.DepartWaits | demo_intersection.py:188-197 | departing appends the waits of the named heads, in list order, and counts one departure per movement |
| IntersectionRules.DepartKeeps | demo_intersection.py:188-197 | departing changes nothing but the queues, the waits and the departure count |
| IntersectionRules.InitialInv | demo_intersection.py:70-89 | the initial state satisfies the invariant |
| IntersectionRules.ChooseInv | demo_intersection.py:124-186 | choosing movements changes at most the lights and keeps the invariant |
| IntersectionRules.TickInv | demo_intersection.py:213-218 | advancing the lights and the clock keeps the invariant and changes nothing else |
| IntersectionRules.SpawnFromInv | demo_intersection.py:104-109 | arrivals keep the invariant, change only queues and maxima, only append cars arriving now, and never lower a maximum |
| IntersectionRules.DepartFromInv | demo_intersection.py:188-197 | departing keeps the invariant and touches neither the clock, the maxima nor the lights |
| IntersectionRules.StepInv | demo_intersection.py:203-218 | a step keeps the invariant, advances the clock by one and never lowers a recorded maximum |
| IntersectionRules.SpawnWithinMax | demo_intersection.py:104-109 | right after arrivals every queue is within its recorded maximum |
| IntersectionRules.IterateKeeps | demo_intersection.py:225-226 | a property established at the start and kept by each step holds after any number of steps |
| IntersectionRules.RunSpecStep | demo_intersection.py:225-226 | `n + 1` steps are `n` steps and one more |
| IntersectionRules.RunInv | demo_intersection.py:224-226 | after any number of steps the invariant holds, the clock counts the steps, and no maximum has fallen |
| IntersectionRules.Report | demo_intersection.py:228-241 | the mean wait times the number of waits is their sum (0 with none). The throughput times `max(1, steps)` is the departures. The maxima are reported per approach along with their sum |
| IntersectionRules.ReportNonNegative | demo_intersection.py:228-230 | on a reachable state the mean wait, the throughput and the maxima sum are never negative |
| DemoIntersection.Intersection.constructor | demo_intersection.py:70-89 | the state is the initial state and satisfies the invariant |
| DemoIntersection.Intersection.Random | demo_intersection.py:96 | one draw: the next value, the cursor advanced, nothing else changed |
| DemoIntersection.Intersection.SampleTurn | demo_intersection.py:95-102 | the manoeuvre is `SampledTurn` of one draw |
| DemoIntersection.Intersection.SpawnApproach | demo_intersection.py:106-109 | one approach's arrival is the rule `SpawnAt` |
| DemoIntersection.Intersection.SpawnStep | demo_intersection.py:104-109 | arrivals on N, E, S, W in turn, as `SpawnFrom` |
| DemoIntersection.Intersection.AdvancePhaseFixed | demo_intersection.py:111-122 | the phase and timer become those of `Advance`, nothing else changes |
| DemoIntersection.Intersection.AxisMovements | demo_intersection.py:141-145 | the light-controlled loop's result, as `AxisFrom` |
| DemoIntersection.Intersection.CollectHeads | demo_intersection.py:158-161 | the collected heads, as `HeadsFrom` over N, E, S, W |
| DemoIntersection.Intersection.AdmitHeads | demo_intersection.py:163-166 | the admitting loop's result, as `AdmitFrom` |
| DemoIntersection.Intersection.FirstComeMovementList | demo_intersection.py:156-166 | the first-come list, as `FirstComeMovements` |
| DemoIntersection.Intersection.RightPriorityMovements | demo_intersection.py:168-184 | the yield-to-the-right loop's result, as `RightPriorityFrom` |
| DemoIntersection.Intersection.ChooseAllowedMovements | demo_intersection.py:124-186 | the result is `Allowed` of the old state and the new state is `AfterChoose`, so `AllowedAdmissible` and `ChooseInv` apply |
| DemoIntersection.Intersection.Depart | demo_intersection.py:188-197 | the state after departures is `DepartFrom`, so `DepartWaits` and `DepartQueues` apply |
| DemoIntersection.Intersection.Step | demo_intersection.py:203-218 | the state after a step is `StepSpec` and the invariant is kept |
| DemoIntersection.Intersection.Steps | demo_intersection.py:225-226 | `n` steps reach `RunSpec` and keep the invariant |
| DemoIntersection.Intersection.Run | demo_intersection.py:224-241 | the state after `cfg.steps` steps is `RunSpec`, and the statistics are `Report` of it |
| Sorting.SortBy | demo_intersection.py:162 | Python's key sort: a permutation of the input, sorted by the key |
| Sorting.SortByStable | demo_intersection.py:162 | the sort is stable: for every key value, the elements carrying it keep their input order, so ties on `spawn_t` stay in arrival order |
| Signals.FirstCycle | src/model/signals.py:7-13 | in the first cycle NS is green exactly before the half cycle and EW exactly from it on |
| Signals.NsGreenAtStart | src/model/signals.py:7-10 | at time 0, NS is green and EW is not |
| Signals.GreenPeriodic | src/model/signals.py:9 | shifting the time by one cycle changes neither answer |
| Signals.GreenPeriodicN | src/model/signals.py:9 | shifting by any whole number of cycles changes neither answer |
| Signals.DefaultPlanHalves | src/model/signals.py:5 | under the default 60-second plan, NS is green for the first 30 seconds of each minute |
| ProtoMetrics.Metrics.constructor | src/model/metrics.py:6-9 | no departures, zero totals, zero maxima for N, S, E and W |
| ProtoMetrics.Metrics.RecordDeparture | src/model/metrics.py:11-14 | one more departure; the travel time and the stops are added to the totals; the maxima are unchanged |
| ProtoMetrics.Metrics.UpdateQueue | src/model/metrics.py:16-18 | the maxima become `RaisedMaxima` of the old maxima; the counters are unchanged |
| ProtoMetrics.RaisedMaximaBound | src/model/metrics.py:16-18 | each approach's new maximum is at least its old maximum and at least its current queue length, and is one of the two |
| ProtoMetrics.RaisedMaximaIdempotent | src/model/metrics.py:16-18 | raising twice with the same queues is raising once |
| ProtoMetrics.Metrics.Summarize | src/model/metrics.py:20-34 | the averages are per departure and 0.0 when none departed. The throughput is per minute and 0.0 unless the simulated time is positive. The maxima are reported as recorded |
| ProtoMetrics.SummaryNonNegative | src/model/metrics.py:20-34 | for a metrics record with non-negative departures, travel time and stops, the summary it reports has non-negative departures, throughput and averages |
| OmpKernel.SpeedBounds | src/backends/omp_cpu.py:19-32 | with non-negative speed, limit and time step: the new speed lies in `[0, v_max]` and exceeds the old one by at most `2·dt`, and the vehicle never moves away from the stop line |
| OmpKernel.LeaderBrake | src/backends/omp_cpu.py:20-22 | behind a leader closer than twice the safe gap, the speed is at most what closes the gap to the safe gap in one step, so the vehicle does not advance past it |
| OmpKernel.RedSignalHold | src/backends/omp_cpu.py:24-30 | at red within 5 m the vehicle halts, is held at the line, and its stops rise exactly when it was not already held; otherwise it is released and its stops are kept |
| OmpKernel.WaitCountedOnce | src/backends/omp_cpu.py:24-28 | a vehicle waiting at red over two steps is counted as stopping once |
| OmpKernel.UpdateAll | src/backends/omp_cpu.py:16-32 | slot `i` of the pass is iteration `i` applied to slot `i` and `headway[i]` alone |
| OmpKernel.ApplyInOrderSlots | src/backends/omp_cpu.py:16-32 | running the iterations in any order that lists each slot once updates exactly the listed slots, each from its own old value |
| OmpKernel.AnyOrderSameResult | src/backends/omp_cpu.py:16 | the iterations are independent: any order visiting every slot once gives the slot-by-slot pass, so the parallel loop is deterministic |
| OmpKernel.UpdateAgents | src/backends/omp_cpu.py:14-33 | the first `len(x)` slots become `UpdateAll` of their old values; slots past that length are untouched |
| Fleet.ArgsortDesc | src/model/agents.py:42 | `argsort(-x)`: a permutation of the slot indices listing the positions from largest to smallest |
| Fleet.HeadwaysMeaning | src/model/agents.py:36-52 | every headway is `1e9` or non-negative. With two or more vehicles it is `1e9` only for the first vehicle in sorted order. Otherwise it is the distance to another vehicle at or beyond its own position, that is, one farther from the stop line and so behind it |
| Fleet.HeadwaysToFollower | src/model/agents.py:42-47 | concrete case: for vehicles at 10 and 20 the headways are 10 for the front vehicle and `1e9` for the rear one, so each gap is measured to the follower |
| Fleet.MovingAppend | src/model/agents.py:56-57 | the vehicles kept from a concatenation are those kept from each part, in order |
| Fleet.MovingPositive | src/model/agents.py:56 | every vehicle kept is still before the stop line |
| Fleet.MovingCounts | src/model/agents.py:56-57 | every vehicle before the stop line is kept as often as it occurs |
| Fleet.DepartedDropped | src/model/agents.py:56-57 | no vehicle at or past the stop line is kept |
| Fleet.NoneDeparted | src/model/agents.py:56-58 | a lane where no vehicle has reached the stop line keeps all its vehicles |
| Fleet.MovingIdempotent | src/model/agents.py:54-64 | removing departed vehicles a second time removes nothing |
| Fleet.Lane.Empty | src/model/agents.py:15-25 | an empty lane of the given capacity: no vehicles, zero stops, no stop-line flags, zero birth times |
| Fleet.Lane.Spawn | src/model/agents.py:27-34 | slot `active` of each array takes the new vehicle's values, the others keep theirs, and the lane's vehicles gain it at the end |
| Fleet.Lane.Headways | src/model/agents.py:36-52 | the result satisfies `IsHeadways` of the positions, so `HeadwaysMeaning` applies |
| Fleet.Lane.CountMoving | src/model/agents.py:56-57 | the count is the number of vehicles still before the stop line |
| Fleet.Lane.CompactMoving | src/model/agents.py:58-62 | the moving vehicles are copied to the front slots in order, and the slots after them are untouched |
| Fleet.Lane.RemoveDeparted | src/model/agents.py:54-64 | the lane's vehicles become the moving ones in order. The result is the number removed. Birth times and the slots past the new count are untouched. With nothing to remove, nothing changes |
| Fleet.Fleet.Empty | src/model/agents.py:15-25 | four empty lanes of the given capacity (500 by default) sharing no array |
| Fleet.Fleet.Spawn | src/model/agents.py:27-34 | lane `d` gains the vehicle at its end and its birth time at the new slot; only lane `d` may change |
| Fleet.Fleet.Headways | src/model/agents.py:36-52 | lane `d`'s headways, as `IsHeadways` |
| Fleet.Fleet.RemoveDeparted | src/model/agents.py:54-64 | lane `d` keeps its moving vehicles in order, its birth times are untouched, and the result is the number removed; only lane `d` may change |

## Left out

- Printing, argument parsing, result files, timers and the drivers (`main.py`, `run_mpi.py`, `src/main.py`, `demo_skrzyzowanie.py`) are I/O around the core and are not modelled.
- Random numbers: every generator is a stream of draws given as a parameter, with a cursor. Seeding and the generator algorithm are not modelled; the per-rank seed is modelled only as a number.
- MPI collectives are modelled as folds over the sequence of per-rank records (`reduce`) and as a copy of rank 0's value (`bcast`). Message passing, failures and timing are not modelled. Wall time is an input.
- Floating point: Python floats and numpy `float32` arrays are real numbers. Rounding, overflow, NaN and `fastmath` are not modelled.
- `int32` stop counts in the fleet arrays are unbounded integers. Wrap-around after 2^31 stops is not modelled.
- OmpKernel.UpdateAgents: the numba `prange` loop is modelled as a sequential loop. Its parallel result is covered by `AnyOrderSameResult`, which proves the iterations independent. Aliasing among the arrays is excluded by the precondition: `x`, `v` and `headway` must be distinct.
- OmpKernel.UpdateAgents: a zero `dt` with a leader closer than twice the safe gap makes the source raise ZeroDivisionError. The precondition `AllDefined` excludes exactly that case.
- TrafficLights.PhaseTime: a zero cycle length makes `t % cycle_duration` raise ZeroDivisionError (`traffic_sim/model/traffic_lights.py:40`). The precondition `CycleDuration(cfg) != 0.0` excludes that case instead of modelling the exception.
- TrafficLights.GetState: the same zero-cycle ZeroDivisionError is excluded by the same precondition.
- TrafficLights.GetStatePeriodic: the same zero-cycle ZeroDivisionError is excluded by the same precondition.
- WorldStates.MoveParams: the signal state is read with `get_state`, so the zero-cycle ZeroDivisionError is excluded by `CycleDuration(lights) != 0.0`.
- WorldStates.WorldState.Step: a step reads the signals, so the zero-cycle ZeroDivisionError is excluded by `CycleDuration(lights) != 0.0`.
- Signals.SignalPlan.IsGreenNs: a zero `cycle` makes `t % self.cycle` raise ZeroDivisionError (`src/model/signals.py:9`). The precondition `cycle != 0.0` excludes that case.
- Signals.SignalPlan.IsGreenEw: the same zero-cycle ZeroDivisionError is excluded by the same precondition.
- WorldMetrics.SimulationMetricsRaw.ComputeSummary: with at least one finished vehicle and a zero total time, `finished_count / (total_sim_time / 60.0)` raises ZeroDivisionError (`traffic_sim/model/world_state.py:34`). The precondition excludes that case.
- WorldStates.WorldState.GetMetricsSummary: the same zero-total-time ZeroDivisionError is excluded by the same precondition.
- MpiBackend.RootData: with at least one finished vehicle and a zero total time, the throughput division raises ZeroDivisionError (`traffic_sim/backends/backend_mpi.py:103`). The precondition excludes that case. `BeforeBroadcast`, `RunResults`, `AllRanksReportRoot` and `ReportedAveragesMerged` carry the same precondition.
- Fleet.Lane.Spawn: spawning into a full lane writes past the end of the numpy arrays and raises IndexError (`src/model/agents.py:28-29`). `src/main.py:26` spawns without checking. The precondition `active < x.Length` excludes that case instead of modelling the exception.
- Fleet.Fleet.Spawn: the same full-lane IndexError is excluded by the same precondition on lane `d`.
- Fleet.ArgsortDesc: numpy's default `argsort` does not promise an order for equal positions. The model uses the stable order, so tie order among vehicles at the same position is not modelled.
- Fleet.Lane.Empty: positions and speeds of a new lane are left unspecified, as `np.empty` leaves them.
- Fleet.Fleet.Spawn: "no other lane changes" is stated by the modifies frame of lane `d` and the disjoint lanes in `Valid`, not by an ensures clause.
- Fleet.Fleet.RemoveDeparted: "no other lane changes" is stated by the modifies frame of lane `d` and the disjoint lanes in `Valid`, not by an ensures clause.
- Fleet.Lane.RemoveDeparted: `birth_time` is not compacted, as in the source. A vehicle's birth time therefore no longer sits at its slot after compaction.
- WorldStates.WorldState.GetMetricsSummary: states only the count; the averages are those of `ComputeSummary`, whose contract states them.
- `stops_count` of the demo intersection is set to 0 and never read or updated. It is part of the state but has no operation.
- A `turn_probs` dictionary lacking one of the keys "L", "S" or "R" raises KeyError in the source. The model's turn distribution always has the three entries.
- The CUDA and OpenMP backend classes are not part of this model. The registry names them only by the name each class declares ("cuda" is that of the CUDA class, whose file is not part of this model).
- `traffic_sim/config.py`, `traffic_sim/metrics/*` and the sequential and OpenMP backend drivers are not part of this model beyond the figures the MPI backend reduces.
