# BotCockpit: verified model

This project models, in Dafny 4.11, the parts of BotCockpit that keep state and decide: the grid
planner, the robot's safety state machine, the bridge's command protocol, the wire and text codecs, and
the console's reconnect logic. It proves what they promise for every input, every run and every
interleaving. Verify everything with `dafny verify dfyconfig.toml`.

| file | what it holds |
|---|---|
| grid.dfy | the occupancy grid, mutable and as a value, and inflation |
| routes.dfy, route_costs.dfy, search.dfy, planner.dfy | legal routes and their cost, the cost by counted moves, the A* search over its arrays, snapping and waypoints |
| line_of_sight.dfy, pursuit.dfy | the sampled line-of-sight test, path index, aim point, steering |
| corridor.dfy | the demo corridor, its closed form and its connectivity |
| robot_state.dfy, robot_invariant.dfy, robot_steps.dfy, robot_runs.dfy | what each robot callback does, the inductive invariant, single-step facts, theorems over whole runs |
| robot_ticks.dfy, robot_commands.dfy | what a tick, a command or a console message comes to, as an observer sees it |
| robot_sweep.dfy, robot_scenarios.dfy | the way between a step's ends, and concrete runs |
| robot_text.dfy, robot.dfy | the robot's command and result texts, and the node that performs the callbacks in place |
| batch_order.dfy, bridge_steps.dfy | ESTOP-first order, and the bridge as interleaved atomic steps |
| bridge.dfy, bridge_estop.dfy | the bridge's invariants and run theorems, ESTOP and its flag and slot |
| bridge_history.dfy | who reaches the robot, is served and is told, from the history of steps alone |
| bridge_answers.dfy, bridge_progress.dfy, bridge_scenarios.dfy | whose answers the ACKs are, how far the worker gets alone, concrete runs |
| frame_codec.dfy, decimals.dfy, json_text.dfy, envelope.dfy | frames and the streaming decoder, numbers, string escaping, command and result texts |
| command_texts.dfy | commands as texts, from the console's payload to what the robot reads |
| reconnect.dfy | the connection controller |
| wrappers.dfy | a value that may be missing |

Costs are exact integers (1 and 1.4142 scaled by 10000); coordinates are reals; a distance is compared
as its square, which decides the same. A robot run is any sequence of callbacks the lifecycle allows,
from the constructed node on; a bridge run is any interleaving of atomic steps from the empty bridge.
The planner's and the pursuit law's answers enter a robot step as values constrained to what those
methods return; the class calls the methods themselves. The system clock is assumed to be after its
epoch and below 2^63 ms when a console message arrives, and the steady clock not to run backwards.

Where the code differs from its own comments and documents, the model follows the code:

- The snap to the "nearest" free cell is nearest on the maps the robot plans on
  (`Corridor.CorridorSnapNearest`); on maps in general, exactly up to ring 2 (`Planner.SnapNearestIff`).
- The sampled line-of-sight test accepts corner-cutting diagonals that the planner refuses
  (`LineOfSight.SampledLineOfSight`); the planner's rule is what makes its legs clear at every real point.
- On the corridor the planner never fails for points on the map (`Corridor.CorridorPlannable`); a goto to
  x = 20 or y = 5 passes the closed range check and then faults, because the map is half-open
  (`RobotInvariant.GotoFaultIff`, `RobotInvariant.EdgeGotoFaults`, `RobotScenarios.EdgeGotoRun`).
- RESET clears task, battery and ESTOP faults by itself; only other ERROR faults stop it
  (`RobotInvariant.ResetExactly`). A reconfigure clears the latch too.
- A link loss or an ESTOP stops the task but keeps the path; it is the cleared task type, or the latch,
  that prevents `resume`. `resume` needs no earlier pause and takes up even a task that is DONE
  (`RobotInvariant.ResumeExactly`, `RobotInvariant.DoneCanBeResumed`).
- docs/PROTOCOL.md section 7 rule 3 lets no task id run twice. Only the last id is remembered, and only while
  it is DONE (`RobotInvariant.RepeatedIdIff`): a paused task is driven again (`RobotScenarios.SameTaskTwice`).
- `cancel` is accepted during ESTOP and offline (`RobotInvariant.CancelExactly`).
- The collision guard looks at the end of a step only. That suffices for steps of at most 0.5 m on the
  inflated map (`RobotSweep.TickSweepsClear`), not on the raw map that a robot stuck three times drives on
  (`RobotSweep.RawTickCutsCorner`), nor for a late tick (`RobotScenarios.LongTickRun`).
- A value of `x` or `y` that is no number is taken for 0, not left out, because the zero of `strtod` is written
  all the same (`Envelope.NoNumberIsZero`).
- `on_cleanup` leaves the control flag as it was (`RobotInvariant.CleanupControl`), so the robot invariant
  speaks of configured nodes only.
- docs/PROTOCOL.md section 7 rule 4 lets no motion command through during ESTOP. The bridge looks at the
  robot's last known flag once, before it records the command (`BridgeHistory.ReachesRobotIff`), so a command can
  be published during ESTOP and then be answered `estop_active` (`BridgeScenarios.TaskForwardedDuringEstop`).
- An ESTOP overtaken by another gets no asynchronous ACK (`BridgeEstop.OvertakenGetsNone`,
  `BridgeScenarios.EstopNeverAcked`), and an ESTOP's pending entry is never removed by its own completion
  (`Bridge.EntryLeavesOnlyByAnswer`).
- Sequence numbers belong to a client, and a result says only its number: a late answer can become the ACK of
  another client's command (`BridgeAnswers.ForeignAnswerIff`, `BridgeScenarios.ForeignAck`).
- The raised flag and the asynchronous slot are separate atomics, and can part
  (`BridgeEstop.FlagMatchesSlotIff`): an ESTOP that meets the completion of another can leave the flag up with
  nothing to lower it (`BridgeScenarios.FlagOrphaned`, `BridgeEstop.OrphanedFlagRefusesAll`) or down while it is
  pending (`BridgeScenarios.FlagLost`).
- A rejected HELLO undoes the user's own disconnect (`Reconnect.ManualLastsIff`,
  `Reconnect.RejectionUndoesDisconnect`).
- The robot takes `\n` in a bridge string for the letter n (`JsonText.BridgeToRobotIff`), and prints control
  characters raw (`JsonText.EscLegalIff`).
- The robot searches its keys in the whole message, and the first match counts: a task id that is itself the word
  `type`, `x` or `y` is found before the key of that name (`CommandTexts.GotoReadBackIff`).
- `get_int` reads -5 as 5 (`Envelope.SignedReadBackIff`), so the bridge's test for a negative number never fires.

## Model

| member | source | states |
|---|---|---|
| `GridMaps.CellRoundTrip` | sim/include/botcockpit_sim/nav.hpp:80-91 | The centre that `cell_to_world` gives a cell is mapped back to that cell by `world_to_cell`. |
| `GridMaps.CellPlaces` | sim/include/botcockpit_sim/nav.hpp:80-91 | In metres: cell (i, j) is the half-open square of 0.5 m whose lower corner is (i/2, j/2 - 5), and its centre is 0.25 m in from there. |
| `GridMaps.CellAtIndex` | sim/include/botcockpit_sim/nav.hpp:167-188 | Row-major numbering `y*W+x` is undone by `% W` and `/ W`. |
| `GridMaps.GridMap.At` | sim/include/botcockpit_sim/nav.hpp:72-78 | Reads a cell; everything outside the grid is occupied. |
| `GridMaps.GridMap.Set` | sim/include/botcockpit_sim/nav.hpp:64-70 | Changes exactly the named cell of the grid, and nothing at all out of bounds. |
| `GridMaps.GridMap.Inflate` | sim/include/botcockpit_sim/nav.hpp:93-113 | In-place inflation: a cell is blocked afterwards iff it was, or lies in bounds within squared distance r*r of an original obstacle (the snapshot, not the growing grid, is the source). |
| `GridMaps.InflationMonotone` | sim/include/botcockpit_sim/nav.hpp:93-113 | A larger radius never frees a cell, and inflation never frees an obstacle. |
| `Routes.OctileConsistent` | sim/include/botcockpit_sim/nav.hpp:168-173 | The octile heuristic never drops by more than the cost of a legal move. |
| `Routes.OctileAdmissible` | sim/include/botcockpit_sim/nav.hpp:168-173 | Hence it never exceeds the cost of any route to the goal. |
| `Routes.RouteClearance` | sim/include/botcockpit_sim/nav.hpp:93-113 | Every cell of a route on the inflated map is farther than r cells from every original obstacle. |
| `Routes.RouteOnRawMap` | sim/include/botcockpit_sim/nav.hpp:206-219 | A route on the inflated map is a legal route of the raw map. |
| `Search.MoveAllowed` | sim/include/botcockpit_sim/nav.hpp:206-219 | The bounds, occupancy and corner tests together are exactly the legality of a step. |
| `Search.RelaxKeeps` | sim/include/botcockpit_sim/nav.hpp:220-227 | One relaxation keeps the search invariant: parents legal and never dearer than claimed, queue entries never below present scores, every scored cell queued or settled. |
| `Search.QueueUndercuts` | sim/include/botcockpit_sim/nav.hpp:182-229 | From any scored cell, some queue entry is no dearer than the score plus the cost of any route to the goal, although stale entries are expanded again. |
| `Search.EmptyQueueUnreachable` | sim/include/botcockpit_sim/nav.hpp:182-230 | An exhausted queue proves that no legal route exists. |
| `Search.PoppedGoalIsCheapest` | sim/include/botcockpit_sim/nav.hpp:183-203 | When the goal is popped its score undercuts every route. |
| `Search.UpdateImproves` | sim/include/botcockpit_sim/nav.hpp:222-227 | A successful relaxation scores a new cell or lowers the sum of scores: the termination measure. |
| `Search.WalkBack` | sim/include/botcockpit_sim/nav.hpp:186-196 | The walk along `came` ends at the start and is a legal route no dearer than the goal's score. |
| `Search.FindRoute` | sim/include/botcockpit_sim/nav.hpp:164-230 | A* terminates; it is empty iff no legal route joins the two cells, and otherwise returns a legal route that minimises 10000 times its straight moves plus 14142 times its diagonal ones over all legal routes. |
| `RouteCosts.CheapestIsLeast` | sim/include/botcockpit_sim/nav.hpp:220-221 | Cheapest by the search's step costs is cheapest by counted moves, 10000 for one changed coordinate and 14142 for two. |
| `RouteCosts.OpenGround` | sim/include/botcockpit_sim/nav.hpp:168-221 | When the box between the two cells is free, the cheapest route has exactly max(|dx|,|dy|) moves, min(|dx|,|dy|) of them diagonal, and costs 10000*max + 4142*min: the octile bound is attained. |
| `Planner.SnapFree` | sim/include/botcockpit_sim/nav.hpp:127-157 | Finds the snap cell (free cell itself, else best of the innermost ring with a free cell, ties in scan order), and fails iff there is none within 6 rings, that is, no free cell with both coordinates within 6. |
| `Planner.SnapUnique` | sim/include/botcockpit_sim/nav.hpp:127-157 | The snap cell is determined by the map and the cell. |
| `Planner.SnapWithinSqrt2` | sim/include/botcockpit_sim/nav.hpp:126-157 | The snapped cell is at most sqrt(2) times as far as the nearest free cell. |
| `Planner.SnapNearestIff` | sim/include/botcockpit_sim/nav.hpp:126-157 | The comment's "nearest" holds on all maps whose innermost free ring round the cell is k exactly for k <= 2; each k of 3 to 6 has a counterexample. |
| `Planner.Astar` | sim/include/botcockpit_sim/nav.hpp:117-231 | Empty iff an end point is off the map, snapping fails, or no legal route joins the snapped cells. Otherwise, told from the path alone: it ends at the commanded goal, every earlier point is the centre of its own cell, the first (of several) that of the snapped start, and these cells followed by the snapped goal cell are a cheapest legal route. |
| `Planner.AnswerDescribed` | sim/include/botcockpit_sim/nav.hpp:183-203 | So is every answer that the robot's steps may be given. |
| `Planner.PlanExists` | sim/include/botcockpit_sim/nav.hpp:164-230 | Whenever a plan is possible there is an answer to give: a cheapest route exists. |
| `LineOfSight.SegmentFree` | sim/include/botcockpit_sim/nav.hpp:245-257 | True iff all n+1 samples, n = max(1, ceil(d/0.08)), lie in free cells. |
| `LineOfSight.ContinuousLineOfSight` | sim/include/botcockpit_sim/nav.hpp:216-219 | Every real point between two neighbouring centres is free iff both cells are and, on a diagonal, the cell owning the shared corner is. |
| `LineOfSight.PlanLegsClear` | sim/include/botcockpit_sim/nav.hpp:244-257 | Line of sight holds on every leg of a plan before its commanded end point. |
| `LineOfSight.LastLegIff` | sim/include/botcockpit_sim/nav.hpp:197-201 | The leg driven last, to the commanded goal, passes the test iff the goal's own cell is free on the map; the corner rule is what keeps the cells beside the corner free. |
| `LineOfSight.SampledLineOfSight` | sim/include/botcockpit_sim/nav.hpp:245-257 | Between neighbouring centres the sampled test is true iff both cells are free: it never samples the corner, so it accepts moves the planner's corner rule refuses. |
| `Corridor.MakeCorridorDemo` | sim/include/botcockpit_sim/nav.hpp:32-62 | The construction loops build exactly the described walls. |
| `Corridor.BuildNavMap` | sim/src/fake_robot.cpp:855-856 | Corridor rebuilt and inflated in place equals the specified planning map. |
| `Corridor.NavMapFree` | sim/include/botcockpit_sim/nav.hpp:50-59 | Closed form of the cells a one-cell body may enter on the planning map. |
| `Corridor.CorridorSnapNearest` | sim/include/botcockpit_sim/nav.hpp:126-157 | On the two maps the robot ever plans on, every on-map point snaps to a truly nearest free cell. |
| `Corridor.Connected` | sim/include/botcockpit_sim/nav.hpp:50-52 | On either planning map (raw, or inflated by one) any two free cells are joined by a legal route: the gap stays open. |
| `Corridor.CorridorPlannable` | sim/src/fake_robot.cpp:454-455 | On either planning map a plan exists iff both end points are on the map. |
| `Corridor.OnMapRange` | sim/include/botcockpit_sim/nav.hpp:80-85 | Being on the map is the half-open range [0,20) x [-5,5). |
| `Pursuit.AdvanceIdx` | sim/include/botcockpit_sim/nav.hpp:273-291 | Skips exactly the waypoints that are passed, stops at the first that is not, and never leaves the path. |
| `Pursuit.AdvancedMeans` | sim/include/botcockpit_sim/nav.hpp:273-291 | In metres: a waypoint before the last is passed iff it is within 0.35 m or its successor is nearer by more than 0.05 m. |
| `Pursuit.AimPoint` | sim/include/botcockpit_sim/nav.hpp:295-337 | The aim is the goal when near, else the end of the unbroken visible stretch within the lookahead (which also ends at its first waypoint as far away as the lookahead), else the next waypoint. |
| `Pursuit.AimNear` | sim/include/botcockpit_sim/nav.hpp:295-313 | In metres: within 0.6 m of the last waypoint that one is the aim; else waypoint idx if it is out of sight. |
| `Pursuit.StretchSeen` | sim/include/botcockpit_sim/nav.hpp:313-337 | Every waypoint from idx up to a scanned aim is in sight, and none before the aim is as far away as the lookahead. |
| `Pursuit.StretchStops` | sim/include/botcockpit_sim/nav.hpp:313-337 | A scanned aim is the last waypoint, or as far away as the lookahead, or the next one is out of sight or the way to it longer than the lookahead. |
| `Pursuit.AimUnique` | sim/include/botcockpit_sim/nav.hpp:295-337 | These conditions determine the aim. |
| `Pursuit.PurePursuit` | sim/include/botcockpit_sim/nav.hpp:340-393 | For all inputs 0 <= v <= 0.28 and |w| <= 1, zero on an exhausted path; the index is advanced as far as it goes; and (v, w) obeys the steering law for the aim of the lookahead that short legs shrink: v = 0 iff the bearing exceeds 0.9, and below 0.5 with the aim not behind, w times max(0.05, distance) is 2 v sin(bearing) unless clipped to 1 or -1. |
| `Pursuit.SteerObeys` | sim/include/botcockpit_sim/nav.hpp:373-392 | The steering function obeys that law for every bearing, place ahead and distance. |
| `Pursuit.TurnsTowardsAim` | sim/include/botcockpit_sim/nav.hpp:364-392 | If atan2 and sin have the signs they should, w > 0 for every aim left of the heading and w < 0 for every aim right of it, the side being the sign of cos*dy - sin*dx. |
| `Pursuit.TurnsIff` | sim/include/botcockpit_sim/nav.hpp:364-392 | And with their values at zero: w > 0 iff the aim lies left or straight behind, w < 0 iff it lies right, w = 0 iff it lies straight ahead. |
| `Pursuit.StepLength` | sim/src/fake_robot.cpp:391-392 | A step along a unit heading is at most 0.28*dt long. |
| `RobotInvariant.RecomputeKeeps` | sim/src/fake_robot.cpp:178-219 | Recomputing phase and control establishes the whole invariant from any halfway state a callback leaves. |
| `RobotInvariant.TickKeeps` | sim/src/fake_robot.cpp:355-545 | A tick, with any heading, command and replan it can get, keeps the invariant. |
| `RobotInvariant.CmdKeeps` | sim/src/fake_robot.cpp:683-941 | Every command keeps the invariant. |
| `RobotInvariant.ConsoleKeeps` | sim/src/fake_robot.cpp:329-353 | Console messages keep the invariant. |
| `RobotInvariant.StepKeeps` | sim/src/fake_robot.cpp:239-941 | The invariant is inductive over every callback: control iff IDLE and online; RUNNING only without ESTOP, error or link loss and with a goto, id, path and index; FAULT, DEGRADED and ESTOP have their causes; waypoints free and in line of sight. |
| `RobotInvariant.EmptyPathBranchDead` | sim/src/fake_robot.cpp:514-519 | The empty-path branch of `tick` is unreachable. |
| `RobotInvariant.WaypointsOfPlan` | sim/src/fake_robot.cpp:858-858 | A plan ends at the commanded goal; its other waypoints are free in the raw corridor and its legs in line of sight there. |
| `RobotInvariant.GotoAdmission` | sim/src/fake_robot.cpp:826-885 | In every reachable state a goto starts RUNNING, and is answered ACCEPTED, iff control was enabled, robot and goal are on the map, and it does not repeat the task just done. |
| `RobotInvariant.BlockedRefusesControl` | sim/src/fake_robot.cpp:697-700 | While anything blocks the robot, goto, resume, unknown tasks and AUTO are refused with the right reason and change nothing. |
| `RobotInvariant.RefusalEffect` | sim/src/fake_robot.cpp:683-941 | A refused command changes nothing, except a goto that got as far as planning: that one drops the path and leaves FAULT. |
| `RobotInvariant.GotoFaultIff` | sim/src/fake_robot.cpp:838-867 | A goto throws the robot into FAULT iff it gets as far as planning while the robot or the goal is off the half-open map. |
| `RobotInvariant.EdgeGotoFaults` | sim/src/fake_robot.cpp:838-867 | On the closed edges x = 20 and y = 5 every new goto to a ready robot is refused as `unknown_task` and faults it. |
| `RobotInvariant.RepeatedIdIff` | sim/src/fake_robot.cpp:844-851 | A goto the robot is ready for is answered DONE, changing at most the counter, iff it repeats the last task and that one is DONE; any other id, seen before or not, starts afresh. |
| `RobotInvariant.CancelExactly` | sim/src/fake_robot.cpp:809-825 | `cancel` is accepted in every state, during ESTOP and offline too; it forgets task and path, keeps pose, latch and faults, stops a running robot, and leaves the phase as any recompute does. |
| `RobotInvariant.ReplanDecides` | sim/src/fake_robot.cpp:449-459 | A stuck robot's replan, on either map, comes back empty iff the robot or its goal has left the map. |
| `RobotInvariant.ResumeExactly` | sim/src/fake_robot.cpp:886-902 | `resume` is accepted iff control is enabled and a goto with its path is in memory, and then runs it; else nothing changes. No pause is asked for. |
| `RobotInvariant.DoneCanBeResumed` | sim/src/fake_robot.cpp:499-513 | A task that has just arrived and is DONE can be resumed at once (unless a warning is up). |
| `RobotInvariant.CleanupControl` | sim/src/fake_robot.cpp:308-322 | `on_cleanup` leaves a wrong control flag in BOOT exactly when control was enabled. |
| `RobotInvariant.ResetExactly` | sim/src/fake_robot.cpp:725-766 | RESET succeeds iff confirmed and no non-clearable ERROR fault is listed, and then leaves IDLE, no faults, no task, control iff online. |
| `RobotSteps.CmdFactsHold` | sim/src/fake_robot.cpp:683-941 | No command moves the robot or touches the link; the latch after it is exactly: set by ESTOP, cleared by an unblocked confirmed RESET, else unchanged; a halted robot stays halted unless a goto is accepted. |
| `RobotSteps.TickFactsHold` | sim/src/fake_robot.cpp:355-545 | A tick never changes the latch, never brings the link up, never moves a halted robot or one whose link it finds stale. |
| `RobotTicks.StaleIsTooOld` | sim/src/fake_robot.cpp:369-370 | The unsigned difference reads as stale iff an online robot's last console message is more than 3000 ms old, or from the future. |
| `RobotTicks.DrivenTick` | sim/src/fake_robot.cpp:385-542 | A tick in RUNNING on a fresh link, field by field and without its stages: where the guard lets the step go, the stuck timer, when and on which map it replans, losing track at 1.5 m, arriving at 0.22 m, battery, warning, faults and phase. |
| `RobotTicks.OffCourseIff` | sim/src/fake_robot.cpp:464-485 | The cross-track test fires iff every point of the line through the two waypoints is more than 1.5 m away (or the waypoint itself, where there is no line). |
| `RobotTicks.ArrivesIff` | sim/src/fake_robot.cpp:495-513 | A driving tick ends with the task DONE iff its step ends within 0.22 m of the goal; then the robot is at the goal, not RUNNING, navigation idle, stuck counters zero, and IDLE iff no warning or error is up. |
| `RobotTicks.OnlyArrivalIsDone` | sim/src/fake_robot.cpp:355-545 | No other tick makes a task DONE. |
| `RobotTicks.RestingTick` | sim/src/fake_robot.cpp:368-384 | Any other tick of an active robot, field by field: it stays where it is; a lost link fails a running task for good; start-up ends in time; only an IDLE robot drains. |
| `RobotTicks.TickReports` | sim/src/fake_robot.cpp:178-219 | After a tick the robot node is reported ERROR in FAULT, WARN when degraded, OK when idle, unchanged under ESTOP; control iff IDLE and online. |
| `RobotSteps.ConsoleFactsHold` | sim/src/fake_robot.cpp:329-353 | An offline message while RUNNING halts the robot; no console message moves it or un-halts it. |
| `RobotCommands.RecomputeMeans` | sim/src/fake_robot.cpp:178-219 | In any state at all, in the order of the code: ESTOP, start-up, an error, RUNNING, a warning, IDLE; each with its phase, control, node health and task status. |
| `RobotCommands.EstopEffect` | sim/src/fake_robot.cpp:702-723 | ESTOP in every reachable state: latch, phase, control, a task under way FAILED, one fault entry; answered ACCEPTED. |
| `RobotCommands.ResetEffect` | sim/src/fake_robot.cpp:725-766 | RESET in every reachable state: refused without confirmation, refused while a node timeout is listed, else the clean IDLE state. |
| `RobotCommands.ModeEffect` | sim/src/fake_robot.cpp:768-787 | A mode is set unless unknown, or AUTO while control is barred; the refusals give their reasons. |
| `RobotCommands.PauseEffect` | sim/src/fake_robot.cpp:792-808 | A pause takes a running task to ACCEPTED, IDLE or DEGRADED, and is otherwise refused without effect. |
| `RobotCommands.CancelEffect` | sim/src/fake_robot.cpp:809-825 | The whole state after a cancel, phase, control and node health included. |
| `RobotCommands.GotoEffect` | sim/src/fake_robot.cpp:826-885 | The whole outcome of a goto, all its refusals in order with their replies, and on success a path that is a cheapest route from pose to goal. |
| `RobotCommands.ResumeEffect` | sim/src/fake_robot.cpp:886-902 | The whole outcome of a resume. |
| `RobotCommands.InjectEffect` | sim/src/fake_robot.cpp:660-668 | An injected fault stands as a node timeout of level ERROR, fails the task and throws a robot that is up into FAULT. |
| `RobotCommands.ClearEffect` | sim/src/fake_robot.cpp:927-938 | CLEAR_FAULT drops every fault and restores node health; the latch stays and a running task goes on. |
| `RobotCommands.ConsoleEffect` | sim/src/fake_robot.cpp:329-353 | The whole state after a console message. |
| `RobotSteps.MotionGuard` | sim/src/fake_robot.cpp:385-513 | Each tick stays put, enters a cell free in the map in force and in the raw corridor, or creeps nearer to a goal within 0.55; at most 0.28*dt; then perhaps snaps to a goal within 0.22. |
| `RobotSweep.TickSweepsClear` | sim/src/fake_robot.cpp:391-414 | A tick of at most 0.5 m from a free cell of the inflated map in force, outside the final approach, passes only points free in the raw corridor. |
| `RobotSweep.RawTickCutsCorner` | sim/src/fake_robot.cpp:391-414 | On the raw map a guarded step of 0.05 m, from a state and with inputs that meet everything asked of them, cuts through a wall cell. |
| `RobotSteps.ClearThenResetRecovers` | sim/src/fake_robot.cpp:927-938 | From any reachable state CLEAR_FAULT then a confirmed RESET lead to IDLE with the latch down. |
| `RobotRuns.ReachableStates` | sim/src/fake_robot.cpp:178-219 | Every reachable state of a configured node: control iff IDLE and online; RUNNING only without ESTOP, error or link loss, with a goto, id, index inside the path and status ACCEPTED or EXECUTING; IDLE without error or warning; FAULT, DEGRADED and ESTOP with their causes. |
| `RobotRuns.GotoInRuns` | sim/src/fake_robot.cpp:826-885 | In any run a goto starts RUNNING iff control was enabled, pose and goal lie in [0,20) x [-5,5), and it does not repeat the task just done. |
| `RobotScenarios.EdgeGotoRun` | sim/src/fake_robot.cpp:838-867 | A concrete run: configured, activated, online, IDLE with control, sent to x = 20, in FAULT. |
| `RobotScenarios.SameTaskTwice` | sim/src/fake_robot.cpp:792-851 | docs/PROTOCOL.md section 7 rule 3 fails: a run in which task T-1 is accepted, paused, and accepted under the same id as a new start. |
| `RobotScenarios.LongTickRun` | sim/src/fake_robot.cpp:361-414 | A run, with heading and command among a tick's inputs, whose tick 17.9 s after the last goes straight through the wall block on the inflated map: nothing bounds dt. |
| `RobotRuns.EstopLatch` | sim/src/fake_robot.cpp:702-766 | Whole runs: an ESTOP stays latched until the first reconfigure or unblocked confirmed RESET, which does clear it. |
| `RobotRuns.EstopFreezesPose` | sim/src/fake_robot.cpp:702-766 | Whole runs: from an ESTOP on the pose is frozen until a later goto is accepted or the node is reconfigured. |
| `RobotRuns.LinkLossFreezesPose` | sim/src/fake_robot.cpp:221-237 | Whole runs: a link loss while RUNNING freezes the pose, through reconnection, until a new goto is accepted. |
| `RobotRuns.MotionNeedsFreshLink` | sim/src/fake_robot.cpp:368-376 | Whole runs: a tick that moves the robot runs while the last console message was an online one at most 3000 ms old. |
| `RobotRuns.WhereTheRobotIs` | sim/src/fake_robot.cpp:394-415 | Whole runs: a configured robot stands in a cell free in the raw corridor or within 0.55 m of a goal it accepted. |
| `RobotNode.FakeRobot.HasErrorCondition` | sim/src/fake_robot.cpp:146-161 | The loop answers whether an active ERROR fault exists or the robot node is ERROR or LOST. |
| `RobotNode.FakeRobot.RecomputePhaseAndControl` | sim/src/fake_robot.cpp:178-219 | In place, with the source's early returns: the specified phase, control flag, node health and task status. |
| `RobotNode.FakeRobot.ApplySafetyStop` | sim/src/fake_robot.cpp:221-237 | In place: the specified safety stop. |
| `RobotNode.FakeRobot.OnConsole` | sim/src/fake_robot.cpp:329-353 | In place: the specified effect of a console message; keeps the invariant and the console facts. |
| `RobotNode.FakeRobot.Tick` | sim/src/fake_robot.cpp:355-545 | In place: the specified tick, for the values it read from planner, pursuit and clocks, asked with a lookahead of 0.45 m; and, without its stages, the driven or the resting outcome. Keeps the invariant, the tick facts and the guarded motion. |
| `RobotNode.FakeRobot.OnCmd` | sim/src/fake_robot.cpp:692-941 | In place: the specified effect and reply of every command, planner included; keeps the invariant and the command facts. |
| `RobotNode.FakeRobot.OnMessage` | sim/src/fake_robot.cpp:683-941 | From text to text: a message without a command does nothing; any other gets exactly one result, which echoes its number (the bridge reads it back) and its name, with the specified status and reason; strings, booleans and numbers are searched in the text. |
| `RobotText.EnvelopeAnswered` | sim/src/fake_robot.cpp:631-658 | Whatever the payload, the robot finds name and number of a bridge envelope, and the bridge reads its own number in the answer. |
| `RobotText.CommandNames` | sim/src/fake_robot.cpp:702-941 | Every command by its names, and which keys of the message it takes. |
| `RobotText.ReplyReads` | sim/src/fake_robot.cpp:631-658 | The text of every reply, with the protocol's words for its status and reason. |
| `CommandTexts.GotoReadBackIff` | ui/botcockpit/src/socketworker.cpp:144-164 | From the console's goto through the bridge's envelope: the robot reads the task id and both coordinates, whatever they are, iff the id is not "type", and neither "x" nor "y" unless that coordinate is 30, the timeout. |
| `CommandTexts.VerbReadBack` | ui/botcockpit/src/socketworker.cpp:144-164 | A pause, cancel or resume from the console is read as what it is, under any task id. |
| `CommandTexts.ResetReadBack` | ui/botcockpit/src/socketworker.cpp:180-191 | A reset's confirmation is read as it was sent. |
| `CommandTexts.ModeReadBack` | ui/botcockpit/src/socketworker.cpp:131-142 | A mode is read as the one it names, if it names one. |
| `BatchOrder.HandledOrder` | bridge/src/tcp_server.cpp:195-200 | The handled order of a batch is a permutation with ESTOPs in front, each class in its old order. |
| `BatchOrder.HandledOrderUnique` | bridge/src/tcp_server.cpp:195-200 | It is the only such order. |
| `Bridge.StepKeeps` | bridge/src/bridge_node.cpp:103-268 | All protocol invariants survive every atomic step (each load, store and locked section) of receive threads, worker and result callback. |
| `Bridge.ExactlyOnceFifo` | bridge/src/tcp_server.cpp:280-342 | Every interleaving: settled jobs are a prefix of the enqueue order; one attempt to send an ACK per settled job with its own sequence number, none for jobs dropped because the client was closed; publications in the same order. |
| `BridgeProgress.WorkerDrains` | bridge/src/tcp_server.cpp:307-342 | From every reachable state the worker alone, with a silent robot and idle threads, settles every command enqueued so far in at most six steps each. |
| `Bridge.PendingKeys` | bridge/src/bridge_node.cpp:163-268 | Every pending key is the waiting job's number or some ESTOP's, and the waiting job's number is always pending. |
| `BridgeAnswers.AckProvenance` | bridge/src/bridge_node.cpp:219-268 | An ACK body from the robot is that of one of its results, with the job's number, handled after the very step that made the job's entry. |
| `BridgeAnswers.OwnAnswer` | bridge/src/bridge_node.cpp:219-268 | If the robot answers each publication at most once, an ACK answers the job's own publication provided all earlier ones of its number were answered when its entry was made and no ESTOP of that number went out since. |
| `BridgeAnswers.ForeignAnswerIff` | bridge/src/bridge_node.cpp:219-268 | With no ESTOP and no result under way when the entry is about to be made, the ACK can become the answer to an earlier publication iff one of that number is still unanswered. |
| `BridgeScenarios.ForeignAck` | bridge/src/bridge_node.cpp:219-268 | A concrete run: the late answer to client 0's timed-out command becomes the ACK of client 1's command of the same number. |
| `Bridge.EntryLeavesOnlyByAnswer` | bridge/src/bridge_node.cpp:170-175 | A pending entry leaves only when the worker answers a job of that number, so an ESTOP's own entry stays. |
| `Bridge.EstopBeforeCommands` | bridge/src/tcp_server.cpp:190-206 | Before a non-ESTOP command is published, every ESTOP of its batch has been, in order and once. |
| `Bridge.WorkerNeverSeesEstop` | bridge/src/bridge_node.cpp:186-192 | The worker's CMD_ESTOP fallback is never reached. |
| `BridgeHistory.FlagsIff` | bridge/src/tcp_server.cpp:358-382 | Every interleaving: a client counts as greeted iff an earlier step handled an accepted HELLO frame at the head of its batch, and as open iff it was not closed. |
| `BridgeHistory.CommandsBecomeJobs` | bridge/src/tcp_server.cpp:188-206 | The jobs enqueued from a batch are a prefix of its non-ESTOP command frames, in order; and all of them once the batch is done with, unless its client was closed meanwhile. |
| `BridgeHistory.TakenIff` | bridge/src/tcp_server.cpp:322-327 | The head of the queue is taken up iff its client was not closed before; else it is dropped. |
| `BridgeHistory.DeliveredIff` | bridge/src/tcp_server.cpp:237-260 | An ACK carries its job's number and answer, and is delivered iff its client was not closed before and the socket takes it. |
| `BridgeHistory.PollFindsIff` | bridge/src/bridge_node.cpp:246-253 | The worker takes an answer iff a result of the job's number, one that missed the slot, was handed over since the number's entry was last made. |
| `BridgeHistory.RefusalsReasoned` | bridge/src/bridge_node.cpp:237-266 | A published job's refusal by the bridge goes back to a step that found the flag up, or to its timeout. |
| `BridgeHistory.AsyncRecipients` | bridge/src/tcp_server.cpp:344-356 | An asynchronous ACK goes to exactly the clients that said HELLO and were not closed. |
| `BridgeHistory.ReachesRobotIff` | bridge/src/bridge_node.cpp:194-227 | Every interleaving: a queued command is published iff, before its check, an accepted HELLO frame of its client was handled, the state was recent and, for CMD_TASK and CMD_MODE AUTO, the last known ESTOP flag was down; `estop_raised_` has no say. If not, its ACK gives the first of the three reasons that applies. |
| `BridgeHistory.PublishedWasChecked` | bridge/src/bridge_node.cpp:194-227 | Whole runs: every command the worker published had passed that check earlier. |
| `BridgeScenarios.TaskForwardedDuringEstop` | bridge/src/bridge_node.cpp:225-246 | docs/PROTOCOL.md section 7 rule 4 fails: a concrete run in which a CMD_TASK is published while the ESTOP flag is up, behind the ESTOP itself, and is then answered `estop_active`. |
| `BridgeEstop.FlagBarsRobotAnswers` | bridge/src/bridge_node.cpp:237-266 | While the flag stays up, no command taken up meanwhile is answered by the robot, nor the one in hand unless the worker had looked past the flag. |
| `BridgeEstop.AsyncAcksBounded` | bridge/src/bridge_node.cpp:115-122 | Async ACKs never outnumber the ESTOPs that armed the slot. |
| `BridgeEstop.AsyncAckExactly` | bridge/src/bridge_node.cpp:115-122 | A compared result ends as exactly one async ACK iff its number is the one last stored in the slot, else as none. Only numbers are compared, so another client's result of that number counts as the ESTOP's. |
| `BridgeEstop.OvertakenGetsNone` | bridge/src/bridge_node.cpp:163-169 | Whole runs: once another ESTOP's number is stored, an ESTOP gets no async ACK from any result until its number is stored again. |
| `BridgeScenarios.EstopNeverAcked` | bridge/src/bridge_node.cpp:115-134 | A concrete run: two ESTOPs are published and answered, one ACK goes out, and the first one's entry stays, completed and unread. |
| `BridgeEstop.FlagMatchesSlotIff` | bridge/src/bridge_node.cpp:115-169 | Every interleaving: `estop_raised_` agrees with the async slot (armed, or being armed) throughout iff no completion lowers the flag while an ESTOP is between its stores, nor an ESTOP completes its stores between a completion's two. |
| `BridgeEstop.AsyncSlot` | bridge/src/bridge_node.cpp:115-169 | So without such a collision `estop_raised_` equals `async_estop_seq_valid_` whenever neither side is half done. |
| `BridgeEstop.OrphanedFlagRefusesAll` | bridge/src/bridge_node.cpp:237-246 | Whole runs: a flag left up without a slot stays up until the next ESTOP, and every command taken up before that, and the one in hand unless the worker had looked past the flag, is refused or timed out by the bridge. |
| `BridgeScenarios.FlagOrphaned` | bridge/src/bridge_node.cpp:115-169 | A concrete run, two ESTOPs and one answer, that leaves the flag so; whatever follows, the very next command is refused, and all after it until a third ESTOP. |
| `BridgeScenarios.FlagLost` | bridge/src/bridge_node.cpp:115-169 | And one in which the completion lowers the flag the second ESTOP has just raised. |
| `FrameCodec.EncodeFrame` | bridge/src/frame_codec.cpp:5-21 | The successive pushes build the specified bytes, the 32-bit length wrapping. |
| `FrameCodec.FrameLayout` | bridge/src/frame_codec.cpp:5-21 | Byte by byte: length of what follows the length field, type, flags, number, payload; numbers low byte first. |
| `FrameCodec.Announces` | bridge/src/frame_codec.cpp:36-52 | A header is refused iff it announces fewer than 4 or more than 65536 bytes, and a frame is taken iff all it announces is there. |
| `FrameCodec.FrameRoundTripIff` | bridge/src/frame_codec.cpp:5-60 | Encoding then decoding one frame gives it back iff its payload has at most 65532 bytes. |
| `FrameCodec.FrameDecoder.NextFrame` | bridge/src/frame_codec.cpp:36-60 | In place: takes one complete frame, keeps a partial one, drops everything on a bad length. |
| `FrameCodec.FrameDecoder.Feed` | bridge/src/tcp_server.cpp:189-194 | One read appended and drained yields exactly the specified frames and leftover. |
| `FrameCodec.DrainPrefix` | bridge/src/frame_codec.cpp:36-60 | Draining a prefix of a well-formed stream yields its complete frames and holds exactly the unfinished rest. |
| `FrameCodec.ChunkIndependentIff` | bridge/src/frame_codec.cpp:45-49 | Decoding is independent of how the bytes are cut iff no bad length has bytes behind it. |
| `FrameCodec.StreamRoundTrip` | ui/botcockpit/src/frame_codec.cpp:5-55 | For valid frames and every chunking, on either side's codec: same frames in order, buffer holding exactly the unfinished suffix. |
| `FrameCodec.HeldBound` | bridge/src/frame_codec.cpp:45-52 | After a drain at most 65539 bytes are held, whatever arrived. |
| `FrameCodec.PeakBound` | bridge/src/tcp_server.cpp:189-194 | With 4096-byte reads the buffer never exceeds 69635 bytes. |
| `JsonText.EscapeString` | bridge/src/json_util.cpp:78-99 | The push loop produces the specified escaping. |
| `JsonText.ParseJsonStringAt` | bridge/src/json_util.cpp:41-74 | The scanning loop returns the string up to the first unescaped quote, and fails without one. |
| `JsonText.BridgeRoundTripIff` | bridge/src/json_util.cpp:41-99 | Printing then parsing gives the string back iff its only control characters are newline, carriage return and tab. |
| `JsonText.EscapeLegal` | bridge/src/json_util.cpp:78-99 | The bridge's output is a legal string body of RFC 8259, section 7, for every string. |
| `JsonText.EscapeDenotes` | bridge/src/json_util.cpp:78-99 | And denotes the string it was given, by the same section. |
| `JsonText.EscString` | sim/src/fake_robot.cpp:13-24 | The robot's push loop produces the specified escaping. |
| `JsonText.ReadString` | sim/src/fake_robot.cpp:45-56 | The robot's loop reads up to the next unescaped quote or the end. |
| `JsonText.RobotRoundTrip` | sim/src/fake_robot.cpp:13-57 | The robot reads back every string it prints. |
| `JsonText.EscLegalIff` | sim/src/fake_robot.cpp:13-24 | The robot's output is legal JSON iff the string has no control character. |
| `JsonText.EscDenotesIff` | sim/src/fake_robot.cpp:13-24 | And denotes the string it was given iff that has none. |
| `JsonText.BridgeToRobotIff` | sim/src/fake_robot.cpp:45-56 | The robot reads what the bridge printed iff there is no control character: it takes an escape's letter for the character. |
| `Decimals.DecimalRoundTrip` | bridge/src/bridge_node.cpp:157-158 | A printed number is read back whatever non-digit follows. |
| `Decimals.NumberReadBack` | sim/src/fake_robot.cpp:59-80 | `strtod` reads a number printed with or without decimals back exactly. |
| `Decimals.ExponentReadBack` | sim/src/fake_robot.cpp:59-80 | With an exponent behind it, as that number shifted by so many places. |
| `Decimals.Shifted` | sim/src/fake_robot.cpp:59-80 | Places mean what they should: shifted by as many places as it has decimals, a number is its digits read as one whole number. |
| `Envelope.NumberExtracted` | sim/src/fake_robot.cpp:59-80 | `extract_number` writes the number printed behind the first occurrence of its key. |
| `Envelope.NoNumberIsZero` | sim/src/fake_robot.cpp:59-80 | For a value that begins like no number `extract_number` writes zero. |
| `Envelope.FindFirst` | bridge/src/json_util.cpp:18-39 | The search finds the first occurrence, and fails only when there is none. |
| `Envelope.RobotFinds` | sim/src/fake_robot.cpp:26-45 | By characters: the robot's search takes the first quoted key, the first colon behind it, and what follows the blanks and tabs. |
| `Envelope.RobotFindsNone` | sim/src/fake_robot.cpp:26-45 | And finds nothing iff no colon follows the key anywhere. |
| `Envelope.BridgeFinds` | bridge/src/json_util.cpp:20-39 | The bridge's search takes the first quoted key that only white space parts from its colon, |
| `Envelope.BridgePasses` | bridge/src/json_util.cpp:20-39 | and goes on behind one that is no key. |
| `Envelope.FindKeyValue` | bridge/src/json_util.cpp:20-39 | The loop returns the value of the first occurrence that is followed by a colon. |
| `Envelope.ExtractStringAt` | sim/src/fake_robot.cpp:26-57 | The robot's extractor: first occurrence of the quoted key, next colon, blanks skipped, string read. |
| `Envelope.EnvelopeReadBack` | bridge/src/bridge_node.cpp:149-161 | For every payload text the robot reads exactly the envelope's number, and its command iff that has no control character. |
| `Envelope.ResultReadBack` | sim/src/fake_robot.cpp:631-658 | For every result text the bridge reads exactly the number the robot wrote. |
| `Envelope.SeqEcho` | sim/src/fake_robot.cpp:108-115 | So the bridge reads from the answer the number it put in the envelope. |
| `Envelope.SignedReadBackIff` | bridge/src/json_util.cpp:117-133 | `get_int` drops a sign and saturates: any integer, printed, is read back iff it is a non-negative `long long`. |
| `Reconnect.StepKeeps` | ui/botcockpit/src/connectioncontroller.cpp:70-315 | The controller's invariant survives every slot. |
| `Reconnect.SessionAndBackoff` | ui/botcockpit/src/connectioncontroller.cpp:161-267 | Every signal order: connected iff HELLO accepted, never connected and connecting, and the k-th delay since the last reset is min(2^k, 10) s. |
| `Reconnect.SingleFlight` | ui/botcockpit/src/connectioncontroller.cpp:161-182 | A step that asks for a delay finds the timer idle and arms it. |
| `Reconnect.LostLinkArms` | ui/botcockpit/src/connectioncontroller.cpp:214-234 | Whole runs: a lost link ends session and attempt, and the timer is armed afterwards iff it was, or the user has not disconnected, automatic reconnect is on and a host is known; with the next backoff delay. |
| `Reconnect.TimerStarts` | ui/botcockpit/src/connectioncontroller.cpp:184-197 | Whole runs: when the timer goes off, an attempt starts unless the session is up. |
| `Reconnect.RequestStarts` | ui/botcockpit/src/connectioncontroller.cpp:70-88 | Whole runs: a request clears the disconnect, the backoff and the timer, and starts an attempt unless one is under way or the session is up. |
| `Reconnect.SessionOpens` | ui/botcockpit/src/connectioncontroller.cpp:199-267 | Whole runs: only an accepted HELLO opens the session and resets the backoff; TCP alone stops the timer. |
| `Reconnect.RejectedArms` | ui/botcockpit/src/connectioncontroller.cpp:236-253 | Whole runs: a rejected HELLO arms the timer iff reconnecting is on and a host is known (or it was armed). |
| `Reconnect.ManualDisconnectHolds` | ui/botcockpit/src/connectioncontroller.cpp:90-99 | After the user's disconnect nothing is started until a new request or a rejected HELLO. |
| `Reconnect.ManualLastsIff` | ui/botcockpit/src/connectioncontroller.cpp:251-253 | While no new request comes, the user's disconnect lasts exactly as long as no HELLO is rejected. |
| `Reconnect.RejectionUndoesDisconnect` | ui/botcockpit/src/connectioncontroller.cpp:251-253 | A concrete run: the user disconnects, a late rejection arrives, and the console starts connecting by itself. |
| `Reconnect.ConnectionController.ScheduleReconnect` | ui/botcockpit/src/connectioncontroller.cpp:161-182 | In place: schedules only when allowed, with the present backoff, which it doubles up to 10. |
| `Reconnect.ConnectionController.OnHelloAck` | ui/botcockpit/src/connectioncontroller.cpp:236-267 | In place: an accepted HELLO opens the session and resets the backoff; a rejected one closes it and schedules. |

## Left out

- Rounding of `float` and `double`: costs are integers and coordinates reals.
- Cell size and origin as fields: they are the constants 0.5 m and (0, -5), the only values the code gives them.
- GridMaps.GridMap.Inflate: the inner loops are methods of their own, and occupancy is a flag rather than a byte.
- Pursuit.PurePursuit: `hypot`, `sin` and `atan2` are arbitrary parameters, so nothing is said about reaching the goal.
- RobotNode.FakeRobot.Tick: the heading is an input (its cosine and sine), so the yaw update, the trail and the displayed tracking error are not part of the state.
- RobotNode.FakeRobot.OnMessage: `strtod` reads decimal numbers, not its hexadecimal, infinite and NaN forms; a `seq` outside 16 bits is reduced modulo 2^16.
- CommandTexts.GotoReadBackIff: task ids without quote or backslash and coordinates printed without an exponent; Qt's printing of JSON is not part of this model.
- CommandTexts.VerbReadBack: task ids and verbs without quote or backslash.
- The robot's and the console's fields are gathered in one record each, which the callbacks update in place.
- Bridge.StepKeeps: the bridge is a step relation over a value, since its threads interleave; the worker's look at HELLO, the state's age and the last known flag is one step, and so is the round of sends to all clients.
- Bridge.ExactlyOnceFifo: whether a send succeeds is an input of the step; a failed one is not repeated, as in the code.
- The console's frame codec repeats the bridge's text; one model stands for both.
- Stopping the server, the state snapshot text, heartbeats and the heartbeat watchdog: wall clock and display.
- Reaching the goal or getting unstuck: it depends on trigonometry, timing and thresholds, and the code does not decide it.
- The console's log, error string, attempt counter and models, QML, and PARAM_* and EVENT_FAULT messages: display or no behaviour of their own.
- Sockets, threads, mutexes, ROS publishers and Qt signals as mechanisms: only their atomic steps and orders.
