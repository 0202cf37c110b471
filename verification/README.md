# Home-battery dispatch optimiser: a verified model

The optimiser plans a home battery, its solar array and a few relay-driven loads against half-hourly
electricity prices. Every minute a tick rebuilds a mixed-integer program over the coming slots, solves it,
writes slot 0 to the inverter and records what it commanded; a watcher checks every ten seconds that the
inverter follows, and a circuit breaker takes control away when it does not. Counters, a load profile and a
crash-tolerant snapshot log feed the loop. This project models that behaviour and proves what it promises.

Amounts are exact reals, times are integers in microseconds, HiGHS is an oracle returning a feasible or
optimal point. Code that appends to a problem, mutates a breaker, a tracker or a file is a class or a method
with loops, proved against functions on values; the theorems are about those functions.

## What is proved

* **The emitted problem is the declared one.** `Pulp.LpProblem` only grows. Each emitting method is proved to
  add exactly its part of `Program.Feasible`, for every assignment, so that `Builder.BuildStochasticLp` and
  `Builder.BuildLp` emit the declarative program constraint for constraint and their objective is its cost.
  Everything below about feasible or optimal plans is therefore about the emitted problem.
* **And the declared one is physics.** A plan is feasible iff its flows balance within the equipment in every slot,
  the battery's level is what all flows so far leave in it, floors, windows and reserve are kept, and the relays suit
  their loads. Energy is conserved over any stretch of the horizon. An optimum pays slack penalties exactly
  where it leaves the band or misses the reserve; its bill is energy bought less sold, wear and waste.
* **Scenarios.** Every scenario of a tick sees, at every slot, the prices of one pair of legs of the mode, one PV
  percentile and the profile's load, and every such pair is planned; its plans keep the user's windows as entered.
* **Loads.** A 0/1 schedule meets the min-on/min-off inequalities iff its runs are long enough. With minimum runs no
  longer than a local day every relay load has a greatest schedule that none of its schedules exceeds; whatever
  the overrides and whatever block is unfinished, the load can be planned iff that schedule meets the emitted
  targets. Whatever the counters say by then, a schedule survives into the next tick on the same slots iff its first
  run lasts a whole block and meets the targets emitted then; an "on" never leaves the next tick without a
  schedule. Every automatic day with room for it gets its target delivered, in kWh or minutes. The daily-target
  ledger balances.
* **Recourse.** Leaving the battery alone is feasible for a scenario iff the relays are, imports reach and no
  buy cutoff lies behind the SOC. The tick cancels a reached cutoff first, so where PV and import carry the
  greatest schedules its stochastic program, ties included, has a plan iff every load's targets can be met.
* **Modes.** After any history of activations, cancellations, reads and prunings a slot is masked iff an
  activation still in force covers it, and reads never change the mask of a slot still ahead.
* **Optima are tidy.** Charging while discharging, or importing while exporting at a loss, can be rewritten into
  a strictly cheaper plan with the same SOC trajectory, so no optimum does it (battery churn in the stochastic
  program: after slot 0, where the net power is shared between scenarios).
* **Stochastic against deterministic.** Hedging never beats hindsight; with coinciding percentiles and no bands
  POINT, SHARED and CROSS all have the value of the deterministic program times the total weight, hence the
  same value when that is 1.
* **Reporting and simulation.** The reported trajectory leads from SOC to SOC by the flows it reports. The reported
  cost is the weighted bill with every penalty and reward cancelled; a simulated step does what was solved for it;
  in any closed-loop run over the emitted programs the SOC never falls below the smaller of the initial SOC and
  the floor.
* **Breaker.** Tick and watcher interleave freely between critical sections. The counters are what history says,
  trips, clearings and passed checks happen exactly when promised, and no outcome counts for a command still in grace.
  A cooldown admits at most one dispatch, from the tick that was already past its check, and of the outcomes that
  clear a latch all but at most one come from polls begun after it.
  A relay can be closed in a cooldown iff it is at the latch or a tick may then still send its load commands.
* **Relay dwell, counters, log, profile.** Over whole runs a relay is switched only after its minimum time;
  on-minutes have an error bound; whatever restarts the meter suffers, the energy counter is the true energy less
  two non-negative losses, the second zero iff every restart shows; through any run of writes, crashes, failed
  rollbacks and heals exactly the lines written in full can be salvaged, and readers see them all iff none lies
  behind part of a member; smoothing conserves energy and range.

## Where the code and its comments differ

The code is followed in each case.

* lp/runtime.py:57 says a deviation while probing latches again with an extended cooldown. lp/watcher.py:175 never
  latches while latched (`Protocol.TripExactly`).
* lp/loads.py:338-343 says that a block started at slot 0 commits the following slots and that one carried over
  from an earlier tick is not counted. lp/loads.py:382-399 leaves a run that starts at slot 0 unbound
  (`LoadNextTick.SlotZeroRunIsFree`), so a tick's own "off" can leave the next tick without a schedule
  (`LoadNextTick.CommandCanStrand`; exactly when: `LoadNextTick.NextTickIff`); lp/loads.py:409-439 does count the
  carried-over block (`Dwell.DwellRespected`).
* clients/shelly.py:79 calls the on-minute integration left-Riemann; clients/shelly.py:306 books a gap by the state
  at its end.
* lp/solver.py:231-238 maps an unfinished solve to a timeout, so the "feasible" status that service.py:1190 accepts
  never occurs (`Service.OnlyOptimalIsUsable`).
* logging_utils.py:299 stops one byte early: a single stray byte is left in the file, and the next append cannot be
  read until a later heal (`SnapshotLog.LeftDamagedExactly`, `SnapshotRuns.ByteTearHidesAppends`).
* lp/watcher.py:122 trusts the latch state seen before the Modbus read. A clean outcome counts towards a latch set
  while its poll was in flight exactly when the tick set that latch and the poll had seen an earlier one
  (`StaleOutcomes.StaleExactly`). At most one outcome can, so two later polls can meet the shipped threshold of
  three (`StaleOutcomes.FreshCleansNeeded`, `StaleOutcomes.TwoFreshCanSuffice`).
* lp/solver.py:332-336 caps export at zero when every scenario plans less than 0.1 W, which is below some plans
  (`Solver.TinyExportIsCut`); the cap covers all of them iff one is material or all are zero
  (`Solver.CapCoversPlans`).
* clients/shelly.py:352-360 takes a backward jump of more than a threshold for a meter restart. Restarts that drop
  by less, or whose counter has grown past its old value, go unseen and understate the day
  (`Shelly.RestartsCanHide`; exactly when: `Shelly.ExactWhenRestartsShow`).
* lp/fallback.py:56 says a fallback leaves all relays off. After a failed dispatch service.py:617-621 still sends the
  tick's load commands, and the relay keeps what they set through the cooldown (`RelayLatch.OnThroughCooldown`;
  exactly when a relay can be closed: `RelayLatch.CanBeOnIff`).

## Layout

| files | source |
|---|---|
| Options, Reals, Plans, Pulp | shared datatypes, sums, plans, the modelling layer |
| Loads, LoadLedger, LoadFeasibility, LoadGreatest, LoadNextTick, LoadDelivers | lp/loads.py |
| Prices, Modes | lp/scenarios.py, modes.py |
| Program, Formulation, Builder | lp/formulation.py |
| PlanEnergy, PlanCosts, ScenarioInputs | what that program says of its plans and scenarios |
| Recourse, Exchange, Refinement | theorems about that program |
| Solver, Simulate | lp/solver.py, simulate.py |
| Breaker, Watcher, Service, Protocol, StaleOutcomes, Grace, RelayLatch | lp/runtime.py, lp/watcher.py, lp/fallback.py, service.py |
| Shelly, Dwell | clients/shelly.py and its effect on the loads |
| SnapshotLog, SnapshotRuns, SnapshotStranded, SnapshotCodec | logging_utils.py |
| Profiler | profiler.py |

## Model

| member | source | states |
|---|---|---|
| Loads.AddRelays | src/optimiser/lp/loads.py:155-187 | the variables and override constraints admit exactly the schedules that are 0/1 at slot 0 (everywhere for block loads), within 0..1 elsewhere, off on "off" days and on on "on" days |
| Loads.AddDay | src/optimiser/lp/loads.py:223-295 | one pass of the day loop emits the demand the ledger records for that day, if any, and rolls forward what the ledger says |
| Loads.AddDailyTargets | src/optimiser/lp/loads.py:208-295 | the three-day loop admits exactly the schedules meeting every recorded demand |
| Loads.AddBlocks | src/optimiser/lp/loads.py:382-399 | the two loops admit exactly the schedules obeying both block inequalities at every slot after 0 |
| Loads.AddCarryOver | src/optimiser/lp/loads.py:409-439 | the carry-over loop pins exactly the un-overridden slots of the unfinished block, and nothing after a failed relay read |
| Loads.AddTo | src/optimiser/lp/loads.py:366-441 | everything a load emits, together, holds of an assignment iff its schedule satisfies the load |
| Loads.SlotsWithinExact | src/optimiser/lp/loads.py:241-243 | a window lists, in increasing order, exactly the slots starting inside it |
| LoadLedger.WindowInDay | src/optimiser/lp/loads.py:238-243 | every slot of a day's window falls on that local day |
| LoadLedger.WindowsDisjoint | src/optimiser/lp/loads.py:238-243 | no slot is counted towards two days' targets |
| LoadLedger.LedgerBalances | src/optimiser/lp/loads.py:208-295 | demanded plus forgiven plus left over equals the targets fed in, nothing forgiven is negative, each demand fits its window always-on and the cap, and days are demanded in order |
| LoadLedger.FedIsDayTargets | src/optimiser/lp/loads.py:246-257 | what was fed in is the sum of the targets of the days the user left on auto |
| LoadLedger.MissedTodayRaisesTomorrow | src/optimiser/lp/loads.py:246-290 | a remainder that no longer fits today raises tomorrow's target up to the cap |
| LoadDelivers.DayIsServed | src/optimiser/lp/loads.py:138-295 | on every automatic day whose slots have room for it, any schedule satisfying the load delivers that day's target before its deadline, counted from draw and slot length, today less what the controller says was had |
| LoadFeasibility.BlocksExact | src/optimiser/lp/loads.py:378-399 | a 0/1 schedule meets the block inequalities iff every run starting after slot 0 has its minimum length or reaches the horizon end |
| LoadFeasibility.AllOnFeasible | src/optimiser/lp/loads.py:171-295 | on-wherever-allowed satisfies all of a load's constraints at once iff no unfinished off-block pins a free slot |
| LoadFeasibility.AllOnDemands | src/optimiser/lp/loads.py:284-295 | on-wherever-allowed meets every emitted daily target |
| LoadFeasibility.AllOnRuns | src/optimiser/lp/loads.py:378-399 | and, with blocks no longer than a local day, both block inequalities |
| LoadFeasibility.OffBlockCanBeInfeasible | src/optimiser/lp/loads.py:284-288 | a concrete load whose off-block leaves no schedule at all |
| LoadGreatest.DaysLast | src/optimiser/lp/loads.py:171-187 | with blocks no longer than a local day, a day state that begins inside the horizon lasts a whole block or to its end |
| LoadGreatest.NothingExceeds | src/optimiser/lp/loads.py:382-439 | no schedule satisfying the load is on where its greatest schedule is off |
| LoadGreatest.FeasibleIff | src/optimiser/lp/loads.py:155-439 | for every override map and every unfinished block, some schedule satisfies the load iff the greatest one meets the daily targets, and then it satisfies the load itself |
| LoadGreatest.MayHaveNoGreatest | src/optimiser/lp/loads.py:382-399 | a concrete load, its minimum off-run longer than the day overridden off, with two schedules on at different ends and none on at both |
| LoadNextTick.ScheduleSurvivesIff | src/optimiser/lp/loads.py:401-439 | once its command has switched the relay, and whatever the counters then report, a schedule satisfies the load in the next tick on the same slots iff its first run lasts a whole block and it meets the targets emitted then |
| LoadNextTick.NextTickIff | src/optimiser/lp/loads.py:155-439 | whatever the next tick reads of relay and counters, it has a schedule for the load iff the greatest one meets the targets emitted then |
| LoadNextTick.OnNeverStrands | src/optimiser/lp/loads.py:284-439 | a relay found on leaves the next tick a schedule, whatever is due |
| LoadNextTick.TargetCanReturn | src/optimiser/lp/loads.py:246-290 | a concrete load, its statuses as tracked, whose schedule keeps its first run and still fails the next tick, because a target that did not fit comes to fit |
| LoadNextTick.CommandCanStrand | src/optimiser/lp/loads.py:401-439 | a concrete load, its statuses as tracked, whose valid plan commands off and so leaves the next tick no schedule |
| LoadNextTick.SlotZeroRunIsFree | src/optimiser/lp/loads.py:382-399 | a run starting at slot 0 may be shorter than its minimum |
| Prices.WeightsTotal | src/optimiser/lp/scenarios.py:168-212 | the scenarios of a mode weigh 1, the band total, or its square |
| Prices.ResolveQuotes | src/optimiser/lp/scenarios.py:135-153 | a leg costs what is published for it, failing that what is predicted, failing that the spot price |
| Prices.LegsInOrder | src/optimiser/lp/scenarios.py:135-153 | in a published band low, predicted and high legs are priced in order, at its ends and its middle |
| Prices.ModePairs | src/optimiser/lp/scenarios.py:168-212 | every scenario of a mode is one of its pairs of legs, weighed by both marginals, none listed twice |
| Prices.ModeCovers | src/optimiser/lp/scenarios.py:168-212 | and every pair of legs of the mode is listed |
| Prices.ScenarioWeightsSound | src/optimiser/lp/scenarios.py:168-227 | price scenarios are built iff the band weights are non-negative and add up to 1 within tolerance; their weights are then non-negative with positive total, 1 when the bands add up to 1 |
| Modes.ActiveExactly | src/optimiser/modes.py:184-271 | after any history a mode is active iff it was activated and not replaced, cancelled, seen expired or pruned since |
| Modes.MaskExactly | src/optimiser/modes.py:228-252 | a slot is masked iff a mode in force after the whole history covers it |
| Modes.ThresholdsExactly | src/optimiser/modes.py:246-252 | ceiling, cutoff and floor are those of the modes in force after the whole history, and absent without one |
| Modes.ReadsLeaveSlotsAhead | src/optimiser/modes.py:209-226 | dropping expired modes at reads, whenever they happen, never changes the mask of a slot starting no earlier |
| Modes.ModeManager.Cancel | src/optimiser/modes.py:200-207 | reports whether the history had left a mode of that kind in force, and ends it |
| Modes.ModeManager.ActiveAt | src/optimiser/modes.py:209-226 | exactly the unexpired modes survive |
| Modes.ModeManager.PruneSocReached | src/optimiser/modes.py:254-271 | afterwards no buy mode has a cutoff at or below the SOC |
| Modes.ModeManager.OverridesForTick | src/optimiser/service.py:1134-1141 | the overrides a tick plans with mask exactly the slots the history covers, and never carry a cutoff already reached |
| Builder.SlotZeroContainsStart | src/optimiser/lp/formulation.py:856-862 | slot 0 begins on a slot boundary of the hour, at or before the tick's instant and less than a slot earlier |
| Builder.TickSlotsSpaced | src/optimiser/lp/formulation.py:273-276 | kept slots are evenly spaced, contain the instant first and all start before the priced end |
| Builder.TickSlotsReachFar | src/optimiser/lp/formulation.py:273-276 | a further slot would start past the priced end or not fit into the horizon's hours |
| Builder.TruncateToPriced | src/optimiser/lp/formulation.py:910-931 | the longest prefix of slots that starts before the last priced instant |
| Builder.HorizonEndIsLatest | src/optimiser/lp/formulation.py:924 | the horizon end is the latest end of any interval and is one of them |
| Builder.PriceAtIsFirst | src/optimiser/lp/formulation.py:934-949 | the earliest listed interval covering an instant, and an error iff none covers it |
| Formulation.AddSlotVariables | src/optimiser/lp/formulation.py:390-455 | the bounds declared for a slot's variables, and no others |
| Formulation.AddFlows | src/optimiser/lp/formulation.py:496-554 | PV allocation, system balance and the three bookkeeping bounds of a slot |
| Formulation.AddBand | src/optimiser/lp/formulation.py:556-584 | soft ceiling and hard floor clamped to the initial SOC |
| Formulation.AddDynamics | src/optimiser/lp/formulation.py:589-597 | the SOC recurrence, charge derated, discharge not |
| Formulation.AddTerminal | src/optimiser/lp/formulation.py:613-629 | the slackened terminal reserve |
| Formulation.AddModes | src/optimiser/lp/formulation.py:647-688 | buy and conserve constraints in force in their windows, and the last buy slot |
| Formulation.AddScenario | src/optimiser/lp/formulation.py:345-688 | one scenario's constraints hold of an assignment iff its plan is feasible |
| Formulation.SlotTerms | src/optimiser/lp/formulation.py:708-766 | one slot's cost terms add up to its cost, tie-breaks and mode-free wear included |
| Formulation.CostTerms | src/optimiser/lp/formulation.py:707-775 | one scenario's terms add up to its weighted cost |
| Builder.AddNonAnticipativity | src/optimiser/lp/formulation.py:801-850 | ties exactly the slot-0 net battery power and the relays at every slot |
| Builder.EmitTies | src/optimiser/lp/formulation.py:325-330 | every scenario is tied to the base |
| Builder.Heaviest | src/optimiser/lp/formulation.py:325 | the base weighs at least as much as every scenario and more than every earlier one |
| Builder.EmitScenarios | src/optimiser/lp/formulation.py:284-309 | the nested loops emit every percentile-price pair once, with the product of the weights |
| Builder.BuildStochasticLp | src/optimiser/lp/formulation.py:262-339 | errors in the source's order; otherwise the problem holds of an assignment iff it is feasible for every scenario and tied, and its objective is the weighted cost |
| Builder.BuildLp | src/optimiser/lp/formulation.py:142-196 | the same for the single point-price scenario of weight 1 |
| Builder.TickBuildsIff | src/optimiser/lp/formulation.py:262-282 | the program is built iff the PV weights total 1 within tolerance, prices cover a first slot, and every slot has a price, a profile entry and mask entries |
| ScenarioInputs.EstimateIsFirst | src/optimiser/lp/formulation.py:865-886 | the percentile of the earliest listed forecast covering a slot, nothing where none does |
| ScenarioInputs.TickScenarioSees | src/optimiser/lp/formulation.py:284-309 | every scenario of the tick sees at every slot the quotes of one pair of legs, one percentile or the measurement, the profile's load and the masks, and weighs the product of both weights |
| ScenarioInputs.EveryPairIsPlanned | src/optimiser/lp/formulation.py:284-309 | every percentile used is planned with under every pair of legs of the mode |
| ScenarioInputs.PricesWithinBands | src/optimiser/lp/scenarios.py:135-153 | where bands are published a scenario's prices lie within them, at their ends for outer legs and at the prediction for the point leg |
| ScenarioInputs.LegsOrderPrices | src/optimiser/lp/scenarios.py:114-153 | at every slot scenarios of the low, predicted and high legs see prices in that order |
| ScenarioInputs.PlansKeepModes | src/optimiser/lp/formulation.py:604-688 | any plan of any scenario keeps the tick's buy ceiling, cutoff and conserve floor in their windows, and the end reserve of every floor and of table or override but for its slack |
| PlanEnergy.FeasibleExactly | src/optimiser/lp/formulation.py:345-688 | a plan is feasible iff its flows balance within the equipment in every slot, its level is what all flows so far leave, floors, windows and reserve are kept, and its relays suit their loads |
| PlanEnergy.SocIsEnergy | src/optimiser/lp/formulation.py:586-597 | at the end of any slot the battery holds what it started with plus all charge so far, derated, less all discharge |
| PlanEnergy.DischargeBounded | src/optimiser/lp/formulation.py:572-597 | up to any slot no more is discharged than lay above the highest floor plus what was stored, and no more stored than there was room for plus what was discharged |
| PlanEnergy.EnergyConserved | src/optimiser/lp/formulation.py:496-597 | up to any slot, sun and imports less consumption and exports are what the battery gained plus what charging lost |
| PlanEnergy.BatteryMayExport | src/optimiser/lp/formulation.py:505-518 | a concrete plan exporting from the battery is feasible |
| PlanCosts.BillIsEnergy | src/optimiser/lp/formulation.py:707-756 | a bill is energy bought less energy sold, wear on what is cycled outside the modes' exemptions, a cent per kWh curtailed and the tie-break nudges |
| PlanCosts.RewardIsForLastBuy | src/optimiser/lp/formulation.py:768-775 | the buy reward is for the SOC after the last buy slot, none without one |
| PlanCosts.SlacksAreTight | src/optimiser/lp/formulation.py:556-629 | an optimal plan carries exactly the slack its SOC needs above the ceiling and below the reserve |
| PlanCosts.StochSlacksAreTight | src/optimiser/lp/formulation.py:556-629 | so does every weighted scenario of a stochastic optimum |
| Recourse.IdleFeasible | src/optimiser/lp/formulation.py:490-688 | idling is feasible iff the relays are, the demand PV leaves fits the import bound, and no buy cutoff is below the SOC |
| Recourse.StochasticRecourse | src/optimiser/lp/formulation.py:801-850 | with one relay schedule idling is feasible for all scenarios and ties at once iff it suits the loads and every scenario has enough import and no cutoff behind its SOC |
| Recourse.TickIdles | src/optimiser/service.py:1140-1141 | after pruning, idling satisfies a tick's whole program iff the relay schedule suits the loads and PV and import together cover the demand under every percentile used |
| Recourse.TickHasPlanIff | src/optimiser/lp/formulation.py:262-339 | where they cover the greatest schedules, the tick's program has a feasible assignment iff every load's greatest schedule meets its targets |
| Recourse.FreeIsServable | src/optimiser/lp/loads.py:284-295 | a load no unfinished off-block holds back always meets them |
| Exchange.ReplaceSlot | src/optimiser/lp/formulation.py:586-597 | a slot may be replaced by any sound one ending at the same SOC, and the cost changes by that slot alone |
| Exchange.PvChurnImprovable | src/optimiser/lp/formulation.py:496-554 | charging from PV while discharging can be rewritten strictly cheaper, same SOC, one of the two flows gone |
| Exchange.GridChurnImprovable | src/optimiser/lp/formulation.py:530-597 | the same for grid charging at a non-negative import price |
| Exchange.WashImprovable | src/optimiser/lp/formulation.py:707-731 | importing beyond grid charging while exporting for less can be rewritten strictly cheaper without touching the battery |
| Exchange.OptimalIsTidy | src/optimiser/lp/formulation.py:707-775 | no deterministic optimum churns or trades against itself in any slot |
| Exchange.StochOptimalIsTidy | src/optimiser/lp/formulation.py:801-850 | nor does a stochastic one in a scenario that carries weight: churn after slot 0, trading in every slot |
| Exchange.ShippedOptimaAreTidy | src/optimiser/lp/constants.py:132-190 | with the shipped wear and efficiency, and import prices positive and above export prices, no weighted scenario of a stochastic optimum charges and discharges in one slot after slot 0, or exports while importing for the house |
| Refinement.HindsightBound | src/optimiser/lp/formulation.py:325-332 | a tied plan never costs less than the weighted sum of the scenarios' own optima |
| Refinement.WeightLeavesProblem | src/optimiser/lp/formulation.py:345-364 | a scenario's weight changes neither feasibility nor unweighted cost |
| Refinement.CompoundWeights | src/optimiser/lp/formulation.py:284-286 | compound weights total the product of the two totals and inherit non-negativity |
| Refinement.CopiesRefineDeterministic | src/optimiser/lp/formulation.py:325-332 | over copies of one scenario the optimum is its own, scaled, attained by using its plan everywhere |
| Refinement.TickRefinesDeterministic | src/optimiser/lp/formulation.py:262-339 | with coinciding percentiles, no bands and no slot-0 measurement every price mode has the deterministic optimum times the total weight |
| Refinement.TickEqualsDeterministic | src/optimiser/lp/formulation.py:262-339 | with PV weights adding up to 1 every stochastic optimum costs exactly what the deterministic one does |
| Refinement.DefaultWeightsAreUnit | src/optimiser/lp/formulation.py:262 | the weights used when none are given do add up to 1 |
| Solver.ReportedCost | src/optimiser/lp/solver.py:338-370 | objective less penalties plus rewards is exactly the weighted import, export, tie-break, wear and curtailment bill |
| Solver.CostIsBill | src/optimiser/lp/solver.py:349-362 | one scenario's cost without its slacks and reward is its bill |
| Solver.ExportCap | src/optimiser/lp/solver.py:332-336 | the site limit iff some scenario plans a material slot-0 export, else zero |
| Solver.CapCoversPlans | src/optimiser/lp/solver.py:332-336 | the cap leaves room for every scenario's slot-0 export iff one is material or all are zero |
| Solver.TinyExportIsCut | src/optimiser/lp/solver.py:332-336 | a concrete feasible plan whose positive export the cap cuts to nothing |
| Solver.Trajectory | src/optimiser/lp/solver.py:271-297 | one reported decision per slot, taken from the base plan |
| Solver.TrajectoryTells | src/optimiser/lp/solver.py:271-297 | in a reported trajectory all energy is accounted for, the battery flows are possible and turn each reported SOC into the next, the PV flows are the forecast less what is curtailed, and loads draw as scheduled |
| Solver.CommittedIsShared | src/optimiser/lp/formulation.py:801-850 | the battery power reported for slot 0 is what every scenario plans there |
| Solver.Commands | src/optimiser/lp/solver.py:300-306 | one command per load, none for an observed one |
| Solver.CommandsAreSlotZero | src/optimiser/lp/loads.py:301-321 | a relay is commanded on iff slot 0 has it on, in every scenario alike |
| Solver.Extract | src/optimiser/lp/solver.py:259-394 | what is committed and reported for a solution: a trajectory that tells all this, slot-0 commands, the cap of all scenarios, the expected bill |
| Simulate.Simulate | src/optimiser/simulate.py:428-524 | iterates through the window and executes exactly the run of its snapshots and solves |
| Simulate.SolvedIsFeasible | src/optimiser/simulate.py:441-482 | every plan a step executes is feasible for a scenario of this battery starting at the simulated SOC, because the solver satisfied the program emitted for that step |
| Simulate.PhysicsVersusPlan | src/optimiser/simulate.py:341-347 | executing a planned slot ends at the planned SOC plus exactly what the plan loses by charging and discharging at once, cut at 100 |
| Simulate.ExecutedOK | src/optimiser/simulate.py:341-363 | a solved or failed step keeps the SOC bounds, the floor, and balances the meter up to curtailed surplus |
| Simulate.ExecutesThePlan | src/optimiser/simulate.py:465-483 | a step runs the battery at the net power of its plan's slot 0, ending at the SOC planned unless that slot churns, and idles without a plan |
| Simulate.RunIsSafe | src/optimiser/simulate.py:428-524 | in any mix of solved, failed and skipped ticks steps chain and the SOC never falls below the smaller of initial SOC and floor |
| Simulate.MinSocIsReached | src/optimiser/simulate.py:241-242 | the reported minimum is the SOC of some step |
| Simulate.ReportedMinimumIsSafe | src/optimiser/simulate.py:241-242 | and it respects the same floor |
| Simulate.TotalIsBill | src/optimiser/simulate.py:485-490 | a run's total cost is what it buys less what it sells at the snapshots' prices over its slots |
| Breaker.LPRuntime.constructor | src/optimiser/lp/runtime.py:60-89 | starts unlatched with nothing commanded or counted |
| Breaker.LPRuntime.RecordCommand | src/optimiser/lp/runtime.py:91-111 | sets the command, restarts the deviation count, keeps latch and clean count |
| Breaker.LPRuntime.Latch | src/optimiser/lp/runtime.py:113-121 | latched as of now, both counters zero, nothing commanded |
| Breaker.LPRuntime.ClearLatch | src/optimiser/lp/runtime.py:123-129 | unlatched without time, reason or clean count, command and deviations kept |
| Watcher.VerificationWatcher.BeginPoll | src/optimiser/lp/watcher.py:66-91 | a poll proceeds iff a command is out and its grace period over, with the latch state of that moment |
| Watcher.VerificationWatcher.OnCleanVerification | src/optimiser/lp/watcher.py:122-155 | resets deviations; counts or clears by the latch state the poll began with |
| Watcher.VerificationWatcher.OnDeviation | src/optimiser/lp/watcher.py:157-176 | counts, drops probe progress, and asks for a trip iff the threshold is reached while unlatched |
| Watcher.VerificationWatcher.FinishTrip | src/optimiser/lp/watcher.py:198-218 | latches once the fallback is done |
| Service.Tick.Check | src/optimiser/service.py:487-515 | the LP runs iff the planner is on, prices exist and no cooldown is running; as a probe iff latched |
| Service.Tick.FinishSolve | src/optimiser/service.py:1142-1207 | a tick goes on, breaker untouched, iff an optimal or feasible status came back with a slot 0; every other end latches with the reason of its case |
| Service.Tick.FinishApply | src/optimiser/service.py:567-608 | a successful write leaves its command recorded and no deviations counted, a failed one leaves the breaker just latched |
| Service.TickEndsExactly | src/optimiser/service.py:1142-1207 | a tick past its check records its dispatch iff the solver returned a usable solution and the writes succeeded, and otherwise fails and latches for the reason of the case, as events of the protocol |
| Protocol.RunKeepsInv | src/optimiser/lp/runtime.py:106-129 | in every interleaving latched iff the latch time is set, and unlatched means no clean probe counted and no reason kept |
| Protocol.DeviationCounter | src/optimiser/lp/watcher.py:170-176 | the counter is the number of deviations since the last clean outcome, recorded command or latch |
| Protocol.CleanCounter | src/optimiser/lp/watcher.py:135-140 | the counter is the number of clean probe outcomes since the last latch, clearing or deviation |
| Protocol.TripExactly | src/optimiser/lp/watcher.py:170-211 | a deviation trips iff unlatched and it completes the threshold with no clean outcome, command or latch among them |
| Protocol.ClearExactly | src/optimiser/lp/watcher.py:122-155 | the breaker clears iff a clean probe outcome completes the threshold since the latest latch with no deviation among them |
| Protocol.ChecksExactly | src/optimiser/service.py:487-503 | a tick passes its check iff the breaker is not latched or a whole cooldown lies between the latch in force and the tick's start |
| Grace.OutcomesFollowGrace | src/optimiser/lp/watcher.py:82-91 | in every run an outcome belongs to a poll begun no sooner than the grace period after the last recorded command, which it judges |
| Grace.PollsOnceGraceIsOver | src/optimiser/lp/watcher.py:66-91 | a poll verifies iff a command is out and its grace over, with the latch state of that moment |
| StaleOutcomes.AllButOneFresh | src/optimiser/lp/watcher.py:69-155 | of the clean outcomes counted after any event all but at most one come from polls begun after it |
| StaleOutcomes.FreshCleansNeeded | src/optimiser/lp/watcher.py:122-155 | clearing after a latch takes at least one outcome fewer than the threshold from polls begun after it; with a threshold of two or more some poll begins in between |
| StaleOutcomes.StaleExactly | src/optimiser/lp/watcher.py:69-122 | a clean outcome after a latch counts without having been begun after it iff the tick set the latch and this is the outcome of the poll then in flight, which had seen an earlier latch |
| StaleOutcomes.TwoFreshCanSuffice | src/optimiser/lp/runtime.py:60-66 | a concrete run with the shipped thresholds in which a stale outcome and two fresh ones clear the breaker |
| Protocol.StaysLatched | src/optimiser/lp/runtime.py:69-121 | through a cooldown the breaker stays latched with a latch time no earlier than its start |
| Protocol.CooldownDiscipline | src/optimiser/service.py:487-608 | from a latch to the earlier of expiry and clearing at most one dispatch is recorded, only by the tick already past its check, and no later check passes |
| RelayLatch.BreakerRuns | src/optimiser/service.py:487-630 | with relay writes between its critical sections the breaker still goes through a run of its own |
| RelayLatch.RelayFrozen | src/optimiser/service.py:510-621 | in a cooldown a relay is closed only by a tick that could already send, and once that and any fallback are over it stays as it is |
| RelayLatch.WhoMaySend | src/optimiser/service.py:590-621 | after a tick's own latch it may send iff its dispatch had failed; after the watcher's latch a tick may send iff it could before |
| RelayLatch.CanBeOnIff | src/optimiser/service.py:590-621 | some continuation has the relay closed before the cooldown is over iff it is closed at the latch or a tick may then still send |
| RelayLatch.OnThroughCooldown | src/optimiser/service.py:590-621 | a concrete failed dispatch after which the relay stays closed through the whole cooldown |
| Shelly.ShellyLoadController.TrackRelayState | src/optimiser/clients/shelly.py:312-322 | keeps the state last seen and the time it was first seen |
| Shelly.ShellyLoadController.TrackRelayOnMinutes | src/optimiser/clients/shelly.py:287-310 | keeps the on-time booked since the day's first poll |
| Shelly.ShellyLoadController.TrackDailyEnergy | src/optimiser/clients/shelly.py:334-397 | keeps each side's sum of differences since the day's first reading, reset steps counted as zero |
| Shelly.DayEnergyAccounts | src/optimiser/clients/shelly.py:334-397 | whatever restarts happen, that sum is the true energy since the day's first reading less what passed around restarts that show and less what others hide, both non-negative |
| Shelly.ExactWhenRestartsShow | src/optimiser/clients/shelly.py:334-397 | nothing is hidden iff at every step of the day the counter follows the energy or drops by more than the threshold |
| Shelly.RestartsCanHide | src/optimiser/clients/shelly.py:352-360 | two concrete days, a drop within the threshold and a counter past its old value, whose figures are too low |
| Shelly.BookedError | src/optimiser/clients/shelly.py:287-310 | booked and true on-time differ by at most the poll gaps containing a switch |
| Shelly.BookedErrorBound | src/optimiser/clients/shelly.py:287-310 | hence by at most the longest gap times the number of switches |
| Dwell.SwitchNeedsDwell | src/optimiser/lp/loads.py:401-439 | without an override on slot 0 a commanded switch means the state was seen for its minimum full slots before slot 0 |
| Dwell.HeldSinceSeen | src/optimiser/clients/shelly.py:312-322 | since it was first seen the relay truly is in its state |
| Dwell.DwellRespected | src/optimiser/lp/loads.py:401-439 | in any run driven by the tick alone, with or without a plan each tick, a non-overridden switch comes only after the relay truly held its state for the minimum time |
| SnapshotLog.SnapshotFile.Write | src/optimiser/logging_utils.py:361-392 | one whole member appended, the file as it was, or, when the rollback fails too, part of a member left behind |
| SnapshotLog.SnapshotFile.Salvage | src/optimiser/logging_utils.py:296-316 | the walk finds the lines and counts the damage of its specification, and terminates |
| SnapshotLog.SnapshotFile.Probe | src/optimiser/logging_utils.py:285-294 | accepts exactly members back to back, zero padding allowed |
| SnapshotLog.SnapshotFile.Recover | src/optimiser/logging_utils.py:252-330 | no recovery reported means an unchanged file; otherwise one member holding the salvaged lines, counted |
| SnapshotLog.WalkKeepsReadable | src/optimiser/logging_utils.py:296-316 | the lines before the first damage are salvaged first, in order |
| SnapshotLog.HealedIsHealthy | src/optimiser/logging_utils.py:252-330 | a healed file is healthy, reads as the salvaged lines, and is left alone from then on |
| SnapshotLog.LeftDamagedExactly | src/optimiser/logging_utils.py:299-319 | a damaged file is left as it is iff it is intact members and one more byte that is nonzero or alone |
| SnapshotRuns.RunKeepsAcknowledged | src/optimiser/logging_utils.py:361-392 | through any run of appends, failures, crashes and heals every acknowledged line is, in order, among the lines of whole members, all of these can be salvaged, and a reader gets all of them iff, by the operations alone, nothing was appended behind a stray byte still there |
| SnapshotRuns.ByteTearHidesAppends | src/optimiser/logging_utils.py:299-319 | after such a crash the next acknowledged line is unreadable until a later heal |
| SnapshotStranded.HealsUnlessSettled | src/optimiser/logging_utils.py:252-330 | on members and parts of members in any order the healer acts, salvaging the whole ones, iff some part is not a single byte at the end |
| SnapshotStranded.AnyRunIsSalvaged | src/optimiser/logging_utils.py:361-392 | through any run, writes after failed rollbacks and unhealed crashes included, exactly the lines written in full can be salvaged, and a reader gets them all iff, by the operations alone, no whole member lies behind part of one |
| SnapshotCodec.FramedIsLawful | src/optimiser/logging_utils.py:193-218 | a self-delimiting codec with the laws asked of gzip exists, among them that nothing decodes inside part of a member |
| Profiler.SmoothSlots | src/optimiser/profiler.py:61-94 | identity up to window 1, an error for an even or oversized window, else the wrapped average of every slot |
| Profiler.SmoothingConserves | src/optimiser/profiler.py:73-94 | the sum of the profile is unchanged |
| Profiler.SmoothingStaysInRange | src/optimiser/profiler.py:80-94 | no smoothed slot leaves the profile's range |
| Profiler.SpikeSpreads | src/optimiser/profiler.py:80-94 | a single spike spreads evenly over the slots within half a window on either side, round the day, and nowhere else |

## Left out

- Floating point, the MIP gap and solver time limits: amounts are exact and the solver returns a feasible or optimal point.
- Loads without a status this tick are skipped by the source; the model's loads all have one.
- A PV weight under an unknown percentile name, which the source takes for p50; weights carry one of the three.
- Uniqueness of load ids and of PuLP constraint names.
- Calendars: time zones and daylight saving are an ordered map from days to their starts and deadlines, and no slot straddles a local midnight; the terminal-reserve table and the profile's slot index are functions of the instant.
- Persistence of modes, events, metrics and telemetry.
- TickHasPlanIff: asks that PV and import carry the greatest schedules; a plan that needs the battery to discharge for the demand to fit, or shorter schedules than the greatest, is not decided. TickIdles is exact for idling with any schedule.
- FeasibleIff: asks that an override beginning inside the horizon lasts a whole block, as it does when minimum runs are no longer than a local day (DaysLast); otherwise a load may have no greatest schedule (LoadGreatest.MayHaveNoGreatest).
- NextTickIff: asks the same, for the same reason.
- ScheduleSurvivesIff: a later tick in the same slot; once slot 0 has moved on, the old schedule has no entry for the last slot (FeasibleIff holds of any tick's load).
- StochOptimalIsTidy: says nothing about churn at slot 0, because the net power there is shared and undoing churn changes it.
- DwellRespected: excludes runs in which a fallback opens the relay or a read fails, because the source then skips the carry-over.
- RunKeepsAcknowledged: a crash is followed by a heal before the next append, because nothing is asked of what decodes inside part of a member; AnyRunIsSalvaged covers every run of a codec that decodes nothing there, as gzip does but for a checksum collision.
- RelayLatch models one signal-driven relay: cycle loads, a relay write that fails and commands from outside the tick are not part of it.
- Gzip compression, file locks and fsync: the codec is any self-delimiting one and each append or heal is atomic.
- Splitting a payload into lines: the log holds lines that are not blank and hold no line break, which is what reading back yields.
- In energy mode the load's counter restarts on the UTC date (clients/shelly.py:348-349) while its target is per local day (lp/loads.py:246-250): what was delivered today is an input, and the mismatch of the two days is not modelled.
- Verification of the measured battery power (lp/dispatch.py) and the fallback writes: a poll's outcome is arbitrary, a fallback may fail.
- Replay of recorded overrides, which compares slots with a missing end of window.
- The scenario modifiers of the simulator and the choice of the nearest snapshot.
- Modbus, Shelly, price, weather and forecast transport, the HTTP interface and the dashboards.
- `clients/sigenergy.py`, `state_machine.py`, `curtailment.py` and `store.py`: short sequences or shallow invariants next to the above.
