# AGOS emergency water pipeline — a Dafny model

AGOS plans emergency water distribution for a city's barangays (zones).
`lib/algorithms.ts` chains three stages, and `runEmergencyWaterSystem`
validates the inputs and summarises the result:

1. **Shortage prediction** (`predictShortages`). Each zone gets a flow-deficit
   score (gScore), the hours until its flow decays to the 20 L/s threshold
   (hScore), their sum (fScore), a status and the water it needs to stay safe
   through the emergency. The predictions are sorted by fScore.
2. **Water balancing** (`allocateWater`). Zones below their target flow are
   recipients, served in priority order. Zones that outlast the emergency
   with a safe surplus are donors. A single greedy pass serves each recipient
   fully, partially or not at all: donors first (most stable first), then the
   towers.
3. **Station assignment** (`assignStationsToBarangays`). Each allocated zone
   that drew on the towers is routed through the nearest eligible pumping
   station. Stations collect their zones, tower water and distances.

The project also models the donor example of `test-calculation.js`.

Modules, one per file:

- `Wrappers` — `Option` and `Result`.
- `ExtReals` — reals with `+∞`, for the source's `Infinity`.
- `StableSort` — one stable descending sort, used for every sort in the code.
- `Positions` — the positions a `filter` keeps, and the kept entries in order.
- `WaterTypes` — the records of `lib/supabase.ts`.
- `Prediction`
- `Allocation` and `AllocationLemmas`
- `Assignment` and `AssignmentLemmas`
- `Pipeline`
- `DonationScenario`

Numbers are exact reals. Scores are rounded to one decimal as the code
rounds them, on exact values. Water provenance is a structured `Source` rather
than the display strings ("Pumping Stations (1,200L)") the code writes and
parses back.

Where the code and its documentation disagree, the model follows the code:

- **Zones without live data are ranked first.** Predictions are sorted by
  *descending* fScore, and such a zone has an fScore of `Infinity`.
- **Towers are one pooled counter.** Tower draws are not tracked per tower.
- **The assigner never clips to a tower's or station's capacity.** It also
  ignores the tower–station mapping.
- **A matrix distance of 0 counts as infinitely far.** The nearest-station
  search reads `distance || Infinity`.
- **Donor capacity is the smaller of two estimates.** The capacity is
  `min(maxSafeDonation, excessWaterAfterEmergency)`. `test-calculation.js`
  expects the larger one (15,840 L instead of 8,640 L in its example).

## Model

| member | source | states |
|---|---|---|
| StableSort.SortPermutes | lib/algorithms.ts:75 | The sorted list holds exactly the input elements, each as often as in the input. |
| StableSort.SortSorted | lib/algorithms.ts:75 | The sorted list is non-increasing in the key. |
| StableSort.SortStable | lib/algorithms.ts:75 | For every key value, the elements with that key keep their input order, as JavaScript's `Array.prototype.sort` guarantees. |
| StableSort.SortDistinct | lib/algorithms.ts:75 | Sorting keeps elements with distinct ids distinct. |
| Prediction.FindLive | lib/algorithms.ts:24 | Returns the first reading carrying the zone's id. It returns none exactly when no reading carries that id. |
| Prediction.TargetFlowEndsAtThreshold | lib/algorithms.ts:51-52 | A zone that starts at its target flow and decays at its drop rate for the whole emergency ends exactly at the threshold. |
| Prediction.HScore | lib/algorithms.ts:36-38 | The hours to shortage are finite exactly when the drop rate is positive. In that case, decaying for that many hours brings the flow exactly to the 20 L/s threshold. |
| Prediction.WaterNeededToBeSafe | lib/algorithms.ts:47-63 | The water needed is never negative. It is zero exactly when the flow already meets the target. Otherwise one hour of it brings the flow exactly up to the target. |
| Prediction.StatusByHoursToShortage | lib/algorithms.ts:40-45 | For a decaying zone: Critical iff the threshold is already crossed, Warning iff it is reached within the hour, Safe beyond that. For a non-decaying zone: the status follows the comparison of flow with the threshold. |
| Prediction.RoundTenth | lib/algorithms.ts:67-70 | `Math.round(x * 10) / 10` is a whole number of tenths within half a tenth of `x`, with halves rounded up. |
| Prediction.RoundsToUnique | lib/algorithms.ts:67-70 | Only one tenth is that close to `x`, so the contract above fixes the rounded value. |
| Prediction.WarningWithinTheHour | lib/algorithms.ts:35-44 | The test `hScore <= 1` holds exactly when the flow drops and is within one hour's drop of the threshold. |
| Prediction.PredictOne | lib/algorithms.ts:23-73 | A zone without live data gets the all-`Infinity`, Safe prediction with no water figure. A zone with data is Critical exactly when it flows below 20 L/s. It is Warning exactly when it is at 20 L/s or reaches 20 L/s within the hour. Its hScore, fScore and timeToShortage are infinite exactly when its flow does not drop. Otherwise each score is the nearest tenth of 50 − flow, of the hours to shortage, and of their sum. It carries its water need. |
| Prediction.PredictShortages | lib/algorithms.ts:17-76 | There is exactly one prediction per input zone. |
| Prediction.PredictionsCover | lib/algorithms.ts:17-76 | Every zone's prediction is in the result and every result comes from an input zone. The result is a permutation of the per-zone predictions. |
| Prediction.PredictionsRanked | lib/algorithms.ts:75 | The predictions are in non-increasing fScore order. Ties keep input order. |
| Prediction.PredictionsAgree | lib/algorithms.ts:47-63 | Every prediction whose zone has live data carries that reading's water need. |
| Prediction.PredictionsDistinct | lib/algorithms.ts:23 | Zones with distinct ids give predictions with distinct ids. |
| Allocation.NeedyInOrder | lib/algorithms.ts:108-130 | The recipients are the predictions whose zones have live data and flow below target. Each appears exactly once and in prediction order. The `i`-th recipient comes from the `i`-th such position, and the positions are listed increasing and completely. |
| Allocation.NeedyMembers | lib/algorithms.ts:108-130 | Every recipient comes from a needy prediction, and every needy prediction yields a recipient. |
| Allocation.RecipientsRanked | lib/algorithms.ts:124-131 | Recipients are a permutation of the needy list, ordered by non-increasing priority (10/5/1). Equal priorities keep prediction order. |
| Allocation.SafeExcessWater | lib/algorithms.ts:144-168 | A donor's capacity is never negative and never exceeds the maximum safe donation. Over a non-negative duration it never exceeds the end-of-emergency surplus and equals one of the two, so it is exactly the smaller. It is positive only if the zone flows above its target. |
| Allocation.SuppliersFromSpec | lib/algorithms.ts:135-180 | Every donor comes from a prediction that outlasts the emergency and has live data. Its capacity is that zone's safe excess, and it is positive. |
| Allocation.SuppliersFromComplete | lib/algorithms.ts:135-180 | Every prediction that outlasts the emergency, has live data and a positive safe excess yields a donor. |
| Allocation.DonorsAreTheEligible | lib/algorithms.ts:135-180 | A zone is a donor exactly when one of its predictions outlasts the emergency, has live data and a positive safe excess. |
| Allocation.SuppliersFromRanks | lib/algorithms.ts:220-224 | Each donor is ranked by the time to shortage of the first prediction for its zone. |
| Allocation.SuppliersDistinct | lib/algorithms.ts:135-180 | Distinct prediction ids give distinct donor ids, all drawn from the predictions. |
| Allocation.SuppliersRanked | lib/algorithms.ts:219-224 | Donors are a permutation ordered by non-increasing time to shortage. Ties keep their order. |
| Allocation.ServeAll | lib/algorithms.ts:196-305 | The single pass produces one allocation per recipient, in recipient order, each carrying that recipient's zone, need, priority and status. |
| Allocation.AllocateWater | lib/algorithms.ts:86-105 | Empty zone, live-data or prediction lists, or a non-positive duration, give no allocations. Otherwise there is one allocation per ranked recipient, in order. |
| AllocationLemmas.DrawTotals | lib/algorithms.ts:226-241 | The donor walk hands out exactly the amount asked for, less an unmet remainder between 0 and the amount. It draws only from donors. |
| AllocationLemmas.DrawCounts | lib/algorithms.ts:229-239 | Each donor's usage counter grows by exactly what the walk records for that donor. |
| AllocationLemmas.DrawWithinCapacity | lib/algorithms.ts:229-239 | A donor within its capacity before the walk is within it afterwards. |
| AllocationLemmas.DrawRemaining | lib/algorithms.ts:204-207 | The donors' remaining supply drops by exactly what the walk took. |
| AllocationLemmas.DrawExhausts | lib/algorithms.ts:226-246 | If the walk leaves part of the need unmet, no donor has anything left. |
| AllocationLemmas.RemainingSort | lib/algorithms.ts:219-224 | Reordering the donors does not change the remaining supply. |
| AllocationLemmas.FulfilSources | lib/algorithms.ts:226-247 | The recorded sources sum to the amount served. The tower share equals the growth of the pooled tower counter. |
| AllocationLemmas.FulfilTowerShare | lib/algorithms.ts:243-247 | The tower share lies between 0 and the amount served. |
| AllocationLemmas.SortedDraw | lib/algorithms.ts:202-247 | Walking the sorted donors leaves an unmet part between 0 and the amount. The donors' remaining supply drops by what they gave, and reaches 0 if anything is left unmet. |
| AllocationLemmas.FulfilLedger | lib/algorithms.ts:202-247 | The tower counter grows by between 0 and the amount. The donors' remaining supply drops by the rest, and reaches 0 whenever the towers had to give anything. |
| AllocationLemmas.FulfilAccounting | lib/algorithms.ts:202-247 | The towers supply exactly what exceeds the donors' remaining supply. The donors keep exactly what was not taken. |
| AllocationLemmas.FulfilUsage | lib/algorithms.ts:226-247 | Donor counters grow by what the sources record. Non-donors are never drawn on. Capacities stay respected. |
| AllocationLemmas.ServeShape | lib/algorithms.ts:210-291 | Each allocation is within its need, never negative, and exactly covered by its sources. Its tower share is within the allocation, and it is marked allocated iff it received water. |
| AllocationLemmas.ServeTowers | lib/algorithms.ts:202-247 | Serving one recipient grows the tower counter by its tower share and never past the towers' total. |
| AllocationLemmas.ServeNothingLeft | lib/algorithms.ts:286-291 | With nothing left, a recipient gets nothing and usage is unchanged. |
| AllocationLemmas.ServeExhausts | lib/algorithms.ts:249-283 | After a partial serve, nothing remains anywhere. |
| AllocationLemmas.ServeDonors | lib/algorithms.ts:226-283 | Serving one recipient updates donor counters exactly by its recorded donations and keeps them within capacity. |
| AllocationLemmas.ServeAllShape | lib/algorithms.ts:196-305 | Every allocation of the pass is well shaped. |
| AllocationLemmas.ServeAllTowers | lib/algorithms.ts:196-305 | The tower counter ends at the sum of all tower shares and never exceeds the towers' total. |
| AllocationLemmas.ServeAllDonors | lib/algorithms.ts:196-305 | Each donor's counter ends at the sum of its recorded donations. Non-donors give nothing, and capacities hold throughout. |
| AllocationLemmas.ServeAllStaysEmpty | lib/algorithms.ts:286-291 | Once nothing remains, no later recipient gets anything. |
| AllocationLemmas.ServeAllPartial | lib/algorithms.ts:249-291 | After a partially served recipient, every later recipient gets nothing. |
| AllocationLemmas.RecipientNeedsWater | lib/algorithms.ts:108-126 | A prediction that needs water carries a positive water need. |
| AllocationLemmas.RecipientsNeedWater | lib/algorithms.ts:108-126 | Every recipient's need is positive. |
| AllocationLemmas.NoRecipientIsDonor | lib/algorithms.ts:107-180 | No zone is both a recipient and a donor. |
| AllocationLemmas.AllocationsWellShaped | lib/algorithms.ts:196-305 | Every allocation returned by the allocator is well shaped. |
| AllocationLemmas.DonorWithinSafeExcess | lib/algorithms.ts:160-240 | A zone that gave water in a run is a donor with live data. In total it gave no more than its safe excess. |
| AllocationLemmas.CapacityRespected | lib/algorithms.ts:182-305 | With distinct zone ids and a non-negative tower total, the towers never give more than they hold, and each donor never gives more than its safe excess. Recipients never donate. |
| AllocationLemmas.PartialServiceEndsTheRun | lib/algorithms.ts:249-291 | In the allocator's result, after a partially served zone, no later zone gets water. |
| Assignment.FindEntry | lib/algorithms.ts:360-362 | What is found is a matrix entry for the station/zone pair. |
| Assignment.FindEntryFirst | lib/algorithms.ts:360-362 | The entry found is the first for the pair. None is found exactly when the matrix has no entry for the pair. |
| Assignment.EligibleMembers | lib/algorithms.ts:359-364 | The eligible stations are exactly the given stations that have a matrix entry for the zone. |
| Assignment.EligibleInOrder | lib/algorithms.ts:359-364 | The eligible stations keep the station list's order, each listed once per position. |
| Assignment.NearestIndexSpec | lib/algorithms.ts:366-376 | The `reduce` picks a candidate at least as near (as compared) as every other and strictly nearer than every earlier one. Ties go to the first. |
| Assignment.RouteExists | lib/algorithms.ts:341-365 | An allocation is routed exactly when it was allocated water, drew on the towers, and some station may serve its zone. |
| Assignment.RouteFields | lib/algorithms.ts:366-393 | A route carries the zone's tower share through one of the stations, at that station's listed distance. |
| Assignment.RouteNearest | lib/algorithms.ts:359-376 | The chosen station is at a position that may serve the zone. As compared, it is no farther than any station that may, and strictly nearer than every one listed before it, so ties go to the first in list order. |
| Assignment.EarliestNearestUnique | lib/algorithms.ts:366-376 | Only one position meets that description, so the route's station is fully determined. |
| Assignment.DeliverExisting | lib/algorithms.ts:396-402 | A route through a station that already has a summary appends the zone and adds the water and distance. |
| Assignment.DeliverNew | lib/algorithms.ts:403-411 | A route through a new station opens a summary for it. |
| Assignment.Collect | lib/algorithms.ts:340-419 | The summaries have distinct stations. Each one lists exactly its station's routes: their zones in order, total water and total distance. Every route's station has a summary, and the grand totals match the routes. |
| Assignment.AssignStationsToBarangays | lib/algorithms.ts:311-422 | Any empty input list gives no assignments. Otherwise the result summarises the routes, as above. |
| AssignmentLemmas.LegsAreRoutes | lib/algorithms.ts:347-357 | Every route comes from one of the allocations. |
| AssignmentLemmas.RoutesAreLegs | lib/algorithms.ts:347-357 | Every allocation that has a route contributes it. |
| AssignmentLemmas.AssignedZonesAreTowerFed | lib/algorithms.ts:341-357 | A zone listed under a station was allocated water, drew on the towers, and is routed through that station. |
| AssignmentLemmas.RoutedZonesAreAssigned | lib/algorithms.ts:347-411 | A routed zone is listed under its route's station. |
| AssignmentLemmas.RouteIsNearest | lib/algorithms.ts:366-376 | When every matrix distance is positive, the chosen station is at the least listed distance among the eligible stations. |
| AssignmentLemmas.ZeroDistanceCountsAsFar | lib/algorithms.ts:369-375 | A station listed at distance 0 loses to one at 5 km. |
| AssignmentLemmas.RoutedWaterBound | lib/algorithms.ts:384-393 | The routes carry no more than the tower water the allocations drew. |
| AssignmentLemmas.DeliveredWithinTowerDraws | lib/algorithms.ts:384-411 | The stations together deliver no more than the allocations drew from the towers. |
| Pipeline.Validate | lib/algorithms.ts:436-454 | Each of the four rejections happens exactly when its check is the first to fail, in the source's order. |
| Pipeline.Helped | lib/algorithms.ts:477 | Never more zones helped than allocations. |
| Pipeline.RunEmergencyWaterSystem | lib/algorithms.ts:425-502 | The run fails exactly on invalid input, with the first failing check's error. On success it chains the three stages. It reports the towers' total, the summed need and allocation over the allocations, and the number of zones helped. helped ≤ needed-help = number of allocations. |
| Pipeline.AllocatedWithinNeeded | lib/algorithms.ts:474-476 | For well-shaped allocations, the total allocated lies between 0 and the total needed. |
| Pipeline.RunAllocationsSound | lib/algorithms.ts:458-478 | For inputs that pass validation, the run's allocations are well shaped, and 0 ≤ totalWaterAllocated ≤ totalWaterNeeded. |
| Pipeline.RunRespectsCapacity | lib/algorithms.ts:456-478 | For inputs that pass validation, with distinct zone ids and a non-negative tower reading, the run stays within capacity. Tower draws and station deliveries stay within the towers' total. Each donor gives at most its safe excess. Nobody after a partially served zone gets water. |
| DonationScenario.ScenarioFigures | test-calculation.js:4-26 | For 28 L/s, 1.2 L/s/h and 3 h, the figures are: target 23.6 L/s, max safe donation 15,840 L, flow after emergency 24.4 L/s, excess after emergency 8,640 L. |
| DonationScenario.ScenarioCapacityIsMinimum | test-calculation.js:28-36 | The allocator's capacity rule gives 8,640 L here, less than the 15,840 L the script names as expected. |
| DonationScenario.ScenarioDonor | lib/algorithms.ts:135-180 | Run through prediction and donor selection, Barangay 5 is the only donor and offers 8,640 L. |
| DonationScenario.RoundedTimeGatesDonors | lib/algorithms.ts:135-140 | A zone at 20.03 L/s dropping 1 L/s per hour has 0.36 L of safe surplus over 0.01 h. Its rounded time to shortage is 0.0, so it is not a donor. |

## Left out

- Floating point. Scores are rounded to one decimal on exact reals; binary floating-point effects (such as `0.35 * 10` not being exactly 3.5) are not modelled.
- Tower amounts at the assigner. The allocator writes tower water as "Pumping Stations (…L)" with `toLocaleString`, whose output depends on the locale. The assigner strips commas and reads the number back with `parseInt` (lib/algorithms.ts:385-388), which keeps only the whole litres before any other separator. The model carries exact amounts.
- NaN comparators. A sort comparator returning `NaN` (`Infinity - Infinity` between two non-decaying zones) is treated as a tie. The model is a stable sort; the JavaScript result is engine-dependent.
- Source strings. Provenance is matched on the substring "Pumping Stations", so a donor zone whose name contains that phrase would be miscounted as tower water. The model keeps sources structured.
- `console` logging, the `try`/`catch` blocks (no modelled step throws), and the Supabase client are not part of this model.
- The React UI is not part of this model. This covers `app/` and `components/`.
- The supplier fields `currentFlowRate`, `safeFlowRate`, `availableFlowRate` and `status` are not modelled. They are computed but never read by the allocator.
- Unused inputs. `TowerStationMapping` and `LiveStationData` are carried but never consulted by the algorithms. The assigner's `liveBarangayData` and `shortagePredictions` parameters are unused in the source and dropped here.
- Distinct ids. CapacityRespected, PartialServiceEndsTheRun and RunRespectsCapacity assume distinct zone ids. With duplicate ids the source counts a donor's surplus once per duplicate in its remaining-water total.
