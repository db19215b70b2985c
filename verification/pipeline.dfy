/** The whole run (lib/algorithms.ts, `runEmergencyWaterSystem`): validate
    the inputs, predict shortages, allocate water, assign stations, and
    summarise.  Each rejected input is an error value where the source
    throws. */
module Pipeline {
  import opened Wrappers
  import opened ExtReals
  import opened StableSort
  import opened WaterTypes
  import opened Prediction
  import opened Allocation
  import opened AllocationLemmas
  import opened Assignment
  import opened AssignmentLemmas

  /** The four inputs the run refuses, in the order it checks them. */
  datatype PipelineError = NoBarangays | NoPumpingStations | NoLiveBarangayData | InvalidEmergencyDuration

  datatype SystemState = SystemState(
    waterTowers: seq<WaterTower>,
    pumpingStations: seq<PumpingStation>,
    barangays: seq<Barangay>,
    assignmentMatrix: seq<AssignmentMatrix>,
    liveBarangayData: seq<LiveBarangayData>,
    liveTowerData: seq<LiveTowerData>,
    liveStationData: seq<LiveStationData>,
    userInput: UserInput,
    shortagePredictions: seq<ShortagePrediction>,
    waterAllocations: seq<WaterAllocation>,
    stationAssignments: seq<StationAssignment>,
    totalWaterNeeded: real,
    totalWaterAvailable: real,
    totalWaterAllocated: real,
    barangaysHelped: nat,
    barangaysNeededHelp: nat)

  // Summary metrics

  function TotalNeeded(allocs: seq<WaterAllocation>): real {
    if |allocs| == 0 then 0.0 else allocs[0].waterNeeded + TotalNeeded(allocs[1..])
  }

  function TotalAllocated(allocs: seq<WaterAllocation>): real {
    if |allocs| == 0 then 0.0 else allocs[0].waterAllocated + TotalAllocated(allocs[1..])
  }

  /** How many zones received any water. */
  function Helped(allocs: seq<WaterAllocation>): (n: nat)
    ensures n <= |allocs|
  {
    if |allocs| == 0 then 0 else (if allocs[0].isAllocated then 1 else 0) + Helped(allocs[1..])
  }

  /** The check that fails first, if any. */
  function Validate(barangays: seq<Barangay>, stations: seq<PumpingStation>, live: seq<LiveBarangayData>,
                    input: UserInput): (e: Option<PipelineError>)
    ensures e.None? <==> |barangays| > 0 && |stations| > 0 && |live| > 0 && input.emergencyDuration > 0.0
    ensures e == Some(NoBarangays) <==> |barangays| == 0
    ensures e == Some(NoPumpingStations) <==> |barangays| > 0 && |stations| == 0
    ensures e == Some(NoLiveBarangayData) <==> |barangays| > 0 && |stations| > 0 && |live| == 0
    ensures e == Some(InvalidEmergencyDuration) <==>
      |barangays| > 0 && |stations| > 0 && |live| > 0 && input.emergencyDuration <= 0.0
  {
    if |barangays| == 0 then Some(NoBarangays)
    else if |stations| == 0 then Some(NoPumpingStations)
    else if |live| == 0 then Some(NoLiveBarangayData)
    else if input.emergencyDuration <= 0.0 then Some(InvalidEmergencyDuration)
    else None
  }

  /** The run: the three stages in sequence over validated inputs. */
  function RunEmergencyWaterSystem(
    towers: seq<WaterTower>, stations: seq<PumpingStation>, barangays: seq<Barangay>,
    matrix: seq<AssignmentMatrix>, live: seq<LiveBarangayData>, liveTowers: seq<LiveTowerData>,
    liveStations: seq<LiveStationData>, input: UserInput): (r: Result<SystemState, PipelineError>)
    ensures r.Failure? <==> Validate(barangays, stations, live, input).Some?
    ensures r.Failure? ==> Validate(barangays, stations, live, input) == Some(r.error)
    ensures r.Success? ==>
      var s := r.value;
      && s.shortagePredictions == PredictShortages(barangays, live, input)
      && s.waterAllocations == AllocateWater(barangays, live, liveTowers, s.shortagePredictions, input)
      && s.stationAssignments == AssignStationsToBarangays(barangays, stations, matrix, s.waterAllocations)
      && s.totalWaterAvailable == TotalTowerWater(liveTowers)
      && s.totalWaterNeeded == TotalNeeded(s.waterAllocations)
      && s.totalWaterAllocated == TotalAllocated(s.waterAllocations)
      && s.barangaysHelped == Helped(s.waterAllocations)
      && s.barangaysHelped <= s.barangaysNeededHelp == |s.waterAllocations|
  {
    match Validate(barangays, stations, live, input)
    case Some(e) => Failure(e)
    case None =>
      var preds := PredictShortages(barangays, live, input);
      var allocs := AllocateWater(barangays, live, liveTowers, preds, input);
      var assignments := AssignStationsToBarangays(barangays, stations, matrix, allocs);
      Success(SystemState(
        towers, stations, barangays, matrix, live, liveTowers, liveStations, input,
        preds, allocs, assignments,
        TotalNeeded(allocs), TotalTowerWater(liveTowers), TotalAllocated(allocs),
        Helped(allocs), |allocs|))
  }

  // ---------------------------------------------------------------------
  // What a successful run promises

  lemma {:induction false} AllocatedWithinNeeded(allocs: seq<WaterAllocation>)
    requires AllWellShaped(allocs)
    ensures 0.0 <= TotalAllocated(allocs) <= TotalNeeded(allocs)
    decreases |allocs|
  {
    if |allocs| > 0 {
      assert WellShaped(allocs[0]);
      assert AllWellShaped(allocs[1..]) by {
        forall i | 0 <= i < |allocs[1..]| ensures WellShaped(allocs[1..][i]) {
          assert allocs[1..][i] == allocs[i + 1];
        }
      }
      AllocatedWithinNeeded(allocs[1..]);
    }
  }

  /** Every zone in the allocation list needed water; the run hands out no
      more than was needed in total, and only well-formed allocations. */
  lemma RunAllocationsSound(
    towers: seq<WaterTower>, stations: seq<PumpingStation>, barangays: seq<Barangay>,
    matrix: seq<AssignmentMatrix>, live: seq<LiveBarangayData>, liveTowers: seq<LiveTowerData>,
    liveStations: seq<LiveStationData>, input: UserInput)
    requires Validate(barangays, stations, live, input).None?
    ensures var s := RunEmergencyWaterSystem(towers, stations, barangays, matrix, live, liveTowers, liveStations, input).value;
      && AllWellShaped(s.waterAllocations)
      && 0.0 <= s.totalWaterAllocated <= s.totalWaterNeeded
  {
    var preds := PredictShortages(barangays, live, input);
    PredictionsAgree(barangays, live, input);
    AllocationsWellShaped(barangays, live, liveTowers, preds, input);
    AllocatedWithinNeeded(AllocateWater(barangays, live, liveTowers, preds, input));
  }

  lemma TowerDrawsNonNegative(allocs: seq<WaterAllocation>)
    requires AllWellShaped(allocs)
    ensures forall j | 0 <= j < |allocs| :: TowerWater(allocs[j].waterSources) >= 0.0
  {
    forall j | 0 <= j < |allocs| ensures TowerWater(allocs[j].waterSources) >= 0.0 {
      assert WellShaped(allocs[j]);
    }
  }

  /** With distinct zone ids and a non-negative tower reading, the run never
      commits more tower water than the towers hold, the stations deliver no
      more than that, no donor gives more than its safe excess, and once a
      zone is only partly served nobody after it gets anything. */
  lemma RunRespectsCapacity(
    towers: seq<WaterTower>, stations: seq<PumpingStation>, barangays: seq<Barangay>,
    matrix: seq<AssignmentMatrix>, live: seq<LiveBarangayData>, liveTowers: seq<LiveTowerData>,
    liveStations: seq<LiveStationData>, input: UserInput)
    requires DistinctBy(barangays, BarangayId)
    requires TotalTowerWater(liveTowers) >= 0.0
    requires Validate(barangays, stations, live, input).None?
    ensures var s := RunEmergencyWaterSystem(towers, stations, barangays, matrix, live, liveTowers, liveStations, input).value;
      && AllTowerWater(s.waterAllocations) <= s.totalWaterAvailable
      && TotalDelivered(s.stationAssignments) <= s.totalWaterAvailable
      && (forall id :: AllDonorWater(s.waterAllocations, id) > 0.0 ==>
            FindLive(live, id).Some? &&
            AllDonorWater(s.waterAllocations, id) <= SafeExcessWater(FindLive(live, id).value, input.emergencyDuration))
      && NothingAfterPartial(s.waterAllocations)
  {
    var preds := PredictShortages(barangays, live, input);
    var allocs := AllocateWater(barangays, live, liveTowers, preds, input);
    PredictionsAgree(barangays, live, input);
    PredictionsDistinct(barangays, live, input);
    CapacityRespected(barangays, live, liveTowers, preds, input);
    PartialServiceEndsTheRun(barangays, live, liveTowers, preds, input);
    AllocationsWellShaped(barangays, live, liveTowers, preds, input);
    TowerDrawsNonNegative(allocs);
    DeliveredWithinTowerDraws(allocs, stations, matrix);
  }
}
