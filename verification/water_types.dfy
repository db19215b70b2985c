/** The records the pipeline works on, transcribed from the interfaces of
    lib/supabase.ts.  Numbers are exact reals; a JavaScript `number` that can
    be `Infinity` is an `ExtReal`; an optional field is an `Option`.  Water
    provenance, which the source writes as display strings such as
    "Pumping Stations (1,200L)", is a structured `Source`. */
module WaterTypes {
  import opened Wrappers
  import opened ExtReals

  datatype Location = Location(lat: real, lng: real)

  // Static topology

  datatype WaterTower = WaterTower(id: string, name: string, location: Location, maxCapacity: real)

  datatype PumpingStation = PumpingStation(
    id: string,
    name: string,
    location: Location,
    thresholdFlowRate: real,
    priority: real,
    populationServed: real)

  datatype Barangay = Barangay(id: string, name: string, location: Location)

  /** One entry of the sparse station/zone eligibility matrix (distance in km). */
  datatype AssignmentMatrix = AssignmentMatrix(stationId: string, barangayId: string, distance: real, cost: real)

  datatype TowerStationMapping = TowerStationMapping(towerId: string, stationId: string, waterAllocated: real, efficiency: real)

  // Live telemetry

  /** Flow in L/s, drop rate in L/s per hour. */
  datatype LiveBarangayData = LiveBarangayData(barangayId: string, currentFlowRate: real, dropRate: real)

  datatype LiveTowerData = LiveTowerData(towerId: string, currentWater: real)

  datatype LiveStationData = LiveStationData(stationId: string, currentFlowRate: real)

  /** The planning horizon, in hours. */
  datatype UserInput = UserInput(emergencyDuration: real)

  // Results

  datatype Status = Safe | Warning | Critical

  datatype ShortagePrediction = ShortagePrediction(
    barangay: Barangay,
    gScore: real,
    hScore: ExtReal,
    fScore: ExtReal,
    timeToShortage: ExtReal,
    status: Status,
    waterNeededToBeSafe: Option<real>)

  /** Where part of an allocation came from: a donor zone, or the towers
      taken together (the source labels them all "Pumping Stations"). */
  datatype Source = Donor(barangayId: string, amount: real) | Towers(amount: real)

  datatype WaterAllocation = WaterAllocation(
    barangay: Barangay,
    isAllocated: bool,  // the source's `allocated` (a reserved word here)
    waterNeeded: real,
    waterAllocated: real,
    priority: int,
    status: Status,
    waterSources: seq<Source>)

  datatype StationAssignment = StationAssignment(
    station: PumpingStation,
    assignedBarangays: seq<Barangay>,
    totalWaterDelivered: real,
    totalDistance: real)

  // Sums over provenance records

  /** Total of all recorded contributions. */
  function SourcesTotal(sources: seq<Source>): real {
    if |sources| == 0 then 0.0 else sources[0].amount + SourcesTotal(sources[1..])
  }

  /** Total drawn from the towers. */
  function TowerWater(sources: seq<Source>): real {
    if |sources| == 0 then 0.0
    else (if sources[0].Towers? then sources[0].amount else 0.0) + TowerWater(sources[1..])
  }

  /** Total drawn from the donor zone `id`. */
  function DonorWater(sources: seq<Source>, id: string): real {
    if |sources| == 0 then 0.0
    else (if sources[0].Donor? && sources[0].barangayId == id then sources[0].amount else 0.0)
         + DonorWater(sources[1..], id)
  }

  predicate HasTowerSource(sources: seq<Source>) {
    exists i | 0 <= i < |sources| :: sources[i].Towers?
  }

  function BarangayId(b: Barangay): string { b.id }
  function PredictionId(p: ShortagePrediction): string { p.barangay.id }
  function StationId(a: StationAssignment): string { a.station.id }

  lemma {:induction false} SourcesConcat(a: seq<Source>, b: seq<Source>, id: string)
    ensures SourcesTotal(a + b) == SourcesTotal(a) + SourcesTotal(b)
    ensures TowerWater(a + b) == TowerWater(a) + TowerWater(b)
    ensures DonorWater(a + b, id) == DonorWater(a, id) + DonorWater(b, id)
    decreases |a|
  {
    if |a| == 0 {
      assert a + b == b;
    } else {
      assert (a + b)[1..] == a[1..] + b;
      SourcesConcat(a[1..], b, id);
    }
  }
}
