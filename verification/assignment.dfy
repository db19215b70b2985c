/** Station assignment (lib/algorithms.ts, `assignStationsToBarangays`).

    Every zone that was allocated water and drew part of it from the towers
    is routed through the nearest pumping station the eligibility matrix
    allows, and each station's summary gathers the zones it serves, the
    tower water it carries and the distances of those routes.  Zones fed
    only by donors are not routed.  Distances are compared as the source
    reads them, `entry?.distance || Infinity`: an entry at distance 0 is as
    far as no entry at all. */
module Assignment {
  import opened Wrappers
  import opened ExtReals
  import opened StableSort
  import opened WaterTypes
  import opened Positions

  // ---------------------------------------------------------------------
  // The eligibility matrix

  predicate Serves(e: AssignmentMatrix, sid: string, bid: string) {
    e.stationId == sid && e.barangayId == bid
  }

  /** The first matrix entry for the station/zone pair (the source's `find`). */
  function FindEntry(matrix: seq<AssignmentMatrix>, sid: string, bid: string): (r: Option<AssignmentMatrix>)
    ensures r.Some? ==> Serves(r.value, sid, bid) && r.value in matrix
  {
    if |matrix| == 0 then None
    else if Serves(matrix[0], sid, bid) then Some(matrix[0])
    else FindEntry(matrix[1..], sid, bid)
  }

  /** `FindEntry` misses exactly when no entry serves the pair, and what it
      finds comes before every other entry that does. */
  lemma {:induction false} FindEntryFirst(matrix: seq<AssignmentMatrix>, sid: string, bid: string)
    ensures FindEntry(matrix, sid, bid).None? <==> forall i | 0 <= i < |matrix| :: !Serves(matrix[i], sid, bid)
    ensures FindEntry(matrix, sid, bid).Some? ==> exists i | 0 <= i < |matrix| ::
              (matrix[i] == FindEntry(matrix, sid, bid).value && forall j | 0 <= j < i :: !Serves(matrix[j], sid, bid))
    decreases |matrix|
  {
    if |matrix| > 0 && !Serves(matrix[0], sid, bid) {
      FindEntryFirst(matrix[1..], sid, bid);
      assert forall i | 1 <= i < |matrix| :: matrix[i] == matrix[1..][i - 1];
      if FindEntry(matrix, sid, bid).Some? {
        var i :| 0 <= i < |matrix[1..]| && matrix[1..][i] == FindEntry(matrix, sid, bid).value
             && forall j | 0 <= j < i :: !Serves(matrix[1..][j], sid, bid);
        assert matrix[i + 1] == FindEntry(matrix, sid, bid).value;
      }
    }
  }

  predicate Eligible(matrix: seq<AssignmentMatrix>, s: PumpingStation, bid: string) {
    FindEntry(matrix, s.id, bid).Some?
  }

  /** The distance the nearest-station search compares. */
  function RankDistance(matrix: seq<AssignmentMatrix>, sid: string, bid: string): ExtReal {
    match FindEntry(matrix, sid, bid)
    case None => PosInf
    case Some(e) => if e.distance == 0.0 then PosInf else Fin(e.distance)
  }

  /** Which stations may serve zone `bid`, position by position. */
  function EligibleFlags(stations: seq<PumpingStation>, matrix: seq<AssignmentMatrix>, bid: string): (f: seq<bool>)
    ensures |f| == |stations|
  {
    seq(|stations|, i requires 0 <= i < |stations| => Eligible(matrix, stations[i], bid))
  }

  /** The stations that may serve zone `bid` (the source's `filter`). */
  function EligibleStations(stations: seq<PumpingStation>, matrix: seq<AssignmentMatrix>, bid: string)
    : (r: seq<PumpingStation>)
    ensures |r| <= |stations|
  {
    Kept(stations, EligibleFlags(stations, matrix, bid))
  }

  /** The eligible stations keep the given order: the `i`-th of them is the
      station at the `i`-th eligible position, and the eligible positions
      are listed increasing and completely. */
  lemma EligibleInOrder(stations: seq<PumpingStation>, matrix: seq<AssignmentMatrix>, bid: string)
    ensures var idx := TruePositions(EligibleFlags(stations, matrix, bid), 0);
      && Increasing(idx)
      && (forall j | 0 <= j < |stations| :: Eligible(matrix, stations[j], bid) <==> j in idx)
      && |EligibleStations(stations, matrix, bid)| == |idx|
      && (forall i | 0 <= i < |idx| :: idx[i] < |stations| && EligibleStations(stations, matrix, bid)[i] == stations[idx[i]])
  {
    var flags := EligibleFlags(stations, matrix, bid);
    KeptInOrder(stations, flags);
    assert forall j | 0 <= j < |stations| :: flags[j] == Eligible(matrix, stations[j], bid);
  }

  /** The eligible stations are exactly the given stations the matrix lets
      serve the zone. */
  lemma EligibleMembers(stations: seq<PumpingStation>, matrix: seq<AssignmentMatrix>, bid: string)
    ensures forall i | 0 <= i < |EligibleStations(stations, matrix, bid)| ::
      && EligibleStations(stations, matrix, bid)[i] in stations
      && Eligible(matrix, EligibleStations(stations, matrix, bid)[i], bid)
    ensures forall i | 0 <= i < |stations| ::
      Eligible(matrix, stations[i], bid) ==> stations[i] in EligibleStations(stations, matrix, bid)
  {
    var r := EligibleStations(stations, matrix, bid);
    var idx := TruePositions(EligibleFlags(stations, matrix, bid), 0);
    EligibleInOrder(stations, matrix, bid);
    forall i | 0 <= i < |r|
      ensures r[i] in stations && Eligible(matrix, r[i], bid)
    {
      assert idx[i] in idx;
    }
    forall i | 0 <= i < |stations| && Eligible(matrix, stations[i], bid)
      ensures stations[i] in r
    {
      var m :| 0 <= m < |idx| && idx[m] == i;
      assert r[m] == stations[i];
    }
  }

  /** The position the source's `reduce` settles on. */
  function NearestIndex(cands: seq<PumpingStation>, matrix: seq<AssignmentMatrix>, bid: string): (k: nat)
    requires |cands| > 0
    ensures k < |cands|
  {
    if |cands| == 1 then 0
    else
      var init := cands[..|cands| - 1];
      var n := NearestIndex(init, matrix, bid);
      if Lt(RankDistance(matrix, cands[|cands| - 1].id, bid), RankDistance(matrix, cands[n].id, bid))
      then |cands| - 1
      else n
  }

  /** The candidate the `reduce` settles on is at least as near, as
      compared, as every other, and strictly nearer than every one before
      it, so that ties go to the earliest candidate. */
  lemma {:induction false} NearestIndexSpec(cands: seq<PumpingStation>, matrix: seq<AssignmentMatrix>, bid: string)
    requires |cands| > 0
    ensures var k := NearestIndex(cands, matrix, bid);
      && (forall j | 0 <= j < |cands| ::
            Le(RankDistance(matrix, cands[k].id, bid), RankDistance(matrix, cands[j].id, bid)))
      && (forall j | 0 <= j < k ::
            Lt(RankDistance(matrix, cands[k].id, bid), RankDistance(matrix, cands[j].id, bid)))
    decreases |cands|
  {
    if |cands| > 1 {
      var init := cands[..|cands| - 1];
      NearestIndexSpec(init, matrix, bid);
      assert forall j | 0 <= j < |init| :: init[j] == cands[j];
    }
  }

  // ---------------------------------------------------------------------
  // Routes

  /** One zone delivered through one station. */
  datatype Leg = Leg(station: PumpingStation, barangay: Barangay, distance: real, water: real)

  /** The route for one allocation, if it gets one. */
  function Route(a: WaterAllocation, stations: seq<PumpingStation>, matrix: seq<AssignmentMatrix>): Option<Leg> {
    if a.isAllocated && HasTowerSource(a.waterSources) then
      var cands := EligibleStations(stations, matrix, a.barangay.id);
      if |cands| > 0 then
        var best := cands[NearestIndex(cands, matrix, a.barangay.id)];
        var distance := match FindEntry(matrix, best.id, a.barangay.id)
                        case Some(e) => e.distance
                        case None => 0.0;
        Some(Leg(best, a.barangay, distance, TowerWater(a.waterSources)))
      else None
    else None
  }

  /** An allocation is routed exactly when it was allocated water, drew on
      the towers, and some station may serve its zone. */
  lemma RouteExists(a: WaterAllocation, stations: seq<PumpingStation>, matrix: seq<AssignmentMatrix>)
    ensures Route(a, stations, matrix).Some? <==>
      && a.isAllocated
      && HasTowerSource(a.waterSources)
      && exists i | 0 <= i < |stations| :: Eligible(matrix, stations[i], a.barangay.id)
  {
    var cands := EligibleStations(stations, matrix, a.barangay.id);
    EligibleMembers(stations, matrix, a.barangay.id);
    if exists i | 0 <= i < |stations| :: Eligible(matrix, stations[i], a.barangay.id) {
      var i :| 0 <= i < |stations| && Eligible(matrix, stations[i], a.barangay.id);
      assert stations[i] in cands;
    }
  }

  /** A route carries the zone's tower share through one of the stations,
      at that station's listed distance. */
  lemma RouteFields(a: WaterAllocation, stations: seq<PumpingStation>, matrix: seq<AssignmentMatrix>)
    ensures var r := Route(a, stations, matrix);
      r.Some? ==>
      && r.value.barangay == a.barangay
      && r.value.water == TowerWater(a.waterSources)
      && r.value.station in stations
      && FindEntry(matrix, r.value.station.id, a.barangay.id).Some?
      && r.value.distance == FindEntry(matrix, r.value.station.id, a.barangay.id).value.distance
  {
    var cands := EligibleStations(stations, matrix, a.barangay.id);
    if a.isAllocated && HasTowerSource(a.waterSources) && |cands| > 0 {
      var k := NearestIndex(cands, matrix, a.barangay.id);
      EligibleMembers(stations, matrix, a.barangay.id);
      assert cands[k] in stations;
    }
  }

  /** Station `p` may serve zone `bid`, is no farther, as compared, than
      any station that may, and is strictly nearer than every one listed
      before it. */
  ghost predicate EarliestNearest(stations: seq<PumpingStation>, matrix: seq<AssignmentMatrix>, bid: string, p: nat) {
    && p < |stations|
    && Eligible(matrix, stations[p], bid)
    && (forall i | 0 <= i < |stations| && Eligible(matrix, stations[i], bid) ::
          Le(RankDistance(matrix, stations[p].id, bid), RankDistance(matrix, stations[i].id, bid)))
    && (forall i | 0 <= i < p && Eligible(matrix, stations[i], bid) ::
          Lt(RankDistance(matrix, stations[p].id, bid), RankDistance(matrix, stations[i].id, bid)))
  }

  /** At most one position is the earliest nearest. */
  lemma EarliestNearestUnique(stations: seq<PumpingStation>, matrix: seq<AssignmentMatrix>, bid: string, p: nat, q: nat)
    requires EarliestNearest(stations, matrix, bid, p) && EarliestNearest(stations, matrix, bid, q)
    ensures p == q
  {
  }

  /** The station of a route is the earliest listed among the nearest
      stations that may serve the zone: no farther, as compared, than any of
      them, and ties go to the first in the station list. */
  lemma RouteNearest(a: WaterAllocation, stations: seq<PumpingStation>, matrix: seq<AssignmentMatrix>)
    ensures var r := Route(a, stations, matrix);
      r.Some? ==> exists p | 0 <= p < |stations| ::
        stations[p] == r.value.station && EarliestNearest(stations, matrix, a.barangay.id, p)
  {
    var bid := a.barangay.id;
    var cands := EligibleStations(stations, matrix, bid);
    if a.isAllocated && HasTowerSource(a.waterSources) && |cands| > 0 {
      var k := NearestIndex(cands, matrix, bid);
      var idx := TruePositions(EligibleFlags(stations, matrix, bid), 0);
      EligibleInOrder(stations, matrix, bid);
      NearestIndexSpec(cands, matrix, bid);
      var p := idx[k];
      assert p in idx;
      assert stations[p] == cands[k];
      forall i | 0 <= i < |stations| && Eligible(matrix, stations[i], bid)
        ensures Le(RankDistance(matrix, stations[p].id, bid), RankDistance(matrix, stations[i].id, bid))
      {
        var m :| 0 <= m < |idx| && idx[m] == i;
        assert cands[m] == stations[i];
      }
      forall i | 0 <= i < p && Eligible(matrix, stations[i], bid)
        ensures Lt(RankDistance(matrix, stations[p].id, bid), RankDistance(matrix, stations[i].id, bid))
      {
        var m :| 0 <= m < |idx| && idx[m] == i;
        IncreasingPlaces(idx, m, k);
        assert cands[m] == stations[i];
      }
      assert EarliestNearest(stations, matrix, bid, p);
    }
  }

  /** Each allocation's route, if it gets one, position by position. */
  function Routes(allocs: seq<WaterAllocation>, stations: seq<PumpingStation>, matrix: seq<AssignmentMatrix>)
    : seq<Option<Leg>>
  {
    seq(|allocs|, i requires 0 <= i < |allocs| => Route(allocs[i], stations, matrix))
  }

  /** The present entries of a list of optional routes, in order. */
  function Present(opts: seq<Option<Leg>>): (r: seq<Leg>)
    ensures |r| <= |opts|
  {
    if |opts| == 0 then []
    else
      Present(opts[..|opts| - 1])
      + match opts[|opts| - 1]
        case Some(l) => [l]
        case None => []
  }

  /** The routes of a run, in allocation order. */
  function Legs(allocs: seq<WaterAllocation>, stations: seq<PumpingStation>, matrix: seq<AssignmentMatrix>)
    : seq<Leg>
  {
    Present(Routes(allocs, stations, matrix))
  }

  /** The last allocation's route, if any, closes the list. */
  lemma LegsSnoc(allocs: seq<WaterAllocation>, stations: seq<PumpingStation>, matrix: seq<AssignmentMatrix>)
    requires |allocs| > 0
    ensures Legs(allocs, stations, matrix) == Legs(allocs[..|allocs| - 1], stations, matrix)
      + match Route(allocs[|allocs| - 1], stations, matrix) case Some(l) => [l] case None => []
  {
    var opts := Routes(allocs, stations, matrix);
    assert opts[..|allocs| - 1] == Routes(allocs[..|allocs| - 1], stations, matrix);
  }

  /** The routes through station `sid`, in order. */
  function LegsTo(legs: seq<Leg>, sid: string): seq<Leg> {
    if |legs| == 0 then []
    else
      var last := legs[|legs| - 1];
      LegsTo(legs[..|legs| - 1], sid) + (if last.station.id == sid then [last] else [])
  }

  function Zones(legs: seq<Leg>): seq<Barangay> {
    if |legs| == 0 then [] else Zones(legs[..|legs| - 1]) + [legs[|legs| - 1].barangay]
  }

  function Water(legs: seq<Leg>): real {
    if |legs| == 0 then 0.0 else Water(legs[..|legs| - 1]) + legs[|legs| - 1].water
  }

  function Distance(legs: seq<Leg>): real {
    if |legs| == 0 then 0.0 else Distance(legs[..|legs| - 1]) + legs[|legs| - 1].distance
  }

  // ---------------------------------------------------------------------
  // Per-station summaries

  /** The first summary for station `sid` (the source's `find` on its list). */
  function StationIndex(acc: seq<StationAssignment>, sid: string): (r: Option<nat>)
    ensures r.None? <==> forall i | 0 <= i < |acc| :: acc[i].station.id != sid
    ensures r.Some? ==> r.value < |acc| && acc[r.value].station.id == sid
  {
    if |acc| == 0 then None
    else if acc[0].station.id == sid then Some(0)
    else
      match StationIndex(acc[1..], sid)
      case None => None
      case Some(k) => Some(k + 1)
  }

  /** A summary with one more route. */
  function Extend(a: StationAssignment, l: Leg): StationAssignment {
    StationAssignment(a.station, a.assignedBarangays + [l.barangay],
                      a.totalWaterDelivered + l.water, a.totalDistance + l.distance)
  }

  /** A new summary holding one route. */
  function Open(l: Leg): StationAssignment {
    StationAssignment(l.station, [l.barangay], l.water, l.distance)
  }

  /** Adds one route: to its station's summary if there is one, else as a
      new summary at the end. */
  function Deliver(acc: seq<StationAssignment>, l: Leg): seq<StationAssignment> {
    match StationIndex(acc, l.station.id)
    case Some(k) => acc[k := Extend(acc[k], l)]
    case None => acc + [Open(l)]
  }

  function TotalDelivered(acc: seq<StationAssignment>): real {
    if |acc| == 0 then 0.0 else TotalDelivered(acc[..|acc| - 1]) + acc[|acc| - 1].totalWaterDelivered
  }

  function TotalDistance(acc: seq<StationAssignment>): real {
    if |acc| == 0 then 0.0 else TotalDistance(acc[..|acc| - 1]) + acc[|acc| - 1].totalDistance
  }

  /** A summary describes exactly the (non-empty) routes through its station. */
  ghost predicate Describes(a: StationAssignment, ls: seq<Leg>) {
    && |ls| > 0
    && a.station == ls[0].station
    && a.assignedBarangays == Zones(ls)
    && a.totalWaterDelivered == Water(ls)
    && a.totalDistance == Distance(ls)
  }

  ghost predicate AllDescribed(acc: seq<StationAssignment>, legs: seq<Leg>) {
    forall i | 0 <= i < |acc| :: Describes(acc[i], LegsTo(legs, acc[i].station.id))
  }

  ghost predicate HasSummary(acc: seq<StationAssignment>, sid: string) {
    exists i | 0 <= i < |acc| :: acc[i].station.id == sid
  }

  /** Every route's station has a summary. */
  ghost predicate Covered(acc: seq<StationAssignment>, legs: seq<Leg>) {
    forall k | 0 <= k < |legs| :: HasSummary(acc, legs[k].station.id)
  }

  /** `acc` summarises `legs`: one summary per station used, each describing
      that station's routes, and the totals add up. */
  ghost predicate Summarises(acc: seq<StationAssignment>, legs: seq<Leg>) {
    && DistinctBy(acc, StationId)
    && AllDescribed(acc, legs)
    && Covered(acc, legs)
    && TotalDelivered(acc) == Water(legs)
    && TotalDistance(acc) == Distance(legs)
  }

  lemma LegsToSnoc(legs: seq<Leg>, l: Leg, sid: string)
    ensures LegsTo(legs + [l], sid) == LegsTo(legs, sid) + (if l.station.id == sid then [l] else [])
  {
    assert (legs + [l])[..|legs|] == legs;
  }

  /** No route through `sid`, no routes listed for it. */
  lemma {:induction false} LegsToNone(legs: seq<Leg>, sid: string)
    requires forall k | 0 <= k < |legs| :: legs[k].station.id != sid
    ensures LegsTo(legs, sid) == []
    decreases |legs|
  {
    if |legs| > 0 {
      LegsToNone(legs[..|legs| - 1], sid);
    }
  }

  lemma SumsSnoc(ls: seq<Leg>, l: Leg)
    ensures Zones(ls + [l]) == Zones(ls) + [l.barangay]
    ensures Water(ls + [l]) == Water(ls) + l.water
    ensures Distance(ls + [l]) == Distance(ls) + l.distance
  {
    assert (ls + [l])[..|ls|] == ls;
  }

  lemma {:induction false} TotalsUpdate(acc: seq<StationAssignment>, k: nat, x: StationAssignment)
    requires k < |acc|
    ensures TotalDelivered(acc[k := x]) == TotalDelivered(acc) - acc[k].totalWaterDelivered + x.totalWaterDelivered
    ensures TotalDistance(acc[k := x]) == TotalDistance(acc) - acc[k].totalDistance + x.totalDistance
    decreases |acc|
  {
    var n := |acc| - 1;
    var acc' := acc[k := x];
    if k == n {
      assert acc'[..n] == acc[..n];
    } else {
      assert acc'[..n] == acc[..n][k := x];
      TotalsUpdate(acc[..n], k, x);
    }
  }

  lemma TotalsSnoc(acc: seq<StationAssignment>, x: StationAssignment)
    ensures TotalDelivered(acc + [x]) == TotalDelivered(acc) + x.totalWaterDelivered
    ensures TotalDistance(acc + [x]) == TotalDistance(acc) + x.totalDistance
  {
    assert (acc + [x])[..|acc|] == acc;
  }

  /** The summary of the route's own station takes the route in. */
  lemma DescribesExtended(a: StationAssignment, legs: seq<Leg>, l: Leg)
    requires a.station.id == l.station.id
    requires Describes(a, LegsTo(legs, a.station.id))
    ensures Describes(Extend(a, l), LegsTo(legs + [l], a.station.id))
  {
    LegsToSnoc(legs, l, a.station.id);
    SumsSnoc(LegsTo(legs, a.station.id), l);
  }

  /** Every other summary is untouched by the route. */
  lemma DescribesOther(a: StationAssignment, legs: seq<Leg>, l: Leg)
    requires a.station.id != l.station.id
    requires Describes(a, LegsTo(legs, a.station.id))
    ensures Describes(a, LegsTo(legs + [l], a.station.id))
  {
    LegsToSnoc(legs, l, a.station.id);
    assert LegsTo(legs, a.station.id) + [] == LegsTo(legs, a.station.id);
  }

  lemma DescribedExisting(acc: seq<StationAssignment>, legs: seq<Leg>, l: Leg, k: nat)
    requires DistinctBy(acc, StationId) && AllDescribed(acc, legs)
    requires k < |acc| && acc[k].station.id == l.station.id
    ensures AllDescribed(acc[k := Extend(acc[k], l)], legs + [l])
  {
    var acc' := acc[k := Extend(acc[k], l)];
    forall i | 0 <= i < |acc'|
      ensures Describes(acc'[i], LegsTo(legs + [l], acc'[i].station.id))
    {
      if i == k {
        DescribesExtended(acc[k], legs, l);
      } else {
        assert StationId(acc[i]) != StationId(acc[k]);
        DescribesOther(acc[i], legs, l);
      }
    }
  }

  lemma CoveredExisting(acc: seq<StationAssignment>, legs: seq<Leg>, l: Leg, k: nat)
    requires Covered(acc, legs)
    requires k < |acc| && acc[k].station.id == l.station.id
    ensures Covered(acc[k := Extend(acc[k], l)], legs + [l])
  {
    var acc' := acc[k := Extend(acc[k], l)];
    var legs' := legs + [l];
    forall m | 0 <= m < |legs'| ensures HasSummary(acc', legs'[m].station.id) {
      if m < |legs| {
        assert HasSummary(acc, legs[m].station.id);
        var i :| 0 <= i < |acc| && acc[i].station.id == legs[m].station.id;
        assert acc'[i].station.id == legs'[m].station.id;
      } else {
        assert acc'[k].station.id == legs'[m].station.id;
      }
    }
  }

  lemma DistinctExisting(acc: seq<StationAssignment>, l: Leg, k: nat)
    requires DistinctBy(acc, StationId)
    requires k < |acc|
    ensures DistinctBy(acc[k := Extend(acc[k], l)], StationId)
  {
    var acc' := acc[k := Extend(acc[k], l)];
    forall i, j | 0 <= i < j < |acc'| ensures StationId(acc'[i]) != StationId(acc'[j]) {
      assert StationId(acc[i]) != StationId(acc[j]);
    }
  }

  /** A route through a station that already has a summary extends it. */
  lemma DeliverExisting(acc: seq<StationAssignment>, legs: seq<Leg>, l: Leg, k: nat)
    requires Summarises(acc, legs)
    requires k < |acc| && acc[k].station.id == l.station.id
    ensures Summarises(acc[k := Extend(acc[k], l)], legs + [l])
  {
    var x := Extend(acc[k], l);
    var acc' := acc[k := x];
    assert AllDescribed(acc', legs + [l]) by { DescribedExisting(acc, legs, l, k); }
    assert Covered(acc', legs + [l]) by { CoveredExisting(acc, legs, l, k); }
    assert DistinctBy(acc', StationId) by { DistinctExisting(acc, l, k); }
    assert TotalDelivered(acc') == Water(legs + [l]) && TotalDistance(acc') == Distance(legs + [l]) by {
      TotalsUpdate(acc, k, x);
      SumsSnoc(legs, l);
    }
  }

  lemma DescribedNew(acc: seq<StationAssignment>, legs: seq<Leg>, l: Leg)
    requires AllDescribed(acc, legs) && Covered(acc, legs)
    requires forall i | 0 <= i < |acc| :: acc[i].station.id != l.station.id
    ensures AllDescribed(acc + [Open(l)], legs + [l])
  {
    var sid := l.station.id;
    var acc' := acc + [Open(l)];
    forall k | 0 <= k < |legs| ensures legs[k].station.id != sid {
      assert HasSummary(acc, legs[k].station.id);
    }
    LegsToNone(legs, sid);
    forall i | 0 <= i < |acc'|
      ensures Describes(acc'[i], LegsTo(legs + [l], acc'[i].station.id))
    {
      if i == |acc| {
        LegsToSnoc(legs, l, sid);
        SumsSnoc([], l);
      } else {
        DescribesOther(acc[i], legs, l);
      }
    }
  }

  lemma CoveredNew(acc: seq<StationAssignment>, legs: seq<Leg>, l: Leg)
    requires Covered(acc, legs)
    ensures Covered(acc + [Open(l)], legs + [l])
  {
    var acc' := acc + [Open(l)];
    var legs' := legs + [l];
    forall m | 0 <= m < |legs'| ensures HasSummary(acc', legs'[m].station.id) {
      if m < |legs| {
        assert HasSummary(acc, legs[m].station.id);
        var i :| 0 <= i < |acc| && acc[i].station.id == legs[m].station.id;
        assert acc'[i].station.id == legs'[m].station.id;
      } else {
        assert acc'[|acc|].station.id == legs'[m].station.id;
      }
    }
  }

  lemma DistinctNew(acc: seq<StationAssignment>, l: Leg)
    requires DistinctBy(acc, StationId)
    requires forall i | 0 <= i < |acc| :: acc[i].station.id != l.station.id
    ensures DistinctBy(acc + [Open(l)], StationId)
  {
    var acc' := acc + [Open(l)];
    forall i, j | 0 <= i < j < |acc'| ensures StationId(acc'[i]) != StationId(acc'[j]) {
      if j < |acc| {
        assert StationId(acc[i]) != StationId(acc[j]);
      }
    }
  }

  /** A route through a station without a summary opens one at the end. */
  lemma DeliverNew(acc: seq<StationAssignment>, legs: seq<Leg>, l: Leg)
    requires Summarises(acc, legs)
    requires forall i | 0 <= i < |acc| :: acc[i].station.id != l.station.id
    ensures Summarises(acc + [Open(l)], legs + [l])
  {
    var acc' := acc + [Open(l)];
    assert AllDescribed(acc', legs + [l]) by { DescribedNew(acc, legs, l); }
    assert Covered(acc', legs + [l]) by { CoveredNew(acc, legs, l); }
    assert DistinctBy(acc', StationId) by { DistinctNew(acc, l); }
    assert TotalDelivered(acc') == Water(legs + [l]) && TotalDistance(acc') == Distance(legs + [l]) by {
      TotalsSnoc(acc, Open(l));
      SumsSnoc(legs, l);
    }
  }

  /** The source's loop over the allocations, folding each route in. */
  function Collect(allocs: seq<WaterAllocation>, stations: seq<PumpingStation>, matrix: seq<AssignmentMatrix>)
    : (r: seq<StationAssignment>)
    ensures Summarises(r, Legs(allocs, stations, matrix))
  {
    if |allocs| == 0 then []
    else
      var init := allocs[..|allocs| - 1];
      var acc := Collect(init, stations, matrix);
      var legs := Legs(init, stations, matrix);
      match Route(allocs[|allocs| - 1], stations, matrix)
      case None =>
        assert Legs(allocs, stations, matrix) == legs by {
          LegsSnoc(allocs, stations, matrix);
          assert legs + [] == legs;
        }
        acc
      case Some(l) =>
        assert Legs(allocs, stations, matrix) == legs + [l] by { LegsSnoc(allocs, stations, matrix); }
        match StationIndex(acc, l.station.id)
        case Some(k) => DeliverExisting(acc, legs, l, k); acc[k := Extend(acc[k], l)]
        case None => DeliverNew(acc, legs, l); acc + [Open(l)]
  }

  ghost predicate NothingToAssign(barangays: seq<Barangay>, stations: seq<PumpingStation>,
                                  matrix: seq<AssignmentMatrix>, allocs: seq<WaterAllocation>) {
    |barangays| == 0 || |stations| == 0 || |matrix| == 0 || |allocs| == 0
  }

  /** The station summaries of a run; [] when any input list is empty. */
  function AssignStationsToBarangays(barangays: seq<Barangay>, stations: seq<PumpingStation>,
                                     matrix: seq<AssignmentMatrix>, allocs: seq<WaterAllocation>)
    : (r: seq<StationAssignment>)
    ensures NothingToAssign(barangays, stations, matrix, allocs) ==> r == []
    ensures !NothingToAssign(barangays, stations, matrix, allocs) ==>
      Summarises(r, Legs(allocs, stations, matrix))
  {
    if |barangays| == 0 || |stations| == 0 || |matrix| == 0 || |allocs| == 0 then []
    else Collect(allocs, stations, matrix)
  }
}
