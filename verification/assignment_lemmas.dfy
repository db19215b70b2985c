/** What `assignStationsToBarangays` guarantees: exactly the allocated zones
    that drew on the towers and can be reached are routed, each through a
    nearest eligible station, and the stations carry exactly the tower water
    of the zones they serve. */
module AssignmentLemmas {
  import opened Wrappers
  import opened ExtReals
  import opened StableSort
  import opened WaterTypes
  import opened Allocation
  import opened Assignment
  import opened Positions

  // ---------------------------------------------------------------------
  // Membership in the derived lists

  /** `x` is the route of one of the allocations. */
  ghost predicate RouteOfSome(allocs: seq<WaterAllocation>, stations: seq<PumpingStation>,
                              matrix: seq<AssignmentMatrix>, x: Leg) {
    exists j | 0 <= j < |allocs| :: Route(allocs[j], stations, matrix) == Some(x)
  }

  /** What `Present` keeps is exactly the entries that are there. */
  lemma {:induction false} PresentMembers(opts: seq<Option<Leg>>, x: Leg)
    ensures x in Present(opts) <==> Some(x) in opts
    decreases |opts|
  {
    if |opts| > 0 {
      var init := opts[..|opts| - 1];
      PresentMembers(init, x);
      assert opts == init + [opts[|opts| - 1]];
    }
  }

  /** Every route comes from an allocation. */
  lemma LegsAreRoutes(allocs: seq<WaterAllocation>, stations: seq<PumpingStation>,
                      matrix: seq<AssignmentMatrix>, x: Leg)
    requires x in Legs(allocs, stations, matrix)
    ensures RouteOfSome(allocs, stations, matrix, x)
  {
    var opts := Routes(allocs, stations, matrix);
    PresentMembers(opts, x);
    var j :| 0 <= j < |opts| && opts[j] == Some(x);
    assert Route(allocs[j], stations, matrix) == Some(x);
  }

  /** Every allocation that has a route contributes it. */
  lemma RoutesAreLegs(allocs: seq<WaterAllocation>, stations: seq<PumpingStation>,
                      matrix: seq<AssignmentMatrix>, j: nat)
    requires j < |allocs| && Route(allocs[j], stations, matrix).Some?
    ensures Route(allocs[j], stations, matrix).value in Legs(allocs, stations, matrix)
  {
    var opts := Routes(allocs, stations, matrix);
    PresentMembers(opts, Route(allocs[j], stations, matrix).value);
    assert opts[j] == Route(allocs[j], stations, matrix);
  }

  /** The routes through `sid` are exactly the routes whose station is `sid`. */
  lemma {:induction false} LegsToMembers(legs: seq<Leg>, sid: string, x: Leg)
    ensures x in LegsTo(legs, sid) <==> x in legs && x.station.id == sid
    decreases |legs|
  {
    if |legs| > 0 {
      var init := legs[..|legs| - 1];
      LegsToMembers(init, sid, x);
      assert legs == init + [legs[|legs| - 1]];
    }
  }

  /** The zones of a list of routes are the routes' zones. */
  lemma {:induction false} ZonesMembers(ls: seq<Leg>, z: Barangay)
    ensures z in Zones(ls) <==> exists x | x in ls :: x.barangay == z
    decreases |ls|
  {
    if |ls| > 0 {
      var init := ls[..|ls| - 1];
      var last := ls[|ls| - 1];
      ZonesMembers(init, z);
      assert ls == init + [last];
      if z in Zones(ls) && z != last.barangay {
        var x :| x in init && x.barangay == z;
        assert x in ls;
      }
      if exists x | x in ls :: x.barangay == z {
        var x :| x in ls && x.barangay == z;
        if x != last {
          assert x in init;
        }
      }
    }
  }

  // ---------------------------------------------------------------------
  // Which zones are routed, and where

  /** A zone listed under a station was allocated water, drew on the towers,
      and its route goes through that station. */
  lemma AssignedZonesAreTowerFed(allocs: seq<WaterAllocation>, stations: seq<PumpingStation>,
                                 matrix: seq<AssignmentMatrix>, i: nat, z: Barangay)
    requires i < |Collect(allocs, stations, matrix)|
    requires z in Collect(allocs, stations, matrix)[i].assignedBarangays
    ensures exists j | 0 <= j < |allocs| ::
      && allocs[j].barangay == z
      && allocs[j].isAllocated
      && HasTowerSource(allocs[j].waterSources)
      && Route(allocs[j], stations, matrix).Some?
      && Route(allocs[j], stations, matrix).value.station.id == Collect(allocs, stations, matrix)[i].station.id
  {
    var r := Collect(allocs, stations, matrix);
    var legs := Legs(allocs, stations, matrix);
    var sid := r[i].station.id;
    assert Describes(r[i], LegsTo(legs, sid));
    ZonesMembers(LegsTo(legs, sid), z);
    var x :| x in LegsTo(legs, sid) && x.barangay == z;
    LegsToMembers(legs, sid, x);
    LegsAreRoutes(allocs, stations, matrix, x);
    var j :| 0 <= j < |allocs| && Route(allocs[j], stations, matrix) == Some(x);
    RouteExists(allocs[j], stations, matrix);
    RouteFields(allocs[j], stations, matrix);
  }

  /** Conversely, an allocation with a route has its zone listed under the
      station of that route. */
  lemma RoutedZonesAreAssigned(allocs: seq<WaterAllocation>, stations: seq<PumpingStation>,
                               matrix: seq<AssignmentMatrix>, j: nat)
    requires j < |allocs| && Route(allocs[j], stations, matrix).Some?
    ensures exists i | 0 <= i < |Collect(allocs, stations, matrix)| ::
      && Collect(allocs, stations, matrix)[i].station.id == Route(allocs[j], stations, matrix).value.station.id
      && allocs[j].barangay in Collect(allocs, stations, matrix)[i].assignedBarangays
  {
    var r := Collect(allocs, stations, matrix);
    var legs := Legs(allocs, stations, matrix);
    var x := Route(allocs[j], stations, matrix).value;
    RoutesAreLegs(allocs, stations, matrix, j);
    var k :| 0 <= k < |legs| && legs[k] == x;
    assert HasSummary(r, legs[k].station.id);
    var i :| 0 <= i < |r| && r[i].station.id == x.station.id;
    assert Describes(r[i], LegsTo(legs, x.station.id));
    LegsToMembers(legs, x.station.id, x);
    ZonesMembers(LegsTo(legs, x.station.id), allocs[j].barangay);
  }

  /** When every matrix distance is positive, the chosen station is at the
      least distance among the stations that may serve the zone. */
  lemma RouteIsNearest(a: WaterAllocation, stations: seq<PumpingStation>, matrix: seq<AssignmentMatrix>, s: PumpingStation)
    requires forall e | e in matrix :: e.distance > 0.0
    requires Route(a, stations, matrix).Some?
    requires s in stations && Eligible(matrix, s, a.barangay.id)
    ensures Route(a, stations, matrix).value.distance <= FindEntry(matrix, s.id, a.barangay.id).value.distance
  {
    RouteFields(a, stations, matrix);
    RouteNearest(a, stations, matrix);
    var i :| 0 <= i < |stations| && stations[i] == s;
  }

  /** The source compares `distance || Infinity`, so a station listed at
      distance 0 loses to any station at a positive distance. */
  lemma ZeroDistanceCountsAsFar()
    ensures var z := Barangay("z", "Zone", Location(0.0, 0.0));
      var near := PumpingStation("near", "Near", Location(0.0, 0.0), 0.0, 0.0, 0.0);
      var far := PumpingStation("far", "Far", Location(0.0, 0.0), 0.0, 0.0, 0.0);
      var matrix := [AssignmentMatrix("near", "z", 0.0, 0.0), AssignmentMatrix("far", "z", 5.0, 0.0)];
      var a := WaterAllocation(z, true, 100.0, 100.0, 10, Status.Critical, [Towers(100.0)]);
      Route(a, [near, far], matrix) == Some(Leg(far, z, 5.0, 100.0))
  {
    var z := Barangay("z", "Zone", Location(0.0, 0.0));
    var near := PumpingStation("near", "Near", Location(0.0, 0.0), 0.0, 0.0, 0.0);
    var far := PumpingStation("far", "Far", Location(0.0, 0.0), 0.0, 0.0, 0.0);
    var matrix := [AssignmentMatrix("near", "z", 0.0, 0.0), AssignmentMatrix("far", "z", 5.0, 0.0)];
    var a := WaterAllocation(z, true, 100.0, 100.0, 10, Status.Critical, [Towers(100.0)]);
    assert a.waterSources[0].Towers?;
    assert FindEntry(matrix, "near", "z") == Some(matrix[0]);
    assert FindEntry(matrix, "far", "z") == Some(matrix[1]) by {
      assert !Serves(matrix[0], "far", "z");
      assert matrix[1..] == [matrix[1]];
    }
    var cands := EligibleStations([near, far], matrix, "z");
    assert cands == [near, far] by {
      var flags := EligibleFlags([near, far], matrix, "z");
      assert flags == [true, true];
      assert KeptFrom([near, far], flags, 2) == [];
      assert KeptFrom([near, far], flags, 1) == [far];
    }
    assert RankDistance(matrix, "near", "z") == PosInf;
    assert RankDistance(matrix, "far", "z") == Fin(5.0);
    assert NearestIndex(cands, matrix, "z") == 1;
  }

  // ---------------------------------------------------------------------
  // Water carried

  lemma {:induction false} AllTowerWaterSnoc(allocs: seq<WaterAllocation>, a: WaterAllocation)
    ensures AllTowerWater(allocs + [a]) == AllTowerWater(allocs) + TowerWater(a.waterSources)
    decreases |allocs|
  {
    if |allocs| == 0 {
      assert [a][1..] == [];
    } else {
      assert (allocs + [a])[1..] == allocs[1..] + [a];
      AllTowerWaterSnoc(allocs[1..], a);
    }
  }

  /** The routes carry no more than the tower water the run handed out. */
  lemma {:induction false} RoutedWaterBound(allocs: seq<WaterAllocation>, stations: seq<PumpingStation>,
                                            matrix: seq<AssignmentMatrix>)
    requires forall j | 0 <= j < |allocs| :: TowerWater(allocs[j].waterSources) >= 0.0
    ensures Water(Legs(allocs, stations, matrix)) <= AllTowerWater(allocs)
    decreases |allocs|
  {
    if |allocs| > 0 {
      var n := |allocs| - 1;
      var init := allocs[..n];
      RoutedWaterBound(init, stations, matrix);
      assert allocs == init + [allocs[n]];
      AllTowerWaterSnoc(init, allocs[n]);
      var legs0 := Legs(init, stations, matrix);
      LegsSnoc(allocs, stations, matrix);
      match Route(allocs[n], stations, matrix)
      case Some(l) =>
        SumsSnoc(legs0, l);
      case None =>
        assert legs0 + [] == legs0;
    }
  }

  /** The stations together deliver no more tower water than the run drew
      from the towers. */
  lemma DeliveredWithinTowerDraws(allocs: seq<WaterAllocation>, stations: seq<PumpingStation>,
                                  matrix: seq<AssignmentMatrix>)
    requires forall j | 0 <= j < |allocs| :: TowerWater(allocs[j].waterSources) >= 0.0
    ensures TotalDelivered(Collect(allocs, stations, matrix)) <= AllTowerWater(allocs)
  {
    RoutedWaterBound(allocs, stations, matrix);
  }
}
