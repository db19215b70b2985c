/** The worked donor example of test-calculation.js: "Barangay 5" flowing at
    28 L/s and dropping 1.2 L/s per hour, over a 3-hour emergency.

    The script computes both capacity rules and expects 15,840 L (the
    maximum safe donation alone), but lib/algorithms.ts:163-168 still takes
    the smaller of the two estimates, which is 8,640 L here.  The lemmas pin
    down both figures and show that the allocator, as written, offers
    8,640 L. */
module DonationScenario {
  import opened Wrappers
  import opened ExtReals
  import opened StableSort
  import opened WaterTypes
  import opened Prediction
  import opened Allocation

  const Zone5: Barangay := Barangay("5", "Barangay 5", Location(0.0, 0.0))
  const Reading5: LiveBarangayData := LiveBarangayData("5", 28.0, 1.2)
  const Hours: real := 3.0

  /** The intermediate figures the script prints. */
  lemma ScenarioFigures()
    ensures TargetFlowRate(Reading5, Hours) == 23.6
    ensures MaxSafeDonation(Reading5, Hours) == 15840.0
    ensures FlowRateAfterEmergency(Reading5, Hours) == 24.4
    ensures ExcessWaterAfterEmergency(Reading5, Hours) == 8640.0
  {
  }

  /** The capacity rule of the allocator gives the smaller figure, not the
      15,840 L the script names as expected. */
  lemma ScenarioCapacityIsMinimum()
    ensures SafeExcessWater(Reading5, Hours) == 8640.0
    ensures SafeExcessWater(Reading5, Hours) < MaxSafeDonation(Reading5, Hours)
  {
    ScenarioFigures();
  }

  /** Run through prediction and donor selection, Barangay 5 is the one donor
      and offers 8,640 L. */
  lemma ScenarioDonor()
    ensures var preds := PredictShortages([Zone5], [Reading5], UserInput(Hours));
      var ss := Suppliers(preds, [Reading5], Hours);
      && |ss| == 1
      && ss[0].barangay == Zone5
      && ss[0].excessWater == 8640.0
      && ss[0].maxSafeDonation == 15840.0
  {
    ScenarioFigures();
    var preds := PredictShortages([Zone5], [Reading5], UserInput(Hours));
    assert FindLive([Reading5], "5") == Some(Reading5);
    var p := PredictOne(Zone5, [Reading5], Hours);
    assert |preds| == 1 && preds[0] in preds;
    assert preds == [p];
    assert HScore(Reading5) == Fin(8.0 / 1.2);
    assert CanDonate(p, [Reading5], Hours);
    assert preds[1..] == [];
    assert SuppliersFrom(preds, [], [Reading5], Hours) == [];
    var s := ToSupplier(p, preds, Reading5, Hours);
    assert SuppliersFrom(preds, preds, [Reading5], Hours) == [s] + SuppliersFrom(preds, [], [Reading5], Hours);
    ScenarioCapacityIsMinimum();
  }

  /** Donors are chosen on the ROUNDED time to shortage.  A zone at 20.03
      L/s dropping 1 L/s per hour reaches the threshold in 0.03 h, which
      rounds to 0.0, so over a 0.01-hour emergency it is not a donor even
      though it has 0.36 L of safe surplus. */
  lemma RoundedTimeGatesDonors()
    ensures var z := Barangay("r", "Rounded", Location(0.0, 0.0));
      var d := LiveBarangayData("r", 20.03, 1.0);
      var p := PredictOne(z, [d], 0.01);
      && SafeExcessWater(d, 0.01) == 0.36
      && p.timeToShortage == Fin(0.0)
      && !CanDonate(p, [d], 0.01)
  {
    var z := Barangay("r", "Rounded", Location(0.0, 0.0));
    var d := LiveBarangayData("r", 20.03, 1.0);
    assert FindLive([d], "r") == Some(d);
    var p := PredictOne(z, [d], 0.01);
    assert RoundsTo(0.03, p.timeToShortage.value);
    var n := (p.timeToShortage.value * 10.0).Floor;
    assert n == 0;
  }
}
