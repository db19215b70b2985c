/** Shortage prediction (lib/algorithms.ts, `predictShortages`).

    Each zone is scored from its live reading: a flow-deficit proxy (gScore),
    the hours until its flow decays to the safety threshold (hScore), their
    sum (fScore), a status and the volume it needs to stay safe through the
    emergency.  The predictions are returned in non-increasing fScore order.
    Like the source, the model rounds every score to one decimal; the status
    is decided on the unrounded hours. */
module Prediction {
  import opened Wrappers
  import opened ExtReals
  import opened StableSort
  import opened WaterTypes

  /** The single global safety threshold, in L/s. */
  const Threshold: real := 20.0

  /** The first live reading for zone `id` (the source's `find`). */
  function FindLive(live: seq<LiveBarangayData>, id: string): (r: Option<LiveBarangayData>)
    ensures r.Some? ==> r.value.barangayId == id && r.value in live
    ensures r.None? <==> forall i | 0 <= i < |live| :: live[i].barangayId != id
    ensures r.Some? ==> exists i | 0 <= i < |live| ::
              (live[i] == r.value && forall j | 0 <= j < i :: live[j].barangayId != id)
  {
    if |live| == 0 then None
    else if live[0].barangayId == id then Some(live[0])
    else
      var r := FindLive(live[1..], id);
      assert forall i | 1 <= i < |live| :: live[i] == live[1..][i - 1];
      r
  }

  /** The flow a zone must have now so that, decaying at its drop rate, it
      is still at the threshold when the emergency ends. */
  function TargetFlowRate(d: LiveBarangayData, duration: real): real {
    var dropRatePerSecond := d.dropRate / 3600.0;
    Threshold + dropRatePerSecond * duration * 3600.0
  }

  /** A zone exactly at its target flow ends the emergency exactly at the
      threshold. */
  lemma TargetFlowEndsAtThreshold(d: LiveBarangayData, duration: real)
    ensures TargetFlowRate(d, duration) - d.dropRate * duration == Threshold
  {
  }

  /** Hours until the flow, decaying linearly, reaches the threshold;
      infinite when the flow does not decay. */
  function HScore(d: LiveBarangayData): (h: ExtReal)
    ensures h.Fin? <==> d.dropRate > 0.0
    ensures h.Fin? ==> d.currentFlowRate - d.dropRate * h.value == Threshold
  {
    if d.dropRate > 0.0 then Fin((d.currentFlowRate - Threshold) / d.dropRate) else PosInf
  }

  /** Litres the zone needs so that its flow reaches the target: the
      deficit in L/s taken over one hour. */
  function WaterNeededToBeSafe(d: LiveBarangayData, duration: real): (w: real)
    ensures w >= 0.0
    ensures w == 0.0 <==> d.currentFlowRate >= TargetFlowRate(d, duration)
    ensures w > 0.0 ==> d.currentFlowRate + w / 3600.0 == TargetFlowRate(d, duration)
  {
    var target := TargetFlowRate(d, duration);
    if d.currentFlowRate < target then (target - d.currentFlowRate) * 3600.0 else 0.0
  }

  /** `y` is a whole number of tenths. */
  predicate IsTenth(y: real) {
    (y * 10.0).Floor as real == y * 10.0
  }

  /** `y` is the tenth nearest to `x`, halves going up. */
  predicate RoundsTo(x: real, y: real) {
    IsTenth(y) && y - 0.05 <= x < y + 0.05
  }

  /** The source's `Math.round(x * 10) / 10`. */
  function RoundTenth(x: real): (y: real)
    ensures RoundsTo(x, y)
  {
    ((x * 10.0 + 0.5).Floor as real) / 10.0
  }

  /** Only one tenth is that close to `x`, so `RoundTenth`'s contract fixes
      its value. */
  lemma RoundsToUnique(x: real, y: real, z: real)
    requires RoundsTo(x, y) && RoundsTo(x, z)
    ensures y == z
  {
    var a := (y * 10.0).Floor;
    var b := (z * 10.0).Floor;
    assert a as real - b as real < 1.0;
    assert b as real - a as real < 1.0;
    assert a == b;
  }

  /** Rounding on the extended reals: `Math.round(Infinity)` is `Infinity`. */
  function RoundExt(a: ExtReal): (r: ExtReal)
    ensures r.PosInf? <==> a.PosInf?
    ensures a.Fin? ==> RoundsTo(a.value, r.value)
  {
    match a
    case Fin(v) => Fin(RoundTenth(v))
    case PosInf => PosInf
  }

  function StatusOf(d: LiveBarangayData): Status {
    if d.currentFlowRate < Threshold then Critical
    else if d.currentFlowRate == Threshold || Le(HScore(d), Fin(1.0)) then Warning
    else Safe
  }

  /** The status read in terms of hours to shortage: for a decaying zone,
      Critical when the threshold is already crossed, Warning within the
      hour, Safe beyond it; for a zone that does not decay, only the
      comparison with the threshold matters. */
  lemma StatusByHoursToShortage(d: LiveBarangayData)
    ensures d.dropRate > 0.0 ==>
      && (StatusOf(d) == Critical <==> HScore(d).value < 0.0)
      && (StatusOf(d) == Warning <==> 0.0 <= HScore(d).value <= 1.0)
      && (StatusOf(d) == Safe <==> HScore(d).value > 1.0)
    ensures d.dropRate <= 0.0 ==>
      && (StatusOf(d) == Critical <==> d.currentFlowRate < Threshold)
      && (StatusOf(d) == Warning <==> d.currentFlowRate == Threshold)
      && (StatusOf(d) == Safe <==> d.currentFlowRate > Threshold)
  {
    if d.dropRate > 0.0 {
      var h := HScore(d).value;
      assert d.currentFlowRate - Threshold == d.dropRate * h;
      if h < 0.0 {
        assert d.dropRate * h < 0.0;
      } else {
        assert d.dropRate * h >= 0.0;
      }
    }
  }

  /** One zone's prediction.  Without live data the zone is Safe with
      infinite scores and no water need.  With data: Critical exactly when
      it flows below the threshold, Warning when it is at the threshold or
      reaches it within the hour, infinite scores exactly when its flow does
      not drop, every score rounded to the nearest tenth, and the need to
      stay safe through the emergency. */
  function PredictOne(b: Barangay, live: seq<LiveBarangayData>, duration: real): (p: ShortagePrediction)
    ensures p.barangay == b
    ensures FindLive(live, b.id).None? ==>
      p == ShortagePrediction(b, 0.0, PosInf, PosInf, PosInf, Safe, None)
    ensures FindLive(live, b.id).Some? ==>
      var d := FindLive(live, b.id).value;
      && (p.status == Critical <==> d.currentFlowRate < Threshold)
      && (p.status == Warning <==>
            && Threshold <= d.currentFlowRate
            && (d.currentFlowRate == Threshold || (d.dropRate > 0.0 && d.currentFlowRate - Threshold <= d.dropRate)))
      && (p.hScore.PosInf? <==> d.dropRate <= 0.0)
      && (p.fScore.PosInf? <==> d.dropRate <= 0.0)
      && p.timeToShortage == p.hScore
      && RoundsTo(50.0 - d.currentFlowRate, p.gScore)
      && (d.dropRate > 0.0 ==> RoundsTo((d.currentFlowRate - Threshold) / d.dropRate, p.hScore.value))
      && (d.dropRate > 0.0 ==>
            RoundsTo(50.0 - d.currentFlowRate + (d.currentFlowRate - Threshold) / d.dropRate, p.fScore.value))
      && p.waterNeededToBeSafe == Some(WaterNeededToBeSafe(d, duration))
  {
    match FindLive(live, b.id)
    case None => ShortagePrediction(b, 0.0, PosInf, PosInf, PosInf, Safe, None)
    case Some(d) =>
      var gScore := 50.0 - d.currentFlowRate;
      var hScore := HScore(d);
      WarningWithinTheHour(d);
      ShortagePrediction(b, RoundTenth(gScore), RoundExt(hScore), RoundExt(Plus(gScore, hScore)), RoundExt(hScore),
                         StatusOf(d), Some(WaterNeededToBeSafe(d, duration)))
  }

  /** The source's `hScore <= 1`, read on the readings themselves. */
  lemma WarningWithinTheHour(d: LiveBarangayData)
    ensures Le(HScore(d), Fin(1.0)) <==> d.dropRate > 0.0 && d.currentFlowRate - Threshold <= d.dropRate
  {
    if d.dropRate > 0.0 {
      var h := HScore(d).value;
      assert d.currentFlowRate - Threshold == d.dropRate * h;
      if h <= 1.0 {
        assert d.dropRate * h <= d.dropRate * 1.0;
      } else {
        assert d.dropRate * h > d.dropRate * 1.0;
      }
    }
  }

  function FScore(p: ShortagePrediction): ExtReal { p.fScore }

  /** One prediction per zone, in input order. */
  function Unranked(barangays: seq<Barangay>, live: seq<LiveBarangayData>, duration: real)
    : (r: seq<ShortagePrediction>)
    ensures |r| == |barangays|
    ensures forall i | 0 <= i < |r| :: r[i] == PredictOne(barangays[i], live, duration)
  {
    seq(|barangays|, i requires 0 <= i < |barangays| => PredictOne(barangays[i], live, duration))
  }

  /** The predictions, most urgent (largest fScore) first.  Equal fScores keep
      the input order.  A zone without live data has an infinite fScore and
      so is ranked ahead of every zone with data. */
  function PredictShortages(barangays: seq<Barangay>, live: seq<LiveBarangayData>, input: UserInput)
    : (r: seq<ShortagePrediction>)
    ensures |r| == |barangays|
  {
    Sort(Unranked(barangays, live, input.emergencyDuration), FScore)
  }

  /** The predictions are exactly the per-zone predictions, each as often as
      its zone appears. */
  lemma PredictionsCover(barangays: seq<Barangay>, live: seq<LiveBarangayData>, input: UserInput)
    ensures var r := PredictShortages(barangays, live, input);
      && (forall i | 0 <= i < |barangays| :: PredictOne(barangays[i], live, input.emergencyDuration) in r)
      && (forall p | p in r :: exists i | 0 <= i < |barangays| ::
            p == PredictOne(barangays[i], live, input.emergencyDuration))
    ensures multiset(PredictShortages(barangays, live, input))
         == multiset(Unranked(barangays, live, input.emergencyDuration))
  {
    var raw := Unranked(barangays, live, input.emergencyDuration);
    var r := PredictShortages(barangays, live, input);
    SortPermutes(raw, FScore);
    assert forall i | 0 <= i < |barangays| :: raw[i] in multiset(r);
    assert forall p | p in r :: p in multiset(raw);
  }

  /** The predictions are in non-increasing fScore order, and predictions
      with equal fScores keep the order of their zones. */
  lemma PredictionsRanked(barangays: seq<Barangay>, live: seq<LiveBarangayData>, input: UserInput)
    ensures SortedDesc(PredictShortages(barangays, live, input), FScore)
    ensures forall k :: WithKey(PredictShortages(barangays, live, input), FScore, k)
                     == WithKey(Unranked(barangays, live, input.emergencyDuration), FScore, k)
  {
    var raw := Unranked(barangays, live, input.emergencyDuration);
    SortSorted(raw, FScore);
    forall k
      ensures WithKey(PredictShortages(barangays, live, input), FScore, k) == WithKey(raw, FScore, k)
    {
      SortStable(raw, FScore, k);
    }
  }

  /** Every prediction whose zone has live data carries that reading's
      water need; this is what the allocator relies on. */
  ghost predicate NeedsAgree(preds: seq<ShortagePrediction>, live: seq<LiveBarangayData>, duration: real) {
    forall i | 0 <= i < |preds| :: FindLive(live, preds[i].barangay.id).Some? ==>
      preds[i].waterNeededToBeSafe == Some(WaterNeededToBeSafe(FindLive(live, preds[i].barangay.id).value, duration))
  }

  lemma PredictionsAgree(barangays: seq<Barangay>, live: seq<LiveBarangayData>, input: UserInput)
    ensures NeedsAgree(PredictShortages(barangays, live, input), live, input.emergencyDuration)
  {
    var preds := PredictShortages(barangays, live, input);
    PredictionsCover(barangays, live, input);
    forall i | 0 <= i < |preds| && FindLive(live, preds[i].barangay.id).Some?
      ensures preds[i].waterNeededToBeSafe
           == Some(WaterNeededToBeSafe(FindLive(live, preds[i].barangay.id).value, input.emergencyDuration))
    {
      assert preds[i] in preds;
      var j :| 0 <= j < |barangays| && preds[i] == PredictOne(barangays[j], live, input.emergencyDuration);
    }
  }

  /** Zones with distinct ids give predictions with distinct ids. */
  lemma PredictionsDistinct(barangays: seq<Barangay>, live: seq<LiveBarangayData>, input: UserInput)
    requires DistinctBy(barangays, BarangayId)
    ensures DistinctBy(PredictShortages(barangays, live, input), PredictionId)
  {
    var raw := Unranked(barangays, live, input.emergencyDuration);
    assert DistinctBy(raw, PredictionId) by {
      forall i, j | 0 <= i < j < |raw|
        ensures PredictionId(raw[i]) != PredictionId(raw[j])
      {
        assert BarangayId(barangays[i]) != BarangayId(barangays[j]);
      }
    }
    SortDistinct(raw, FScore, PredictionId);
  }
}
