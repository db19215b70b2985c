/** Water balancing (lib/algorithms.ts, `allocateWater`).

    Zones whose flow is below their target flow are recipients, served one
    at a time in priority order.  Zones that stay safe beyond the emergency
    and have a positive safe surplus are donors.  Each recipient is served
    in a single greedy pass, from the donors first (longest time to
    shortage first) and then from the towers, which the source tracks as
    ONE pooled counter.  Cumulative draws persist across recipients. */
module Allocation {
  import opened Wrappers
  import opened ExtReals
  import opened StableSort
  import opened WaterTypes
  import opened Prediction
  import opened Positions

  function Max(a: real, b: real): real { if a >= b then a else b }
  function Min(a: real, b: real): real { if a <= b then a else b }

  // ---------------------------------------------------------------------
  // Recipients

  function PriorityOf(s: Status): int {
    match s
    case Critical => 10
    case Warning => 5
    case Safe => 1
  }

  datatype Recipient = Recipient(barangay: Barangay, waterNeeded: real, priority: int, status: Status)

  /** The zone has live data and flows below its target. */
  predicate NeedsWater(p: ShortagePrediction, live: seq<LiveBarangayData>, duration: real) {
    match FindLive(live, p.barangay.id)
    case None => false
    case Some(d) => d.currentFlowRate < TargetFlowRate(d, duration)
  }

  function ToRecipient(p: ShortagePrediction): Recipient {
    Recipient(p.barangay, p.waterNeededToBeSafe.GetOr(0.0), PriorityOf(p.status), p.status)
  }

  /** Which predictions need water, position by position. */
  function NeedyFlags(preds: seq<ShortagePrediction>, live: seq<LiveBarangayData>, duration: real): (f: seq<bool>)
    ensures |f| == |preds|
  {
    seq(|preds|, i requires 0 <= i < |preds| => NeedsWater(preds[i], live, duration))
  }

  /** The needy predictions as recipients (the source's `filter` then
      `map`). */
  function Needy(preds: seq<ShortagePrediction>, live: seq<LiveBarangayData>, duration: real)
    : (r: seq<Recipient>)
    ensures |r| <= |preds|
  {
    var kept := Kept(preds, NeedyFlags(preds, live, duration));
    seq(|kept|, i requires 0 <= i < |kept| => ToRecipient(kept[i]))
  }

  /** The recipients are the needy predictions, each exactly once and in
      prediction order: the `i`-th recipient comes from the `i`-th needy
      position, and the needy positions are listed increasing and
      completely. */
  lemma NeedyInOrder(preds: seq<ShortagePrediction>, live: seq<LiveBarangayData>, duration: real)
    ensures var idx := TruePositions(NeedyFlags(preds, live, duration), 0);
      && Increasing(idx)
      && (forall j | 0 <= j < |preds| :: NeedsWater(preds[j], live, duration) <==> j in idx)
      && |Needy(preds, live, duration)| == |idx|
      && (forall i | 0 <= i < |idx| :: idx[i] < |preds| && Needy(preds, live, duration)[i] == ToRecipient(preds[idx[i]]))
  {
    var flags := NeedyFlags(preds, live, duration);
    KeptInOrder(preds, flags);
    assert forall j | 0 <= j < |preds| :: flags[j] == NeedsWater(preds[j], live, duration);
  }

  /** `x` is the recipient of a prediction in `preds` that needs water. */
  ghost predicate FromNeedy(x: Recipient, preds: seq<ShortagePrediction>, live: seq<LiveBarangayData>, duration: real) {
    exists j | 0 <= j < |preds| :: NeedsWater(preds[j], live, duration) && x == ToRecipient(preds[j])
  }

  /** Every recipient comes from a needy prediction, and every needy
      prediction yields a recipient. */
  lemma NeedyMembers(preds: seq<ShortagePrediction>, live: seq<LiveBarangayData>, duration: real)
    ensures forall i | 0 <= i < |Needy(preds, live, duration)| :: FromNeedy(Needy(preds, live, duration)[i], preds, live, duration)
    ensures forall j | 0 <= j < |preds| :: NeedsWater(preds[j], live, duration) ==> ToRecipient(preds[j]) in Needy(preds, live, duration)
  {
    var r := Needy(preds, live, duration);
    var idx := TruePositions(NeedyFlags(preds, live, duration), 0);
    NeedyInOrder(preds, live, duration);
    forall i | 0 <= i < |r|
      ensures FromNeedy(r[i], preds, live, duration)
    {
      var j := idx[i];
      assert j in idx;
      assert NeedsWater(preds[j], live, duration) && r[i] == ToRecipient(preds[j]);
    }
    forall j | 0 <= j < |preds| && NeedsWater(preds[j], live, duration)
      ensures ToRecipient(preds[j]) in r
    {
      var i :| 0 <= i < |idx| && idx[i] == j;
      assert r[i] == ToRecipient(preds[j]);
    }
  }

  function PriorityKey(r: Recipient): ExtReal { Fin(r.priority as real) }

  /** Recipients in non-increasing priority, stable within a priority. */
  function RankedRecipients(preds: seq<ShortagePrediction>, live: seq<LiveBarangayData>, duration: real)
    : (r: seq<Recipient>)
  {
    Sort(Needy(preds, live, duration), PriorityKey)
  }

  /** Recipients come in non-increasing priority, and equal priorities keep
      the prediction order. */
  lemma RecipientsRanked(preds: seq<ShortagePrediction>, live: seq<LiveBarangayData>, duration: real)
    ensures multiset(RankedRecipients(preds, live, duration)) == multiset(Needy(preds, live, duration))
    ensures var r := RankedRecipients(preds, live, duration);
      forall i, j | 0 <= i < j < |r| :: r[i].priority >= r[j].priority
    ensures forall k :: WithKey(RankedRecipients(preds, live, duration), PriorityKey, k)
                     == WithKey(Needy(preds, live, duration), PriorityKey, k)
  {
    var needy := Needy(preds, live, duration);
    var r := RankedRecipients(preds, live, duration);
    SortPermutes(needy, PriorityKey);
    SortSorted(needy, PriorityKey);
    forall i, j | 0 <= i < j < |r|
      ensures r[i].priority >= r[j].priority
    {
      assert Le(PriorityKey(r[j]), PriorityKey(r[i]));
    }
    forall k
      ensures WithKey(r, PriorityKey, k) == WithKey(needy, PriorityKey, k)
    {
      SortStable(needy, PriorityKey, k);
    }
  }

  // ---------------------------------------------------------------------
  // Donors

  function FlowRateAfterEmergency(d: LiveBarangayData, duration: real): real {
    Max(0.0, d.currentFlowRate - (d.dropRate / 3600.0) * duration * 3600.0)
  }

  /** Litres the zone can give while staying at its target flow. */
  function MaxSafeDonation(d: LiveBarangayData, duration: real): real {
    Max(0.0, (d.currentFlowRate - TargetFlowRate(d, duration)) * 3600.0)
  }

  /** Surplus of the end-of-emergency flow over the target, over the whole
      emergency. */
  function ExcessWaterAfterEmergency(d: LiveBarangayData, duration: real): real {
    Max(0.0, FlowRateAfterEmergency(d, duration) - TargetFlowRate(d, duration)) * duration * 3600.0
  }

  /** A donor's capacity: the smaller of the two estimates, never negative.
      Over a non-negative duration both estimates are non-negative, so it is
      exactly the smaller one. */
  function SafeExcessWater(d: LiveBarangayData, duration: real): (w: real)
    ensures 0.0 <= w <= MaxSafeDonation(d, duration)
    ensures duration >= 0.0 ==> w <= ExcessWaterAfterEmergency(d, duration)
    ensures w == 0.0 || w == MaxSafeDonation(d, duration) || w == ExcessWaterAfterEmergency(d, duration)
    ensures duration >= 0.0 ==> w == MaxSafeDonation(d, duration) || w == ExcessWaterAfterEmergency(d, duration)
    ensures w > 0.0 ==> d.currentFlowRate > TargetFlowRate(d, duration)
  {
    Max(0.0, Min(MaxSafeDonation(d, duration), ExcessWaterAfterEmergency(d, duration)))
  }

  datatype Supplier = Supplier(
    barangay: Barangay,
    excessWater: real,
    maxSafeDonation: real,
    excessWaterAfterEmergency: real,
    rank: ExtReal)

  function SupplierId(s: Supplier): string { s.barangay.id }
  function SupplierRank(s: Supplier): ExtReal { s.rank }

  /** The time to shortage the donor ordering reads for zone `id`: that of
      the first prediction for it, or 0 when there is none. */
  function RankOf(preds: seq<ShortagePrediction>, id: string): ExtReal {
    if |preds| == 0 then Fin(0.0)
    else if preds[0].barangay.id == id then preds[0].timeToShortage
    else RankOf(preds[1..], id)
  }

  /** The zone outlasts the emergency and has a positive safe surplus. */
  predicate CanDonate(p: ShortagePrediction, live: seq<LiveBarangayData>, duration: real) {
    && Lt(Fin(duration), p.timeToShortage)
    && FindLive(live, p.barangay.id).Some?
    && SafeExcessWater(FindLive(live, p.barangay.id).value, duration) > 0.0
  }

  function ToSupplier(p: ShortagePrediction, all: seq<ShortagePrediction>, d: LiveBarangayData, duration: real)
    : Supplier
  {
    Supplier(p.barangay, SafeExcessWater(d, duration), MaxSafeDonation(d, duration),
             ExcessWaterAfterEmergency(d, duration), RankOf(all, p.barangay.id))
  }

  /** The donors among `preds`, in prediction order; ranks read from `all`. */
  function SuppliersFrom(all: seq<ShortagePrediction>, preds: seq<ShortagePrediction>,
                         live: seq<LiveBarangayData>, duration: real): (r: seq<Supplier>)
    ensures |r| <= |preds|
  {
    if |preds| == 0 then []
    else
      var rest := SuppliersFrom(all, preds[1..], live, duration);
      if CanDonate(preds[0], live, duration) then
        [ToSupplier(preds[0], all, FindLive(live, preds[0].barangay.id).value, duration)] + rest
      else
        rest
  }

  /** `s` belongs to a prediction in `preds` that may donate. */
  ghost predicate FromDonor(s: Supplier, preds: seq<ShortagePrediction>, live: seq<LiveBarangayData>, duration: real) {
    exists j | 0 <= j < |preds| :: CanDonate(preds[j], live, duration) && s.barangay == preds[j].barangay
  }

  /** `s` offers its zone's positive safe excess. */
  ghost predicate OffersSafeExcess(s: Supplier, live: seq<LiveBarangayData>, duration: real) {
    && FindLive(live, s.barangay.id).Some?
    && s.excessWater == SafeExcessWater(FindLive(live, s.barangay.id).value, duration)
    && s.excessWater > 0.0
  }

  /** One step of the donor filter, with the donor's own figures named. */
  lemma SuppliersFromStep(all: seq<ShortagePrediction>, preds: seq<ShortagePrediction>,
                          live: seq<LiveBarangayData>, duration: real)
    requires |preds| > 0
    ensures CanDonate(preds[0], live, duration) ==>
      var s := SuppliersFrom(all, preds, live, duration)[0];
      && SuppliersFrom(all, preds, live, duration) == [s] + SuppliersFrom(all, preds[1..], live, duration)
      && s.barangay == preds[0].barangay
      && OffersSafeExcess(s, live, duration)
      && s.rank == RankOf(all, s.barangay.id)
    ensures !CanDonate(preds[0], live, duration) ==>
      SuppliersFrom(all, preds, live, duration) == SuppliersFrom(all, preds[1..], live, duration)
  {
  }

  /** Every donor comes from a prediction in `preds` that may donate. */
  lemma {:induction false} SuppliersFromDonors(all: seq<ShortagePrediction>, preds: seq<ShortagePrediction>,
                                               live: seq<LiveBarangayData>, duration: real)
    ensures forall i | 0 <= i < |SuppliersFrom(all, preds, live, duration)| ::
      FromDonor(SuppliersFrom(all, preds, live, duration)[i], preds, live, duration)
    decreases |preds|
  {
    if |preds| > 0 {
      var tail := preds[1..];
      var rest := SuppliersFrom(all, tail, live, duration);
      var r := SuppliersFrom(all, preds, live, duration);
      SuppliersFromDonors(all, tail, live, duration);
      SuppliersFromStep(all, preds, live, duration);
      var skip := if CanDonate(preds[0], live, duration) then 1 else 0;
      forall i | 0 <= i < |r|
        ensures FromDonor(r[i], preds, live, duration)
      {
        if i < skip {
          assert CanDonate(preds[0], live, duration) && r[i].barangay == preds[0].barangay;
        } else {
          assert r[i] == rest[i - skip];
          assert FromDonor(rest[i - skip], tail, live, duration);
          var j :| 0 <= j < |tail| && CanDonate(tail[j], live, duration) && rest[i - skip].barangay == tail[j].barangay;
          assert tail[j] == preds[j + 1];
        }
      }
    }
  }

  /** Every donor offers its zone's positive safe excess. */
  lemma {:induction false} SuppliersFromOffer(all: seq<ShortagePrediction>, preds: seq<ShortagePrediction>,
                                              live: seq<LiveBarangayData>, duration: real)
    ensures forall i | 0 <= i < |SuppliersFrom(all, preds, live, duration)| ::
      OffersSafeExcess(SuppliersFrom(all, preds, live, duration)[i], live, duration)
    decreases |preds|
  {
    if |preds| > 0 {
      var rest := SuppliersFrom(all, preds[1..], live, duration);
      var r := SuppliersFrom(all, preds, live, duration);
      SuppliersFromOffer(all, preds[1..], live, duration);
      SuppliersFromStep(all, preds, live, duration);
      if CanDonate(preds[0], live, duration) {
        assert forall i | 1 <= i < |r| :: r[i] == rest[i - 1];
      }
    }
  }

  /** Every donor comes from a prediction that may donate, and offers that
      zone's positive safe excess. */
  lemma SuppliersFromSpec(all: seq<ShortagePrediction>, preds: seq<ShortagePrediction>,
                          live: seq<LiveBarangayData>, duration: real)
    ensures forall i | 0 <= i < |SuppliersFrom(all, preds, live, duration)| ::
      && FromDonor(SuppliersFrom(all, preds, live, duration)[i], preds, live, duration)
      && OffersSafeExcess(SuppliersFrom(all, preds, live, duration)[i], live, duration)
  {
    SuppliersFromDonors(all, preds, live, duration);
    SuppliersFromOffer(all, preds, live, duration);
  }

  /** Every donor is ranked by the time to shortage of the first prediction
      for its zone in `all`. */
  lemma {:induction false} SuppliersFromRanks(all: seq<ShortagePrediction>, preds: seq<ShortagePrediction>,
                                              live: seq<LiveBarangayData>, duration: real)
    ensures forall i | 0 <= i < |SuppliersFrom(all, preds, live, duration)| ::
      SuppliersFrom(all, preds, live, duration)[i].rank == RankOf(all, SuppliersFrom(all, preds, live, duration)[i].barangay.id)
    decreases |preds|
  {
    if |preds| > 0 {
      var rest := SuppliersFrom(all, preds[1..], live, duration);
      var r := SuppliersFrom(all, preds, live, duration);
      SuppliersFromRanks(all, preds[1..], live, duration);
      SuppliersFromStep(all, preds, live, duration);
      if CanDonate(preds[0], live, duration) {
        assert forall i | 1 <= i < |r| :: r[i] == rest[i - 1];
      }
    }
  }

  /** Some donor in `ss` is zone `b`. */
  ghost predicate HasSupplier(ss: seq<Supplier>, b: Barangay) {
    exists i | 0 <= i < |ss| :: ss[i].barangay == b
  }

  /** Conversely, every prediction that may donate yields a donor. */
  lemma {:induction false} SuppliersFromComplete(all: seq<ShortagePrediction>, preds: seq<ShortagePrediction>,
                                                 live: seq<LiveBarangayData>, duration: real)
    ensures forall j | 0 <= j < |preds| && CanDonate(preds[j], live, duration) ::
      HasSupplier(SuppliersFrom(all, preds, live, duration), preds[j].barangay)
    decreases |preds|
  {
    if |preds| > 0 {
      var tail := preds[1..];
      var rest := SuppliersFrom(all, tail, live, duration);
      var r := SuppliersFrom(all, preds, live, duration);
      SuppliersFromComplete(all, tail, live, duration);
      SuppliersFromStep(all, preds, live, duration);
      var skip := if CanDonate(preds[0], live, duration) then 1 else 0;
      forall j | 0 <= j < |preds| && CanDonate(preds[j], live, duration)
        ensures HasSupplier(r, preds[j].barangay)
      {
        if j == 0 {
          assert r[0].barangay == preds[0].barangay;
        } else {
          assert preds[j] == tail[j - 1];
          assert HasSupplier(rest, tail[j - 1].barangay);
          var i :| 0 <= i < |rest| && rest[i].barangay == tail[j - 1].barangay;
          assert r[i + skip] == rest[i];
        }
      }
    }
  }

  function PredictionIds(preds: seq<ShortagePrediction>): set<string> {
    set i | 0 <= i < |preds| :: preds[i].barangay.id
  }

  /** Donors inherit the predictions' distinct ids. */
  lemma {:induction false} SuppliersDistinct(all: seq<ShortagePrediction>, preds: seq<ShortagePrediction>,
                                             live: seq<LiveBarangayData>, duration: real)
    requires DistinctBy(preds, PredictionId)
    ensures DistinctBy(SuppliersFrom(all, preds, live, duration), SupplierId)
    ensures forall i | 0 <= i < |SuppliersFrom(all, preds, live, duration)| ::
              SuppliersFrom(all, preds, live, duration)[i].barangay.id in PredictionIds(preds)
    decreases |preds|
  {
    if |preds| > 0 {
      var tail := preds[1..];
      var rest := SuppliersFrom(all, tail, live, duration);
      assert DistinctBy(tail, PredictionId);
      SuppliersDistinct(all, tail, live, duration);
      assert preds[0].barangay.id !in PredictionIds(tail) by {
        forall j | 0 <= j < |tail|
          ensures tail[j].barangay.id != preds[0].barangay.id
        {
          assert PredictionId(preds[0]) != PredictionId(preds[j + 1]);
        }
      }
      assert PredictionIds(tail) <= PredictionIds(preds) by {
        forall x | x in PredictionIds(tail)
          ensures x in PredictionIds(preds)
        {
          var j :| 0 <= j < |tail| && tail[j].barangay.id == x;
          assert preds[j + 1] == tail[j];
        }
      }
      if CanDonate(preds[0], live, duration) {
        var head := ToSupplier(preds[0], all, FindLive(live, preds[0].barangay.id).value, duration);
        assert SuppliersFrom(all, preds, live, duration) == [head] + rest;
        DistinctCons(head, rest);
      } else {
        assert SuppliersFrom(all, preds, live, duration) == rest;
      }
    }
  }

  lemma DistinctCons(head: Supplier, rest: seq<Supplier>)
    requires DistinctBy(rest, SupplierId)
    requires forall i | 0 <= i < |rest| :: rest[i].barangay.id != head.barangay.id
    ensures DistinctBy([head] + rest, SupplierId)
  {
    var r := [head] + rest;
    forall i, k | 0 <= i < k < |r|
      ensures SupplierId(r[i]) != SupplierId(r[k])
    {
      assert r[k] == rest[k - 1];
      if i > 0 {
        assert r[i] == rest[i - 1];
      }
    }
  }

  function Suppliers(preds: seq<ShortagePrediction>, live: seq<LiveBarangayData>, duration: real)
    : seq<Supplier>
  {
    SuppliersFrom(preds, preds, live, duration)
  }

  /** A zone is a donor exactly when one of its predictions may donate: it
      outlasts the emergency, has live data and a positive safe surplus. */
  lemma DonorsAreTheEligible(preds: seq<ShortagePrediction>, live: seq<LiveBarangayData>, duration: real, b: Barangay)
    ensures HasSupplier(Suppliers(preds, live, duration), b) <==>
      exists j | 0 <= j < |preds| :: CanDonate(preds[j], live, duration) && preds[j].barangay == b
  {
    var ss := Suppliers(preds, live, duration);
    if HasSupplier(ss, b) {
      var i :| 0 <= i < |ss| && ss[i].barangay == b;
      SuppliersFromSpec(preds, preds, live, duration);
      assert FromDonor(ss[i], preds, live, duration);
    }
    if exists j | 0 <= j < |preds| :: CanDonate(preds[j], live, duration) && preds[j].barangay == b {
      SuppliersFromComplete(preds, preds, live, duration);
    }
  }

  /** Donors in non-increasing time to shortage (most stable first). */
  function SortSuppliers(ss: seq<Supplier>): (r: seq<Supplier>)
  {
    Sort(ss, SupplierRank)
  }

  /** Donors come in non-increasing time to shortage, and donors with equal
      times keep their order. */
  lemma SuppliersRanked(ss: seq<Supplier>)
    ensures multiset(SortSuppliers(ss)) == multiset(ss)
    ensures var r := SortSuppliers(ss);
      forall i, j | 0 <= i < j < |r| :: Le(r[j].rank, r[i].rank)
    ensures forall k :: WithKey(SortSuppliers(ss), SupplierRank, k) == WithKey(ss, SupplierRank, k)
  {
    var r := SortSuppliers(ss);
    SortPermutes(ss, SupplierRank);
    SortSorted(ss, SupplierRank);
    forall i, j | 0 <= i < j < |r|
      ensures Le(r[j].rank, r[i].rank)
    {
      assert Le(SupplierRank(r[j]), SupplierRank(r[i]));
    }
    forall k
      ensures WithKey(r, SupplierRank, k) == WithKey(ss, SupplierRank, k)
    {
      SortStable(ss, SupplierRank, k);
    }
  }

  // ---------------------------------------------------------------------
  // Usage tracking and the greedy draw

  /** What has been drawn so far this run: one pooled tower counter and one
      counter per donor id. */
  datatype Usage = Usage(towers: real, suppliers: map<string, real>)

  function UsedBy(used: map<string, real>, id: string): real {
    if id in used then used[id] else 0.0
  }

  function Available(s: Supplier, used: map<string, real>): real {
    Max(0.0, s.excessWater - UsedBy(used, s.barangay.id))
  }

  function RemainingSupply(ss: seq<Supplier>, used: map<string, real>): (r: real)
    ensures r >= 0.0
  {
    if |ss| == 0 then 0.0 else Available(ss[0], used) + RemainingSupply(ss[1..], used)
  }

  datatype Draw = Draw(sources: seq<Source>, unmet: real, used: map<string, real>)

  /** Walks the donors in order, taking from each the lesser of what is
      still needed and what it still has. */
  function DrawFromSuppliers(ss: seq<Supplier>, need: real, used: map<string, real>): Draw
    decreases |ss|
  {
    if |ss| == 0 || need <= 0.0 then Draw([], need, used)
    else
      var id := ss[0].barangay.id;
      var prior := UsedBy(used, id);
      var take := Min(need, Max(0.0, ss[0].excessWater - prior));
      if take > 0.0 then
        var rest := DrawFromSuppliers(ss[1..], need - take, used[id := prior + take]);
        Draw([Donor(id, take)] + rest.sources, rest.unmet, rest.used)
      else
        DrawFromSuppliers(ss[1..], need, used)
  }

  datatype Fill = Fill(sources: seq<Source>, usage: Usage)

  /** Donors first, then whatever is still unmet from the towers. */
  function Fulfil(amount: real, ss: seq<Supplier>, u: Usage): Fill {
    var d := DrawFromSuppliers(SortSuppliers(ss), amount, u.suppliers);
    if d.unmet > 0.0 then Fill(d.sources + [Towers(d.unmet)], Usage(u.towers + d.unmet, d.used))
    else Fill(d.sources, Usage(u.towers, d.used))
  }

  /** Water still obtainable: the towers' remainder plus every donor's. */
  function Remaining(ss: seq<Supplier>, totalTower: real, u: Usage): real {
    (totalTower - u.towers) + RemainingSupply(ss, u.suppliers)
  }

  datatype Served = Served(allocation: WaterAllocation, usage: Usage)

  /** Serves one recipient: fully, partially with everything left, or not
      at all. */
  function Serve(r: Recipient, ss: seq<Supplier>, totalTower: real, u: Usage): Served {
    var remaining := Remaining(ss, totalTower, u);
    if remaining >= r.waterNeeded then
      var f := Fulfil(r.waterNeeded, ss, u);
      Served(WaterAllocation(r.barangay, true, r.waterNeeded, r.waterNeeded, r.priority, r.status, f.sources), f.usage)
    else if remaining > 0.0 then
      var f := Fulfil(remaining, ss, u);
      Served(WaterAllocation(r.barangay, true, r.waterNeeded, remaining, r.priority, r.status, f.sources), f.usage)
    else
      Served(WaterAllocation(r.barangay, false, r.waterNeeded, 0.0, r.priority, r.status, []), u)
  }

  function RecipientOf(a: WaterAllocation): Recipient {
    Recipient(a.barangay, a.waterNeeded, a.priority, a.status)
  }

  datatype Batch = Batch(allocations: seq<WaterAllocation>, usage: Usage)

  /** The single greedy pass over the recipients, in order. */
  function ServeAll(rs: seq<Recipient>, ss: seq<Supplier>, totalTower: real, u: Usage): (b: Batch)
    ensures |b.allocations| == |rs|
    ensures forall i | 0 <= i < |rs| :: RecipientOf(b.allocations[i]) == rs[i]
    decreases |rs|
  {
    if |rs| == 0 then Batch([], u)
    else
      var s := Serve(rs[0], ss, totalTower, u);
      var rest := ServeAll(rs[1..], ss, totalTower, s.usage);
      Batch([s.allocation] + rest.allocations, rest.usage)
  }

  function TotalTowerWater(towers: seq<LiveTowerData>): real {
    if |towers| == 0 then 0.0 else towers[0].currentWater + TotalTowerWater(towers[1..])
  }

  ghost predicate Rejected(barangays: seq<Barangay>, live: seq<LiveBarangayData>,
                           preds: seq<ShortagePrediction>, input: UserInput) {
    |barangays| == 0 || |live| == 0 || |preds| == 0 || input.emergencyDuration <= 0.0
  }

  /** One allocation per needy zone, in priority order; [] on empty inputs
      or a non-positive duration. */
  function AllocateWater(barangays: seq<Barangay>, live: seq<LiveBarangayData>, towers: seq<LiveTowerData>,
                         preds: seq<ShortagePrediction>, input: UserInput): (r: seq<WaterAllocation>)
    ensures Rejected(barangays, live, preds, input) ==> r == []
    ensures !Rejected(barangays, live, preds, input) ==>
      var rs := RankedRecipients(preds, live, input.emergencyDuration);
      |r| == |rs| && forall i | 0 <= i < |r| :: RecipientOf(r[i]) == rs[i]
  {
    if |barangays| == 0 || |live| == 0 || |preds| == 0 || input.emergencyDuration <= 0.0 then []
    else
      var duration := input.emergencyDuration;
      ServeAll(RankedRecipients(preds, live, duration), Suppliers(preds, live, duration),
               TotalTowerWater(towers), Usage(0.0, map[])).allocations
  }

  // Sums over a run's allocations

  function AllTowerWater(allocs: seq<WaterAllocation>): real {
    if |allocs| == 0 then 0.0 else TowerWater(allocs[0].waterSources) + AllTowerWater(allocs[1..])
  }

  function AllDonorWater(allocs: seq<WaterAllocation>, id: string): real {
    if |allocs| == 0 then 0.0 else DonorWater(allocs[0].waterSources, id) + AllDonorWater(allocs[1..], id)
  }
}
