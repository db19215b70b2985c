/** What the greedy pass of `allocateWater` guarantees: each allocation is
    within its need and exactly accounted for by its sources, donors and the
    pooled towers are never overdrawn, and once a recipient is only partly
    served nothing is left for anyone after it. */
module AllocationLemmas {
  import opened Wrappers
  import opened ExtReals
  import opened StableSort
  import opened WaterTypes
  import opened Prediction
  import opened Allocation

  ghost predicate NoSupplier(ss: seq<Supplier>, id: string) {
    forall i | 0 <= i < |ss| :: ss[i].barangay.id != id
  }

  lemma SourcesCons(x: Source, rest: seq<Source>)
    ensures SourcesTotal([x] + rest) == x.amount + SourcesTotal(rest)
    ensures TowerWater([x] + rest) == (if x.Towers? then x.amount else 0.0) + TowerWater(rest)
    ensures forall id :: DonorWater([x] + rest, id)
              == (if x.Donor? && x.barangayId == id then x.amount else 0.0) + DonorWater(rest, id)
  {
    assert ([x] + rest)[1..] == rest;
  }

  // ---------------------------------------------------------------------
  // The donor walk

  /** The walk hands out exactly what it was asked for, less what it could
      not find, and only from donors. */
  lemma {:induction false} DrawTotals(ss: seq<Supplier>, need: real, used: map<string, real>)
    requires need >= 0.0
    ensures var d := DrawFromSuppliers(ss, need, used);
      && 0.0 <= d.unmet <= need
      && SourcesTotal(d.sources) + d.unmet == need
      && TowerWater(d.sources) == 0.0
    decreases |ss|
  {
    if |ss| > 0 && need > 0.0 {
      var id := ss[0].barangay.id;
      var prior := UsedBy(used, id);
      var take := Min(need, Max(0.0, ss[0].excessWater - prior));
      if take > 0.0 {
        var used' := used[id := prior + take];
        var rest := DrawFromSuppliers(ss[1..], need - take, used');
        assert DrawFromSuppliers(ss, need, used) == Draw([Donor(id, take)] + rest.sources, rest.unmet, rest.used);
        DrawTotals(ss[1..], need - take, used');
        SourcesCons(Donor(id, take), rest.sources);
      } else {
        assert DrawFromSuppliers(ss, need, used) == DrawFromSuppliers(ss[1..], need, used);
        DrawTotals(ss[1..], need, used);
      }
    }
  }

  lemma NoSupplierTail(ss: seq<Supplier>, id: string)
    requires |ss| > 0 && NoSupplier(ss, id)
    ensures ss[0].barangay.id != id && NoSupplier(ss[1..], id)
  {
    assert forall i | 0 <= i < |ss[1..]| :: ss[1..][i] == ss[i + 1];
  }

  lemma DistinctTail(ss: seq<Supplier>)
    requires |ss| > 0 && DistinctBy(ss, SupplierId)
    ensures DistinctBy(ss[1..], SupplierId) && NoSupplier(ss[1..], ss[0].barangay.id)
  {
    forall i | 0 <= i < |ss[1..]|
      ensures ss[1..][i].barangay.id != ss[0].barangay.id
    {
      assert SupplierId(ss[0]) != SupplierId(ss[i + 1]);
    }
  }

  /** Each counter grows by exactly what the walk recorded for that id. */
  lemma {:induction false} DrawCounts(ss: seq<Supplier>, need: real, used: map<string, real>, id: string)
    ensures var d := DrawFromSuppliers(ss, need, used);
      UsedBy(d.used, id) == UsedBy(used, id) + DonorWater(d.sources, id)
    decreases |ss|
  {
    if |ss| > 0 && need > 0.0 {
      var id0 := ss[0].barangay.id;
      var prior := UsedBy(used, id0);
      var take := Min(need, Max(0.0, ss[0].excessWater - prior));
      if take > 0.0 {
        var used' := used[id0 := prior + take];
        var rest := DrawFromSuppliers(ss[1..], need - take, used');
        DrawCounts(ss[1..], need - take, used', id);
        SourcesCons(Donor(id0, take), rest.sources);
      } else {
        DrawCounts(ss[1..], need, used, id);
      }
    }
  }

  /** The walk records nothing for an id that is not a donor. */
  lemma {:induction false} DrawOnlyDonors(ss: seq<Supplier>, need: real, used: map<string, real>, id: string)
    requires NoSupplier(ss, id)
    ensures DonorWater(DrawFromSuppliers(ss, need, used).sources, id) == 0.0
    decreases |ss|
  {
    if |ss| > 0 && need > 0.0 {
      NoSupplierTail(ss, id);
      var id0 := ss[0].barangay.id;
      var prior := UsedBy(used, id0);
      var take := Min(need, Max(0.0, ss[0].excessWater - prior));
      if take > 0.0 {
        var used' := used[id0 := prior + take];
        var rest := DrawFromSuppliers(ss[1..], need - take, used');
        DrawOnlyDonors(ss[1..], need - take, used', id);
        SourcesCons(Donor(id0, take), rest.sources);
      } else {
        DrawOnlyDonors(ss[1..], need, used, id);
      }
    }
  }

  /** A counter outside the walked donors is left as it was. */
  lemma DrawFrame(ss: seq<Supplier>, need: real, used: map<string, real>, id: string)
    requires NoSupplier(ss, id)
    ensures UsedBy(DrawFromSuppliers(ss, need, used).used, id) == UsedBy(used, id)
  {
    DrawCounts(ss, need, used, id);
    DrawOnlyDonors(ss, need, used, id);
  }

  /** A donor within its capacity before the walk is within it after. */
  lemma {:induction false} DrawWithinCapacity(ss: seq<Supplier>, need: real, used: map<string, real>, i: nat)
    requires DistinctBy(ss, SupplierId)
    requires i < |ss| && UsedBy(used, ss[i].barangay.id) <= ss[i].excessWater
    ensures UsedBy(DrawFromSuppliers(ss, need, used).used, ss[i].barangay.id) <= ss[i].excessWater
    decreases |ss|
  {
    if need > 0.0 {
      DistinctTail(ss);
      var id0 := ss[0].barangay.id;
      var prior := UsedBy(used, id0);
      var take := Min(need, Max(0.0, ss[0].excessWater - prior));
      var used' := if take > 0.0 then used[id0 := prior + take] else used;
      var need' := if take > 0.0 then need - take else need;
      assert DrawFromSuppliers(ss, need, used).used == DrawFromSuppliers(ss[1..], need', used').used;
      if i == 0 {
        DrawFrame(ss[1..], need', used', id0);
      } else {
        assert ss[i] == ss[1..][i - 1];
        assert SupplierId(ss[0]) != SupplierId(ss[i]);
        DrawWithinCapacity(ss[1..], need', used', i - 1);
      }
    }
  }

  /** The supply left depends only on the counters of the listed donors. */
  lemma {:induction false} RemainingSame(ss: seq<Supplier>, u1: map<string, real>, u2: map<string, real>)
    requires forall i | 0 <= i < |ss| :: UsedBy(u1, ss[i].barangay.id) == UsedBy(u2, ss[i].barangay.id)
    ensures RemainingSupply(ss, u1) == RemainingSupply(ss, u2)
    decreases |ss|
  {
    if |ss| > 0 {
      assert forall i | 0 <= i < |ss[1..]| :: ss[1..][i] == ss[i + 1];
      RemainingSame(ss[1..], u1, u2);
    }
  }

  /** The donors' remaining supply drops by exactly what the walk took. */
  lemma {:induction false} DrawRemaining(ss: seq<Supplier>, need: real, used: map<string, real>)
    requires DistinctBy(ss, SupplierId)
    requires need >= 0.0
    ensures var d := DrawFromSuppliers(ss, need, used);
      RemainingSupply(ss, d.used) == RemainingSupply(ss, used) - (need - d.unmet)
    decreases |ss|
  {
    if |ss| > 0 && need > 0.0 {
      DistinctTail(ss);
      var tail := ss[1..];
      var id0 := ss[0].barangay.id;
      var prior := UsedBy(used, id0);
      var avail := Max(0.0, ss[0].excessWater - prior);
      var take := Min(need, avail);
      var d := DrawFromSuppliers(ss, need, used);
      var used' := if take > 0.0 then used[id0 := prior + take] else used;
      var need' := if take > 0.0 then need - take else need;
      var rest := DrawFromSuppliers(tail, need', used');
      assert d.used == rest.used && d.unmet == rest.unmet;
      DrawRemaining(tail, need', used');
      DrawFrame(tail, need', used', id0);
      RemainingSame(tail, used', used);
      assert RemainingSupply(ss, d.used) == Available(ss[0], rest.used) + RemainingSupply(tail, rest.used);
      assert RemainingSupply(ss, used) == avail + RemainingSupply(tail, used);
      assert Available(ss[0], rest.used) == avail - (need - need');
    }
  }

  /** A walk that leaves part of the need unmet has exhausted every donor. */
  lemma {:induction false} DrawExhausts(ss: seq<Supplier>, need: real, used: map<string, real>)
    requires DistinctBy(ss, SupplierId)
    requires need >= 0.0
    requires DrawFromSuppliers(ss, need, used).unmet > 0.0
    ensures RemainingSupply(ss, DrawFromSuppliers(ss, need, used).used) == 0.0
    decreases |ss|
  {
    if |ss| > 0 {
      DistinctTail(ss);
      var tail := ss[1..];
      var id0 := ss[0].barangay.id;
      var prior := UsedBy(used, id0);
      var avail := Max(0.0, ss[0].excessWater - prior);
      var take := Min(need, avail);
      var d := DrawFromSuppliers(ss, need, used);
      var used' := if take > 0.0 then used[id0 := prior + take] else used;
      var need' := if take > 0.0 then need - take else need;
      var rest := DrawFromSuppliers(tail, need', used');
      assert d.used == rest.used && d.unmet == rest.unmet;
      DrawTotals(tail, need', used');
      assert need' > 0.0;
      DrawExhausts(tail, need', used');
      DrawFrame(tail, need', used', id0);
      assert RemainingSupply(ss, d.used) == Available(ss[0], rest.used) + RemainingSupply(tail, rest.used);
      assert take == avail;
      assert Available(ss[0], rest.used) == 0.0;
    }
  }

  // ---------------------------------------------------------------------
  // Ordering the donors does not change what they hold

  lemma {:induction false} RemainingConcat(a: seq<Supplier>, b: seq<Supplier>, used: map<string, real>)
    ensures RemainingSupply(a + b, used) == RemainingSupply(a, used) + RemainingSupply(b, used)
    decreases |a|
  {
    if |a| == 0 {
      assert a + b == b;
    } else {
      assert (a + b)[1..] == a[1..] + b;
      RemainingConcat(a[1..], b, used);
    }
  }

  lemma {:induction false} RemainingInsert(x: Supplier, s: seq<Supplier>, used: map<string, real>)
    ensures RemainingSupply(Insert(x, s, SupplierRank), used)
         == Available(x, used) + RemainingSupply(s, used)
    decreases |s|
  {
    if |s| > 0 && Le(SupplierRank(x), SupplierRank(s[0])) {
      var t := Insert(x, s[1..], SupplierRank);
      assert Insert(x, s, SupplierRank) == [s[0]] + t;
      assert ([s[0]] + t)[1..] == t;
      RemainingInsert(x, s[1..], used);
    } else if |s| > 0 {
      assert Insert(x, s, SupplierRank) == [x] + s;
      assert ([x] + s)[1..] == s;
    }
  }

  lemma {:induction false} RemainingSnoc(init: seq<Supplier>, last: Supplier, used: map<string, real>)
    ensures RemainingSupply(init + [last], used) == RemainingSupply(init, used) + Available(last, used)
  {
    RemainingConcat(init, [last], used);
    assert RemainingSupply([last], used) == Available(last, used) + RemainingSupply([], used);
  }

  lemma {:induction false} RemainingSort(ss: seq<Supplier>, used: map<string, real>)
    ensures RemainingSupply(Sort(ss, SupplierRank), used) == RemainingSupply(ss, used)
    decreases |ss|
  {
    if |ss| > 0 {
      var init := ss[..|ss| - 1];
      var last := ss[|ss| - 1];
      var t := Sort(init, SupplierRank);
      assert ss == init + [last];
      calc {
        RemainingSupply(Sort(ss, SupplierRank), used);
        { assert Sort(ss, SupplierRank) == Insert(last, t, SupplierRank); }
        RemainingSupply(Insert(last, t, SupplierRank), used);
        { RemainingInsert(last, t, used); }
        Available(last, used) + RemainingSupply(t, used);
        { RemainingSort(init, used); }
        Available(last, used) + RemainingSupply(init, used);
        { RemainingSnoc(init, last, used); }
        RemainingSupply(ss, used);
      }
    }
  }

  /** The donor order the walk uses holds the same donors, once each. */
  lemma SortedSuppliers(ss: seq<Supplier>, used: map<string, real>)
    requires DistinctBy(ss, SupplierId)
    ensures RemainingSupply(SortSuppliers(ss), used) == RemainingSupply(ss, used)
    ensures DistinctBy(SortSuppliers(ss), SupplierId)
    ensures forall id | NoSupplier(ss, id) :: NoSupplier(SortSuppliers(ss), id)
  {
    RemainingSort(ss, used);
    SortDistinct(ss, SupplierRank, SupplierId);
    var r := SortSuppliers(ss);
    forall id | NoSupplier(ss, id)
      ensures NoSupplier(r, id)
    {
      forall i | 0 <= i < |r|
        ensures r[i].barangay.id != id
      {
        assert r[i] in multiset(ss) by { SortPermutes(ss, SupplierRank); }
      }
    }
  }

  // ---------------------------------------------------------------------
  // Serving one recipient

  ghost predicate WithinCapacity(ss: seq<Supplier>, used: map<string, real>) {
    forall i | 0 <= i < |ss| :: UsedBy(used, ss[i].barangay.id) <= ss[i].excessWater
  }

  /** Drawing `amount`: the recorded sources add up to it, and the part
      recorded from the towers is what the tower counter grows by. */
  lemma FulfilSources(amount: real, ss: seq<Supplier>, u: Usage)
    requires amount >= 0.0
    ensures var f := Fulfil(amount, ss, u);
      && SourcesTotal(f.sources) == amount
      && TowerWater(f.sources) == f.usage.towers - u.towers
  {
    var sorted := SortSuppliers(ss);
    var d := DrawFromSuppliers(sorted, amount, u.suppliers);
    DrawTotals(sorted, amount, u.suppliers);
    if d.unmet > 0.0 {
      SourcesConcat(d.sources, [Towers(d.unmet)], "");
      SourcesCons(Towers(d.unmet), []);
    }
  }

  /** The towers give nothing back and never more than was asked for. */
  lemma FulfilTowerShare(amount: real, ss: seq<Supplier>, u: Usage)
    requires amount >= 0.0
    ensures 0.0 <= TowerWater(Fulfil(amount, ss, u).sources) <= amount
  {
    FulfilSources(amount, ss, u);
    DrawTotals(SortSuppliers(ss), amount, u.suppliers);
  }

  /** The ledger equations of one draw, over plain numbers: the towers give
      what the donors could not, and the donors keep what they did not give. */
  lemma Ledger(before: real, after: real, amount: real, unmet: real)
    requires 0.0 <= unmet <= amount && after >= 0.0
    requires after == before - (amount - unmet)
    requires unmet > 0.0 ==> after == 0.0
    ensures unmet == Max(0.0, amount - before)
    ensures after == Max(0.0, before - amount)
  {
  }

  /** What one draw does to the counters, with the donors already sorted. */
  lemma FulfilDraw(amount: real, ss: seq<Supplier>, u: Usage)
    requires amount >= 0.0
    ensures var d := DrawFromSuppliers(SortSuppliers(ss), amount, u.suppliers);
      Fulfil(amount, ss, u).usage == Usage(u.towers + d.unmet, d.used)
  {
    DrawTotals(SortSuppliers(ss), amount, u.suppliers);
  }

  /** The draw over the sorted donors, restated over the donors as given. */
  lemma SortedDraw(amount: real, ss: seq<Supplier>, used: map<string, real>)
    requires DistinctBy(ss, SupplierId)
    requires amount >= 0.0
    ensures var d := DrawFromSuppliers(SortSuppliers(ss), amount, used);
      && 0.0 <= d.unmet <= amount
      && RemainingSupply(ss, d.used) == RemainingSupply(ss, used) - (amount - d.unmet)
      && (d.unmet > 0.0 ==> RemainingSupply(ss, d.used) == 0.0)
  {
    var sorted := SortSuppliers(ss);
    var d := DrawFromSuppliers(sorted, amount, used);
    SortedSuppliers(ss, used);
    SortedSuppliers(ss, d.used);
    DrawTotals(sorted, amount, used);
    DrawRemaining(sorted, amount, used);
    if d.unmet > 0.0 {
      DrawExhausts(sorted, amount, used);
    }
  }

  /** One draw's effect on the counters, over the donors as given. */
  lemma FulfilLedger(amount: real, ss: seq<Supplier>, u: Usage)
    requires DistinctBy(ss, SupplierId)
    requires amount >= 0.0
    ensures var f := Fulfil(amount, ss, u);
      var unmet := f.usage.towers - u.towers;
      && 0.0 <= unmet <= amount
      && RemainingSupply(ss, f.usage.suppliers) == RemainingSupply(ss, u.suppliers) - (amount - unmet)
      && (unmet > 0.0 ==> RemainingSupply(ss, f.usage.suppliers) == 0.0)
  {
    FulfilDraw(amount, ss, u);
    SortedDraw(amount, ss, u.suppliers);
  }

  /** Drawing `amount`: the towers give exactly what the donors could not,
      and the donors keep what they did not give. */
  lemma FulfilAccounting(amount: real, ss: seq<Supplier>, u: Usage)
    requires DistinctBy(ss, SupplierId)
    requires amount >= 0.0
    ensures var f := Fulfil(amount, ss, u);
      && f.usage.towers == u.towers + Max(0.0, amount - RemainingSupply(ss, u.suppliers))
      && RemainingSupply(ss, f.usage.suppliers) == Max(0.0, RemainingSupply(ss, u.suppliers) - amount)
  {
    FulfilLedger(amount, ss, u);
    Settled(Fulfil(amount, ss, u).usage, u, amount, RemainingSupply(ss, u.suppliers),
            RemainingSupply(ss, Fulfil(amount, ss, u).usage.suppliers));
  }

  /** `Ledger` read off the counters. */
  lemma Settled(after: Usage, before: Usage, amount: real, supplyBefore: real, supplyAfter: real)
    requires 0.0 <= after.towers - before.towers <= amount && supplyAfter >= 0.0
    requires supplyAfter == supplyBefore - (amount - (after.towers - before.towers))
    requires after.towers - before.towers > 0.0 ==> supplyAfter == 0.0
    ensures after.towers == before.towers + Max(0.0, amount - supplyBefore)
    ensures supplyAfter == Max(0.0, supplyBefore - amount)
  {
    Ledger(supplyBefore, supplyAfter, amount, after.towers - before.towers);
  }

  /** Drawing `amount` moves each donor's counter by what its sources record,
      never records an id that is not a donor, and keeps every donor within
      its capacity. */
  lemma FulfilUsage(amount: real, ss: seq<Supplier>, u: Usage, id: string)
    requires DistinctBy(ss, SupplierId)
    ensures var f := Fulfil(amount, ss, u);
      UsedBy(f.usage.suppliers, id) == UsedBy(u.suppliers, id) + DonorWater(f.sources, id)
    ensures NoSupplier(ss, id) ==> DonorWater(Fulfil(amount, ss, u).sources, id) == 0.0
    ensures WithinCapacity(ss, u.suppliers) ==> WithinCapacity(ss, Fulfil(amount, ss, u).usage.suppliers)
  {
    var sorted := SortSuppliers(ss);
    var d := DrawFromSuppliers(sorted, amount, u.suppliers);
    SortedSuppliers(ss, u.suppliers);
    DrawCounts(sorted, amount, u.suppliers, id);
    if d.unmet > 0.0 {
      SourcesConcat(d.sources, [Towers(d.unmet)], id);
      SourcesCons(Towers(d.unmet), []);
    }
    if NoSupplier(ss, id) {
      DrawOnlyDonors(sorted, amount, u.suppliers, id);
    }
    if WithinCapacity(ss, u.suppliers) {
      forall i | 0 <= i < |ss|
        ensures UsedBy(d.used, ss[i].barangay.id) <= ss[i].excessWater
      {
        assert ss[i] in multiset(sorted) by { SortPermutes(ss, SupplierRank); }
        var j :| 0 <= j < |sorted| && sorted[j] == ss[i];
        DrawWithinCapacity(sorted, amount, u.suppliers, j);
      }
    }
  }

  ghost predicate Partial(a: WaterAllocation) {
    a.isAllocated && a.waterAllocated < a.waterNeeded
  }

  ghost predicate WellShaped(a: WaterAllocation) {
    && 0.0 < a.waterNeeded
    && 0.0 <= a.waterAllocated <= a.waterNeeded
    && SourcesTotal(a.waterSources) == a.waterAllocated
    && 0.0 <= TowerWater(a.waterSources) <= a.waterAllocated
    && (a.isAllocated <==> a.waterAllocated > 0.0)
  }

  ghost predicate AllWellShaped(allocs: seq<WaterAllocation>) {
    forall i | 0 <= i < |allocs| :: WellShaped(allocs[i])
  }

  ghost predicate NoneAllocated(allocs: seq<WaterAllocation>) {
    forall i | 0 <= i < |allocs| :: !allocs[i].isAllocated && allocs[i].waterAllocated == 0.0
  }

  ghost predicate NothingAfterPartial(allocs: seq<WaterAllocation>) {
    forall i, j | 0 <= i < j < |allocs| && Partial(allocs[i]) ::
      !allocs[j].isAllocated && allocs[j].waterAllocated == 0.0
  }

  /** One allocation never exceeds the need, is exactly the sum of its
      sources, and is marked allocated exactly when it is positive. */
  lemma ServeShape(r: Recipient, ss: seq<Supplier>, totalTower: real, u: Usage)
    requires r.waterNeeded > 0.0
    ensures WellShaped(Serve(r, ss, totalTower, u).allocation)
  {
    var remaining := Remaining(ss, totalTower, u);
    if remaining >= r.waterNeeded {
      FulfilSources(r.waterNeeded, ss, u);
      FulfilTowerShare(r.waterNeeded, ss, u);
    } else if remaining > 0.0 {
      FulfilSources(remaining, ss, u);
      FulfilTowerShare(remaining, ss, u);
    }
  }

  /** The pooled tower counter grows by what the allocation records from
      the towers and never passes the towers' total. */
  lemma ServeTowers(r: Recipient, ss: seq<Supplier>, totalTower: real, u: Usage)
    requires DistinctBy(ss, SupplierId)
    requires r.waterNeeded >= 0.0
    requires u.towers <= totalTower
    ensures var s := Serve(r, ss, totalTower, u);
      && s.usage.towers == u.towers + TowerWater(s.allocation.waterSources)
      && s.usage.towers <= totalTower
  {
    var remaining := Remaining(ss, totalTower, u);
    var s := Serve(r, ss, totalTower, u);
    if remaining > 0.0 {
      var amount := if remaining >= r.waterNeeded then r.waterNeeded else remaining;
      var f := Fulfil(amount, ss, u);
      assert s.usage == f.usage && s.allocation.waterSources == f.sources;
      FulfilSources(amount, ss, u);
      FulfilAccounting(amount, ss, u);
      var supply := RemainingSupply(ss, u.suppliers);
      assert remaining == (totalTower - u.towers) + supply;
      assert f.usage.towers == u.towers + Max(0.0, amount - supply);
    } else if remaining >= r.waterNeeded {
      var f := Fulfil(r.waterNeeded, ss, u);
      assert s.usage == f.usage && s.allocation.waterSources == f.sources;
      FulfilSources(r.waterNeeded, ss, u);
      FulfilAccounting(r.waterNeeded, ss, u);
    }
  }

  /** With nothing left, a recipient gets nothing and nothing changes. */
  lemma ServeNothingLeft(r: Recipient, ss: seq<Supplier>, totalTower: real, u: Usage)
    requires r.waterNeeded > 0.0
    requires Remaining(ss, totalTower, u) <= 0.0
    ensures var s := Serve(r, ss, totalTower, u);
      && s.usage == u
      && !s.allocation.isAllocated
      && s.allocation.waterAllocated == 0.0
  {
  }

  /** A recipient that is only partly served takes everything that was left. */
  lemma ServeExhausts(r: Recipient, ss: seq<Supplier>, totalTower: real, u: Usage)
    requires DistinctBy(ss, SupplierId)
    requires u.towers <= totalTower
    requires Serve(r, ss, totalTower, u).allocation.isAllocated
    requires Serve(r, ss, totalTower, u).allocation.waterAllocated < r.waterNeeded
    ensures Remaining(ss, totalTower, Serve(r, ss, totalTower, u).usage) == 0.0
  {
    var remaining := Remaining(ss, totalTower, u);
    var f := Fulfil(remaining, ss, u);
    assert Serve(r, ss, totalTower, u).usage == f.usage;
    FulfilAccounting(remaining, ss, u);
    var supply := RemainingSupply(ss, u.suppliers);
    assert remaining == (totalTower - u.towers) + supply;
  }

  /** Donor counters move by exactly what the allocation records. */
  lemma ServeDonors(r: Recipient, ss: seq<Supplier>, totalTower: real, u: Usage, id: string)
    requires DistinctBy(ss, SupplierId)
    ensures var s := Serve(r, ss, totalTower, u);
      UsedBy(s.usage.suppliers, id) == UsedBy(u.suppliers, id) + DonorWater(s.allocation.waterSources, id)
    ensures NoSupplier(ss, id) ==> DonorWater(Serve(r, ss, totalTower, u).allocation.waterSources, id) == 0.0
    ensures WithinCapacity(ss, u.suppliers) ==> WithinCapacity(ss, Serve(r, ss, totalTower, u).usage.suppliers)
  {
    var remaining := Remaining(ss, totalTower, u);
    if remaining >= r.waterNeeded {
      FulfilUsage(r.waterNeeded, ss, u, id);
    } else if remaining > 0.0 {
      FulfilUsage(remaining, ss, u, id);
    }
  }

  // ---------------------------------------------------------------------
  // The whole pass

  lemma {:induction false} ServeAllShape(rs: seq<Recipient>, ss: seq<Supplier>, totalTower: real, u: Usage)
    requires forall i | 0 <= i < |rs| :: rs[i].waterNeeded > 0.0
    ensures AllWellShaped(ServeAll(rs, ss, totalTower, u).allocations)
    decreases |rs|
  {
    if |rs| > 0 {
      var b := ServeAll(rs, ss, totalTower, u);
      var s := Serve(rs[0], ss, totalTower, u);
      var rest := ServeAll(rs[1..], ss, totalTower, s.usage);
      assert b.allocations == [s.allocation] + rest.allocations;
      ServeShape(rs[0], ss, totalTower, u);
      ServeAllShape(rs[1..], ss, totalTower, s.usage);
      forall i | 0 <= i < |b.allocations|
        ensures WellShaped(b.allocations[i])
      {
        if i > 0 {
          assert b.allocations[i] == rest.allocations[i - 1];
        }
      }
    }
  }

  lemma {:induction false} ServeAllTowers(rs: seq<Recipient>, ss: seq<Supplier>, totalTower: real, u: Usage)
    requires DistinctBy(ss, SupplierId)
    requires forall i | 0 <= i < |rs| :: rs[i].waterNeeded >= 0.0
    requires u.towers <= totalTower
    ensures var b := ServeAll(rs, ss, totalTower, u);
      && b.usage.towers == u.towers + AllTowerWater(b.allocations)
      && b.usage.towers <= totalTower
    decreases |rs|
  {
    if |rs| > 0 {
      var s := Serve(rs[0], ss, totalTower, u);
      var rest := ServeAll(rs[1..], ss, totalTower, s.usage);
      ServeTowers(rs[0], ss, totalTower, u);
      ServeAllTowers(rs[1..], ss, totalTower, s.usage);
      assert ([s.allocation] + rest.allocations)[1..] == rest.allocations;
    }
  }

  lemma {:induction false} ServeAllDonors(rs: seq<Recipient>, ss: seq<Supplier>, totalTower: real, u: Usage, id: string)
    requires DistinctBy(ss, SupplierId)
    ensures var b := ServeAll(rs, ss, totalTower, u);
      UsedBy(b.usage.suppliers, id) == UsedBy(u.suppliers, id) + AllDonorWater(b.allocations, id)
    ensures NoSupplier(ss, id) ==> AllDonorWater(ServeAll(rs, ss, totalTower, u).allocations, id) == 0.0
    ensures WithinCapacity(ss, u.suppliers) ==> WithinCapacity(ss, ServeAll(rs, ss, totalTower, u).usage.suppliers)
    decreases |rs|
  {
    if |rs| > 0 {
      var s := Serve(rs[0], ss, totalTower, u);
      var rest := ServeAll(rs[1..], ss, totalTower, s.usage);
      ServeDonors(rs[0], ss, totalTower, u, id);
      ServeAllDonors(rs[1..], ss, totalTower, s.usage, id);
      assert ([s.allocation] + rest.allocations)[1..] == rest.allocations;
    }
  }

  /** With nothing left, every later recipient gets nothing. */
  lemma {:induction false} ServeAllStaysEmpty(rs: seq<Recipient>, ss: seq<Supplier>, totalTower: real, u: Usage)
    requires forall i | 0 <= i < |rs| :: rs[i].waterNeeded > 0.0
    requires Remaining(ss, totalTower, u) <= 0.0
    ensures NoneAllocated(ServeAll(rs, ss, totalTower, u).allocations)
    decreases |rs|
  {
    if |rs| > 0 {
      var b := ServeAll(rs, ss, totalTower, u);
      var s := Serve(rs[0], ss, totalTower, u);
      ServeNothingLeft(rs[0], ss, totalTower, u);
      var rest := ServeAll(rs[1..], ss, totalTower, u);
      assert b.allocations == [s.allocation] + rest.allocations;
      ServeAllStaysEmpty(rs[1..], ss, totalTower, u);
      forall i | 0 <= i < |b.allocations|
        ensures !b.allocations[i].isAllocated && b.allocations[i].waterAllocated == 0.0
      {
        if i > 0 {
          assert b.allocations[i] == rest.allocations[i - 1];
        }
      }
    }
  }

  lemma {:induction false} ServeAllPartial(rs: seq<Recipient>, ss: seq<Supplier>, totalTower: real, u: Usage)
    requires DistinctBy(ss, SupplierId)
    requires forall i | 0 <= i < |rs| :: rs[i].waterNeeded > 0.0
    requires u.towers <= totalTower
    ensures NothingAfterPartial(ServeAll(rs, ss, totalTower, u).allocations)
    decreases |rs|
  {
    if |rs| > 0 {
      var b := ServeAll(rs, ss, totalTower, u);
      var s := Serve(rs[0], ss, totalTower, u);
      var rest := ServeAll(rs[1..], ss, totalTower, s.usage);
      assert b.allocations == [s.allocation] + rest.allocations;
      ServeTowers(rs[0], ss, totalTower, u);
      ServeAllPartial(rs[1..], ss, totalTower, s.usage);
      if Partial(s.allocation) {
        ServeExhausts(rs[0], ss, totalTower, u);
        ServeAllStaysEmpty(rs[1..], ss, totalTower, s.usage);
      }
      forall i, j | 0 <= i < j < |b.allocations| && Partial(b.allocations[i])
        ensures !b.allocations[j].isAllocated && b.allocations[j].waterAllocated == 0.0
      {
        assert b.allocations[j] == rest.allocations[j - 1];
        if i > 0 {
          assert b.allocations[i] == rest.allocations[i - 1];
        } else {
          assert Partial(s.allocation);
        }
      }
    }
  }

  // ---------------------------------------------------------------------
  // allocateWater as a whole

  /** Every ranked recipient has a positive need when the predictions carry
      the live readings' needs. */
  lemma RecipientNeedsWater(preds: seq<ShortagePrediction>, live: seq<LiveBarangayData>, duration: real, j: nat)
    requires NeedsAgree(preds, live, duration)
    requires j < |preds| && NeedsWater(preds[j], live, duration)
    ensures ToRecipient(preds[j]).waterNeeded > 0.0
  {
    var d := FindLive(live, preds[j].barangay.id).value;
    assert preds[j].waterNeededToBeSafe == Some(WaterNeededToBeSafe(d, duration));
  }

  lemma RecipientsNeedWater(preds: seq<ShortagePrediction>, live: seq<LiveBarangayData>, duration: real)
    requires NeedsAgree(preds, live, duration)
    ensures var rs := RankedRecipients(preds, live, duration);
      forall i | 0 <= i < |rs| :: rs[i].waterNeeded > 0.0
  {
    var rs := RankedRecipients(preds, live, duration);
    var needy := Needy(preds, live, duration);
    forall i | 0 <= i < |rs|
      ensures rs[i].waterNeeded > 0.0
    {
      assert rs[i] in multiset(needy) by {
        assert rs[i] in multiset(rs);
        SortPermutes(needy, PriorityKey);
      }
      var k :| 0 <= k < |needy| && needy[k] == rs[i];
      assert FromNeedy(needy[k], preds, live, duration) by { NeedyMembers(preds, live, duration); }
      var j :| 0 <= j < |preds| && NeedsWater(preds[j], live, duration) && needy[k] == ToRecipient(preds[j]);
      RecipientNeedsWater(preds, live, duration, j);
    }
  }

  /** No zone is both a recipient and a donor. */
  lemma NoRecipientIsDonor(preds: seq<ShortagePrediction>, live: seq<LiveBarangayData>, duration: real)
    ensures var rs := RankedRecipients(preds, live, duration);
      var ss := Suppliers(preds, live, duration);
      forall i, j | 0 <= i < |rs| && 0 <= j < |ss| :: rs[i].barangay.id != ss[j].barangay.id
    ensures var rs := RankedRecipients(preds, live, duration);
      forall i | 0 <= i < |rs| :: NoSupplier(Suppliers(preds, live, duration), rs[i].barangay.id)
  {
    var rs := RankedRecipients(preds, live, duration);
    var ss := Suppliers(preds, live, duration);
    var needy := Needy(preds, live, duration);
    forall i, j | 0 <= i < |rs| && 0 <= j < |ss|
      ensures rs[i].barangay.id != ss[j].barangay.id
    {
      assert rs[i] in multiset(needy) by {
        assert rs[i] in multiset(rs);
        SortPermutes(needy, PriorityKey);
      }
      var k :| 0 <= k < |needy| && needy[k] == rs[i];
      assert FromNeedy(needy[k], preds, live, duration) by { NeedyMembers(preds, live, duration); }
      var m :| 0 <= m < |preds| && NeedsWater(preds[m], live, duration) && needy[k] == ToRecipient(preds[m]);
      assert OffersSafeExcess(ss[j], live, duration) by { SuppliersFromSpec(preds, preds, live, duration); }
      var d := FindLive(live, rs[i].barangay.id).value;
      var e := FindLive(live, ss[j].barangay.id).value;
      assert d.currentFlowRate < TargetFlowRate(d, duration);
      assert e.currentFlowRate > TargetFlowRate(e, duration);
    }
  }

  /** Each allocation is within its need, exactly accounted for by its
      sources, and marked allocated exactly when it received water. */
  lemma AllocationsWellShaped(barangays: seq<Barangay>, live: seq<LiveBarangayData>, towers: seq<LiveTowerData>,
                              preds: seq<ShortagePrediction>, input: UserInput)
    requires NeedsAgree(preds, live, input.emergencyDuration)
    ensures AllWellShaped(AllocateWater(barangays, live, towers, preds, input))
  {
    if !Rejected(barangays, live, preds, input) {
      var duration := input.emergencyDuration;
      var rs := RankedRecipients(preds, live, duration);
      var ss := Suppliers(preds, live, duration);
      assert AllocateWater(barangays, live, towers, preds, input)
          == ServeAll(rs, ss, TotalTowerWater(towers), Usage(0.0, map[])).allocations;
      RecipientsNeedWater(preds, live, duration);
      ServeAllShape(rs, ss, TotalTowerWater(towers), Usage(0.0, map[]));
    }
  }

  /** A zone that gave water in a run is a donor and gave no more than its
      safe surplus. */
  lemma DonorWithinSafeExcess(preds: seq<ShortagePrediction>, live: seq<LiveBarangayData>, duration: real,
                              rs: seq<Recipient>, totalTower: real, id: string)
    requires DistinctBy(Suppliers(preds, live, duration), SupplierId)
    requires AllDonorWater(ServeAll(rs, Suppliers(preds, live, duration), totalTower, Usage(0.0, map[])).allocations, id) > 0.0
    ensures FindLive(live, id).Some?
    ensures AllDonorWater(ServeAll(rs, Suppliers(preds, live, duration), totalTower, Usage(0.0, map[])).allocations, id)
         <= SafeExcessWater(FindLive(live, id).value, duration)
  {
    var ss := Suppliers(preds, live, duration);
    var u0 := Usage(0.0, map[]);
    ServeAllDonors(rs, ss, totalTower, u0, id);
    assert !NoSupplier(ss, id);
    var k :| 0 <= k < |ss| && ss[k].barangay.id == id;
    SuppliersFromSpec(preds, preds, live, duration);
    assert OffersSafeExcess(ss[k], live, duration);
    assert WithinCapacity(ss, u0.suppliers) by {
      forall i | 0 <= i < |ss| ensures UsedBy(u0.suppliers, ss[i].barangay.id) <= ss[i].excessWater {
        assert OffersSafeExcess(ss[i], live, duration);
      }
    }
    assert UsedBy(ServeAll(rs, ss, totalTower, u0).usage.suppliers, ss[k].barangay.id) <= ss[k].excessWater;
  }

  /** Across one run the towers together give no more than they hold, each
      donor gives no more than its safe surplus, only donors give, and no
      recipient gives to another. */
  lemma CapacityRespected(barangays: seq<Barangay>, live: seq<LiveBarangayData>, towers: seq<LiveTowerData>,
                          preds: seq<ShortagePrediction>, input: UserInput)
    requires DistinctBy(preds, PredictionId)
    requires NeedsAgree(preds, live, input.emergencyDuration)
    requires TotalTowerWater(towers) >= 0.0
    ensures var r := AllocateWater(barangays, live, towers, preds, input);
      AllTowerWater(r) <= TotalTowerWater(towers)
    ensures var r := AllocateWater(barangays, live, towers, preds, input);
      forall id :: AllDonorWater(r, id) > 0.0 ==>
        && FindLive(live, id).Some?
        && AllDonorWater(r, id) <= SafeExcessWater(FindLive(live, id).value, input.emergencyDuration)
    ensures var r := AllocateWater(barangays, live, towers, preds, input);
      forall i | 0 <= i < |r| :: AllDonorWater(r, r[i].barangay.id) == 0.0
  {
    if !Rejected(barangays, live, preds, input) {
      var duration := input.emergencyDuration;
      var rs := RankedRecipients(preds, live, duration);
      var ss := Suppliers(preds, live, duration);
      var u0 := Usage(0.0, map[]);
      var b := ServeAll(rs, ss, TotalTowerWater(towers), u0);
      assert AllocateWater(barangays, live, towers, preds, input) == b.allocations;
      SuppliersDistinct(preds, preds, live, duration);
      RecipientsNeedWater(preds, live, duration);
      ServeAllTowers(rs, ss, TotalTowerWater(towers), u0);
      forall id | AllDonorWater(b.allocations, id) > 0.0
        ensures && FindLive(live, id).Some?
                && AllDonorWater(b.allocations, id) <= SafeExcessWater(FindLive(live, id).value, duration)
      {
        DonorWithinSafeExcess(preds, live, duration, rs, TotalTowerWater(towers), id);
      }
      NoRecipientIsDonor(preds, live, duration);
      forall i | 0 <= i < |b.allocations|
        ensures AllDonorWater(b.allocations, b.allocations[i].barangay.id) == 0.0
      {
        assert RecipientOf(b.allocations[i]) == rs[i];
        ServeAllDonors(rs, ss, TotalTowerWater(towers), u0, rs[i].barangay.id);
      }
    }
  }

  /** Once a recipient is only partly served, every later recipient is
      left unallocated with nothing. */
  lemma PartialServiceEndsTheRun(barangays: seq<Barangay>, live: seq<LiveBarangayData>, towers: seq<LiveTowerData>,
                                 preds: seq<ShortagePrediction>, input: UserInput)
    requires DistinctBy(preds, PredictionId)
    requires NeedsAgree(preds, live, input.emergencyDuration)
    requires TotalTowerWater(towers) >= 0.0
    ensures NothingAfterPartial(AllocateWater(barangays, live, towers, preds, input))
  {
    if !Rejected(barangays, live, preds, input) {
      var duration := input.emergencyDuration;
      var rs := RankedRecipients(preds, live, duration);
      var ss := Suppliers(preds, live, duration);
      assert AllocateWater(barangays, live, towers, preds, input)
          == ServeAll(rs, ss, TotalTowerWater(towers), Usage(0.0, map[])).allocations;
      SuppliersDistinct(preds, preds, live, duration);
      RecipientsNeedWater(preds, live, duration);
      ServeAllPartial(rs, ss, TotalTowerWater(towers), Usage(0.0, map[]));
    }
  }
}
