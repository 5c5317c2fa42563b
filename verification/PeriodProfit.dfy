/** Profit of orders and of a period, with the profit record cached on each order. Amounts are grosze. */
module PeriodProfit {
  import opened Options
  import opened Money
  import Billing

  datatype Source = Api | Estimated | Manual

  datatype Fees = Fees(amount: real, source: Source, shippingEstimated: bool, complete: bool)

  datatype Breakdown = Breakdown(sale: real, fees: real, cost: real, packaging: real, profit: real,
                                 source: Source, complete: bool, shippingEstimated: bool)

  /**
    * Everything a fee decision looks at: commissions of a manual order, the fees of a Woo order, a billing summary
    * handed in (absent, unsuccessful, or successful), the answer of the billing API, and the estimate.
    */
  datatype FeeInputs = FeeInputs(manual: Option<real>, woo: Option<Fees>, token: bool, prefetched: Option<Option<Fees>>,
                                 external: bool, allegro: bool, api: Option<Fees>, estimate: real)

  /** What is read for one order: sale price, fee inputs, purchase cost, packaging cost. */
  datatype Inputs = Inputs(sale: real, fees: FeeInputs, cost: real, packaging: real)

  /** The cached profit record of an order. */
  datatype Cache = Cache(sale: Option<real>, cost: Option<real>, packaging: Option<real>, fees: Option<real>, amount: Option<real>,
                         source: Option<Source>, shippingEstimated: bool, isFinal: bool)

  /** `_snapshot_from_billing`: the total with an estimate if there is one; a total of zero falls back to the plain total. */
  function Snapshot(b: Billing.Summary): Fees {
    var total := if b.shippingEstimated.Some? && b.totalWithEstimate != 0 then b.totalWithEstimate else b.totalFees;
    Fees(total as real, Api, b.shippingEstimated.Some?, b.shippingEstimated.None?)
  }

  /**
    * The fees taken from a billing summary are its total with the estimate, except when an estimate brings the total to
    * exactly zero: then the total without it is taken. They are final exactly when nothing was estimated.
    */
  lemma SnapshotIsShownTotalIff(b: Billing.Summary, es: seq<Billing.Entry>, estimate: Option<int>)
    requires Billing.Summarises(b, es, false, estimate)
    ensures Snapshot(b).amount == b.totalWithEstimate as real <==> b.totalWithEstimate != 0 || Billing.TotalFees(es) == 0
    ensures Snapshot(b).complete <==> Billing.Total(Billing.Shippings, es) != 0 || estimate == None
  {
  }

  /** `_resolve_fee_snapshot`. */
  function ResolveFees(c: Cache, i: FeeInputs): Fees {
    if i.manual.Some? then Fees(i.manual.value, Manual, false, true)
    else if i.woo.Some? then i.woo.value
    else if c.isFinal && c.fees.Some? && !i.token && i.prefetched.None? then
      Fees(c.fees.value, if c.source.Some? then c.source.value else Api, c.shippingEstimated, true)
    else if i.prefetched.Some? && i.prefetched.value.Some? then i.prefetched.value.value
    else if i.token && i.external && i.allegro && i.api.Some? then i.api.value
    else if i.allegro then Fees(i.estimate, Estimated, i.external, !i.external)
    else Fees(0.0, Estimated, false, true)
  }

  /** `_build_profit_breakdown`. */
  function Calculated(c: Cache, i: Inputs): Breakdown {
    var f := ResolveFees(c, i.fees);
    Breakdown(i.sale, f.amount, i.cost, i.packaging, i.sale - f.amount - i.cost - i.packaging, f.source, f.complete, f.shippingEstimated)
  }

  function Stored(b: Breakdown): Cache {
    Cache(Some(b.sale), Some(b.cost), Some(b.packaging), Some(b.fees), Some(b.profit), Some(b.source), b.shippingEstimated, b.complete)
  }

  /** `get_cached_order_profit`: only a record with all five amounts counts. */
  function FromCache(c: Cache): Option<Breakdown> {
    if c.sale.None? || c.cost.None? || c.packaging.None? || c.fees.None? || c.amount.None? then None
    else Some(Breakdown(c.sale.value, c.fees.value, c.cost.value, c.packaging.value, c.amount.value,
                        if c.source.Some? then c.source.value else Estimated, c.isFinal, c.shippingEstimated))
  }

  /** How far the parts of a breakdown are from its profit. */
  function Gap(b: Breakdown): real {
    b.sale - b.fees - b.cost - b.packaging - b.profit
  }

  class Order {
    var cache: Cache

    constructor ()
      ensures cache == Cache(None, None, None, None, None, None, false, false)
    {
      cache := Cache(None, None, None, None, None, None, false, false);
    }

    /** `refresh_order_profit_cache`. */
    method Refresh(i: Inputs) returns (b: Breakdown)
      modifies this
      ensures b == Calculated(old(cache), i)
      ensures cache == Stored(b) && FromCache(cache) == Some(b) && Gap(b) == 0.0
      ensures cache.sale == Some(b.sale) && cache.fees == Some(b.fees) && cache.cost == Some(b.cost)
      ensures cache.packaging == Some(b.packaging) && cache.amount == Some(b.profit)
      ensures cache.source == Some(b.source) && cache.isFinal == b.complete && cache.shippingEstimated == b.shippingEstimated
      ensures b.sale == i.sale && b.cost == i.cost && b.packaging == i.packaging && b.fees == ResolveFees(old(cache), i.fees).amount
    {
      var f := ResolveFees(cache, i.fees);
      var profit := i.sale - f.amount - i.cost - i.packaging;
      b := Breakdown(i.sale, f.amount, i.cost, i.packaging, profit, f.source, f.complete, f.shippingEstimated);
      cache := cache.(sale := Some(b.sale), cost := Some(b.cost), packaging := Some(b.packaging));
      cache := cache.(fees := Some(b.fees), amount := Some(b.profit), source := Some(b.source));
      cache := cache.(shippingEstimated := b.shippingEstimated, isFinal := b.complete);
    }

    /** Writing the record to its columns and reading it back: each amount has two decimal places there. */
    method Reload()
      modifies this
      ensures cache == Quantised(old(cache))
    {
      cache := Quantised(cache);
    }
  }

  function Column(x: Option<real>): Option<real> {
    if x.None? then None else Some(RoundHalfUp(x.value) as real)
  }

  function Quantised(c: Cache): Cache {
    c.(sale := Column(c.sale), cost := Column(c.cost), packaging := Column(c.packaging), fees := Column(c.fees), amount := Column(c.amount))
  }

  // ---------------------------------------------------------------- the period

  datatype FixedCost = FixedCost(amount: real, active: bool)

  datatype Summary = Summary(revenue: real, cost: real, fees: real, packaging: real, gross: real, fixedCosts: real, net: real,
                             cacheHits: nat, incomplete: nat, apiFees: nat)

  /** The breakdown the period uses for one order: the cached one, else one calculated without a token. */
  function Used(c: Cache, i: Inputs): Breakdown {
    if FromCache(c).Some? then FromCache(c).value else Calculated(c, i)
  }

  function UsedAll(cs: seq<Cache>, inputs: seq<Inputs>): seq<Breakdown>
    requires |cs| == |inputs|
  {
    seq(|cs|, k requires 0 <= k < |cs| => Used(cs[k], inputs[k]))
  }

  function Add(f: Breakdown -> real, bs: seq<Breakdown>): real {
    if bs == [] then 0.0 else Add(f, bs[..|bs| - 1]) + f(bs[|bs| - 1])
  }

  function Count(p: Breakdown -> bool, bs: seq<Breakdown>): nat {
    if bs == [] then 0 else Count(p, bs[..|bs| - 1]) + if p(bs[|bs| - 1]) then 1 else 0
  }

  function ActiveCosts(fixedCosts: seq<FixedCost>): real {
    if fixedCosts == [] then 0.0
    else ActiveCosts(fixedCosts[..|fixedCosts| - 1]) +
         if fixedCosts[|fixedCosts| - 1].active then fixedCosts[|fixedCosts| - 1].amount else 0.0
  }

  function Sale(b: Breakdown): real { b.sale }
  function Fee(b: Breakdown): real { b.fees }
  function Cost(b: Breakdown): real { b.cost }
  function Packaging(b: Breakdown): real { b.packaging }
  function Profit(b: Breakdown): real { b.profit }
  predicate Incomplete(b: Breakdown) { !b.complete }
  predicate FromApi(b: Breakdown) { b.source.Api? }

  /** All five amounts are cached. */
  predicate Complete(c: Cache) {
    c.sale.Some? && c.cost.Some? && c.packaging.Some? && c.fees.Some? && c.amount.Some?
  }

  /** The orders whose cached record is used. */
  ghost function HitsIn(cs: seq<Cache>): set<int> {
    set k | 0 <= k < |cs| && Complete(cs[k])
  }

  lemma HitsNext(cs: seq<Cache>, i: nat)
    requires i < |cs|
    ensures |HitsIn(cs[..i + 1])| == |HitsIn(cs[..i])| + if FromCache(cs[i]).Some? then 1 else 0
  {
    var before := HitsIn(cs[..i]);
    if Complete(cs[i]) {
      assert HitsIn(cs[..i + 1]) == before + {i};
    } else {
      assert HitsIn(cs[..i + 1]) == before;
    }
  }

  /** A complete record is used as it is cached, whatever could be read now; else the order is calculated as a refresh would. */
  lemma UsedIs(c: Cache, i: Inputs)
    ensures var b := Used(c, i);
            if Complete(c) then
              && b.sale == c.sale.value && b.fees == c.fees.value && b.cost == c.cost.value
              && b.packaging == c.packaging.value && b.profit == c.amount.value
              && b.complete == c.isFinal && b.shippingEstimated == c.shippingEstimated
              && b.source == (if c.source.None? then Estimated else c.source.value)
            else
              && b.sale == i.sale && b.cost == i.cost && b.packaging == i.packaging
              && b.fees == ResolveFees(c, i.fees).amount && b.profit == b.sale - b.fees - b.cost - b.packaging
  {
  }

  /** Sums and counts of a period are those of its parts. */
  lemma {:induction false} PeriodsAdd(f: Breakdown -> real, p: Breakdown -> bool, xs: seq<Breakdown>, ys: seq<Breakdown>)
    ensures Add(f, xs + ys) == Add(f, xs) + Add(f, ys) && Count(p, xs + ys) == Count(p, xs) + Count(p, ys)
    ensures |ys| == 1 ==> Add(f, ys) == f(ys[0]) && Count(p, ys) == if p(ys[0]) then 1 else 0
  {
    if ys == [] {
      assert xs + ys == xs;
    } else {
      assert (xs + ys)[..|xs + ys| - 1] == xs + ys[..|ys| - 1];
      PeriodsAdd(f, p, xs, ys[..|ys| - 1]);
    }
  }

  lemma {:induction false} FixedCostsAdd(xs: seq<FixedCost>, ys: seq<FixedCost>)
    ensures ActiveCosts(xs + ys) == ActiveCosts(xs) + ActiveCosts(ys)
    ensures (forall c :: c in ys ==> !c.active) ==> ActiveCosts(ys) == 0.0
    ensures |ys| == 1 && ys[0].active ==> ActiveCosts(ys) == ys[0].amount
  {
    if ys == [] {
      assert xs + ys == xs;
    } else {
      assert (xs + ys)[..|xs + ys| - 1] == xs + ys[..|ys| - 1];
      FixedCostsAdd(xs, ys[..|ys| - 1]);
    }
  }

  /** The summing loop of `get_period_summary`, over the cached records and what would be read for each order. */
  method PeriodSummary(cs: seq<Cache>, inputs: seq<Inputs>, fixedCosts: seq<FixedCost>, includeFixed: bool) returns (s: Summary)
    requires |cs| == |inputs|
    ensures var bs := UsedAll(cs, inputs);
            && s.revenue == Add(Sale, bs) && s.fees == Add(Fee, bs) && s.cost == Add(Cost, bs) && s.packaging == Add(Packaging, bs)
            && s.gross == s.revenue - s.fees - s.cost - s.packaging
            && s.fixedCosts == (if includeFixed then ActiveCosts(fixedCosts) else 0.0)
            && s.net == s.gross - s.fixedCosts
            && s.incomplete == Count(Incomplete, bs) && s.apiFees == Count(FromApi, bs)
            && s.cacheHits == |HitsIn(cs)|
  {
    var revenue, fees, cost, packaging, hits, incomplete, apiFees := 0.0, 0.0, 0.0, 0.0, 0, 0, 0;
    ghost var all := UsedAll(cs, inputs);
    for i := 0 to |cs|
      invariant revenue == Add(Sale, all[..i]) && fees == Add(Fee, all[..i])
      invariant cost == Add(Cost, all[..i]) && packaging == Add(Packaging, all[..i])
      invariant hits == |HitsIn(cs[..i])|
      invariant incomplete == Count(Incomplete, all[..i]) && apiFees == Count(FromApi, all[..i])
    {
      HitsNext(cs, i);
      var cached := FromCache(cs[i]);
      var b: Breakdown;
      if cached.None? {
        b := Calculated(cs[i], inputs[i]);
      } else {
        b := cached.value;
        hits := hits + 1;
      }
      assert all[..i + 1][..i] == all[..i] && all[i] == b;
      revenue, cost, fees, packaging := revenue + b.sale, cost + b.cost, fees + b.fees, packaging + b.packaging;
      if b.source.Api? {
        apiFees := apiFees + 1;
      }
      if !b.complete {
        incomplete := incomplete + 1;
      }
    }
    assert all[..|cs|] == all && cs[..|cs|] == cs;
    var gross := revenue - fees - cost - packaging;
    var paid := 0.0;
    if includeFixed {
      for k := 0 to |fixedCosts|
        invariant paid == ActiveCosts(fixedCosts[..k])
      {
        assert fixedCosts[..k + 1][..k] == fixedCosts[..k];
        if fixedCosts[k].active {
          paid := paid + fixedCosts[k].amount;
        }
      }
      assert fixedCosts[..|fixedCosts|] == fixedCosts;
    }
    s := Summary(revenue, cost, fees, packaging, gross, paid, gross - paid, hits, incomplete, apiFees);
  }

  lemma {:induction false} GrossIsProfitsPlusGaps(bs: seq<Breakdown>)
    ensures Add(Sale, bs) - Add(Fee, bs) - Add(Cost, bs) - Add(Packaging, bs) == Add(Profit, bs) + Add(Gap, bs)
  {
    if bs != [] {
      GrossIsProfitsPlusGaps(bs[..|bs| - 1]);
    }
  }

  /** A record is as the refresh wrote it, or incomplete. */
  predicate Exact(c: Cache) {
    FromCache(c).Some? ==> Gap(FromCache(c).value) == 0.0
  }

  lemma {:induction false} GapsAreZero(bs: seq<Breakdown>)
    requires forall b :: b in bs ==> Gap(b) == 0.0
    ensures Add(Gap, bs) == 0.0
  {
    if bs != [] {
      GapsAreZero(bs[..|bs| - 1]);
      assert bs[|bs| - 1] in bs;
    }
  }

  /** For any mix of cached and freshly calculated orders, gross profit is the sum of the orders' profits. */
  lemma PeriodProfitAddsUp(cs: seq<Cache>, inputs: seq<Inputs>)
    requires |cs| == |inputs| && forall k :: 0 <= k < |cs| ==> Exact(cs[k])
    ensures var bs := UsedAll(cs, inputs);
            Add(Sale, bs) - Add(Fee, bs) - Add(Cost, bs) - Add(Packaging, bs) == Add(Profit, bs)
  {
    var bs := UsedAll(cs, inputs);
    GrossIsProfitsPlusGaps(bs);
    forall b | b in bs
      ensures Gap(b) == 0.0
    {
      var k :| 0 <= k < |bs| && bs[k] == b;
      assert Exact(cs[k]);
    }
    GapsAreZero(bs);
  }

  /** Two-place columns can open a gap: the reloaded parts and the reloaded profit differ by up to two grosze, in whole grosze. */
  lemma ReloadedGap(b: Breakdown)
    requires Gap(b) == 0.0
    ensures var r := FromCache(Quantised(Stored(b))).value;
            Abs(Gap(r)) <= 2.0 && Gap(r) == Gap(r).Floor as real
  {
    RoundIsClose(b.sale);
    RoundIsClose(b.fees);
    RoundIsClose(b.cost);
    RoundIsClose(b.packaging);
    RoundIsClose(b.profit);
    var whole := RoundHalfUp(b.sale) - RoundHalfUp(b.fees) - RoundHalfUp(b.cost) - RoundHalfUp(b.packaging) - RoundHalfUp(b.profit);
    assert Gap(FromCache(Quantised(Stored(b))).value) == whole as real;
    assert -2.5 <= whole as real <= 2.5;
  }

  /** What rounding to whole grosze adds. */
  function Excess(x: real): real {
    RoundHalfUp(x) as real - x
  }

  /** How far the rounded parts have drifted from the exact profit. */
  function Drift(b: Breakdown): real {
    Excess(b.sale) - Excess(b.fees) - Excess(b.cost) - Excess(b.packaging)
  }

  /** A whole number displaced by `d` rounds back to itself as long as `d` is less than one half, or one half towards zero. */
  lemma RoundsBackIff(whole: int, d: real)
    ensures RoundHalfUp(whole as real - d) == whole
            <==> Abs(d) < 0.5 || (d == 0.5 && whole as real - d > 0.0) || (d == -0.5 && whole as real - d < 0.0)
  {
    var x := whole as real - d;
    RoundIsClose(x);
    if x >= 0.0 {
      if -0.5 < d <= 0.5 {
        FloorIs(x + 0.5, whole);
      }
    } else if -0.5 <= d < 0.5 {
      FloorIs(0.5 - x, -whole);
    }
  }

  /**
    * A reloaded record adds up exactly when its four parts together drifted by less than half a grosz, or by half a
    * grosz in the direction in which the profit is rounded.
    */
  lemma ReloadedAddsUpIff(b: Breakdown)
    requires Gap(b) == 0.0
    ensures Gap(FromCache(Quantised(Stored(b))).value) == 0.0
            <==> Abs(Drift(b)) < 0.5 || (Drift(b) == 0.5 && b.profit > 0.0) || (Drift(b) == -0.5 && b.profit < 0.0)
  {
    var whole := RoundHalfUp(b.sale) - RoundHalfUp(b.fees) - RoundHalfUp(b.cost) - RoundHalfUp(b.packaging);
    assert b.profit == whole as real - Drift(b);
    RoundsBackIff(whole, Drift(b));
    assert Gap(FromCache(Quantised(Stored(b))).value) == (whole - RoundHalfUp(b.profit)) as real;
  }

  predicate IsWhole(x: real) {
    x == x.Floor as real
  }

  /** Exactly between two whole numbers. */
  predicate IsTie(x: real) {
    x - x.Floor as real == 0.5
  }

  lemma ExcessIs(x: real)
    ensures IsWhole(x) ==> Excess(x) == 0.0
    ensures Abs(Excess(x)) < 0.5 <==> !IsTie(x)
    ensures IsTie(x) ==> Excess(x) == if x > 0.0 then 0.5 else -0.5
  {
    RoundIsClose(x);
    var n := x.Floor;
    var f := x - n as real;
    if x >= 0.0 {
      FloorIs(x + 0.5, if f < 0.5 then n else n + 1);
    } else {
      FloorIs(0.5 - x, if f <= 0.5 then -n else -n - 1);
    }
  }

  /**
    * With only the fees in fractions of a grosz, the record adds up exactly when they are not halfway between two
    * grosze, or fees and profit are rounded in opposite directions.
    */
  lemma FractionalFeesAddUpIff(b: Breakdown)
    requires Gap(b) == 0.0 && IsWhole(b.sale) && IsWhole(b.cost) && IsWhole(b.packaging)
    ensures Gap(FromCache(Quantised(Stored(b))).value) == 0.0
            <==> !IsTie(b.fees) || (b.fees > 0.0 && b.profit < 0.0) || (b.fees < 0.0 && b.profit > 0.0)
  {
    ReloadedAddsUpIff(b);
    ExcessIs(b.sale);
    ExcessIs(b.cost);
    ExcessIs(b.packaging);
    ExcessIs(b.fees);
  }

  /** Likewise for an estimated purchase cost in fractions of a grosz. */
  lemma FractionalCostAddsUpIff(b: Breakdown)
    requires Gap(b) == 0.0 && IsWhole(b.sale) && IsWhole(b.fees) && IsWhole(b.packaging)
    ensures Gap(FromCache(Quantised(Stored(b))).value) == 0.0
            <==> !IsTie(b.cost) || (b.cost > 0.0 && b.profit < 0.0) || (b.cost < 0.0 && b.profit > 0.0)
  {
    ReloadedAddsUpIff(b);
    ExcessIs(b.sale);
    ExcessIs(b.fees);
    ExcessIs(b.packaging);
    ExcessIs(b.cost);
  }

  /** The gap is real: a cost of half a grosz leaves the reloaded record one grosz off. */
  lemma ReloadedGapExists()
    ensures var b := Breakdown(10.0, 0.0, 2.5, 0.0, 7.5, Api, true, false);
            Gap(b) == 0.0 && Gap(FromCache(Quantised(Stored(b))).value) == -1.0
  {
    assert RoundHalfUp(2.5) == 3 && RoundHalfUp(7.5) == 8;
    assert RoundHalfUp(10.0) == 10 && RoundHalfUp(0.0) == 0;
  }

  lemma {:induction false} GapsAreSmall(bs: seq<Breakdown>)
    requires forall b :: b in bs ==> Abs(Gap(b)) <= 2.0
    ensures Abs(Add(Gap, bs)) <= 2.0 * |bs| as real
  {
    if bs != [] {
      GapsAreSmall(bs[..|bs| - 1]);
      assert bs[|bs| - 1] in bs;
      assert |bs| as real == |bs[..|bs| - 1]| as real + 1.0;
    }
  }

  /** A record the refresh wrote, possibly read back since. */
  ghost predicate Written(c: Cache) {
    FromCache(c).Some? ==> exists b :: Gap(b) == 0.0 && (c == Stored(b) || c == Quantised(Stored(b)))
  }

  /** Over records that went through the database, gross profit still is the sum of the profits to within two grosze an order. */
  lemma PeriodProfitNearlyAddsUp(cs: seq<Cache>, inputs: seq<Inputs>)
    requires |cs| == |inputs| && forall k :: 0 <= k < |cs| ==> Written(cs[k])
    ensures var bs := UsedAll(cs, inputs);
            Abs(Add(Sale, bs) - Add(Fee, bs) - Add(Cost, bs) - Add(Packaging, bs) - Add(Profit, bs)) <= 2.0 * |cs| as real
  {
    var bs := UsedAll(cs, inputs);
    GrossIsProfitsPlusGaps(bs);
    forall b | b in bs
      ensures Abs(Gap(b)) <= 2.0
    {
      var k :| 0 <= k < |bs| && bs[k] == b;
      if FromCache(cs[k]).Some? {
        assert Written(cs[k]);
        var w :| Gap(w) == 0.0 && (cs[k] == Stored(w) || cs[k] == Quantised(Stored(w)));
        ReloadedGap(w);
      }
    }
    GapsAreSmall(bs);
  }

  // ---------------------------------------------------------------- which fees are taken

  /** A final record is all there is to go by: no token, no billing handed in. */
  predicate KeepsFinal(c: Cache, i: FeeInputs) {
    c.isFinal && c.fees.Some? && !i.token && i.prefetched == None
  }

  predicate HandedIn(i: FeeInputs) {
    i.prefetched.Some? && i.prefetched.value.Some?
  }

  predicate Answered(i: FeeInputs) {
    i.token && i.external && i.allegro && i.api.Some?
  }

  /**
    * The sources of fees in their order: commissions of a manual order; the shop's; the final record; a successful
    * billing handed in; one fetched, which takes a token, an external id and an Allegro order; an estimate, final only
    * for an order without external id; and nothing, for good, on an unknown platform.
    */
  lemma FeesAreTakenInOrder(c: Cache, i: FeeInputs)
    ensures var f, notShop := ResolveFees(c, i), i.manual == None && i.woo == None;
            var open := notShop && !KeepsFinal(c, i);
            && (i.manual.Some? ==> f == Fees(i.manual.value, Manual, false, true))
            && (i.manual == None && i.woo.Some? ==> f == i.woo.value)
            && (notShop && KeepsFinal(c, i) ==>
                  f.amount == c.fees.value && f.complete && f.shippingEstimated == c.shippingEstimated
                  && f.source == (if c.source.None? then Api else c.source.value))
            && (open && HandedIn(i) ==> Some(f) == i.prefetched.value)
            && (open && !HandedIn(i) && Answered(i) ==> Some(f) == i.api)
            && (open && !HandedIn(i) && !Answered(i) && i.allegro ==>
                  f.amount == i.estimate && f.source == Estimated && f.complete == !i.external && f.shippingEstimated == i.external)
            && (open && !HandedIn(i) && !Answered(i) && !i.allegro ==> f == Fees(0.0, Estimated, false, true))
  {
  }

  // ---------------------------------------------------------------- final records

  /** Nothing is handed in and the order is neither manual nor Woo: a refresh has only the cached record to go by. */
  predicate NothingNew(i: FeeInputs) {
    i.manual.None? && i.woo.None? && !i.token && i.prefetched.None?
  }

  function RefreshAll(c: Cache, inputs: seq<Inputs>): Cache {
    if inputs == [] then c else Stored(Calculated(RefreshAll(c, inputs[..|inputs| - 1]), inputs[|inputs| - 1]))
  }

  /** Once final, fees stay as they are through any number of refreshes that bring no token and no billing. */
  lemma {:induction false} FinalFeesStay(c: Cache, inputs: seq<Inputs>)
    requires c.isFinal && c.fees.Some? && forall k :: 0 <= k < |inputs| ==> NothingNew(inputs[k].fees)
    ensures RefreshAll(c, inputs).isFinal && RefreshAll(c, inputs).fees == c.fees
    ensures RefreshAll(c, inputs).shippingEstimated == c.shippingEstimated
  {
    if inputs != [] {
      FinalFeesStay(c, inputs[..|inputs| - 1]);
    }
  }
}
