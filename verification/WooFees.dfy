/** The commission booked for each line of a consumed order; prices and fees are grosze. */
module WooFees {
  import opened Options
  import opened Money

  /** `preset` is a commission computed beforehand; `cod` tells a cash-on-delivery line. */
  datatype OrderItem = OrderItem(quantity: int, price: int, preset: Option<int>, cod: bool)

  /** Percentages; the fixed fee is charged once per order from a shop with payments of its own. */
  datatype Rates = Rates(woo: bool, percent: real, fixed: real, allegroPercent: real)

  function Share(price: int, percent: real): real {
    price as real * percent / 100.0
  }

  /** A line whose commission the shop's rates decide. */
  predicate Computed(it: OrderItem) {
    it.quantity > 0 && it.preset.None?
  }

  /** Line `i` is the first computed line of the order: the one that carries the fixed fee. */
  predicate CarriesFixed(items: seq<OrderItem>, i: nat)
    requires i < |items|
  {
    Computed(items[i]) && forall j :: 0 <= j < i ==> !Computed(items[j])
  }

  function FeeOf(items: seq<OrderItem>, i: nat, r: Rates): int
    requires i < |items|
  {
    var it := items[i];
    if it.preset.Some? then it.preset.value
    else if !r.woo then RoundHalfUp(Share(it.price, r.allegroPercent))
    else if it.cod then 0
    else if CarriesFixed(items, i) then RoundHalfUp(RoundHalfUp(Share(it.price, r.percent)) as real + r.fixed)
    else RoundHalfUp(Share(it.price, r.percent))
  }

  /** The fee computation in the loop of `consume_order_stock`; None for a line that is skipped. */
  method Commissions(items: seq<OrderItem>, r: Rates) returns (fees: seq<Option<int>>)
    ensures |fees| == |items|
    ensures forall i :: 0 <= i < |items| ==> fees[i] == if items[i].quantity <= 0 then None else Some(FeeOf(items, i, r))
  {
    fees := [];
    var wooFixedApplied := false;
    for i := 0 to |items|
      invariant |fees| == i
      invariant forall k :: 0 <= k < i ==> fees[k] == if items[k].quantity <= 0 then None else Some(FeeOf(items, k, r))
      invariant wooFixedApplied == (r.woo && exists k :: 0 <= k < i && Computed(items[k]))
    {
      var it := items[i];
      if it.quantity <= 0 {
        fees := fees + [None];
        continue;
      }
      var fee: int;
      if it.preset.Some? {
        fee := it.preset.value;
      } else if r.woo {
        fee := RoundHalfUp(Share(it.price, r.percent));
        assert Computed(items[i]);
        if !wooFixedApplied {
          fee := RoundHalfUp(fee as real + r.fixed);
          wooFixedApplied := true;
        }
        if it.cod {
          fee := 0;
        }
      } else {
        fee := RoundHalfUp(Share(it.price, r.allegroPercent));
      }
      fees := fees + [Some(fee)];
    }
  }

  // ---------------------------------------------------------------- the fee of one line

  /** No earlier line of the order has its fee computed: such a line has pieces and no preset fee. */
  predicate ComesFirst(items: seq<OrderItem>, i: nat)
    requires i < |items|
  {
    forall j :: 0 <= j < i ==> items[j].quantity <= 0 || items[j].preset.Some?
  }

  /**
    * A preset fee is booked as it is. Else the platform's percentage of the price; or in a shop order nothing on
    * delivery, and the shop's percentage otherwise, with the fixed fee on top on the first computed line; each to half a
    * grosz, a whole fixed fee being added to the grosz.
    */
  lemma LineFeeIs(items: seq<OrderItem>, i: nat, r: Rates, fixed: int)
    requires i < |items| && items[i].quantity > 0 && r.fixed == fixed as real
    ensures var it, fee := items[i], FeeOf(items, i, r);
            && (it.preset.Some? ==> fee == it.preset.value)
            && (it.preset.None? && !r.woo ==> Abs(fee as real - it.price as real * r.allegroPercent / 100.0) <= 0.5)
            && (it.preset.None? && r.woo && it.cod ==> fee == 0)
            && (it.preset.None? && r.woo && !it.cod ==>
                  var rest := if ComesFirst(items, i) then fee - fixed else fee;
                  Abs(rest as real - it.price as real * r.percent / 100.0) <= 0.5)
  {
    RoundIsClose(Share(items[i].price, r.allegroPercent));
    RoundIsClose(Share(items[i].price, r.percent));
    RoundIsClose((RoundHalfUp(Share(items[i].price, r.percent)) + fixed) as real);
    assert CarriesFixed(items, i) <==> items[i].preset.None? && ComesFirst(items, i);
  }

  // ---------------------------------------------------------------- the order's commission as a whole

  predicate Charged(it: OrderItem) {
    Computed(it) && !it.cod
  }

  /** Fees of the charged lines among the first `n`. */
  function FeeSum(items: seq<OrderItem>, r: Rates, n: nat): int
    requires n <= |items|
  {
    if n == 0 then 0 else FeeSum(items, r, n - 1) + if Charged(items[n - 1]) then FeeOf(items, n - 1, r) else 0
  }

  /** The rounded percentage of every charged line. */
  function RateSum(items: seq<OrderItem>, r: Rates, n: nat): int
    requires n <= |items|
  {
    if n == 0 then 0
    else RateSum(items, r, n - 1) + if Charged(items[n - 1]) then RoundHalfUp(Share(items[n - 1].price, r.percent)) else 0
  }

  function PriceSum(items: seq<OrderItem>, n: nat): int
    requires n <= |items|
  {
    if n == 0 then 0 else PriceSum(items, n - 1) + if Charged(items[n - 1]) then items[n - 1].price else 0
  }

  function ChargedLines(items: seq<OrderItem>, n: nat): nat
    requires n <= |items|
  {
    if n == 0 then 0 else ChargedLines(items, n - 1) + if Charged(items[n - 1]) then 1 else 0
  }

  /** The line carrying the fixed fee is there, and is charged. */
  predicate FixedIsCharged(items: seq<OrderItem>, n: nat)
    requires n <= |items|
  {
    exists i :: 0 <= i < n && CarriesFixed(items, i) && !items[i].cod
  }

  lemma ShareAdds(a: int, b: int, percent: real)
    ensures Share(a + b, percent) == Share(a, percent) + Share(b, percent)
  {
    assert (a + b) as real * percent == a as real * percent + b as real * percent;
  }

  lemma FixedNext(items: seq<OrderItem>, n: nat)
    requires 0 < n <= |items|
    ensures FixedIsCharged(items, n) <==> FixedIsCharged(items, n - 1) || (CarriesFixed(items, n - 1) && !items[n - 1].cod)
    ensures CarriesFixed(items, n - 1) ==> !FixedIsCharged(items, n - 1)
  {
  }

  /** To the grosz: the charged lines pay their rounded percentages, and together the fixed fee once or not at all. */
  lemma {:induction false} FeesAreRatesPlusFixed(items: seq<OrderItem>, r: Rates, fixed: int, n: nat)
    requires r.woo && r.fixed == fixed as real && n <= |items|
    ensures FeeSum(items, r, n) == RateSum(items, r, n) + if FixedIsCharged(items, n) then fixed else 0
  {
    if n > 0 {
      FeesAreRatesPlusFixed(items, r, fixed, n - 1);
      FixedNext(items, n);
      RoundIsClose((RoundHalfUp(Share(items[n - 1].price, r.percent)) + fixed) as real);
    }
  }

  /**
    * For any order, whatever lines are skipped, preset or paid on delivery: the fees of the charged lines differ from
    * the percentage of their prices, plus the fixed fee if its line is charged, by at most half a grosz per line.
    */
  lemma {:induction false} FeesNearExact(items: seq<OrderItem>, r: Rates, fixed: int, n: nat)
    requires r.woo && r.fixed == fixed as real && n <= |items|
    ensures Abs(FeeSum(items, r, n) as real
                - (Share(PriceSum(items, n), r.percent) + (if FixedIsCharged(items, n) then r.fixed else 0.0)))
            <= 0.5 * ChargedLines(items, n) as real
  {
    if n > 0 {
      FeesNearExact(items, r, fixed, n - 1);
      FixedNext(items, n);
      var it := items[n - 1];
      if Charged(it) {
        ShareAdds(PriceSum(items, n - 1), it.price, r.percent);
        RoundIsClose(Share(it.price, r.percent));
        RoundIsClose((RoundHalfUp(Share(it.price, r.percent)) + fixed) as real);
        assert ChargedLines(items, n) as real == ChargedLines(items, n - 1) as real + 1.0;
      }
    }
  }

  /** An order of plain lines: everything is charged, the fixed fee exactly once. */
  lemma PlainOrderFees(items: seq<OrderItem>, r: Rates, fixed: int)
    requires r.woo && r.fixed == fixed as real && items != []
    requires forall i :: 0 <= i < |items| ==> Charged(items[i])
    ensures FeeSum(items, r, |items|) == RateSum(items, r, |items|) + fixed
    ensures Abs(FeeSum(items, r, |items|) as real - (Share(PriceSum(items, |items|), r.percent) + r.fixed)) <= 0.5 * |items| as real
  {
    assert CarriesFixed(items, 0);
    FeesAreRatesPlusFixed(items, r, fixed, |items|);
    FeesNearExact(items, r, fixed, |items|);
    AllCharged(items, |items|);
  }

  lemma {:induction false} AllCharged(items: seq<OrderItem>, n: nat)
    requires n <= |items| && forall i :: 0 <= i < |items| ==> Charged(items[i])
    ensures ChargedLines(items, n) == n
  {
    if n > 0 {
      AllCharged(items, n - 1);
    }
  }

  /**
    * A cash-on-delivery line swallows the fixed fee when it comes first: of an order with a computed line, the fees are
    * the rounded percentages and the fixed fee exactly when the first computed line is not paid on delivery.
    */
  lemma FixedChargedIffFirstIsNotCod(items: seq<OrderItem>, r: Rates, fixed: int, first: nat)
    requires r.woo && r.fixed == fixed as real && fixed != 0
    requires first < |items| && items[first].quantity > 0 && items[first].preset.None? && ComesFirst(items, first)
    ensures FeeSum(items, r, |items|) == RateSum(items, r, |items|) + fixed <==> !items[first].cod
    ensures FeeSum(items, r, |items|) == RateSum(items, r, |items|) <==> items[first].cod
  {
    FeesAreRatesPlusFixed(items, r, fixed, |items|);
    assert CarriesFixed(items, first);
    assert FixedIsCharged(items, |items|) <==> !items[first].cod;
  }
}
