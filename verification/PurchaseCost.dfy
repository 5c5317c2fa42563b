/** The purchase cost of one order: recorded sale costs where there are any, estimates for the other lines. */
module PurchaseCost {
  import opened Options

  /** Product id (absent once the product is deleted) and size. */
  datatype Key = Key(productId: Option<int>, size: string)

  datatype Sale = Sale(key: Key, cost: real)

  /** A way from a line to a product size: there is none, its product is gone, or it leads to a key. */
  datatype Path = NoSize | NoProduct | LeadsTo(key: Key)

  /** A line's size is found directly, or else through its offer. */
  datatype Line = Line(direct: Path, viaOffer: Path, quantity: int)

  /** Average purchase price (or last delivery price) of a key times a quantity. */
  type Estimate = (Key, int) -> real

  function Resolve(line: Line): Option<Key> {
    var path := if line.direct.NoSize? then line.viaOffer else line.direct;
    if path.LeadsTo? then Some(path.key) else None
  }

  function KeysOf(sales: seq<Sale>): set<Key> {
    set s | s in sales :: s.key
  }

  /** Total cost of the sale records whose key lies in `keys`, each record counted once. */
  function SalesCost(sales: seq<Sale>, keys: set<Key>): real {
    if sales == [] then 0.0
    else SalesCost(sales[..|sales| - 1], keys) + if sales[|sales| - 1].key in keys then sales[|sales| - 1].cost else 0.0
  }

  function AllSalesCost(sales: seq<Sale>): real {
    if sales == [] then 0.0 else AllSalesCost(sales[..|sales| - 1]) + sales[|sales| - 1].cost
  }

  /** Line `i` has to be estimated: it resolves, and no unused sale record is left under its key. */
  ghost predicate Estimated(sales: seq<Sale>, lines: seq<Line>, i: nat)
    requires i < |lines|
  {
    var key := Resolve(lines[i]);
    key.Some? && (key.value !in KeysOf(sales) || exists j :: 0 <= j < i && Resolve(lines[j]) == key)
  }

  /** Estimates of the first `n` lines. */
  ghost function EstimateCost(sales: seq<Sale>, lines: seq<Line>, estimate: Estimate, n: nat): real
    requires n <= |lines|
  {
    if n == 0 then 0.0
    else EstimateCost(sales, lines, estimate, n - 1) +
         if Estimated(sales, lines, n - 1) then estimate(Resolve(lines[n - 1]).value, lines[n - 1].quantity) else 0.0
  }

  /** Keys whose records the first `n` lines have used up. */
  ghost function Used(sales: seq<Sale>, lines: seq<Line>, n: nat): set<Key>
    requires n <= |lines|
  {
    set i | 0 <= i < n && Resolve(lines[i]).Some? && Resolve(lines[i]).value in KeysOf(sales) :: Resolve(lines[i]).value
  }

  lemma {:induction false} SalesCostSplit(sales: seq<Sale>, a: set<Key>, b: set<Key>)
    requires a !! b
    ensures SalesCost(sales, a + b) == SalesCost(sales, a) + SalesCost(sales, b)
  {
    if sales != [] {
      SalesCostSplit(sales[..|sales| - 1], a, b);
    }
  }

  lemma {:induction false} SalesCostOfNone(sales: seq<Sale>)
    ensures SalesCost(sales, {}) == 0.0
  {
    if sales != [] {
      SalesCostOfNone(sales[..|sales| - 1]);
    }
  }

  lemma {:induction false} SalesCostOfAll(sales: seq<Sale>, keys: set<Key>)
    requires KeysOf(sales) <= keys
    ensures SalesCost(sales, keys) == AllSalesCost(sales)
  {
    if sales != [] {
      var init, last := sales[..|sales| - 1], sales[|sales| - 1];
      assert last in sales && forall s :: s in init ==> s in sales;
      SalesCostOfAll(init, keys);
    }
  }

  /** `SUM(purchase_cost) GROUP BY product_id, size`. */
  method GroupSales(sales: seq<Sale>) returns (byKey: map<Key, real>)
    ensures byKey.Keys == KeysOf(sales)
    ensures forall k :: k in byKey ==> byKey[k] == SalesCost(sales, {k})
  {
    byKey := map[];
    for i := 0 to |sales|
      invariant byKey.Keys == KeysOf(sales[..i])
      invariant forall k :: k in byKey ==> byKey[k] == SalesCost(sales[..i], {k})
      invariant forall k :: k !in byKey ==> SalesCost(sales[..i], {k}) == 0.0
    {
      var s := sales[i];
      assert sales[..i + 1][..i] == sales[..i];
      assert forall x :: x in sales[..i + 1] <==> x in sales[..i] || x == s;
      byKey := byKey[s.key := (if s.key in byKey then byKey[s.key] else 0.0) + s.cost];
    }
    assert sales[..|sales|] == sales;
  }

  /** The lines one after the other: pop the recorded cost of a line's key, or estimate the line. */
  method CostOfLines(sales: seq<Sale>, lines: seq<Line>, estimate: Estimate, grouped: map<Key, real>)
    returns (total: real, byKey: map<Key, real>, noneEstimated: bool)
    requires grouped.Keys == KeysOf(sales)
    requires forall k :: k in grouped ==> grouped[k] == SalesCost(sales, {k})
    ensures byKey.Keys == KeysOf(sales) - Used(sales, lines, |lines|)
    ensures forall k :: k in byKey ==> byKey[k] == SalesCost(sales, {k})
    ensures total == SalesCost(sales, Used(sales, lines, |lines|)) + EstimateCost(sales, lines, estimate, |lines|)
    ensures noneEstimated <==> forall i :: 0 <= i < |lines| ==> !Estimated(sales, lines, i)
  {
    total, byKey, noneEstimated := 0.0, grouped, true;
    SalesCostOfNone(sales);
    assert Used(sales, lines, 0) == {};
    for i := 0 to |lines|
      invariant byKey.Keys == KeysOf(sales) - Used(sales, lines, i)
      invariant forall k :: k in byKey ==> byKey[k] == SalesCost(sales, {k})
      invariant total == SalesCost(sales, Used(sales, lines, i)) + EstimateCost(sales, lines, estimate, i)
      invariant noneEstimated <==> forall j :: 0 <= j < i ==> !Estimated(sales, lines, j)
    {
      var resolved := Resolve(lines[i]);
      if resolved.Some? {
        var key := resolved.value;
        UsedNext(sales, lines, i);
        if key in byKey {
          SalesCostSplit(sales, Used(sales, lines, i), {key});
          total := total + byKey[key];
          byKey := byKey - {key};
        } else {
          assert Used(sales, lines, i + 1) == Used(sales, lines, i);
          total := total + estimate(key, lines[i].quantity);
          noneEstimated := false;
        }
      } else {
        assert Used(sales, lines, i + 1) == Used(sales, lines, i);
      }
    }
  }

  /** The recorded costs no line asked for are still costs of the order. */
  method CostLeftOver(sales: seq<Sale>, byKey: map<Key, real>, ghost used: set<Key>) returns (total: real)
    requires used <= KeysOf(sales) && byKey.Keys == KeysOf(sales) - used
    requires forall k :: k in byKey ==> byKey[k] == SalesCost(sales, {k})
    ensures SalesCost(sales, used) + total == AllSalesCost(sales)
  {
    total := 0.0;
    var todo := byKey.Keys;
    assert KeysOf(sales) - todo == used;
    while todo != {}
      invariant todo <= byKey.Keys
      invariant SalesCost(sales, used) + total == SalesCost(sales, KeysOf(sales) - todo)
      decreases todo
    {
      var key :| key in todo;
      SalesCostSplit(sales, KeysOf(sales) - todo, {key});
      assert KeysOf(sales) - (todo - {key}) == (KeysOf(sales) - todo) + {key};
      total := total + byKey[key];
      todo := todo - {key};
    }
    SalesCostOfAll(sales, KeysOf(sales) - todo);
  }

  /**
    * `get_purchase_cost_for_order`. Nothing is lost and nothing is counted twice: the total is the cost of all the
    * order's sale records plus the estimates of exactly the lines that found no unused record.
    */
  method PurchaseCostForOrder(sales: seq<Sale>, lines: seq<Line>, estimate: Estimate)
    returns (total: real, fullyActual: bool)
    ensures total == AllSalesCost(sales) + EstimateCost(sales, lines, estimate, |lines|)
    ensures fullyActual <==> (sales != [] || lines == []) && forall i :: 0 <= i < |lines| ==> !Estimated(sales, lines, i)
  {
    var grouped := GroupSales(sales);
    assert sales != [] ==> sales[0].key in grouped;
    assert sales == [] ==> grouped == map[];
    var cost, rest, noneEstimated := CostOfLines(sales, lines, estimate, grouped);
    var remaining := CostLeftOver(sales, rest, Used(sales, lines, |lines|));
    total := cost + remaining;
    fullyActual := (grouped != map[] || lines == []) && noneEstimated;
  }

  /** A line either adds its key to the used ones, or is an estimated line and adds nothing. */
  lemma UsedNext(sales: seq<Sale>, lines: seq<Line>, i: nat)
    requires i < |lines| && Resolve(lines[i]).Some?
    ensures var key := Resolve(lines[i]).value;
            && Used(sales, lines, i + 1) == Used(sales, lines, i) + (if key in KeysOf(sales) then {key} else {})
            && (key in KeysOf(sales) - Used(sales, lines, i) ==> Used(sales, lines, i) !! {key})
            && (Estimated(sales, lines, i) <==> key !in KeysOf(sales) - Used(sales, lines, i))
  {
  }

  /** Without an estimated line the cost does not depend on the order's lines at all: it is what was recorded. */
  lemma {:induction false} ActualCostOnly(sales: seq<Sale>, lines: seq<Line>, estimate: Estimate, n: nat)
    requires n <= |lines| && forall i :: 0 <= i < n ==> !Estimated(sales, lines, i)
    ensures EstimateCost(sales, lines, estimate, n) == 0.0
  {
    if n > 0 {
      ActualCostOnly(sales, lines, estimate, n - 1);
    }
  }

  /** A line stands for the key it leads to directly, or through its offer if it leads to no size directly. */
  lemma ResolvesIff(line: Line, key: Key)
    ensures Resolve(line) == Some(key) <==> line.direct == LeadsTo(key) || (line.direct == NoSize && line.viaOffer == LeadsTo(key))
  {
  }

  /** The order's cost, as `PurchaseCostForOrder` returns it. */
  ghost function OrderCost(sales: seq<Sale>, lines: seq<Line>, estimate: Estimate): real {
    AllSalesCost(sales) + EstimateCost(sales, lines, estimate, |lines|)
  }

  /** Line `i` is the first that stands for the key. */
  ghost predicate FirstFor(lines: seq<Line>, key: Key, i: nat) {
    i < |lines| && Resolve(lines[i]) == Some(key) && forall j :: 0 <= j < i ==> Resolve(lines[j]) != Some(key)
  }

  lemma {:induction false} SomeLineIsFirst(lines: seq<Line>, key: Key, i: nat)
    requires i < |lines| && Resolve(lines[i]) == Some(key)
    ensures exists j :: 0 <= j <= i && FirstFor(lines, key, j)
  {
    if j :| 0 <= j < i && Resolve(lines[j]) == Some(key) {
      SomeLineIsFirst(lines, key, j);
    } else {
      assert FirstFor(lines, key, i);
    }
  }

  lemma {:induction false} EstimatesWithSale(sales: seq<Sale>, s: Sale, lines: seq<Line>, estimate: Estimate, n: nat)
    requires n <= |lines|
    ensures (s.key in KeysOf(sales) || forall i :: 0 <= i < n ==> !FirstFor(lines, s.key, i)) ==>
              EstimateCost(sales + [s], lines, estimate, n) == EstimateCost(sales, lines, estimate, n)
    ensures forall i :: 0 <= i < n && s.key !in KeysOf(sales) && FirstFor(lines, s.key, i) ==>
              EstimateCost(sales + [s], lines, estimate, n)
              == EstimateCost(sales, lines, estimate, n) - estimate(s.key, lines[i].quantity)
  {
    assert KeysOf(sales + [s]) == KeysOf(sales) + {s.key} by {
      assert forall x :: x in sales + [s] <==> x in sales || x == s;
    }
    if n > 0 {
      EstimatesWithSale(sales, s, lines, estimate, n - 1);
      if Resolve(lines[n - 1]) == Some(s.key) {
        SomeLineIsFirst(lines, s.key, n - 1);
      }
    }
  }

  /**
    * Recording one more sale raises the order's cost by exactly its cost, less the estimate of the first line that stands
    * for its key, if that line had no record before; no other estimate changes.
    */
  lemma SaleReplacesEstimate(sales: seq<Sale>, s: Sale, lines: seq<Line>, estimate: Estimate)
    ensures (s.key in KeysOf(sales) || forall i :: 0 <= i < |lines| ==> !FirstFor(lines, s.key, i)) ==>
              OrderCost(sales + [s], lines, estimate) == OrderCost(sales, lines, estimate) + s.cost
    ensures forall i :: 0 <= i < |lines| && s.key !in KeysOf(sales) && FirstFor(lines, s.key, i) ==>
              OrderCost(sales + [s], lines, estimate)
              == OrderCost(sales, lines, estimate) + s.cost - estimate(s.key, lines[i].quantity)
  {
    EstimatesWithSale(sales, s, lines, estimate, |lines|);
    assert (sales + [s])[..|sales|] == sales;
  }

  /** Without any sale the cost is the estimate of every line that stands for a key. */
  lemma {:induction false} UnsoldOrderIsEstimated(lines: seq<Line>, estimate: Estimate, n: nat)
    requires n < |lines|
    ensures EstimateCost([], lines, estimate, n + 1) - EstimateCost([], lines, estimate, n)
            == if Resolve(lines[n]).Some? then estimate(Resolve(lines[n]).value, lines[n].quantity) else 0.0
    ensures AllSalesCost([]) == 0.0
  {
  }
}
