/**
  * Valuation of stock by moving weighted average: a product size keeps its quantity and the total purchase value of
  * the pieces on stock. Prices are whole grosze, and so are the stored values: the value column has two places, and
  * what an operation computes is rounded when it is committed.
  */
module StockValue {
  import opened Options
  import opened Money

  datatype Stock = Stock(quantity: int, value: int)

  /** The invariant promised for every product size. */
  predicate Sound(s: Stock) {
    s.quantity >= 0 && s.value >= 0 && (s.quantity == 0 ==> s.value == 0)
  }

  // ---------------------------------------------------------------- the operations on values

  function Worth(quantity: int, price: real): real {
    quantity as real * price
  }

  function Received(s: Stock, quantity: int, price: int): Stock {
    Stock(s.quantity + quantity, s.value + quantity * price)
  }

  function Min(a: int, b: int): int {
    if a < b then a else b
  }

  /** The value that leaves with `taken` of the pieces on stock. */
  function Share(s: Stock, taken: int): real
    requires s.quantity != 0
  {
    (s.value * taken) as real / s.quantity as real
  }

  /** The stock without `taken` pieces and their share; the column rounds what remains. */
  function Taken(s: Stock, taken: int): Stock {
    if taken <= 0 || s.quantity == 0 then s
    else Stock(s.quantity - taken, if s.quantity - taken > 0 then RoundHalfUp(s.value as real - Share(s, taken)) else 0)
  }

  function CostOf(s: Stock, taken: int): real {
    if taken <= 0 || s.quantity == 0 then 0.0 else Share(s, taken)
  }

  function Average(s: Stock): real {
    if s.quantity == 0 then 0.0 else s.value as real / s.quantity as real
  }

  /** What an increase of `change` pieces adds to the value. */
  function Added(s: Stock, change: int, unitPrice: Option<real>): int {
    RoundHalfUp(Worth(change, if unitPrice.Some? then RoundHalfUp(unitPrice.value) as real else Average(s)))
  }

  function Adjusted(s: Stock, change: int, unitPrice: Option<real>): Stock {
    if change == 0 then s
    else if change > 0 then Stock(s.quantity + change, s.value + Added(s, change, unitPrice))
    else Taken(s, Min(-change, s.quantity))
  }

  /** A sale record of the order; `returned` pieces of it are already back on stock. */
  datatype Sale = Sale(quantity: int, cost: int, returned: int)

  /** The stock after a sale of `wanted` pieces. */
  function Sold(s: Stock, wanted: int): Stock {
    Taken(s, Min(s.quantity, wanted))
  }

  /** The record of that sale: the wanted pieces, at the cost of those taken. */
  function SaleOf(s: Stock, wanted: int): Sale {
    Sale(wanted, RoundHalfUp(CostOf(s, Min(s.quantity, wanted))), 0)
  }

  // ---------------------------------------------------------------- the class

  class ProductSize {
    var quantity: int
    var stockValue: int

    constructor ()
      ensures View() == Stock(0, 0)
    {
      quantity, stockValue := 0, 0;
    }

    function View(): Stock
      reads this
    {
      Stock(quantity, stockValue)
    }

    /** The stock part of `record_purchase`. */
    method Receive(q: int, price: int)
      modifies this
      ensures View() == Received(old(View()), q, price)
    {
      quantity := quantity + q;
      stockValue := stockValue + q * price;
    }

    /** `consume_stock`: take what there is, at its share of the value; the sale records the cost in whole grosze. */
    method Consume(q: int) returns (consumed: int, sale: Sale)
      modifies this
      ensures View() == Sold(old(View()), q) && sale == SaleOf(old(View()), q)
      ensures var taken := Min(old(quantity), q); consumed == if taken > 0 then taken else 0
    {
      var available := quantity;
      var toConsume := if available < q then available else q;
      var cost := 0.0;
      consumed := 0;
      if toConsume > 0 {
        cost := Share(View(), toConsume);
        var remaining := stockValue as real - cost;
        quantity := quantity - toConsume;
        stockValue := if quantity > 0 then RoundHalfUp(remaining) else 0;
        consumed := toConsume;
      }
      sale := Sale(q, RoundHalfUp(cost), 0);
    }

    /** `apply_stock_adjustment` with `delta`. */
    method AdjustBy(change: int, unitPrice: Option<real>)
      modifies this
      ensures View() == Adjusted(old(View()), change, unitPrice)
    {
      var before := quantity;
      if change == 0 {
        return;
      }
      if change > 0 {
        var price := Average(View());
        if unitPrice.Some? {
          price := RoundHalfUp(unitPrice.value) as real;
        }
        var added := RoundHalfUp(Worth(change, price));
        quantity := before + change;
        stockValue := stockValue + added;
      } else {
        var remove := Min(-change, before);
        if remove > 0 {
          var remaining := stockValue as real - Share(View(), remove);
          quantity := before - remove;
          stockValue := if quantity > 0 then RoundHalfUp(remaining) else 0;
        }
      }
    }

    /** `apply_stock_adjustment` with `set_to`. */
    method SetTo(target: int, unitPrice: Option<real>)
      modifies this
      ensures View() == Adjusted(old(View()), target - old(quantity), unitPrice)
    {
      AdjustBy(target - quantity, unitPrice);
    }
  }

  // ---------------------------------------------------------------- rounding of shares

  /** The share of `taken` pieces falls exactly between two grosze. */
  predicate Tie(s: Stock, taken: int) {
    taken > 0 && s.quantity > 0 && 2 * (s.value * taken % s.quantity) == s.quantity
  }

  function TieGrosz(s: Stock, taken: int): int {
    if Tie(s, taken) then 1 else 0
  }

  lemma QuotientParts(a: int, q: int)
    requires q > 0
    ensures a as real / q as real == (a / q) as real + (a % q) as real / q as real
    ensures 0.0 <= (a % q) as real / q as real < 1.0
    ensures (a as real / q as real).Floor == a / q
  {
    assert a == a / q * q + a % q;
    assert a as real == (a / q) as real * q as real + (a % q) as real;
  }

  /** Rounding both parts of a whole amount loses nothing, except that a tie is rounded up twice. */
  lemma RoundSplit(whole: int, part: real)
    requires 0.0 <= part <= whole as real
    ensures RoundHalfUp(whole as real - part) + RoundHalfUp(part)
            == whole + if part - part.Floor as real == 0.5 then 1 else 0
  {
    var n, rest := part.Floor, whole as real - part;
    var f := part - n as real;
    FloorIs(part + 0.5, if f < 0.5 then n else n + 1);
    FloorIs(rest + 0.5, if f <= 0.5 then whole - n else whole - n - 1);
  }

  lemma ShareBounds(s: Stock, taken: int)
    requires Sound(s) && 0 < taken <= s.quantity
    ensures 0.0 <= Share(s, taken) <= s.value as real
    ensures taken == s.quantity ==> Share(s, taken) == s.value as real
  {
    assert 0 <= s.value * taken <= s.value * s.quantity;
    assert (s.value * s.quantity) as real / s.quantity as real == s.value as real;
    RatioMonotone(s.value * taken, s.value * s.quantity, s.quantity);
  }

  lemma RatioMonotone(a: int, b: int, q: int)
    requires 0 <= a <= b && q > 0
    ensures 0.0 <= a as real / q as real <= b as real / q as real
  {
  }

  /** What leaves and what stays, both rounded, are the whole value, and one grosz more at a tie. */
  lemma TakenSplits(s: Stock, taken: int)
    requires Sound(s) && taken <= s.quantity
    ensures Taken(s, taken).value + RoundHalfUp(CostOf(s, taken)) == s.value + TieGrosz(s, taken)
    ensures RoundHalfUp(CostOf(s, taken)) >= 0
    ensures 0 <= Taken(s, taken).value <= s.value
  {
    if taken > 0 {
      var v, q := s.value * taken, s.quantity;
      ShareBounds(s, taken);
      RoundSplit(s.value, Share(s, taken));
      RoundIsClose(Share(s, taken));
      RoundIsClose(s.value as real - Share(s, taken));
      QuotientParts(v, q);
      HalfIff(v % q, q);
    }
  }

  lemma HalfIff(r: int, q: int)
    requires q > 0
    ensures r as real / q as real == 0.5 <==> 2 * r == q
  {
    assert r as real / q as real * q as real == r as real;
  }

  // ---------------------------------------------------------------- what the operations keep

  lemma TakenKeepsSound(s: Stock, taken: int)
    requires Sound(s) && taken <= s.quantity
    ensures Sound(Taken(s, taken))
  {
    TakenSplits(s, taken);
  }

  /** What stays after `taken` pieces left, before it is rounded. */
  lemma StaysIs(s: Stock, taken: int)
    requires s.quantity > 0
    ensures s.value as real - Share(s, taken) == (s.value * (s.quantity - taken)) as real / s.quantity as real
  {
    var v, t, q := s.value, taken, s.quantity;
    assert v * (q - t) == v * q - v * t;
    RatioOfDifference(v * q, v * t, q);
    assert (v * q) as real / q as real == v as real;
  }

  lemma RatioOfDifference(a: int, b: int, q: int)
    requires q > 0
    ensures (a - b) as real / q as real == a as real / q as real - b as real / q as real
  {
  }

  /** Taking pieces out keeps the average purchase price exactly when their share is a whole number of grosze. */
  lemma TakenKeepsAverageIff(s: Stock, taken: int)
    requires Sound(s) && 0 < taken < s.quantity
    ensures Average(Taken(s, taken)) == Average(s) <==> s.value * taken % s.quantity == 0
  {
    var v, d, q := s.value, s.quantity - taken, s.quantity;
    StaysIs(s, taken);
    SameRatio(Taken(s, taken).value, v, d, q);
    WholeIff(v * d, q);
    RestWholeIff(v, taken, q);
  }

  /** w / d == v / q, as a statement about the product. */
  lemma SameRatio(w: int, v: int, d: int, q: int)
    requires d > 0 && q > 0
    ensures w as real / d as real == v as real / q as real <==> w as real == (v * d) as real / q as real
  {
    assert (v * d) as real / q as real == v as real / q as real * d as real;
    assert w as real / d as real * d as real == w as real;
  }

  lemma WholeIff(a: int, q: int)
    requires q > 0
    ensures RoundHalfUp(a as real / q as real) as real == a as real / q as real <==> a % q == 0
  {
    QuotientParts(a, q);
    var x := a as real / q as real;
    if a % q != 0 {
      assert (a % q) as real / q as real > 0.0;
      if RoundHalfUp(x) as real == x {
        FloorIs(x, RoundHalfUp(x));
      }
    } else {
      RoundIsClose(x);
    }
  }

  lemma RestWholeIff(v: int, t: int, q: int)
    requires q > 0
    ensures v * (q - t) % q == 0 <==> v * t % q == 0
  {
    var a, b := v * t, v * (q - t);
    assert a + b == v * q;
    if a % q == 0 {
      assert b == (v - a / q) * q;
      MultipleIsWhole(v - a / q, q);
    }
    if b % q == 0 {
      assert a == (v - b / q) * q;
      MultipleIsWhole(v - b / q, q);
    }
  }

  lemma MultipleIsWhole(k: int, q: int)
    requires q > 0
    ensures k * q % q == 0
  {
    var d, r := k * q / q, k * q % q;
    assert k * q == d * q + r;
    assert (k - d) * q == r;
    if k != d {
      ProductIsFar(k - d, q);
    }
  }

  lemma ProductIsFar(k: int, q: int)
    requires k != 0 && q > 0
    ensures k * q >= q || k * q <= -q
  {
    if k > 0 {
      MulMonotone(1, k, q);
    } else {
      MulMonotone(k, -1, q);
    }
  }

  lemma MulMonotone(a: int, b: int, q: int)
    requires a <= b && q >= 0
    ensures a * q <= b * q
  {
  }

  lemma AdjustedKeepsSound(s: Stock, change: int, unitPrice: Option<real>)
    requires Sound(s) && (unitPrice.Some? ==> unitPrice.value >= 0.0)
    ensures Sound(Adjusted(s, change, unitPrice))
    ensures Adjusted(s, change, unitPrice).quantity == if s.quantity + change >= 0 then s.quantity + change else 0
  {
    if change > 0 {
      if unitPrice.Some? {
        RoundIsClose(unitPrice.value);
      }
      var price := if unitPrice.Some? then RoundHalfUp(unitPrice.value) as real else Average(s);
      assert price >= 0.0;
      RoundIsClose(Worth(change, price));
    } else if change < 0 {
      TakenKeepsSound(s, Min(-change, s.quantity));
    }
  }

  lemma WorthAtAverage(s: Stock, pieces: int)
    requires s.quantity > 0
    ensures Worth(pieces, Average(s)) == (s.value * pieces) as real / s.quantity as real
  {
    assert (s.value * pieces) as real == s.value as real * pieces as real;
  }

  /** What the value would be if it grew with the quantity, before it is rounded. */
  lemma GrownIs(s: Stock, change: int)
    requires s.quantity > 0
    ensures (s.value * (s.quantity + change)) as real / s.quantity as real
            == s.value as real + (s.value * change) as real / s.quantity as real
  {
    var v, q := s.value, s.quantity;
    assert v * (q + change) == v * q + v * change;
    RatioOfSum(v * q, v * change, q);
    assert (v * q) as real / q as real == v as real;
  }

  /** Adding pieces without a price keeps the average exactly when they are worth a whole number of grosze at it. */
  lemma UnpricedIncreaseKeepsAverageIff(s: Stock, change: int)
    requires Sound(s) && change > 0 && s.quantity > 0
    ensures Average(Adjusted(s, change, None)) == Average(s) <==> s.value * change % s.quantity == 0
    ensures var t := Adjusted(s, change, None); Abs(t.value as real - Worth(t.quantity, Average(s))) <= 0.5
  {
    var v, q, d := s.value, s.quantity, s.quantity + change;
    WorthAtAverage(s, change);
    WorthAtAverage(s, d);
    RoundIsClose(Worth(change, Average(s)));
    GrownIs(s, change);
    SameRatio(Adjusted(s, change, None).value, v, d, q);
    WholeIff(v * change, q);
  }

  lemma RatioOfSum(a: int, b: int, q: int)
    requires q > 0
    ensures (a + b) as real / q as real == a as real / q as real + b as real / q as real
  {
  }

  // ---------------------------------------------------------------- whole runs

  datatype Op = Buy(quantity: nat, price: nat) | Sell(wanted: int) | Adjust(change: int, unitPrice: Option<nat>)

  function PriceOf(unitPrice: Option<nat>): Option<real> {
    if unitPrice.Some? then Some(unitPrice.value as real) else None
  }

  function Step(s: Stock, op: Op): Stock {
    match op
    case Buy(q, p) => Received(s, q, p)
    case Sell(w) => Sold(s, w)
    case Adjust(c, p) => Adjusted(s, c, PriceOf(p))
  }

  function Run(ops: seq<Op>): Stock {
    if ops == [] then Stock(0, 0) else Step(Run(ops[..|ops| - 1]), ops[|ops| - 1])
  }

  /** The promised invariant, over every run from an empty stock. */
  lemma {:induction false} RunKeepsSound(ops: seq<Op>)
    ensures Sound(Run(ops))
  {
    if ops != [] {
      var s := Run(ops[..|ops| - 1]);
      RunKeepsSound(ops[..|ops| - 1]);
      match ops[|ops| - 1]
      case Buy(q, p) => assert q * p >= 0;
      case Sell(w) => TakenKeepsSound(s, Min(s.quantity, w));
      case Adjust(c, p) => AdjustedKeepsSound(s, c, PriceOf(p));
    }
  }

  /** The pieces an operation takes out. */
  function Leaving(s: Stock, op: Op): int {
    match op
    case Buy(_, _) => 0
    case Sell(w) => Min(s.quantity, w)
    case Adjust(c, _) => if c < 0 then Min(-c, s.quantity) else 0
  }

  /** What an operation books in: a delivery what was paid, an increase what it adds. */
  function BookedIn(s: Stock, op: Op): int {
    match op
    case Buy(q, p) => q * p
    case Sell(_) => 0
    case Adjust(c, p) => if c > 0 then Added(s, c, PriceOf(p)) else 0
  }

  /** What an operation books out, in whole grosze: a sale the purchase cost it records. */
  function BookedOut(s: Stock, op: Op): int {
    RoundHalfUp(CostOf(s, Leaving(s, op)))
  }

  /** The sum of `amount` over the operations of a run, each at the stock it met. */
  function Total(amount: (Stock, Op) -> int, ops: seq<Op>): int {
    if ops == [] then 0
    else Total(amount, ops[..|ops| - 1]) + amount(Run(ops[..|ops| - 1]), ops[|ops| - 1])
  }

  /** The operations whose share was a tie. */
  function Ties(ops: seq<Op>): int {
    Total((s: Stock, op: Op) => TieGrosz(s, Leaving(s, op)), ops)
  }

  lemma StepConserves(s: Stock, op: Op)
    requires Sound(s)
    ensures Step(s, op).value == s.value + BookedIn(s, op) - BookedOut(s, op) + TieGrosz(s, Leaving(s, op))
  {
    TakenSplits(s, Leaving(s, op));
    RoundIsClose(0.0);
  }

  /**
    * Conservation, to the grosz, over every run: the value on stock is what was booked in less what was booked out, and
    * one grosz more for each operation whose share fell exactly between two grosze.
    */
  lemma {:induction false} ValueIsConserved(ops: seq<Op>)
    ensures Run(ops).value == Total(BookedIn, ops) - Total(BookedOut, ops) + Ties(ops)
    ensures 0 <= Ties(ops) <= |ops|
  {
    if ops != [] {
      ValueIsConserved(ops[..|ops| - 1]);
      RunKeepsSound(ops[..|ops| - 1]);
      StepConserves(Run(ops[..|ops| - 1]), ops[|ops| - 1]);
    }
  }

  // ---------------------------------------------------------------- returns

  /** Pieces of a sale that can still come back. */
  function Open(sale: Sale): int {
    if sale.quantity - sale.returned > 0 then sale.quantity - sale.returned else 0
  }

  function OpenPieces(sales: seq<Sale>): int {
    if sales == [] then 0 else OpenPieces(sales[..|sales| - 1]) + Open(sales[|sales| - 1])
  }

  function Returned(sales: seq<Sale>): int {
    if sales == [] then 0 else Returned(sales[..|sales| - 1]) + sales[|sales| - 1].returned
  }

  /** The same sale, with at most what was sold of it returned. */
  predicate Advanced(before: Sale, now: Sale) {
    && now.quantity == before.quantity && now.cost == before.cost
    && before.returned <= now.returned
    && (now.returned <= before.quantity || now.returned == before.returned)
  }

  /** The value `take` pieces of a sale bring back: their share of its recorded cost. */
  function BackFrom(sale: Sale, take: int): int {
    if take <= 0 || sale.quantity <= 0 then 0 else RoundHalfUp(Worth(take, sale.cost as real / sale.quantity as real))
  }

  /** The value of a return of `quantity` pieces, the oldest sales first, as far as the sales go. */
  function Back(sales: seq<Sale>, quantity: int): int {
    if sales == [] then 0
    else
      var init, last := sales[..|sales| - 1], sales[|sales| - 1];
      Back(init, quantity) + BackFrom(last, TakeOf(init, last, quantity))
  }

  /** The pieces of the last sale a return of `quantity` takes, after the older sales `init`. */
  function TakeOf(init: seq<Sale>, last: Sale, quantity: int): int {
    Min(quantity - Min(quantity, OpenPieces(init)), Open(last))
  }

  /** The sale records after a return of `quantity` pieces. */
  function AfterReturn(sales: seq<Sale>, quantity: int): seq<Sale> {
    if sales == [] then [] else
    var init, last := sales[..|sales| - 1], sales[|sales| - 1];
    AfterReturn(init, quantity) + [last.(returned := last.returned + TakeOf(init, last, quantity))]
  }

  function RestoredValue(s: Stock, sales: seq<Sale>, quantity: int): int {
    var fromSales := Min(quantity, OpenPieces(sales));
    var t := Stock(s.quantity + fromSales, s.value + Back(sales, quantity));
    if fromSales < quantity then t.value + RoundHalfUp(Worth(quantity - fromSales, Average(t))) else t.value
  }

  /** The stock after a return of `quantity` pieces. */
  function Restored(s: Stock, sales: seq<Sale>, quantity: int): Stock {
    if quantity <= 0 then s else Stock(s.quantity + quantity, RestoredValue(s, sales, quantity))
  }

  /** One sale record of the return loop. */
  method ReturnFromSale(ps: ProductSize, sale: Sale, remaining: int) returns (after: Sale, take: int)
    requires sale.returned >= 0 && sale.cost >= 0 && remaining >= 0 && Sound(ps.View())
    modifies ps
    ensures Sound(ps.View()) && ps.quantity == old(ps.quantity) + take
    ensures ps.stockValue == old(ps.stockValue) + BackFrom(sale, take)
    ensures take == Min(remaining, Open(sale))
    ensures Advanced(sale, after) && after.returned == sale.returned + take
  {
    var available := sale.quantity - sale.returned;
    if remaining <= 0 || available <= 0 {
      return sale, 0;
    }
    take := Min(available, remaining);
    var unitCost := sale.cost as real / sale.quantity as real;
    var back := Worth(take, unitCost);
    assert back >= 0.0;
    RoundIsClose(back);
    ps.quantity, ps.stockValue := ps.quantity + take, ps.stockValue + RoundHalfUp(back);
    after := sale.(returned := sale.returned + take);
  }

  /** Pieces no sale record accounts for come back at the current average. */
  method ReturnAtAverage(ps: ProductSize, count: int)
    requires count > 0 && Sound(ps.View())
    modifies ps
    ensures Sound(ps.View()) && ps.quantity == old(ps.quantity) + count
    ensures ps.stockValue == old(ps.stockValue) + RoundHalfUp(Worth(count, Average(old(ps.View()))))
  {
    var avg := Average(ps.View());
    assert avg >= 0.0;
    RoundIsClose(Worth(count, avg));
    ps.quantity, ps.stockValue := ps.quantity + count, ps.stockValue + RoundHalfUp(Worth(count, avg));
  }

  /** The loop over the order's sales, the oldest first. */
  method ReturnFromSales(ps: ProductSize, sales: seq<Sale>, quantity: int) returns (after: seq<Sale>, fromSales: int)
    requires forall i :: 0 <= i < |sales| ==> sales[i].returned >= 0 && sales[i].cost >= 0
    requires Sound(ps.View()) && quantity > 0
    modifies ps
    ensures fromSales == Min(quantity, OpenPieces(sales)) >= 0
    ensures Sound(ps.View()) && ps.View() == Stock(old(ps.quantity) + fromSales, old(ps.stockValue) + Back(sales, quantity))
    ensures after == AfterReturn(sales, quantity)
  {
    after, fromSales := [], 0;
    for i := 0 to |sales|
      invariant after == AfterReturn(sales[..i], quantity)
      invariant 0 <= fromSales == Min(quantity, OpenPieces(sales[..i]))
      invariant Sound(ps.View())
      invariant ps.quantity == old(ps.quantity) + fromSales
      invariant ps.stockValue == old(ps.stockValue) + Back(sales[..i], quantity)
    {
      assert sales[..i + 1][..i] == sales[..i];
      OpenIsNatural(sales[..i]);
      var sale, take := ReturnFromSale(ps, sales[i], quantity - fromSales);
      after, fromSales := after + [sale], fromSales + take;
    }
    assert sales[..|sales|] == sales;
  }

  /** `_restore_stock_for_return_item`: pieces come back at the cost they were sold at, the rest at the average. */
  method RestoreForReturn(ps: ProductSize, sales: seq<Sale>, quantity: int)
    returns (after: seq<Sale>, fromSales: int)
    requires forall i :: 0 <= i < |sales| ==> sales[i].returned >= 0 && sales[i].cost >= 0
    requires Sound(ps.View())
    modifies ps
    ensures Sound(ps.View())
    ensures ps.View() == Restored(old(ps.View()), sales, quantity)
    ensures fromSales == if quantity <= 0 then 0 else Min(quantity, OpenPieces(sales))
    ensures after == if quantity <= 0 then sales else AfterReturn(sales, quantity)
    ensures |after| == |sales| && Returned(after) == Returned(sales) + fromSales
    ensures forall i :: 0 <= i < |sales| ==> Advanced(sales[i], after[i])
  {
    if quantity <= 0 {
      return sales, 0;
    }
    AfterReturnAdvances(sales, quantity);
    after, fromSales := ReturnFromSales(ps, sales, quantity);
    if fromSales < quantity {
      ReturnAtAverage(ps, quantity - fromSales);
    }
  }

  lemma {:induction false} OpenIsNatural(sales: seq<Sale>)
    ensures OpenPieces(sales) >= 0
  {
    if sales != [] {
      OpenIsNatural(sales[..|sales| - 1]);
    }
  }

  /** No sale is returned beyond what it sold, and together exactly the pieces the sales can cover come back. */
  lemma {:induction false} AfterReturnAdvances(sales: seq<Sale>, quantity: int)
    requires quantity >= 0
    ensures var after := AfterReturn(sales, quantity);
            && |after| == |sales| && Returned(after) == Returned(sales) + Min(quantity, OpenPieces(sales))
            && forall i :: 0 <= i < |sales| ==> Advanced(sales[i], after[i])
  {
    if sales != [] {
      var n := |sales| - 1;
      AfterReturnAdvances(sales[..n], quantity);
      OpenIsNatural(sales[..n]);
      var after := AfterReturn(sales, quantity);
      assert after[..n] == AfterReturn(sales[..n], quantity);
    }
  }

  /** The oldest sales come first: a sale gives pieces back only when all older ones are returned in full, and so are all when pieces remain. */
  lemma {:induction false} OldestFirst(sales: seq<Sale>, quantity: int)
    requires quantity >= 0
    ensures var after := AfterReturn(sales, quantity);
            && |after| == |sales|
            && (forall i, j :: 0 <= i < j < |sales| && after[j].returned > sales[j].returned ==> after[i].returned >= sales[i].quantity)
            && (quantity > OpenPieces(sales) ==> forall i :: 0 <= i < |sales| ==> after[i].returned >= sales[i].quantity)
  {
    if sales != [] {
      var n := |sales| - 1;
      OldestFirst(sales[..n], quantity);
      OpenIsNatural(sales[..n]);
      var after := AfterReturn(sales, quantity);
      assert after[..n] == AfterReturn(sales[..n], quantity);
      assert forall i :: 0 <= i < n ==> after[i] == after[..n][i] && sales[i] == sales[..n][i];
    }
  }

  /** The value given back, sale by sale: the newly returned pieces at the sale's recorded unit cost, rounded. */
  function GivenBack(sales: seq<Sale>, after: seq<Sale>): int
    requires |sales| == |after|
  {
    if sales == [] then 0 else
    var n := |sales| - 1;
    var count := after[n].returned - sales[n].returned;
    GivenBack(sales[..n], after[..n])
    + if count > 0 && sales[n].quantity > 0 then RoundHalfUp((count * sales[n].cost) as real / sales[n].quantity as real) else 0
  }

  lemma UnitCost(count: int, cost: int, quantity: int)
    requires quantity > 0
    ensures Worth(count, cost as real / quantity as real) == (count * cost) as real / quantity as real
  {
    assert (count * cost) as real == count as real * cost as real;
  }

  lemma {:induction false} BackIsGiven(sales: seq<Sale>, quantity: int)
    requires quantity >= 0
    ensures |AfterReturn(sales, quantity)| == |sales|
    ensures Back(sales, quantity) == GivenBack(sales, AfterReturn(sales, quantity))
  {
    if sales != [] {
      var n := |sales| - 1;
      BackIsGiven(sales[..n], quantity);
      assert AfterReturn(sales, quantity)[..n] == AfterReturn(sales[..n], quantity);
      if sales[n].quantity > 0 {
        UnitCost(TakeOf(sales[..n], sales[n], quantity), sales[n].cost, sales[n].quantity);
      }
    }
  }

  /** Pieces no sale accounts for come back as an increase without a price would book them. */
  lemma RemainderIsUnpricedIncrease(s: Stock, sales: seq<Sale>, quantity: int)
    requires quantity > OpenPieces(sales)
    ensures var open := OpenPieces(sales);
            open >= 0 && Restored(s, sales, quantity)
                         == Adjusted(Stock(s.quantity + open, s.value + Back(sales, quantity)), quantity - open, None)
  {
    OpenIsNatural(sales);
  }

  /** Pieces added at a price raise the value by that price each; a unit price is rounded before, not after. */
  lemma PricedIncrease(s: Stock, change: int, price: int, fraction: real)
    requires change > 0
    ensures Adjusted(s, change, Some(price as real)) == Stock(s.quantity + change, s.value + change * price)
    ensures Adjusted(s, change, Some(fraction)) == Adjusted(s, change, Some(RoundHalfUp(fraction) as real))
  {
    RoundIsClose(price as real);
    RoundIsClose(RoundHalfUp(fraction) as real);
    assert Worth(change, price as real) == (change * price) as real;
    RoundIsClose((change * price) as real);
  }

  /** A decrease is a sale without a record: no price matters, and no more goes than there is. */
  lemma DecreaseIsUnrecordedSale(s: Stock, change: int, unitPrice: Option<real>)
    requires change > 0 && s.quantity >= 0
    ensures Adjusted(s, -change, unitPrice) == Sold(s, change)
  {
  }

  lemma WholeSaleBack(sale: Sale)
    requires sale.quantity > 0 && sale.returned == 0
    ensures OpenPieces([sale]) == sale.quantity && Back([sale], sale.quantity) == sale.cost
  {
    assert [sale][..0] == [];
    assert Worth(sale.quantity, sale.cost as real / sale.quantity as real) == sale.cost as real;
    RoundIsClose(sale.cost as real);
  }

  /**
    * A sale records the wanted pieces, not the ones that left the stock. Returning all of it gives back the value, and
    * one grosz more at a tie; the quantity is back exactly when there was enough on stock to begin with.
    */
  lemma ReturnUndoesSaleIff(s: Stock, wanted: int)
    requires Sound(s) && wanted > 0
    ensures var back := Restored(Sold(s, wanted), [SaleOf(s, wanted)], wanted);
            && (back.quantity == s.quantity <==> wanted <= s.quantity)
            && back.value == s.value + TieGrosz(s, Min(s.quantity, wanted))
            && (back == s <==> wanted <= s.quantity && !Tie(s, wanted))
  {
    TakenSplits(s, Min(s.quantity, wanted));
    WholeSaleBack(SaleOf(s, wanted));
  }
}
