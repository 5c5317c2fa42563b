/** Refund amounts and refund line items, from the items returned and the checkout form of the order. Amounts are grosze. */
module Refunds {
  import opened Options
  import opened Sums
  import opened Lists

  /** A line of the checkout form; a quantity of zero stands for a missing one, the empty string for a missing name. */
  datatype Line = Line(id: string, offerId: string, name: string, quantity: int, price: Option<int>)

  datatype ReturnItem = ReturnItem(offerId: string, name: string, quantity: int, price: Option<int>)

  datatype Checkout = Checkout(lines: seq<Line>, totalToPay: int, deliveryCost: int)

  datatype LineItem = LineItem(id: string, quantity: int)

  datatype Error = NoCheckoutLines | Unmatched(item: ReturnItem) | NothingToRefund

  function OrOne(quantity: int): int {
    if quantity == 0 then 1 else quantity
  }

  function Min(a: int, b: int): int {
    if a < b then a else b
  }

  /** The pieces an item asks for: at least one. */
  function Asked(r: ReturnItem): int {
    if OrOne(r.quantity) > 1 then r.quantity else 1
  }

  /** The pieces refunded: those asked for, at most those ordered. */
  function Refunded(r: ReturnItem, line: Line): int {
    Min(Asked(r), OrOne(line.quantity))
  }

  function PriceOf(r: ReturnItem, line: Line): int {
    if r.price.Some? then r.price.value else if line.price.Some? then line.price.value else 0
  }

  // ---------------------------------------------------------------- matching a return item to a line

  function OfferIdOf(line: Line): string {
    line.offerId
  }

  function NameOf(line: Line): string {
    line.name
  }

  /** The last line with this key; dictionaries keep the last entry under a key. */
  function LastWith(key: Line -> string, lines: seq<Line>, wanted: string): (r: Option<nat>)
    ensures r.Some? ==> r.value < |lines| && key(lines[r.value]) == wanted
    ensures r.Some? ==> forall k :: r.value < k < |lines| ==> key(lines[k]) != wanted
    ensures r.None? <==> forall k :: 0 <= k < |lines| ==> key(lines[k]) != wanted
  {
    if lines == [] then None
    else if key(lines[|lines| - 1]) == wanted then Some(|lines| - 1)
    else LastWith(key, lines[..|lines| - 1], wanted)
  }

  /** By offer id first; by name if there is no offer id or no line with it. */
  function MatchOf(lines: seq<Line>, r: ReturnItem): (m: Option<nat>)
    ensures m.Some? ==> m.value < |lines|
  {
    var byOffer := if r.offerId != "" then LastWith(OfferIdOf, lines, r.offerId) else None;
    if byOffer.Some? then byOffer else if r.name != "" then LastWith(NameOf, lines, r.name) else None
  }

  predicate Matched(lines: seq<Line>, r: ReturnItem) {
    MatchOf(lines, r).Some?
  }

  function Item(lines: seq<Line>, r: ReturnItem): LineItem {
    match MatchOf(lines, r)
    case None => LineItem("", 0)
    case Some(k) => LineItem(lines[k].id, Refunded(r, lines[k]))
  }

  function AmountOf(lines: seq<Line>, r: ReturnItem): int {
    match MatchOf(lines, r)
    case None => 0
    case Some(k) => PriceOf(r, lines[k]) * Refunded(r, lines[k])
  }

  function Amount(lines: seq<Line>, items: seq<ReturnItem>): int {
    Sum(r => AmountOf(lines, r), items)
  }

  /** A dictionary holding, per non-empty key, the last line with it. */
  ghost predicate LastOfEach(key: Line -> string, lines: seq<Line>, dict: map<string, nat>) {
    forall w :: if w == "" || LastWith(key, lines, w).None? then w !in dict
                else w in dict && dict[w] == LastWith(key, lines, w).value
  }

  ghost predicate Indexed(lines: seq<Line>, byOffer: map<string, nat>, byName: map<string, nat>) {
    LastOfEach(OfferIdOf, lines, byOffer) && LastOfEach(NameOf, lines, byName)
  }

  lemma LastOfEachNext(key: Line -> string, lines: seq<Line>, line: Line, dict: map<string, nat>)
    requires LastOfEach(key, lines, dict)
    ensures LastOfEach(key, lines + [line], if key(line) == "" then dict else dict[key(line) := |lines|])
  {
    assert (lines + [line])[..|lines|] == lines;
  }

  /** The dictionaries of the first loop. */
  method IndexLines(lines: seq<Line>) returns (byOffer: map<string, nat>, byName: map<string, nat>)
    ensures Indexed(lines, byOffer, byName)
  {
    byOffer, byName := map[], map[];
    for k := 0 to |lines|
      invariant Indexed(lines[..k], byOffer, byName)
    {
      assert lines[..k + 1] == lines[..k] + [lines[k]];
      LastOfEachNext(OfferIdOf, lines[..k], lines[k], byOffer);
      LastOfEachNext(NameOf, lines[..k], lines[k], byName);
      if lines[k].offerId != "" {
        byOffer := byOffer[lines[k].offerId := k];
      }
      if lines[k].name != "" {
        byName := byName[lines[k].name := k];
      }
    }
    assert lines[..|lines|] == lines;
  }

  method LookUp(byOffer: map<string, nat>, byName: map<string, nat>, r: ReturnItem, ghost lines: seq<Line>)
    returns (at: Option<nat>)
    requires Indexed(lines, byOffer, byName)
    ensures at == MatchOf(lines, r)
  {
    at := if r.offerId != "" && r.offerId in byOffer then Some(byOffer[r.offerId]) else None;
    if at.None? && r.name != "" && r.name in byName {
      at := Some(byName[r.name]);
    }
  }

  /** The line items of the items matched so far. */
  ghost predicate Built(lines: seq<Line>, items: seq<ReturnItem>, built: seq<LineItem>) {
    |built| == |items| && forall k :: 0 <= k < |items| ==> Matched(lines, items[k]) && built[k] == Item(lines, items[k])
  }

  /** The line item and the amount of one returned item; nothing if there is no line for it. */
  method RefundOne(r: ReturnItem, lines: seq<Line>, byOffer: map<string, nat>, byName: map<string, nat>)
    returns (item: Option<LineItem>, amount: int)
    requires Indexed(lines, byOffer, byName)
    ensures item == if Matched(lines, r) then Some(Item(lines, r)) else None
    ensures amount == AmountOf(lines, r)
  {
    var at := LookUp(byOffer, byName, r, lines);
    if at.None? {
      return None, 0;
    }
    var line := lines[at.value];
    var quantity, ordered := OrOne(r.quantity), OrOne(line.quantity);
    if quantity < 1 {
      quantity := 1;
    }
    if quantity > ordered {
      quantity := ordered;
    }
    assert quantity == Refunded(r, line);
    item, amount := Some(LineItem(line.id, quantity)), PriceOf(r, line) * quantity;
  }

  lemma BuiltNext(lines: seq<Line>, items: seq<ReturnItem>, built: seq<LineItem>, r: ReturnItem)
    requires Built(lines, items, built) && Matched(lines, r)
    ensures Built(lines, items + [r], built + [Item(lines, r)])
    ensures Amount(lines, items + [r]) == Amount(lines, items) + AmountOf(lines, r)
  {
    SumSnoc(x => AmountOf(lines, x), items, r);
  }

  /** The loop over the returned items; it stops at the first item without a line. */
  method BuildItems(items: seq<ReturnItem>, lines: seq<Line>, byOffer: map<string, nat>, byName: map<string, nat>)
    returns (built: seq<LineItem>, total: int, unmatched: Option<ReturnItem>)
    requires Indexed(lines, byOffer, byName)
    ensures unmatched.None? ==> Built(lines, items, built) && total == Amount(lines, items)
    ensures unmatched.Some? ==> unmatched.value in items && !Matched(lines, unmatched.value)
  {
    built, total := [], 0;
    for i := 0 to |items|
      invariant Built(lines, items[..i], built) && total == Amount(lines, items[..i])
    {
      var r := items[i];
      assert items[..i + 1] == items[..i] + [r];
      var item, amount := RefundOne(r, lines, byOffer, byName);
      if item.None? {
        return built, total, Some(r);
      }
      BuiltNext(lines, items[..i], built, r);
      built, total := built + [item.value], total + amount;
    }
    assert items[..|items|] == items;
    unmatched := None;
  }

  /** `build_refund_line_items`. One item without a line means no payload at all. */
  method BuildRefundLineItems(items: seq<ReturnItem>, lines: seq<Line>)
    returns (payload: Option<seq<LineItem>>, total: int, error: Option<Error>)
    ensures items == [] ==> payload == None && total == 0 && error == None
    ensures items != [] && lines == [] ==> payload == None && total == 0 && error == Some(NoCheckoutLines)
    ensures items != [] && lines != [] ==>
              if forall i :: 0 <= i < |items| ==> Matched(lines, items[i])
              then error == None && total == Amount(lines, items) && payload.Some? && Built(lines, items, payload.value)
              else payload == None && total == 0 && error.Some? && error.value.Unmatched? && error.value.item in items
                   && !Matched(lines, error.value.item)
  {
    if items == [] {
      return None, 0, None;
    }
    if lines == [] {
      return None, 0, Some(NoCheckoutLines);
    }
    var byOffer, byName := IndexLines(lines);
    var built, amount, unmatched := BuildItems(items, lines, byOffer, byName);
    if unmatched.Some? {
      return None, 0, Some(Unmatched(unmatched.value));
    }
    return Some(built), amount, None;
  }

  predicate IsPartial(items: seq<ReturnItem>, lines: seq<Line>) {
    |items| < |lines|
  }

  /** `build_partial_refund_details`: the amount, with delivery if it is covered. */
  method BuildPartialRefundDetails(items: seq<ReturnItem>, checkout: Checkout, deliveryCovered: bool)
    returns (total: int, isPartial: bool, error: Option<Error>)
    ensures error.None? <==> items != [] && checkout.lines != [] && forall i :: 0 <= i < |items| ==> Matched(checkout.lines, items[i])
    ensures error.None? ==>
              && total == Amount(checkout.lines, items) + (if deliveryCovered && checkout.deliveryCost > 0 then checkout.deliveryCost else 0)
              && isPartial == IsPartial(items, checkout.lines)
    ensures items == [] ==> error == Some(NothingToRefund)
    ensures items != [] && checkout.lines == [] ==> error == Some(NoCheckoutLines)
    ensures items != [] && checkout.lines != [] && error.Some? ==>
              error.value.Unmatched? && error.value.item in items && !Matched(checkout.lines, error.value.item)
  {
    var payload, amount, failed := BuildRefundLineItems(items, checkout.lines);
    if failed.Some? {
      return 0, false, failed;
    }
    if payload.None? || payload.value == [] {
      return 0, false, Some(NothingToRefund);
    }
    total := amount;
    if deliveryCovered && checkout.deliveryCost > 0 {
      total := total + checkout.deliveryCost;
    }
    return total, |items| < |checkout.lines|, None;
  }

  /** What a line is worth in full. */
  function LineValue(line: Line): int {
    if line.price.None? then 0 else line.price.value * OrOne(line.quantity)
  }

  function ItemValue(lines: seq<Line>): int {
    Sum(LineValue, lines)
  }

  /** The amount of `build_checkout_refund_details`: the payment, or the items if no payment is known. */
  method CheckoutRefundTotal(checkout: Checkout) returns (total: int)
    ensures total == if checkout.totalToPay > 0 then checkout.totalToPay else checkout.totalToPay + ItemValue(checkout.lines)
  {
    total := checkout.totalToPay;
    if total <= 0 {
      var lines := checkout.lines;
      for i := 0 to |lines|
        invariant total == checkout.totalToPay + ItemValue(lines[..i])
      {
        SumSnoc(LineValue, lines[..i], lines[i]);
        assert lines[..i + 1] == lines[..i] + [lines[i]];
        if lines[i].price.Some? {
          total := total + lines[i].price.value * OrOne(lines[i].quantity);
        }
      }
      assert lines[..|lines|] == lines;
    }
  }

  // ---------------------------------------------------------------- one returned item

  /** Line `k` is the last one with this offer id. */
  predicate LastOffer(lines: seq<Line>, id: string, k: nat) {
    k < |lines| && lines[k].offerId == id && forall j :: k < j < |lines| ==> lines[j].offerId != id
  }

  predicate LastName(lines: seq<Line>, name: string, k: nat) {
    k < |lines| && lines[k].name == name && forall j :: k < j < |lines| ==> lines[j].name != name
  }

  /** The item names its offer, and the order has that offer. */
  predicate HasOffer(lines: seq<Line>, r: ReturnItem) {
    r.offerId != "" && exists k :: 0 <= k < |lines| && lines[k].offerId == r.offerId
  }

  /** An item meets the last line of its offer; only if the order has no such offer, the last line of its name. */
  lemma MatchesIff(lines: seq<Line>, r: ReturnItem, k: nat)
    ensures MatchOf(lines, r) == Some(k)
            <==> if HasOffer(lines, r) then LastOffer(lines, r.offerId, k) else r.name != "" && LastName(lines, r.name, k)
    ensures MatchOf(lines, r) == None
            <==> !HasOffer(lines, r) && (r.name == "" || forall j :: 0 <= j < |lines| ==> lines[j].name != r.name)
  {
  }

  /**
    * A matched item gives the line's id; the pieces asked for (none, zero or fewer count as one) but no more than were
    * ordered (none counts as one); and pays its own price each, else the line's, else nothing.
    */
  lemma MatchedItemIs(lines: seq<Line>, r: ReturnItem, k: nat)
    requires k < |lines| && MatchOf(lines, r) == Some(k)
    ensures var line := lines[k];
            var asked := if r.quantity >= 1 then r.quantity else 1;
            var ordered := if line.quantity == 0 then 1 else line.quantity;
            var given := Item(lines, r).quantity;
            && Item(lines, r).id == line.id
            && given <= asked && given <= ordered && (given == asked || given == ordered)
            && (r.price.Some? ==> AmountOf(lines, r) == r.price.value * given)
            && (r.price.None? && line.price.Some? ==> AmountOf(lines, r) == line.price.value * given)
            && (r.price.None? && line.price.None? ==> AmountOf(lines, r) == 0)
  {
  }

  /** What an order's lines are worth: price times quantity, a missing quantity being one and a missing price nothing. */
  lemma {:induction false} ItemValueIs(lines: seq<Line>, more: seq<Line>)
    ensures ItemValue(lines + more) == ItemValue(lines) + ItemValue(more)
    ensures |more| == 1 ==>
              ItemValue(more) == if more[0].price.None? then 0
                                 else more[0].price.value * (if more[0].quantity == 0 then 1 else more[0].quantity)
  {
    SumConcat(LineValue, lines, more);
    if |more| == 1 {
      assert more[..0] == [] && Sum(LineValue, []) == 0;
    }
  }

  // ---------------------------------------------------------------- bounds

  /** A payload quantity lies between one and the ordered quantity exactly when something was ordered at all. */
  lemma QuantityInRangeIff(r: ReturnItem, line: Line)
    ensures 1 <= Refunded(r, line) <= OrOne(line.quantity) <==> OrOne(line.quantity) >= 1
    ensures Refunded(r, line) == OrOne(line.quantity) <==> Asked(r) >= OrOne(line.quantity)
  {
  }

  predicate Distinct(xs: seq<nat>) {
    forall i, j :: 0 <= i < j < |xs| ==> xs[i] != xs[j]
  }

  /** A quantity of the lines as a quantity of their positions. */
  function At(f: Line -> int, lines: seq<Line>): nat -> int {
    k => if 0 <= k < |lines| then f(lines[k]) else 0
  }

  lemma {:induction false} DistinctPositionsSumAtMost(f: Line -> int, lines: seq<Line>, at: seq<nat>)
    requires Distinct(at) && forall i :: 0 <= i < |at| ==> at[i] < |lines|
    requires forall k :: 0 <= k < |lines| ==> f(lines[k]) >= 0
    ensures Sum(At(f, lines), at) <= Sum(f, lines)
  {
    var g := At(f, lines);
    if lines == [] {
      SumOfZeros(g, at);
    } else {
      var n := |lines| - 1;
      var init := lines[..n];
      var h := At(f, init);
      if i :| 0 <= i < |at| && at[i] == n {
        var rest := at[..i] + at[i + 1..];
        SumWithout(g, at, i);
        DistinctPositionsSumAtMost(f, init, rest);
        SumSame(g, h, rest);
      } else {
        DistinctPositionsSumAtMost(f, init, at);
        SumSame(g, h, at);
      }
    }
  }

  lemma {:induction false} SumSame<T>(f: T -> int, g: T -> int, xs: seq<T>)
    requires forall i :: 0 <= i < |xs| ==> f(xs[i]) == g(xs[i])
    ensures Sum(f, xs) == Sum(g, xs)
  {
    if xs != [] {
      SumSame(f, g, xs[..|xs| - 1]);
    }
  }

  lemma {:induction false} SumAtMost<T, U>(f: T -> int, g: U -> int, xs: seq<T>, ys: seq<U>)
    requires |xs| == |ys| && forall i :: 0 <= i < |xs| ==> f(xs[i]) <= g(ys[i])
    ensures Sum(f, xs) <= Sum(g, ys)
  {
    if xs != [] {
      SumAtMost(f, g, xs[..|xs| - 1], ys[..|ys| - 1]);
    }
  }

  ghost predicate Sellable(lines: seq<Line>) {
    forall k :: 0 <= k < |lines| ==> lines[k].quantity >= 0 && (lines[k].price.Some? ==> lines[k].price.value >= 0)
  }

  /** At the order's price an item is refunded no more than its line is worth. */
  lemma ItemAtMostLine(lines: seq<Line>, r: ReturnItem, k: nat)
    requires Sellable(lines) && k < |lines| && MatchOf(lines, r) == Some(k) && r.price.None?
    ensures AmountOf(lines, r) <= LineValue(lines[k])
  {
    var line := lines[k];
    if line.price.Some? {
      assert AmountOf(lines, r) == line.price.value * Refunded(r, line);
      MulAtMost(line.price.value, Refunded(r, line), OrOne(line.quantity));
    }
  }

  /** Returning any items of pairwise different lines, at the order's own prices, never refunds more than the order's items. */
  lemma RefundAtMostOrder(lines: seq<Line>, items: seq<ReturnItem>, at: seq<nat>)
    requires Sellable(lines)
    requires |at| == |items| && Distinct(at)
    requires forall i :: 0 <= i < |items| ==> MatchOf(lines, items[i]) == Some(at[i]) && items[i].price.None?
    ensures Amount(lines, items) <= ItemValue(lines)
  {
    var value := At(LineValue, lines);
    var amount: ReturnItem -> int := r => AmountOf(lines, r);
    forall i | 0 <= i < |items|
      ensures amount(items[i]) <= value(at[i])
    {
      ItemAtMostLine(lines, items[i], at[i]);
    }
    SumAtMost(amount, value, items, at);
    assert Amount(lines, items) == Sum(amount, items);
    DistinctPositionsSumAtMost(LineValue, lines, at);
  }

  lemma MulAtMost(a: int, b: int, c: int)
    requires a >= 0 && b <= c
    ensures a * b <= a * c
  {
  }

  /** The items that return every line in full. */
  function InFull(lines: seq<Line>): seq<ReturnItem> {
    seq(|lines|, i requires 0 <= i < |lines| => ReturnItem(lines[i].offerId, lines[i].name, lines[i].quantity, None))
  }

  /**
    * With distinct offer ids, returning every line in full refunds exactly the item total that
    * `build_checkout_refund_details` computes for the order, and is not a partial return.
    */
  lemma FullReturnIsItemTotal(lines: seq<Line>)
    requires Sellable(lines)
    requires forall i :: 0 <= i < |lines| ==> lines[i].offerId != ""
    requires forall i, j :: 0 <= i < j < |lines| ==> lines[i].offerId != lines[j].offerId
    ensures Amount(lines, InFull(lines)) == ItemValue(lines) && !IsPartial(InFull(lines), lines)
    ensures forall i :: 0 <= i < |lines| ==> Item(lines, InFull(lines)[i]) == LineItem(lines[i].id, OrOne(lines[i].quantity))
  {
    var f: ReturnItem -> int := r => AmountOf(lines, r);
    forall i | 0 <= i < |lines|
      ensures f(InFull(lines)[i]) == LineValue(lines[i])
      ensures Item(lines, InFull(lines)[i]) == LineItem(lines[i].id, OrOne(lines[i].quantity))
    {
      assert LastWith(OfferIdOf, lines, lines[i].offerId) == Some(i);
      assert Refunded(InFull(lines)[i], lines[i]) == OrOne(lines[i].quantity);
    }
    SumAtMost(f, LineValue, InFull(lines), lines);
    SumAtMost(LineValue, f, lines, InFull(lines));
  }

  // ---------------------------------------------------------------- the same line twice

  function TakenFrom(lines: seq<Line>, k: nat, r: ReturnItem): int
    requires k < |lines|
  {
    if MatchOf(lines, r) == Some(k) then Refunded(r, lines[k]) else 0
  }

  function AskedFrom(lines: seq<Line>, k: nat, r: ReturnItem): int {
    if MatchOf(lines, r) == Some(k) then Asked(r) else 0
  }

  function HitsOn(lines: seq<Line>, k: nat, r: ReturnItem): int {
    if MatchOf(lines, r) == Some(k) then 1 else 0
  }

  lemma {:induction false} TakenBounds(lines: seq<Line>, k: nat, items: seq<ReturnItem>)
    requires k < |lines| && OrOne(lines[k].quantity) >= 1
    ensures var taken, asked, hits := Sum(r => TakenFrom(lines, k, r), items), Sum(r => AskedFrom(lines, k, r), items), Sum(r => HitsOn(lines, k, r), items);
            && 0 <= hits <= taken <= asked
            && (hits == 0 ==> taken == asked == 0)
            && (hits == 1 ==> taken == Min(asked, OrOne(lines[k].quantity)))
            && (hits >= 2 && taken < asked ==> taken > OrOne(lines[k].quantity))
  {
    if items != [] {
      TakenBounds(lines, k, items[..|items| - 1]);
    }
  }

  /**
    * Each item is capped by the ordered quantity on its own, not together with others of the same line. The payload
    * keeps within what was ordered of a line exactly when at most one item meets it, or all of them together ask for
    * no more than was ordered.
    */
  lemma WithinOrderedIff(lines: seq<Line>, k: nat, items: seq<ReturnItem>)
    requires k < |lines| && OrOne(lines[k].quantity) >= 1
    ensures Sum(r => TakenFrom(lines, k, r), items) <= OrOne(lines[k].quantity)
            <==> Sum(r => HitsOn(lines, k, r), items) <= 1 || Sum(r => AskedFrom(lines, k, r), items) <= OrOne(lines[k].quantity)
  {
    TakenBounds(lines, k, items);
  }
}
