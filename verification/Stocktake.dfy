/** Stocktaking sessions: start, scan, undo, finish and apply, over the tables of sessions, items and product sizes. */
module Stocktake {
  import opened Options
  import opened Sums
  import opened Lists
  import opened StockValue

  datatype Status = InProgress | Finished | Applied

  datatype Item = Item(sizeId: int, expected: int, scanned: int, scannedAt: Option<nat>)

  datatype Session = Session(status: Status, items: seq<Item>)

  /** A row of product_sizes; the empty string is a missing barcode. */
  datatype Size = Size(id: int, barcode: string, stock: Stock)

  /** `clock` is the time of the next scan; it moves on with every scan. */
  datatype Db = Db(sessions: map<nat, Session>, nextId: nat, sizes: seq<Size>, clock: nat)

  // ---------------------------------------------------------------- lookups

  function FindItem(items: seq<Item>, sizeId: int): Option<nat> {
    Find((it: Item) => it.sizeId == sizeId, items)
  }

  function FindBarcode(sizes: seq<Size>, barcode: string): Option<nat> {
    Find((z: Size) => z.barcode == barcode, sizes)
  }

  function FindSize(sizes: seq<Size>, id: int): Option<nat> {
    Find((z: Size) => z.id == id, sizes)
  }

  predicate Undoable(it: Item) {
    it.scanned > 0 && it.scannedAt.Some?
  }

  /** The undoable item scanned last: `ORDER BY scanned_at DESC LIMIT 1`. */
  function LastScanned(items: seq<Item>): (r: Option<nat>)
    ensures match r
            case None => forall i :: 0 <= i < |items| ==> !Undoable(items[i])
            case Some(i) =>
              && i < |items| && Undoable(items[i])
              && forall j :: 0 <= j < |items| && Undoable(items[j]) ==> items[j].scannedAt.value <= items[i].scannedAt.value
  {
    if items == [] then None else
    var init, last := items[..|items| - 1], items[|items| - 1];
    var best := LastScanned(init);
    assert forall i :: 0 <= i < |init| ==> init[i] == items[i];
    if Undoable(last) && (best.None? || last.scannedAt.value > init[best.value].scannedAt.value) then Some(|items| - 1) else best
  }

  // ---------------------------------------------------------------- the operations on values

  predicate IsActive(db: Db, id: nat) {
    id in db.sessions && db.sessions[id].status.InProgress?
  }

  function StartItems(sizes: seq<Size>): seq<Item> {
    if sizes == [] then []
    else StartItems(sizes[..|sizes| - 1]) +
         if sizes[|sizes| - 1].barcode == "" then []
         else [Item(sizes[|sizes| - 1].id, sizes[|sizes| - 1].stock.quantity, 0, None)]
  }

  ghost function Started(db: Db): Db {
    if exists id :: IsActive(db, id) then db
    else db.(sessions := db.sessions[db.nextId := Session(InProgress, StartItems(db.sizes))], nextId := db.nextId + 1)
  }

  predicate CanScan(db: Db, id: nat, barcode: string) {
    barcode != "" && IsActive(db, id) && FindBarcode(db.sizes, barcode).Some?
  }

  /** The item of a size, added with a zero count if the session does not know the size yet. */
  function WithItem(items: seq<Item>, z: Size): seq<Item> {
    if FindItem(items, z.id).Some? then items else items + [Item(z.id, z.stock.quantity, 0, None)]
  }

  function ScanItem(items: seq<Item>, z: Size, now: nat): seq<Item> {
    var known := WithItem(items, z);
    var i := FindItem(known, z.id);
    if i.None? then known
    else known[i.value := known[i.value].(scanned := known[i.value].scanned + 1, scannedAt := Some(now))]
  }

  function Scanned(db: Db, id: nat, barcode: string): Db {
    if !CanScan(db, id, barcode) then db else
    var z := db.sizes[FindBarcode(db.sizes, barcode).value];
    db.(sessions := db.sessions[id := db.sessions[id].(items := ScanItem(db.sessions[id].items, z, db.clock))],
        clock := db.clock + 1)
  }

  predicate CanUndo(db: Db, id: nat) {
    IsActive(db, id) && LastScanned(db.sessions[id].items).Some?
  }

  function UndoItem(items: seq<Item>): seq<Item> {
    match LastScanned(items)
    case None => items
    case Some(i) => items[i := items[i].(scanned := items[i].scanned - 1)]
  }

  function Undone(db: Db, id: nat): Db {
    if !CanUndo(db, id) then db
    else db.(sessions := db.sessions[id := db.sessions[id].(items := UndoItem(db.sessions[id].items))])
  }

  /** Finishing asks for no particular status. */
  function Closed(db: Db, id: nat): Db {
    if id !in db.sessions then db else db.(sessions := db.sessions[id := db.sessions[id].(status := Finished)])
  }

  function ApplyItem(sizes: seq<Size>, it: Item): seq<Size> {
    var i := FindSize(sizes, it.sizeId);
    if it.scanned == it.expected || i.None? then sizes
    else sizes[i.value := sizes[i.value].(stock := Adjusted(sizes[i.value].stock, it.scanned - sizes[i.value].stock.quantity, None))]
  }

  function ApplyItems(sizes: seq<Size>, items: seq<Item>): seq<Size> {
    if items == [] then sizes else ApplyItem(ApplyItems(sizes, items[..|items| - 1]), items[|items| - 1])
  }

  predicate CanApply(db: Db, id: nat) {
    id in db.sessions && db.sessions[id].status.Finished?
  }

  function AppliedTo(db: Db, id: nat): Db {
    if !CanApply(db, id) then db
    else db.(sizes := ApplyItems(db.sizes, db.sessions[id].items),
             sessions := db.sessions[id := db.sessions[id].(status := Applied)])
  }

  // ---------------------------------------------------------------- the class

  class StocktakeService {
    var sessions: map<nat, Session>
    var nextId: nat
    var sizes: seq<Size>
    var clock: nat

    constructor (sizes: seq<Size>)
      ensures View() == Db(map[], 0, sizes, 0)
    {
      sessions, nextId, clock := map[], 0, 0;
      this.sizes := sizes;
    }

    function View(): Db
      reads this
    {
      Db(sessions, nextId, sizes, clock)
    }

    method Start() returns (id: nat)
      modifies this
      ensures View() == Started(old(View()))
      ensures if exists i :: IsActive(old(View()), i) then IsActive(old(View()), id) else id == old(nextId)
    {
      var todo := sessions.Keys;
      while todo != {}
        invariant todo <= sessions.Keys && View() == old(View())
        invariant forall i :: i in sessions && i !in todo ==> !IsActive(View(), i)
        decreases todo
      {
        var i :| i in todo;
        if sessions[i].status.InProgress? {
          assert IsActive(View(), i);
          return i;
        }
        todo := todo - {i};
      }
      assert !exists i :: IsActive(View(), i);
      var items: seq<Item> := [];
      for k := 0 to |sizes|
        invariant items == StartItems(sizes[..k]) && View() == old(View())
      {
        assert sizes[..k + 1][..k] == sizes[..k];
        if sizes[k].barcode != "" {
          items := items + [Item(sizes[k].id, sizes[k].stock.quantity, 0, None)];
        }
      }
      assert sizes[..|sizes|] == sizes;
      id := nextId;
      sessions, nextId := sessions[id := Session(InProgress, items)], nextId + 1;
    }

    method Scan(id: nat, barcode: string) returns (ok: bool)
      modifies this
      ensures View() == Scanned(old(View()), id, barcode)
      ensures ok == CanScan(old(View()), id, barcode)
    {
      if barcode == "" {
        return false;
      }
      if id !in sessions || !sessions[id].status.InProgress? {
        return false;
      }
      var found := FindBarcode(sizes, barcode);
      if found.None? {
        return false;
      }
      var z, items := sizes[found.value], sessions[id].items;
      if FindItem(items, z.id).None? {
        items := items + [Item(z.id, z.stock.quantity, 0, None)];
      }
      var i := FindItem(items, z.id);
      if i.Some? {
        items := items[i.value := items[i.value].(scanned := items[i.value].scanned + 1, scannedAt := Some(clock))];
      }
      sessions, clock := sessions[id := sessions[id].(items := items)], clock + 1;
      return true;
    }

    method Undo(id: nat) returns (ok: bool)
      modifies this
      ensures View() == Undone(old(View()), id)
      ensures ok == CanUndo(old(View()), id)
    {
      if id !in sessions || !sessions[id].status.InProgress? {
        return false;
      }
      var items := sessions[id].items;
      var last := LastScanned(items);
      if last.None? {
        return false;
      }
      items := items[last.value := items[last.value].(scanned := items[last.value].scanned - 1)];
      sessions := sessions[id := sessions[id].(items := items)];
      return true;
    }

    method Finish(id: nat)
      modifies this
      ensures View() == Closed(old(View()), id)
    {
      if id in sessions {
        sessions := sessions[id := sessions[id].(status := Finished)];
      }
    }

    method ApplyOne(it: Item) returns (done: bool)
      modifies this`sizes
      ensures sizes == ApplyItem(old(sizes), it)
      ensures done == (it.scanned != it.expected && FindSize(old(sizes), it.sizeId).Some?)
    {
      if it.scanned == it.expected {
        return false;
      }
      var i := FindSize(sizes, it.sizeId);
      if i.None? {
        return false;
      }
      var z := sizes[i.value];
      sizes := sizes[i.value := z.(stock := Adjusted(z.stock, it.scanned - z.stock.quantity, None))];
      return true;
    }

    /** The loop over the items of a finished session. */
    method ApplyEach(items: seq<Item>) returns (updated: nat)
      modifies this`sizes
      ensures sizes == ApplyItems(old(sizes), items)
      ensures updated == |Discrepant(old(sizes), items)|
    {
      updated := 0;
      for k := 0 to |items|
        invariant sizes == ApplyItems(old(sizes), items[..k])
        invariant updated == |Discrepant(old(sizes), items[..k])|
      {
        assert items[..k + 1][..k] == items[..k];
        DiscrepantNext(old(sizes), items, k);
        ApplyKeepsIds(old(sizes), items[..k], items[k].sizeId);
        var done := ApplyOne(items[k]);
        if done {
          updated := updated + 1;
        }
      }
      assert items[..|items|] == items;
    }

    method Apply(id: nat) returns (updated: nat)
      modifies this
      ensures View() == AppliedTo(old(View()), id)
      ensures updated == if CanApply(old(View()), id) then |Discrepant(old(sizes), old(sessions)[id].items)| else 0
    {
      if id !in sessions || !sessions[id].status.Finished? {
        return 0;
      }
      updated := ApplyEach(sessions[id].items);
      sessions := sessions[id := sessions[id].(status := Applied)];
    }
  }

  /** The items whose count differs from the expected one and whose size is still there. */
  ghost function Discrepant(sizes: seq<Size>, items: seq<Item>): set<int> {
    set i | 0 <= i < |items| && items[i].scanned != items[i].expected && HasSize(sizes, items[i].sizeId)
  }

  predicate HasSize(sizes: seq<Size>, id: int) {
    exists k :: 0 <= k < |sizes| && sizes[k].id == id
  }

  lemma DiscrepantNext(sizes: seq<Size>, items: seq<Item>, k: nat)
    requires k < |items|
    ensures |Discrepant(sizes, items[..k + 1])|
            == |Discrepant(sizes, items[..k])|
               + if items[k].scanned != items[k].expected && HasSize(sizes, items[k].sizeId) then 1 else 0
  {
    var before := Discrepant(sizes, items[..k]);
    if items[k].scanned != items[k].expected && HasSize(sizes, items[k].sizeId) {
      assert Discrepant(sizes, items[..k + 1]) == before + {k};
    } else {
      assert Discrepant(sizes, items[..k + 1]) == before;
    }
  }

  lemma {:induction false} ApplyKeepsIds(sizes: seq<Size>, items: seq<Item>, id: int)
    ensures |ApplyItems(sizes, items)| == |sizes|
    ensures forall k :: 0 <= k < |sizes| ==> ApplyItems(sizes, items)[k].id == sizes[k].id
    ensures FindSize(ApplyItems(sizes, items), id).Some? <==> HasSize(sizes, id)
  {
    if items != [] {
      ApplyKeepsIds(sizes, items[..|items| - 1], id);
    }
  }

  // ---------------------------------------------------------------- invariants of the tables

  ghost predicate ItemsOk(items: seq<Item>, clock: nat) {
    && (forall i :: 0 <= i < |items| ==> items[i].scanned >= 0 && (items[i].scannedAt.Some? ==> items[i].scannedAt.value < clock))
    && (forall i, j :: 0 <= i < j < |items| ==> items[i].sizeId != items[j].sizeId)
    && (forall i, j :: 0 <= i < j < |items| && items[i].scannedAt.Some? ==> items[i].scannedAt != items[j].scannedAt)
    && (forall i :: 0 <= i < |items| && items[i].scanned > 0 ==> items[i].scannedAt.Some?)
  }

  ghost predicate SizesOk(sizes: seq<Size>) {
    && (forall i :: 0 <= i < |sizes| ==> Sound(sizes[i].stock))
    && (forall i, j :: 0 <= i < j < |sizes| ==> sizes[i].id != sizes[j].id)
  }

  ghost predicate Inv(db: Db) {
    && (forall id :: id in db.sessions ==> id < db.nextId && ItemsOk(db.sessions[id].items, db.clock))
    && (forall a, b :: IsActive(db, a) && IsActive(db, b) ==> a == b)
    && SizesOk(db.sizes)
  }

  lemma {:induction false} StartItemsOk(sizes: seq<Size>)
    requires forall i, j :: 0 <= i < j < |sizes| ==> sizes[i].id != sizes[j].id
    ensures forall clock :: ItemsOk(StartItems(sizes), clock)
    ensures forall it :: it in StartItems(sizes) ==> it.scanned == 0 && it.scannedAt.None? && exists k :: 0 <= k < |sizes| && sizes[k].id == it.sizeId
  {
    if sizes != [] {
      var init, last := sizes[..|sizes| - 1], sizes[|sizes| - 1];
      assert forall i :: 0 <= i < |init| ==> init[i] == sizes[i];
      StartItemsOk(init);
      var before := StartItems(init);
      assert forall i :: 0 <= i < |before| ==> before[i] in before;
      assert ItemsOk(before, 0);
      assert forall i :: 0 <= i < |before| ==> before[i].sizeId != last.id;
    }
  }

  lemma ScanItemOk(items: seq<Item>, z: Size, clock: nat)
    requires ItemsOk(items, clock)
    ensures ItemsOk(ScanItem(items, z, clock), clock + 1)
  {
    WithItemOk(items, z, clock);
    var known := WithItem(items, z);
    var i := FindItem(known, z.id);
    if i.Some? {
      assert ScanItem(items, z, clock) == known[i.value := known[i.value].(scanned := known[i.value].scanned + 1, scannedAt := Some(clock))];
    }
  }

  lemma WithItemOk(items: seq<Item>, z: Size, clock: nat)
    requires ItemsOk(items, clock)
    ensures ItemsOk(WithItem(items, z), clock)
  {
    if FindItem(items, z.id).None? {
      var more := items + [Item(z.id, z.stock.quantity, 0, None)];
      assert forall i :: 0 <= i < |items| ==> more[i] == items[i] && items[i].sizeId != z.id;
    }
  }

  lemma ScanItemAddsOne(items: seq<Item>, z: Size, clock: nat)
    ensures TotalScanned(ScanItem(items, z, clock)) == TotalScanned(items) + 1
  {
    var f := (it: Item) => it.scanned;
    var known := WithItem(items, z);
    SumSnoc(f, items, Item(z.id, z.stock.quantity, 0, None));
    assert known[|known| - 1].sizeId == z.id || FindItem(items, z.id).Some?;
    var i := FindItem(known, z.id).value;
    SumUpdate(f, known, i, known[i].(scanned := known[i].scanned + 1, scannedAt := Some(clock)));
  }

  function TotalScanned(items: seq<Item>): int {
    Sum((it: Item) => it.scanned, items)
  }

  lemma UndoItemOk(items: seq<Item>, clock: nat)
    requires ItemsOk(items, clock)
    ensures ItemsOk(UndoItem(items), clock)
    ensures TotalScanned(UndoItem(items)) == TotalScanned(items) - if LastScanned(items).Some? then 1 else 0
  {
    if LastScanned(items).Some? {
      var i := LastScanned(items).value;
      SumUpdate((it: Item) => it.scanned, items, i, items[i].(scanned := items[i].scanned - 1));
    }
  }

  // ---------------------------------------------------------------- applying

  /** One item: its size gets the scanned count if that differs from the expected one, every other size stays. */
  lemma ApplyItemSets(sizes: seq<Size>, it: Item, k: nat)
    requires SizesOk(sizes) && k < |sizes| && it.scanned >= 0
    ensures var after := ApplyItem(sizes, it);
            && SizesOk(after) && |after| == |sizes|
            && (forall j :: 0 <= j < |sizes| ==> after[j].id == sizes[j].id && after[j].barcode == sizes[j].barcode)
            && if sizes[k].id == it.sizeId && it.scanned != it.expected then after[k].stock.quantity == it.scanned
               else after[k] == sizes[k]
  {
    var at := FindSize(sizes, it.sizeId);
    if at.Some? {
      AdjustedKeepsSound(sizes[at.value].stock, it.scanned - sizes[at.value].stock.quantity, None);
    }
  }

  /** The last item under a size id is the only one, so the rest of the list leaves that size alone. */
  lemma FindItemNext(items: seq<Item>, sizeId: int)
    requires items != [] && forall i, j :: 0 <= i < j < |items| ==> items[i].sizeId != items[j].sizeId
    ensures var init, last := items[..|items| - 1], items[|items| - 1];
            FindItem(items, sizeId) == if last.sizeId == sizeId then Some(|items| - 1) else FindItem(init, sizeId)
    ensures items[|items| - 1].sizeId == sizeId ==> FindItem(items[..|items| - 1], sizeId).None?
  {
  }

  lemma {:induction false} ApplyItemsSets(sizes: seq<Size>, items: seq<Item>, k: nat)
    requires SizesOk(sizes) && k < |sizes|
    requires forall i :: 0 <= i < |items| ==> items[i].scanned >= 0
    requires forall i, j :: 0 <= i < j < |items| ==> items[i].sizeId != items[j].sizeId
    ensures var after := ApplyItems(sizes, items);
            && SizesOk(after) && |after| == |sizes|
            && after[k].id == sizes[k].id && after[k].barcode == sizes[k].barcode
            && (match FindItem(items, sizes[k].id)
                case Some(i) => if items[i].scanned != items[i].expected then after[k].stock.quantity == items[i].scanned
                                else after[k] == sizes[k]
                case None => after[k] == sizes[k])
  {
    if items != [] {
      var init, it := items[..|items| - 1], items[|items| - 1];
      assert forall i :: 0 <= i < |init| ==> init[i] == items[i];
      ApplyItemsSets(sizes, init, k);
      FindItemNext(items, sizes[k].id);
      ApplyItemSets(ApplyItems(sizes, init), it, k);
    }
  }

  /**
    * Applying a finished stocktake sets the stock of every discrepant item's size to the scanned count, leaves every
    * other size alone, and keeps the valuation sound.
    */
  lemma ApplySetsDiscrepantStock(db: Db, id: nat, k: nat)
    requires Inv(db) && CanApply(db, id) && k < |db.sizes|
    ensures var after := AppliedTo(db, id);
            && SizesOk(after.sizes) && |after.sizes| == |db.sizes| && after.sessions[id].status.Applied?
            && (match FindItem(db.sessions[id].items, db.sizes[k].id)
                case Some(i) =>
                  var it := db.sessions[id].items[i];
                  if it.scanned != it.expected then after.sizes[k].stock.quantity == it.scanned else after.sizes[k] == db.sizes[k]
                case None => after.sizes[k] == db.sizes[k])
  {
    ApplyItemsSets(db.sizes, db.sessions[id].items, k);
  }

  // ---------------------------------------------------------------- whole runs

  datatype Event =
    | Start
    | Scan(id: nat, barcode: string)
    | Undo(id: nat)
    | Finish(id: nat)
    | Apply(id: nat)
    | Trade(k: nat, stock: Stock)   // a sale, delivery or return changes the stock of the k-th size
    | AddSize(z: Size)                   // a new size, under a new id
    | SetBarcode(k: nat, barcode: string)

  /** Barcodes are unique; the empty string is a missing one. */
  predicate FreeBarcode(sizes: seq<Size>, barcode: string) {
    barcode == "" || FindBarcode(sizes, barcode).None?
  }

  function WithSize(db: Db, z: Size): Db {
    if FindSize(db.sizes, z.id).None? && Sound(z.stock) && FreeBarcode(db.sizes, z.barcode) then db.(sizes := db.sizes + [z]) else db
  }

  function Labelled(db: Db, k: nat, barcode: string): Db {
    if k < |db.sizes| && FreeBarcode(db.sizes, barcode) then db.(sizes := db.sizes[k := db.sizes[k].(barcode := barcode)]) else db
  }

  ghost function Step(db: Db, e: Event): Db {
    match e
    case Start => Started(db)
    case Scan(id, barcode) => Scanned(db, id, barcode)
    case Undo(id) => Undone(db, id)
    case Finish(id) => Closed(db, id)
    case Apply(id) => AppliedTo(db, id)
    case Trade(k, stock) => if k < |db.sizes| && Sound(stock) then db.(sizes := db.sizes[k := db.sizes[k].(stock := stock)]) else db
    case AddSize(z) => WithSize(db, z)
    case SetBarcode(k, barcode) => Labelled(db, k, barcode)
  }

  ghost function Run(sizes: seq<Size>, events: seq<Event>): Db {
    if events == [] then Db(map[], 0, sizes, 0) else Step(Run(sizes, events[..|events| - 1]), events[|events| - 1])
  }

  /** Accepted scans less accepted undos of one session. */
  ghost function Balance(sizes: seq<Size>, events: seq<Event>, id: nat): int {
    if events == [] then 0
    else Balance(sizes, events[..|events| - 1], id) + Effect(Run(sizes, events[..|events| - 1]), events[|events| - 1], id)
  }

  lemma ScanKeepsInv(db: Db, id: nat, barcode: string)
    requires Inv(db) && CanScan(db, id, barcode)
    ensures Inv(Scanned(db, id, barcode))
  {
    var after := Scanned(db, id, barcode);
    ScanItemOk(db.sessions[id].items, db.sizes[FindBarcode(db.sizes, barcode).value], db.clock);
    forall other | other in after.sessions
      ensures other < after.nextId && ItemsOk(after.sessions[other].items, after.clock)
    {
      assert ItemsOk(db.sessions[other].items, db.clock);
    }
    assert forall other :: IsActive(after, other) <==> IsActive(db, other);
  }

  lemma UndoKeepsInv(db: Db, id: nat)
    requires Inv(db) && CanUndo(db, id)
    ensures Inv(Undone(db, id))
  {
    UndoItemOk(db.sessions[id].items, db.clock);
    assert forall other :: IsActive(Undone(db, id), other) <==> IsActive(db, other);
  }

  lemma StartKeepsInv(db: Db)
    requires Inv(db)
    ensures Inv(Started(db))
  {
    StartItemsOk(db.sizes);
    assert ItemsOk(StartItems(db.sizes), db.clock);
    if !exists id :: IsActive(db, id) {
      assert forall other :: IsActive(Started(db), other) ==> other == db.nextId || IsActive(db, other);
    }
  }

  lemma ApplyKeepsInv(db: Db, id: nat)
    requires Inv(db) && CanApply(db, id)
    ensures Inv(AppliedTo(db, id))
  {
    var items := db.sessions[id].items;
    assert ItemsOk(items, db.clock);
    if db.sizes == [] {
      ApplyToNoSizes(items);
    } else {
      ApplyItemsSets(db.sizes, items, 0);
    }
    assert forall other :: IsActive(AppliedTo(db, id), other) ==> IsActive(db, other);
  }

  lemma StepKeepsInv(db: Db, e: Event)
    requires Inv(db)
    ensures Inv(Step(db, e))
  {
    match e
    case Start => StartKeepsInv(db);
    case Scan(id, barcode) =>
      if CanScan(db, id, barcode) {
        ScanKeepsInv(db, id, barcode);
      }
    case Undo(id) =>
      if CanUndo(db, id) {
        UndoKeepsInv(db, id);
      }
    case Finish(id) =>
      assert forall other :: IsActive(Closed(db, id), other) ==> IsActive(db, other);
    case Apply(id) =>
      if CanApply(db, id) {
        ApplyKeepsInv(db, id);
      }
    case Trade(k, stock) =>
      assert forall other :: IsActive(Step(db, e), other) <==> IsActive(db, other);
    case AddSize(z) =>
      AddSizeKeepsInv(db, z);
    case SetBarcode(k, barcode) =>
      assert forall other :: IsActive(Step(db, e), other) <==> IsActive(db, other);
  }

  lemma AddSizeKeepsInv(db: Db, z: Size)
    requires Inv(db)
    ensures Inv(WithSize(db, z))
  {
    assert forall other :: IsActive(WithSize(db, z), other) <==> IsActive(db, other);
  }

  lemma LabelIsFound(db: Db, k: nat, barcode: string)
    requires k < |db.sizes| && barcode != "" && FindBarcode(db.sizes, barcode).None?
    ensures Labelled(db, k, barcode).sizes[k] == db.sizes[k].(barcode := barcode)
    ensures FindBarcode(Labelled(db, k, barcode).sizes, barcode) == Some(k)
  {
    assert forall j :: 0 <= j < |db.sizes| && j != k ==> Labelled(db, k, barcode).sizes[j].barcode != barcode;
  }

  lemma FirstScanAdds(items: seq<Item>, z: Size, clock: nat)
    requires ItemsOk(items, clock) && FindItem(items, z.id).None?
    ensures ScanItem(items, z, clock) == items + [Item(z.id, z.stock.quantity, 1, Some(clock))]
    ensures LastScanned(ScanItem(items, z, clock)) == Some(|items|)
  {
    var known := WithItem(items, z);
    assert known[|items|].sizeId == z.id && forall j :: 0 <= j < |items| ==> known[j].sizeId != z.id;
    assert FindItem(known, z.id) == Some(|items|);
    ScanItemOk(items, z, clock);
    LastIs(ScanItem(items, z, clock), clock + 1, |items|);
  }

  /**
    * A size labelled only after a stocktake began is counted by it all the same: its first scan adds an item with the
    * stock it has by then, and that item is the one an undo would take back.
    */
  lemma LateSizeIsCounted(db: Db, id: nat, k: nat, barcode: string)
    requires Inv(db) && IsActive(db, id) && k < |db.sizes|
    requires barcode != "" && FindBarcode(db.sizes, barcode).None? && FindItem(db.sessions[id].items, db.sizes[k].id).None?
    ensures var labelled := Labelled(db, k, barcode);
            var after := Scanned(labelled, id, barcode).sessions[id].items;
            && CanScan(labelled, id, barcode)
            && after == db.sessions[id].items + [Item(db.sizes[k].id, db.sizes[k].stock.quantity, 1, Some(db.clock))]
            && LastScanned(after) == Some(|after| - 1)
  {
    LabelIsFound(db, k, barcode);
    FirstScanAdds(db.sessions[id].items, db.sizes[k].(barcode := barcode), db.clock);
  }

  lemma {:induction false} ApplyToNoSizes(items: seq<Item>)
    ensures ApplyItems([], items) == []
  {
    if items != [] {
      ApplyToNoSizes(items[..|items| - 1]);
    }
  }

  /** Over every run: one stocktake at most is in progress, no count is negative, and every size stays soundly valued. */
  lemma {:induction false} RunKeepsInv(sizes: seq<Size>, events: seq<Event>)
    requires SizesOk(sizes)
    ensures Inv(Run(sizes, events))
  {
    if events != [] {
      RunKeepsInv(sizes, events[..|events| - 1]);
      StepKeepsInv(Run(sizes, events[..|events| - 1]), events[|events| - 1]);
    }
  }

  function TotalOf(db: Db, id: nat): int {
    if id in db.sessions then TotalScanned(db.sessions[id].items) else 0
  }

  /** What one event does to the counts of session `id`, accepted scans and undos only. */
  function Effect(db: Db, e: Event, id: nat): int {
    if e.Scan? && e.id == id && CanScan(db, id, e.barcode) then 1
    else if e.Undo? && e.id == id && CanUndo(db, id) then -1 else 0
  }

  lemma StepTotals(db: Db, e: Event, id: nat)
    requires Inv(db)
    ensures TotalOf(Step(db, e), id) == TotalOf(db, id) + Effect(db, e, id)
  {
    match e
    case Start =>
      StartItemsOk(db.sizes);
      SumOfZeros((it: Item) => it.scanned, StartItems(db.sizes));
    case Scan(other, barcode) =>
      if CanScan(db, other, barcode) {
        ScanItemAddsOne(db.sessions[other].items, db.sizes[FindBarcode(db.sizes, barcode).value], db.clock);
      }
    case Undo(other) =>
      if CanUndo(db, other) {
        UndoItemOk(db.sessions[other].items, db.clock);
      }
    case Finish(_) =>
    case Apply(_) =>
    case Trade(_, _) =>
    case AddSize(_) =>
    case SetBarcode(_, _) =>
  }

  /** Over every run, the counts of a session add up to its accepted scans less its accepted undos. */
  lemma {:induction false} CountsAreScansLessUndos(sizes: seq<Size>, events: seq<Event>, id: nat)
    requires SizesOk(sizes)
    ensures TotalOf(Run(sizes, events), id) == Balance(sizes, events, id)
  {
    if events != [] {
      var init := events[..|events| - 1];
      CountsAreScansLessUndos(sizes, init, id);
      RunKeepsInv(sizes, init);
      StepTotals(Run(sizes, init), events[|events| - 1], id);
    }
  }

  // ---------------------------------------------------------------- undo

  /** The count of a size in a session; a size without an item counts zero. */
  function CountOf(items: seq<Item>, sizeId: int): int {
    match FindItem(items, sizeId)
    case None => 0
    case Some(i) => items[i].scanned
  }

  lemma CountAt(items: seq<Item>, clock: nat, i: nat)
    requires ItemsOk(items, clock) && i < |items|
    ensures FindItem(items, items[i].sizeId) == Some(i) && CountOf(items, items[i].sizeId) == items[i].scanned
  {
  }

  /** A scan counts one up at its item's place, stamps it, and leaves every other item as it was. */
  lemma ScanShape(items: seq<Item>, z: Size, clock: nat) returns (i: nat)
    requires ItemsOk(items, clock)
    ensures var after := ScanItem(items, z, clock);
            && i < |after| && after[i].sizeId == z.id && after[i].scannedAt == Some(clock)
            && after[i].scanned == CountOf(items, z.id) + 1
            && |after| == (if i < |items| then |items| else |items| + 1) && i <= |items|
            && (forall j :: 0 <= j < |items| && j != i ==> after[j] == items[j] && items[j].sizeId != z.id)
            && (i < |items| ==> items[i].sizeId == z.id)
  {
    var known := WithItem(items, z);
    assert known[|known| - 1].sizeId == z.id || FindItem(items, z.id).Some?;
    i := FindItem(known, z.id).value;
    if FindItem(items, z.id).Some? {
      CountAt(items, clock, i);
    }
  }

  /** A scan raises the count of its size, and no other. */
  lemma ScanCounts(items: seq<Item>, z: Size, clock: nat, sizeId: int)
    requires ItemsOk(items, clock)
    ensures CountOf(ScanItem(items, z, clock), sizeId) == CountOf(items, sizeId) + if sizeId == z.id then 1 else 0
  {
    var after := ScanItem(items, z, clock);
    var i := ScanShape(items, z, clock);
    ScanItemOk(items, z, clock);
    CountAt(after, clock + 1, i);
    if sizeId != z.id {
      if FindItem(items, sizeId).Some? {
        var j := FindItem(items, sizeId).value;
        assert after[j] == items[j];
        CountAt(after, clock + 1, j);
      } else {
        assert forall j :: 0 <= j < |after| ==> after[j].sizeId != sizeId;
      }
    }
  }

  /** The item just scanned is the one scanned last. */
  lemma ScannedIsLast(items: seq<Item>, z: Size, clock: nat)
    requires ItemsOk(items, clock)
    ensures var after := ScanItem(items, z, clock);
            LastScanned(after).Some? && after[LastScanned(after).value].sizeId == z.id
  {
    var after := ScanItem(items, z, clock);
    var i := ScanShape(items, z, clock);
    ScanItemOk(items, z, clock);
    if FindItem(items, z.id).Some? {
      CountAt(items, clock, FindItem(items, z.id).value);
    }
    assert Undoable(after[i]);
    assert after[LastScanned(after).value].scannedAt == Some(clock);
  }

  /** An undo lowers the count of the item scanned last, and no other. */
  lemma UndoCounts(items: seq<Item>, clock: nat, sizeId: int)
    requires ItemsOk(items, clock) && LastScanned(items).Some?
    ensures CountOf(UndoItem(items), sizeId)
            == CountOf(items, sizeId) - if sizeId == items[LastScanned(items).value].sizeId then 1 else 0
  {
    UndoItemOk(items, clock);
    var after := UndoItem(items);
    if FindItem(items, sizeId).Some? {
      var j := FindItem(items, sizeId).value;
      assert after[j].sizeId == sizeId;
      CountAt(items, clock, j);
      CountAt(after, clock, j);
    }
  }

  lemma ScanUndoCounts(items: seq<Item>, z: Size, clock: nat, sizeId: int)
    requires ItemsOk(items, clock)
    ensures CountOf(UndoItem(ScanItem(items, z, clock)), sizeId) == CountOf(items, sizeId)
  {
    ScanItemOk(items, z, clock);
    ScanCounts(items, z, clock, sizeId);
    ScannedIsLast(items, z, clock);
    UndoCounts(ScanItem(items, z, clock), clock + 1, sizeId);
  }

  /** A scan followed directly by an undo restores every count. */
  lemma ScanThenUndoRestores(db: Db, id: nat, barcode: string, sizeId: int)
    requires Inv(db) && CanScan(db, id, barcode)
    ensures var after := Undone(Scanned(db, id, barcode), id);
            CountOf(after.sessions[id].items, sizeId) == CountOf(db.sessions[id].items, sizeId)
  {
    var items, z := db.sessions[id].items, db.sizes[FindBarcode(db.sizes, barcode).value];
    ScannedIsLast(items, z, db.clock);
    ScanUndoCounts(items, z, db.clock, sizeId);
  }

  /** Scans of `x` and `y`, then one undo. */
  function TwoScansOneUndo(items: seq<Item>, x: Size, y: Size, clock: nat): seq<Item> {
    UndoItem(ScanItem(ScanItem(items, x, clock), y, clock + 1))
  }

  /**
    * A scan of `y` directly undone does not quite leave no trace: if anything of `y` was counted before, `y` now is the
    * item scanned last; only if not, it is again the item that was.
    */
  lemma LastAfterUndo(items: seq<Item>, y: Size, clock: nat)
    requires ItemsOk(items, clock) && LastScanned(items).Some?
    ensures var after := UndoItem(ScanItem(items, y, clock));
            && ItemsOk(after, clock + 1) && LastScanned(after).Some?
            && after[LastScanned(after).value].sizeId
               == if CountOf(items, y.id) == 0 then items[LastScanned(items).value].sizeId else y.id
  {
    var after, last := UndoItem(ScanItem(items, y, clock)), LastScanned(items).value;
    var j := OneUndoShape(items, y, clock);
    CountIsNatural(items, clock, y.id);
    if CountOf(items, y.id) == 0 {
      CountAt(items, clock, last);
      assert after[last] == items[last];
      LastIs(after, clock + 1, last);
    } else {
      LastIs(after, clock + 1, j);
    }
  }

  lemma CountIsNatural(items: seq<Item>, clock: nat, sizeId: int)
    requires ItemsOk(items, clock)
    ensures CountOf(items, sizeId) >= 0
  {
  }

  lemma LastIs(items: seq<Item>, clock: nat, k: nat)
    requires ItemsOk(items, clock) && k < |items| && Undoable(items[k])
    requires forall m :: 0 <= m < |items| && m != k && Undoable(items[m]) ==> items[m].scannedAt.value <= items[k].scannedAt.value
    ensures LastScanned(items) == Some(k)
  {
    var last := LastScanned(items).value;
    assert items[last].scannedAt == items[k].scannedAt;
  }

  /** A scan directly undone leaves its item stamped, at the count it had, and the other items untouched. */
  lemma OneUndoShape(items: seq<Item>, z: Size, clock: nat) returns (j: nat)
    requires ItemsOk(items, clock)
    ensures var after := UndoItem(ScanItem(items, z, clock));
            && ItemsOk(after, clock + 1)
            && j < |after| && after[j].sizeId == z.id && after[j].scannedAt == Some(clock) && after[j].scanned == CountOf(items, z.id)
            && |after| == (if j < |items| then |items| else |items| + 1) && j <= |items|
            && (forall k :: 0 <= k < |items| && k != j ==> after[k] == items[k] && items[k].sizeId != z.id)
  {
    j := ScanShape(items, z, clock);
    var scanned := ScanItem(items, z, clock);
    ScanItemOk(items, z, clock);
    LastIsScanned(items, z, clock, j);
    UndoItemOk(scanned, clock + 1);
    assert UndoItem(scanned) == scanned[j := scanned[j].(scanned := scanned[j].scanned - 1)];
  }

  lemma LastIsScanned(items: seq<Item>, z: Size, clock: nat, j: nat)
    requires ItemsOk(items, clock) && j < |ScanItem(items, z, clock)| && ScanItem(items, z, clock)[j].sizeId == z.id
    ensures LastScanned(ScanItem(items, z, clock)) == Some(j)
  {
    ScanItemOk(items, z, clock);
    ScannedIsLast(items, z, clock);
  }

  /**
    * Two undos do not always take back the last two scans: an undo leaves the item's scan time in place. After scans
    * of `x` and then `y`, two undos restore every count exactly when both scans were of one size, or `y` had a zero count.
    */
  lemma TwoUndosRestoreIff(items: seq<Item>, x: Size, y: Size, clock: nat)
    requires ItemsOk(items, clock)
    ensures (forall id :: CountOf(UndoItem(TwoScansOneUndo(items, x, y, clock)), id) == CountOf(items, id))
            <==> x.id == y.id || CountOf(items, y.id) == 0
  {
    if x.id == y.id || CountOf(items, y.id) == 0 {
      forall id
        ensures CountOf(UndoItem(TwoScansOneUndo(items, x, y, clock)), id) == CountOf(items, id)
      {
        TwoUndosCount(items, x, y, clock, id);
      }
    } else {
      TwoUndosCount(items, x, y, clock, x.id);
      assert CountOf(UndoItem(TwoScansOneUndo(items, x, y, clock)), x.id) != CountOf(items, x.id);
    }
  }

  /** How far off a count is after two scans and two undos. */
  function TwoUndosOff(items: seq<Item>, x: Size, y: Size, id: int): int {
    var taken := if CountOf(items, y.id) == 0 then x.id else y.id;
    (if id == x.id then 1 else 0) - (if id == taken then 1 else 0)
  }

  lemma TwoUndosCount(items: seq<Item>, x: Size, y: Size, clock: nat, id: int)
    requires ItemsOk(items, clock)
    ensures CountOf(UndoItem(TwoScansOneUndo(items, x, y, clock)), id) == CountOf(items, id) + TwoUndosOff(items, x, y, id)
  {
    var one := ScanItem(items, x, clock);
    ScanItemOk(items, x, clock);
    ScannedIsLast(items, x, clock);
    ScanCounts(items, x, clock, y.id);
    ScanCounts(items, x, clock, id);
    CountIsNatural(items, clock, y.id);
    LastAfterUndo(one, y, clock + 1);
    ScanUndoCounts(one, y, clock + 1, id);
    UndoCounts(TwoScansOneUndo(items, x, y, clock), clock + 2, id);
  }

  /** An applied stocktake cannot be applied again, except after exactly one event: finishing it once more. */
  lemma AppliedReopensIff(db: Db, id: nat, e: Event)
    requires Inv(db) && id in db.sessions && db.sessions[id].status.Applied?
    ensures !CanApply(db, id) && (CanApply(Step(db, e), id) <==> e == Finish(id))
  {
    assert !IsActive(db, id);
  }

  /** Finishing an applied stocktake opens it again: its counts can be written over whatever the stock has become. */
  lemma AppliedCanBeAppliedAgain(db: Db, id: nat, k: nat)
    requires Inv(db) && id in db.sessions && db.sessions[id].status.Applied? && k < |db.sizes|
    ensures !CanApply(db, id) && CanApply(Closed(db, id), id)
    ensures var items, again := db.sessions[id].items, AppliedTo(Closed(db, id), id);
            var at := FindItem(items, db.sizes[k].id);
            |again.sizes| == |db.sizes| &&
            (at.Some? && items[at.value].scanned != items[at.value].expected ==>
              again.sizes[k].stock.quantity == items[at.value].scanned)
  {
    assert ItemsOk(db.sessions[id].items, db.clock);
    ApplyItemsSets(db.sizes, db.sessions[id].items, k);
  }

  // ---------------------------------------------------------------- from start to application

  /** The one item of the session for this size, as a stocktake begins: the stock is expected, nothing is counted. */
  ghost predicate BeginsWith(items: seq<Item>, z: Size) {
    exists i :: 0 <= i < |items| && items[i] == Item(z.id, z.stock.quantity, 0, None)
                && forall j :: 0 <= j < |items| && j != i ==> items[j].sizeId != z.id
  }

  lemma {:induction false} StartItemsList(sizes: seq<Size>)
    requires forall i, j :: 0 <= i < j < |sizes| ==> sizes[i].id != sizes[j].id
    ensures forall k :: 0 <= k < |sizes| && sizes[k].barcode != "" ==> BeginsWith(StartItems(sizes), sizes[k])
    ensures forall it :: it in StartItems(sizes) ==> exists k :: 0 <= k < |sizes| && sizes[k].id == it.sizeId && sizes[k].barcode != ""
  {
    if sizes != [] {
      var init, last := sizes[..|sizes| - 1], sizes[|sizes| - 1];
      assert forall i :: 0 <= i < |init| ==> init[i] == sizes[i];
      StartItemsList(init);
      var before, after := StartItems(init), StartItems(sizes);
      assert forall i :: 0 <= i < |before| ==> before[i] in before;
      forall k | 0 <= k < |sizes| && sizes[k].barcode != ""
        ensures BeginsWith(after, sizes[k])
      {
        if k < |init| {
          BeginsStill(before, after, sizes[k], last);
        } else {
          assert after[|before|] == Item(last.id, last.stock.quantity, 0, None);
        }
      }
    }
  }

  lemma BeginsStill(before: seq<Item>, after: seq<Item>, z: Size, last: Size)
    requires BeginsWith(before, z) && z.id != last.id
    requires after == before || after == before + [Item(last.id, last.stock.quantity, 0, None)]
    ensures BeginsWith(after, z)
  {
    var i :| 0 <= i < |before| && before[i] == Item(z.id, z.stock.quantity, 0, None)
             && forall j :: 0 <= j < |before| && j != i ==> before[j].sizeId != z.id;
    assert after[i] == before[i];
  }

  /**
    * With no session active, a start opens one, in progress, with exactly one item for each size that has a barcode
    * (its stock expected, count zero, no stamp) and none for any other; with one active it changes nothing.
    */
  lemma StartLists(db: Db)
    requires Inv(db)
    ensures (exists id :: IsActive(db, id)) ==> Started(db) == db
    ensures !(exists id :: IsActive(db, id)) ==>
              var after := Started(db);
              && after == db.(sessions := after.sessions, nextId := db.nextId + 1)
              && db.nextId !in db.sessions && after.sessions.Keys == db.sessions.Keys + {db.nextId}
              && (forall id :: id in db.sessions ==> after.sessions[id] == db.sessions[id])
              && after.sessions[db.nextId].status.InProgress?
              && (forall k :: 0 <= k < |db.sizes| && db.sizes[k].barcode != "" ==> BeginsWith(after.sessions[db.nextId].items, db.sizes[k]))
              && (forall it :: it in after.sessions[db.nextId].items ==>
                    exists k :: 0 <= k < |db.sizes| && db.sizes[k].id == it.sizeId && db.sizes[k].barcode != "")
  {
    StartItemsList(db.sizes);
  }

  ghost function RunFrom(db: Db, events: seq<Event>): Db {
    if events == [] then db else Step(RunFrom(db, events[..|events| - 1]), events[|events| - 1])
  }

  /** What one scan or undo does to the count of one size in one session. */
  ghost function SizeEffect(db: Db, e: Event, id: nat, sizeId: int): int {
    if e.Scan? && e.id == id && CanScan(db, id, e.barcode) && db.sizes[FindBarcode(db.sizes, e.barcode).value].id == sizeId then 1
    else if e.Undo? && e.id == id && CanUndo(db, id)
            && db.sessions[id].items[LastScanned(db.sessions[id].items).value].sizeId == sizeId then -1
    else 0
  }

  /** Accepted scans of the size less undos that took it back. */
  ghost function SizeBalance(db: Db, events: seq<Event>, id: nat, sizeId: int): int {
    if events == [] then 0
    else SizeBalance(db, events[..|events| - 1], id, sizeId) + SizeEffect(RunFrom(db, events[..|events| - 1]), events[|events| - 1], id, sizeId)
  }

  /** What the session expects of a size it lists. */
  ghost predicate Expects(db: Db, id: nat, sizeId: int, expected: int) {
    && id in db.sessions && FindItem(db.sessions[id].items, sizeId).Some?
    && db.sessions[id].items[FindItem(db.sessions[id].items, sizeId).value].expected == expected
  }

  lemma ScanKeepsExpected(items: seq<Item>, z: Size, clock: nat, sizeId: int)
    requires ItemsOk(items, clock) && FindItem(items, sizeId).Some?
    ensures FindItem(ScanItem(items, z, clock), sizeId) == FindItem(items, sizeId)
    ensures var k := FindItem(items, sizeId).value;
            k < |ScanItem(items, z, clock)| && ScanItem(items, z, clock)[k].expected == items[k].expected
  {
    var i := ScanShape(items, z, clock);
    var k := FindItem(items, sizeId).value;
    var after := ScanItem(items, z, clock);
    ScanItemOk(items, z, clock);
    var known := WithItem(items, z);
    assert after[k].sizeId == items[k].sizeId && after[k].expected == known[k].expected == items[k].expected;
    CountAt(after, clock + 1, k);
  }

  lemma UndoKeepsExpected(items: seq<Item>, clock: nat, sizeId: int)
    requires ItemsOk(items, clock) && FindItem(items, sizeId).Some?
    ensures FindItem(UndoItem(items), sizeId) == FindItem(items, sizeId)
    ensures var k := FindItem(items, sizeId).value; UndoItem(items)[k].expected == items[k].expected
  {
    UndoItemOk(items, clock);
    CountAt(UndoItem(items), clock, FindItem(items, sizeId).value);
  }

  /** One scan or undo: the stock stays, the session stays in progress, expectations stay, counts move by the effect. */
  lemma CountingStep(db: Db, e: Event, id: nat, sizeId: int, expected: int)
    requires Inv(db) && IsActive(db, id) && (e.Scan? || e.Undo?) && Expects(db, id, sizeId, expected)
    ensures var after := Step(db, e);
            && IsActive(after, id) && after.sizes == db.sizes && Expects(after, id, sizeId, expected)
            && CountOf(after.sessions[id].items, sizeId) == CountOf(db.sessions[id].items, sizeId) + SizeEffect(db, e, id, sizeId)
  {
    var items := db.sessions[id].items;
    assert ItemsOk(items, db.clock);
    if e.Scan? && e.id == id && CanScan(db, id, e.barcode) {
      var z := db.sizes[FindBarcode(db.sizes, e.barcode).value];
      ScanCounts(items, z, db.clock, sizeId);
      ScanKeepsExpected(items, z, db.clock, sizeId);
    } else if e.Undo? && e.id == id && CanUndo(db, id) {
      UndoCounts(items, db.clock, sizeId);
      UndoKeepsExpected(items, db.clock, sizeId);
    }
  }

  lemma {:induction false} CountingRun(db: Db, events: seq<Event>, id: nat, sizeId: int, expected: int)
    requires Inv(db) && IsActive(db, id) && Expects(db, id, sizeId, expected)
    requires forall e :: e in events ==> e.Scan? || e.Undo?
    ensures var after := RunFrom(db, events);
            && Inv(after) && IsActive(after, id) && after.sizes == db.sizes && Expects(after, id, sizeId, expected)
            && CountOf(after.sessions[id].items, sizeId) == CountOf(db.sessions[id].items, sizeId) + SizeBalance(db, events, id, sizeId)
  {
    if events != [] {
      var init, e := events[..|events| - 1], events[|events| - 1];
      assert e in events && forall x :: x in init ==> x in events;
      CountingRun(db, init, id, sizeId, expected);
      CountingStep(RunFrom(db, init), e, id, sizeId, expected);
      StepKeepsInv(RunFrom(db, init), e);
    }
  }

  lemma BegunExpects(db: Db, k: nat)
    requires Inv(db) && !(exists id :: IsActive(db, id)) && k < |db.sizes| && db.sizes[k].barcode != ""
    ensures var begun := Started(db);
            && IsActive(begun, db.nextId) && Expects(begun, db.nextId, db.sizes[k].id, db.sizes[k].stock.quantity)
            && CountOf(begun.sessions[db.nextId].items, db.sizes[k].id) == 0
  {
    StartLists(db);
    StartKeepsInv(db);
    var z, begun := db.sizes[k], Started(db);
    var items := begun.sessions[db.nextId].items;
    assert BeginsWith(items, z) && ItemsOk(items, begun.clock);
    var i :| 0 <= i < |items| && items[i] == Item(z.id, z.stock.quantity, 0, None);
    CountAt(items, begun.clock, i);
  }

  /** Finishing and applying give an expected size its count, whether or not it differs. */
  lemma FinishedAndApplied(db: Db, id: nat, k: nat)
    requires Inv(db) && IsActive(db, id) && k < |db.sizes| && Expects(db, id, db.sizes[k].id, db.sizes[k].stock.quantity)
    ensures var after := AppliedTo(Closed(db, id), id);
            |after.sizes| == |db.sizes| && after.sizes[k].stock.quantity == CountOf(db.sessions[id].items, db.sizes[k].id)
  {
    StepKeepsInv(db, Finish(id));
    ApplySetsDiscrepantStock(Closed(db, id), id, k);
  }

  lemma UnlabelledStep(db: Db, e: Event, id: nat, k: nat)
    requires Inv(db) && IsActive(db, id) && (e.Scan? || e.Undo?)
    requires k < |db.sizes| && db.sizes[k].barcode == "" && FindItem(db.sessions[id].items, db.sizes[k].id).None?
    ensures var after := Step(db, e);
            IsActive(after, id) && after.sizes == db.sizes && FindItem(after.sessions[id].items, db.sizes[k].id).None?
  {
    var items := db.sessions[id].items;
    assert ItemsOk(items, db.clock);
    if e.Scan? && e.id == id && CanScan(db, id, e.barcode) {
      var z := db.sizes[FindBarcode(db.sizes, e.barcode).value];
      var i := ScanShape(items, z, db.clock);
      assert z.id != db.sizes[k].id;
      assert forall j :: 0 <= j < |ScanItem(items, z, db.clock)| ==> ScanItem(items, z, db.clock)[j].sizeId != db.sizes[k].id;
    }
  }

  lemma {:induction false} UnlabelledRun(db: Db, events: seq<Event>, id: nat, k: nat)
    requires Inv(db) && IsActive(db, id) && forall e :: e in events ==> e.Scan? || e.Undo?
    requires k < |db.sizes| && db.sizes[k].barcode == "" && FindItem(db.sessions[id].items, db.sizes[k].id).None?
    ensures var after := RunFrom(db, events);
            && Inv(after) && IsActive(after, id) && after.sizes == db.sizes
            && FindItem(after.sessions[id].items, db.sizes[k].id).None?
  {
    if events != [] {
      var init, e := events[..|events| - 1], events[|events| - 1];
      assert e in events && forall x :: x in init ==> x in events;
      UnlabelledRun(db, init, id, k);
      UnlabelledStep(RunFrom(db, init), e, id, k);
      StepKeepsInv(RunFrom(db, init), e);
    }
  }

  /**
    * A whole stocktake: start, any scans and undos, finish, apply, and nothing else between. Every size with a barcode
    * then has as stock exactly its accepted scans less the undos that took it back; every other size is as it was.
    */
  lemma StocktakeSetsCounts(db: Db, counting: seq<Event>, k: nat)
    requires Inv(db) && !(exists id :: IsActive(db, id)) && k < |db.sizes|
    requires forall e :: e in counting ==> e.Scan? || e.Undo?
    ensures var after := Stocktaken(db, counting);
            && |after.sizes| == |db.sizes|
            && if db.sizes[k].barcode != "" then after.sizes[k].stock.quantity == SizeBalance(Step(db, Start), counting, db.nextId, db.sizes[k].id)
               else after.sizes[k] == db.sizes[k]
  {
    BegunCounted(db, counting);
    var counted := RunFrom(Step(db, Start), counting);
    if db.sizes[k].barcode != "" {
      LabelledCounted(db, counting, k);
      FinishedAndApplied(counted, db.nextId, k);
    } else {
      NotListed(db, k);
      UnlabelledRun(Step(db, Start), counting, db.nextId, k);
      UnlabelledApplied(counted, db.nextId, k);
    }
  }

  /** The tables after start, these events, finish and apply. */
  ghost function Stocktaken(db: Db, counting: seq<Event>): Db {
    Step(Step(RunFrom(Step(db, Start), counting), Finish(db.nextId)), Apply(db.nextId))
  }

  lemma BegunCounted(db: Db, counting: seq<Event>)
    requires Inv(db) && !(exists id :: IsActive(db, id))
    ensures Step(db, Start).sizes == db.sizes && Inv(Step(db, Start)) && IsActive(Step(db, Start), db.nextId)
    ensures Stocktaken(db, counting) == AppliedTo(Closed(RunFrom(Step(db, Start), counting), db.nextId), db.nextId)
  {
    StartKeepsInv(db);
    assert Step(db, Start) == Started(db);
  }

  lemma LabelledCounted(db: Db, counting: seq<Event>, k: nat)
    requires Inv(db) && !(exists id :: IsActive(db, id)) && k < |db.sizes| && db.sizes[k].barcode != ""
    requires forall e :: e in counting ==> e.Scan? || e.Undo?
    ensures var id, z, counted := db.nextId, db.sizes[k], RunFrom(Step(db, Start), counting);
            && Inv(counted) && IsActive(counted, id) && counted.sizes == db.sizes && Expects(counted, id, z.id, z.stock.quantity)
            && CountOf(counted.sessions[id].items, z.id) == SizeBalance(Step(db, Start), counting, id, z.id)
  {
    BegunCounted(db, counting);
    BegunExpects(db, k);
    CountingRun(Step(db, Start), counting, db.nextId, db.sizes[k].id, db.sizes[k].stock.quantity);
  }

  lemma NotListed(db: Db, k: nat)
    requires Inv(db) && !(exists id :: IsActive(db, id)) && k < |db.sizes| && db.sizes[k].barcode == ""
    ensures IsActive(Started(db), db.nextId) && FindItem(Started(db).sessions[db.nextId].items, db.sizes[k].id).None?
  {
    StartLists(db);
    var items := Started(db).sessions[db.nextId].items;
    assert forall i :: 0 <= i < |items| ==> items[i] in items;
  }

  lemma UnlabelledApplied(db: Db, id: nat, k: nat)
    requires Inv(db) && IsActive(db, id) && k < |db.sizes| && FindItem(db.sessions[id].items, db.sizes[k].id).None?
    ensures var after := AppliedTo(Closed(db, id), id); |after.sizes| == |db.sizes| && after.sizes[k] == db.sizes[k]
  {
    StepKeepsInv(db, Finish(id));
    ApplySetsDiscrepantStock(Closed(db, id), id, k);
  }

  // ---------------------------------------------------------------- what is accepted

  /** A scan is accepted exactly with a barcode, in a session in progress, for a size that bears the barcode; else nothing changes. */
  lemma ScanAcceptedIff(db: Db, id: nat, barcode: string)
    requires Inv(db)
    ensures Scanned(db, id, barcode) != db
            <==> barcode != "" && id in db.sessions && db.sessions[id].status == InProgress
                 && exists k :: 0 <= k < |db.sizes| && db.sizes[k].barcode == barcode
  {
    if CanScan(db, id, barcode) {
      assert Scanned(db, id, barcode).clock != db.clock;
    }
  }

  /** An undo is accepted exactly in a session in progress with something counted; else nothing changes. */
  lemma UndoAcceptedIff(db: Db, id: nat)
    requires Inv(db)
    ensures Undone(db, id) != db
            <==> id in db.sessions && db.sessions[id].status == InProgress
                 && exists i :: 0 <= i < |db.sessions[id].items| && db.sessions[id].items[i].scanned > 0
  {
    if id in db.sessions {
      var items := db.sessions[id].items;
      assert ItemsOk(items, db.clock);
      if CanUndo(db, id) {
        var last := LastScanned(items).value;
        assert Undone(db, id).sessions[id].items[last].scanned == items[last].scanned - 1;
      } else if i :| 0 <= i < |items| && items[i].scanned > 0 {
        assert Undoable(items[i]);
      }
    }
  }
}
