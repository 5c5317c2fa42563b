/**
  * Import of invoice rows: each row becomes a batch of the delivery journal unless an equal batch is there already,
  * and only a new batch raises the stock.
  */
module InvoiceImport {
  import opened Options
  import opened Sums
  import opened StockValue

  datatype Key = Key(productId: int, size: string)

  /** A row of the invoice: skipped for an invalid EAN, or resolved to a product and a size. Prices are grosze. */
  datatype Row = Skipped | Purchase(key: Key, quantity: int, price: int)

  datatype Delivery = Delivery(date: string, invoice: Option<string>)

  /** A journal entry, as far as the duplicate check compares it. */
  datatype Batch = Batch(key: Key, quantity: int, price: int, delivery: Delivery)

  datatype Books = Books(sizes: map<Key, Stock>, journal: seq<Batch>)

  function BatchOf(row: Row, d: Delivery): Batch
    requires row.Purchase?
  {
    Batch(row.key, row.quantity, row.price, d)
  }

  function StockOf(b: Books, key: Key): Stock {
    if key in b.sizes then b.sizes[key] else Stock(0, 0)
  }

  function ImportRow(b: Books, row: Row, d: Delivery): Books {
    if row.Skipped? then b else
    var stock := StockOf(b, row.key);
    if BatchOf(row, d) in b.journal then b.(sizes := b.sizes[row.key := stock])
    else Books(b.sizes[row.key := Received(stock, row.quantity, row.price)], b.journal + [BatchOf(row, d)])
  }

  function ImportAll(b: Books, rows: seq<Row>, d: Delivery): Books {
    if rows == [] then b else ImportRow(ImportAll(b, rows[..|rows| - 1], d), rows[|rows| - 1], d)
  }

  class Warehouse {
    var sizes: map<Key, Stock>
    var journal: seq<Batch>

    constructor ()
      ensures View() == Books(map[], [])
    {
      sizes, journal := map[], [];
    }

    function View(): Books
      reads this
    {
      Books(sizes, journal)
    }

    /** `_import_invoice_df`. */
    method Import(rows: seq<Row>, d: Delivery)
      modifies this
      ensures View() == ImportAll(old(View()), rows, d)
    {
      for i := 0 to |rows|
        invariant View() == ImportAll(old(View()), rows[..i], d)
      {
        assert rows[..i + 1][..i] == rows[..i];
        var row := rows[i];
        if row.Purchase? {
          if row.key !in sizes {
            sizes := sizes[row.key := Stock(0, 0)];
          }
          var batch := BatchOf(row, d);
          if batch !in journal {
            journal := journal + [batch];
            var ps := sizes[row.key];
            sizes := sizes[row.key := Stock(ps.quantity + row.quantity, ps.value + row.quantity * row.price)];
          }
        }
      }
      assert rows[..|rows|] == rows;
    }
  }

  // ---------------------------------------------------------------- the journal is a set union

  function Batches(rows: seq<Row>, d: Delivery): set<Batch> {
    set row | row in rows && row.Purchase? :: BatchOf(row, d)
  }

  function SetOf(journal: seq<Batch>): set<Batch> {
    set b | b in journal
  }

  predicate Distinct(xs: seq<Batch>) {
    forall i, j :: 0 <= i < j < |xs| ==> xs[i] != xs[j]
  }

  /** The batches a run of the import adds: the journal grows at its end. */
  function Added(b: Books, rows: seq<Row>, d: Delivery): (added: seq<Batch>)
    ensures ImportAll(b, rows, d).journal == b.journal + added
  {
    if rows == [] then [] else
    var init, row := rows[..|rows| - 1], rows[|rows| - 1];
    var before := Added(b, init, d);
    if row.Purchase? && BatchOf(row, d) !in ImportAll(b, init, d).journal then before + [BatchOf(row, d)] else before
  }

  lemma BatchesNext(rows: seq<Row>, row: Row, d: Delivery)
    ensures Batches(rows + [row], d) == Batches(rows, d) + (if row.Purchase? then {BatchOf(row, d)} else {})
  {
    assert forall r :: r in rows + [row] <==> r in rows || r == row;
  }

  lemma SetOfNext(journal: seq<Batch>, x: Batch)
    ensures SetOf(journal + [x]) == SetOf(journal) + {x}
  {
  }

  /** The journal afterwards is the old journal together with the set of the rows. */
  lemma {:induction false} ImportIsUnion(b: Books, rows: seq<Row>, d: Delivery)
    ensures SetOf(ImportAll(b, rows, d).journal) == SetOf(b.journal) + Batches(rows, d)
    ensures ImportAll(b, rows, d).sizes.Keys == b.sizes.Keys + set x | x in Batches(rows, d) :: x.key
  {
    if rows != [] {
      var init, row := rows[..|rows| - 1], rows[|rows| - 1];
      ImportIsUnion(b, init, d);
      assert rows == init + [row];
      BatchesNext(init, row, d);
      if row.Purchase? {
        SetOfNext(ImportAll(b, init, d).journal, BatchOf(row, d));
      }
    }
  }

  /** Every batch added is new, and is added once, however often its row is repeated. */
  lemma {:induction false} AddedAreNew(b: Books, rows: seq<Row>, d: Delivery)
    ensures Distinct(Added(b, rows, d)) && SetOf(Added(b, rows, d)) == Batches(rows, d) - SetOf(b.journal)
  {
    if rows != [] {
      var init, row := rows[..|rows| - 1], rows[|rows| - 1];
      AddedAreNew(b, init, d);
      ImportIsUnion(b, init, d);
      assert rows == init + [row];
      BatchesNext(init, row, d);
      if row.Purchase? {
        var x := BatchOf(row, d);
        SetOfNext(Added(b, init, d), x);
        assert x in ImportAll(b, init, d).journal <==> x in SetOf(ImportAll(b, init, d).journal);
        assert x in Added(b, init, d) ==> x in SetOf(Added(b, init, d));
      }
    }
  }

  // ---------------------------------------------------------------- stock moves with the journal

  function Pieces(key: Key, x: Batch): int {
    if x.key == key then x.quantity else 0
  }

  function Cost(key: Key, x: Batch): int {
    if x.key == key then x.quantity * x.price else 0
  }

  function JournalPieces(journal: seq<Batch>, key: Key): int {
    Sum(x => Pieces(key, x), journal)
  }

  function JournalCost(journal: seq<Batch>, key: Key): int {
    Sum(x => Cost(key, x), journal)
  }

  lemma JournalNext(journal: seq<Batch>, x: Batch, key: Key)
    ensures JournalPieces(journal + [x], key) == JournalPieces(journal, key) + Pieces(key, x)
    ensures JournalCost(journal + [x], key) == JournalCost(journal, key) + Cost(key, x)
  {
    SumSnoc(y => Pieces(key, y), journal, x);
    SumSnoc(y => Cost(key, y), journal, x);
  }

  function LoosePieces(b: Books, key: Key): int {
    StockOf(b, key).quantity - JournalPieces(b.journal, key)
  }

  function LooseValue(b: Books, key: Key): int {
    StockOf(b, key).value - JournalCost(b.journal, key)
  }

  lemma RowMovesWithJournal(b: Books, row: Row, d: Delivery, key: Key)
    ensures LoosePieces(ImportRow(b, row, d), key) == LoosePieces(b, key)
    ensures LooseValue(ImportRow(b, row, d), key) == LooseValue(b, key)
  {
    if row.Purchase? && BatchOf(row, d) !in b.journal {
      JournalNext(b.journal, BatchOf(row, d), key);
    }
  }

  /** For every product size, quantity less journalled quantity and value less journalled cost never change. */
  lemma {:induction false} StockMovesWithJournal(b: Books, rows: seq<Row>, d: Delivery, key: Key)
    ensures LoosePieces(ImportAll(b, rows, d), key) == LoosePieces(b, key)
    ensures LooseValue(ImportAll(b, rows, d), key) == LooseValue(b, key)
  {
    if rows != [] {
      var init, row := rows[..|rows| - 1], rows[|rows| - 1];
      StockMovesWithJournal(b, init, d, key);
      RowMovesWithJournal(ImportAll(b, init, d), row, d, key);
    }
  }

  lemma {:induction false} ImportKeepsSound(b: Books, rows: seq<Row>, d: Delivery)
    requires forall key :: key in b.sizes ==> Sound(b.sizes[key])
    requires forall row :: row in rows && row.Purchase? ==> row.quantity >= 0 && row.price >= 0
    ensures forall key :: key in ImportAll(b, rows, d).sizes ==> Sound(ImportAll(b, rows, d).sizes[key])
  {
    if rows != [] {
      var init, row := rows[..|rows| - 1], rows[|rows| - 1];
      assert forall r :: r in init ==> r in rows;
      assert row in rows;
      ImportKeepsSound(b, init, d);
      if row.Purchase? {
          assert row.quantity * row.price >= 0;
        assert row.quantity == 0 ==> row.quantity * row.price == 0;
      }
    }
  }

  // ---------------------------------------------------------------- repetition and order do not matter

  lemma {:induction false} JournalledRowsChangeNothing(b: Books, rows: seq<Row>, d: Delivery)
    requires Batches(rows, d) <= SetOf(b.journal)
    requires forall row :: row in rows && row.Purchase? ==> row.key in b.sizes
    ensures ImportAll(b, rows, d) == b
  {
    if rows != [] {
      var init, row := rows[..|rows| - 1], rows[|rows| - 1];
      assert forall r :: r in init ==> r in rows;
      assert row in rows;
      JournalledRowsChangeNothing(b, init, d);
      if row.Purchase? {
        assert BatchOf(row, d) in Batches(rows, d);
      }
    }
  }

  /** Importing the same invoice again changes neither journal, quantity nor value. */
  lemma ImportIsIdempotent(b: Books, rows: seq<Row>, d: Delivery)
    ensures ImportAll(ImportAll(b, rows, d), rows, d) == ImportAll(b, rows, d)
  {
    ImportIsUnion(b, rows, d);
    forall row | row in rows && row.Purchase?
      ensures row.key in ImportAll(b, rows, d).sizes
    {
      assert BatchOf(row, d) in Batches(rows, d);
    }
    JournalledRowsChangeNothing(ImportAll(b, rows, d), rows, d);
  }

  lemma {:induction false} DistinctMultiset(xs: seq<Batch>, x: Batch)
    requires Distinct(xs)
    ensures multiset(xs)[x] == if x in xs then 1 else 0
  {
    if xs != [] {
      var init := xs[..|xs| - 1];
      DistinctMultiset(init, x);
      assert xs == init + [xs[|xs| - 1]];
    }
  }

  lemma SameSetSameMultiset(xs: seq<Batch>, ys: seq<Batch>)
    requires Distinct(xs) && Distinct(ys) && SetOf(xs) == SetOf(ys)
    ensures multiset(xs) == multiset(ys)
  {
    forall x
      ensures multiset(xs)[x] == multiset(ys)[x]
    {
      DistinctMultiset(xs, x);
      DistinctMultiset(ys, x);
      assert x in xs <==> x in SetOf(xs);
      assert x in ys <==> x in SetOf(ys);
    }
  }

  lemma SameBatchesSameJournal(b: Books, rows: seq<Row>, others: seq<Row>, d: Delivery)
    requires Batches(rows, d) == Batches(others, d)
    ensures multiset(ImportAll(b, rows, d).journal) == multiset(ImportAll(b, others, d).journal)
  {
    AddedAreNew(b, rows, d);
    AddedAreNew(b, others, d);
    SameSetSameMultiset(Added(b, rows, d), Added(b, others, d));
    assert multiset(b.journal + Added(b, rows, d)) == multiset(b.journal) + multiset(Added(b, rows, d));
    assert multiset(b.journal + Added(b, others, d)) == multiset(b.journal) + multiset(Added(b, others, d));
  }

  lemma SameJournalSameStock(b: Books, rows: seq<Row>, others: seq<Row>, d: Delivery, key: Key)
    requires multiset(ImportAll(b, rows, d).journal) == multiset(ImportAll(b, others, d).journal)
    ensures StockOf(ImportAll(b, rows, d), key) == StockOf(ImportAll(b, others, d), key)
  {
    StockMovesWithJournal(b, rows, d, key);
    StockMovesWithJournal(b, others, d, key);
    SumOfPermutation(x => Pieces(key, x), ImportAll(b, rows, d).journal, ImportAll(b, others, d).journal);
    SumOfPermutation(x => Cost(key, x), ImportAll(b, rows, d).journal, ImportAll(b, others, d).journal);
  }

  /** The order of the rows, and how often each is repeated, leaves no trace: same journal entries, same stock. */
  lemma ImportOrderDoesNotMatter(b: Books, rows: seq<Row>, others: seq<Row>, d: Delivery)
    requires Batches(rows, d) == Batches(others, d)
    ensures multiset(ImportAll(b, rows, d).journal) == multiset(ImportAll(b, others, d).journal)
    ensures ImportAll(b, rows, d).sizes == ImportAll(b, others, d).sizes
  {
    SameBatchesSameJournal(b, rows, others, d);
    ImportIsUnion(b, rows, d);
    ImportIsUnion(b, others, d);
    var p, q := ImportAll(b, rows, d).sizes, ImportAll(b, others, d).sizes;
    assert p.Keys == q.Keys;
    forall key | key in p
      ensures p[key] == q[key]
    {
      SameJournalSameStock(b, rows, others, d, key);
    }
  }

  // ---------------------------------------------------------------- what the duplicate check costs

  function RowPieces(row: Row): int {
    if row.Purchase? then row.quantity else 0
  }

  function InvoicePieces(rows: seq<Row>): int {
    Sum(RowPieces, rows)
  }

  function BatchPieces(x: Batch): int {
    x.quantity
  }

  /** No purchase row repeats an earlier one or a batch of the journal. */
  predicate AllNew(b: Books, rows: seq<Row>, d: Delivery) {
    forall i :: 0 <= i < |rows| && rows[i].Purchase? ==>
      BatchOf(rows[i], d) !in b.journal && forall j :: 0 <= j < i ==> rows[j] != rows[i]
  }

  /** The last row is new: not in the journal, and no repetition of an earlier row. */
  predicate LastIsNew(b: Books, init: seq<Row>, row: Row, d: Delivery) {
    row.Purchase? ==> BatchOf(row, d) !in b.journal && row !in init
  }

  lemma AllNewNext(b: Books, init: seq<Row>, row: Row, d: Delivery)
    ensures AllNew(b, init + [row], d) <==> AllNew(b, init, d) && LastIsNew(b, init, row, d)
  {
    var rows := init + [row];
    assert forall i :: 0 <= i < |init| ==> rows[i] == init[i];
    if AllNew(b, rows, d) && row.Purchase? {
      assert rows[|init|] == row;
    }
  }

  lemma AddedNext(b: Books, init: seq<Row>, row: Row, d: Delivery)
    ensures Added(b, init + [row], d)
            == if row.Purchase? && LastIsNew(b, init, row, d) then Added(b, init, d) + [BatchOf(row, d)] else Added(b, init, d)
  {
    assert (init + [row])[..|init|] == init;
    ImportIsUnion(b, init, d);
    if row.Purchase? {
      var x := BatchOf(row, d);
      assert x in ImportAll(b, init, d).journal <==> x in SetOf(b.journal) + Batches(init, d);
      assert x in Batches(init, d) <==> row in init;
    }
  }

  lemma {:induction false} GainsAtMost(b: Books, rows: seq<Row>, d: Delivery)
    requires forall row :: row in rows && row.Purchase? ==> row.quantity > 0
    ensures Sum(BatchPieces, Added(b, rows, d)) <= InvoicePieces(rows)
    ensures Sum(BatchPieces, Added(b, rows, d)) == InvoicePieces(rows) <==> AllNew(b, rows, d)
  {
    if rows != [] {
      var init, row := rows[..|rows| - 1], rows[|rows| - 1];
      assert forall r :: r in init ==> r in rows;
      assert row in rows && rows == init + [row];
      GainsAtMost(b, init, d);
      AllNewNext(b, init, row, d);
      AddedNext(b, init, row, d);
      if row.Purchase? {
        SumSnoc(BatchPieces, Added(b, init, d), BatchOf(row, d));
      }
    }
  }

  /**
    * An invoice of positive rows adds all its pieces to the journal exactly when none of its rows repeats another one
    * or an old batch: two equal lines of one invoice count once.
    */
  lemma WholeInvoiceArrivesIffAllNew(b: Books, rows: seq<Row>, d: Delivery)
    requires forall row :: row in rows && row.Purchase? ==> row.quantity > 0
    ensures Sum(BatchPieces, ImportAll(b, rows, d).journal) == Sum(BatchPieces, b.journal) + InvoicePieces(rows)
            <==> AllNew(b, rows, d)
  {
    GainsAtMost(b, rows, d);
    SumConcat(BatchPieces, b.journal, Added(b, rows, d));
  }

  // ---------------------------------------------------------------- one row, one delivery

  /** The row has nothing to book: it is no purchase, its very batch is journalled, or an equal row came before it. */
  predicate Skips(b: Books, rows: seq<Row>, d: Delivery, i: nat)
    requires i < |rows|
  {
    var row := rows[i];
    row.Skipped? || Batch(row.key, row.quantity, row.price, d) in b.journal || exists j :: 0 <= j < i && rows[j] == row
  }

  /** The journal after an import holds a batch exactly if it did before or a row stands for it, under this delivery. */
  lemma JournalHolds(b: Books, rows: seq<Row>, d: Delivery, x: Batch)
    ensures x in ImportAll(b, rows, d).journal
            <==> x in b.journal || (x.delivery == d && Purchase(x.key, x.quantity, x.price) in rows)
  {
    ImportIsUnion(b, rows, d);
    assert x in ImportAll(b, rows, d).journal <==> x in SetOf(ImportAll(b, rows, d).journal);
    assert x in b.journal <==> x in SetOf(b.journal);
    if x in Batches(rows, d) {
      var row :| row in rows && row.Purchase? && BatchOf(row, d) == x;
      assert row == Purchase(x.key, x.quantity, x.price);
    }
    if x.delivery == d && Purchase(x.key, x.quantity, x.price) in rows {
      assert BatchOf(Purchase(x.key, x.quantity, x.price), d) == x;
      assert x in Batches(rows, d);
    }
  }

  /**
    * Row `i` of an import either changes no stock and no journal entry, exactly when it has nothing to book, or else
    * appends its own batch, with its key, quantity, price and this delivery, and raises the stock of its own key.
    */
  lemma RowIsBookedIff(b: Books, rows: seq<Row>, d: Delivery, i: nat, key: Key)
    requires i < |rows|
    ensures var before, after, row := ImportAll(b, rows[..i], d), ImportAll(b, rows[..i + 1], d), rows[i];
            if Skips(b, rows, d, i) then after.journal == before.journal && StockOf(after, key) == StockOf(before, key)
            else
              && after.journal == before.journal + [Batch(row.key, row.quantity, row.price, d)]
              && StockOf(after, key)
                 == if key != row.key then StockOf(before, key)
                    else Stock(StockOf(before, key).quantity + row.quantity, StockOf(before, key).value + row.quantity * row.price)
  {
    var row := rows[i];
    assert rows[..i + 1][..i] == rows[..i];
    if row.Purchase? {
      JournalHolds(b, rows[..i], d, Batch(row.key, row.quantity, row.price, d));
      assert row == Purchase(row.key, row.quantity, row.price);
      assert row in rows[..i] <==> exists j :: 0 <= j < i && rows[j] == row;
    }
  }

  /** A size the warehouse does not know is created empty; its first delivery is then all it has. */
  lemma NewSizeStartsEmpty(b: Books, row: Row, d: Delivery)
    requires row.Purchase? && row.key !in b.sizes
    ensures var after := ImportAll(b, [row], d);
            && after.sizes.Keys == b.sizes.Keys + {row.key}
            && after.sizes[row.key] == if Batch(row.key, row.quantity, row.price, d) in b.journal then Stock(0, 0)
                                       else Stock(row.quantity, row.quantity * row.price)
  {
    assert [row][..0] == [];
    assert ImportAll(b, [], d) == b;
  }

  /** Every batch an import adds is that of one of its purchase rows, under this delivery. */
  lemma AddedAreRows(b: Books, rows: seq<Row>, d: Delivery, x: Batch)
    requires x in Added(b, rows, d)
    ensures x.delivery == d && Purchase(x.key, x.quantity, x.price) in rows && x !in b.journal
  {
    AddedAreNew(b, rows, d);
    JournalHolds(b, rows, d, x);
    assert x in SetOf(Added(b, rows, d));
  }

  /** The rows without their repetitions. */
  function DistinctRows(rows: seq<Row>): seq<Row> {
    if rows == [] then [] else
    var init, row := rows[..|rows| - 1], rows[|rows| - 1];
    DistinctRows(init) + if row in init then [] else [row]
  }

  function PiecesOf(key: Key, row: Row): int {
    if row.Purchase? && row.key == key then row.quantity else 0
  }

  function CostOfRow(key: Key, row: Row): int {
    if row.Purchase? && row.key == key then row.quantity * row.price else 0
  }

  /** The stock of `key` with these rows on top. */
  function Raised(s: Stock, key: Key, rows: seq<Row>): Stock {
    Stock(s.quantity + Sum(r => PiecesOf(key, r), rows), s.value + Sum(r => CostOfRow(key, r), rows))
  }

  lemma RaisedNext(s: Stock, key: Key, rows: seq<Row>, row: Row)
    ensures Raised(s, key, rows + [row])
            == Stock(Raised(s, key, rows).quantity + PiecesOf(key, row), Raised(s, key, rows).value + CostOfRow(key, row))
  {
    SumSnoc(r => PiecesOf(key, r), rows, row);
    SumSnoc(r => CostOfRow(key, r), rows, row);
  }

  lemma FreshSkips(b: Books, rows: seq<Row>, d: Delivery, i: nat)
    requires i < |rows| && forall x :: x in b.journal ==> x.delivery != d
    ensures Skips(b, rows, d, i) <==> rows[i].Skipped? || rows[i] in rows[..i]
  {
    assert rows[i] in rows[..i] <==> exists j :: 0 <= j < i && rows[j] == rows[i];
  }

  lemma DistinctNext(init: seq<Row>, row: Row, s: Stock, key: Key)
    ensures Raised(s, key, DistinctRows(init + [row]))
            == if row in init then Raised(s, key, DistinctRows(init))
               else Stock(Raised(s, key, DistinctRows(init)).quantity + PiecesOf(key, row),
                          Raised(s, key, DistinctRows(init)).value + CostOfRow(key, row))
  {
    assert (init + [row])[..|init|] == init;
    RaisedNext(s, key, DistinctRows(init), row);
    assert DistinctRows(init) + [] == DistinctRows(init);
  }

  /** A delivery of which nothing is journalled yet is booked in full: each distinct row once, whatever other deliveries hold. */
  lemma {:induction false} FreshDeliveryIsBooked(b: Books, rows: seq<Row>, d: Delivery, key: Key)
    requires forall x :: x in b.journal ==> x.delivery != d
    ensures StockOf(ImportAll(b, rows, d), key) == Raised(StockOf(b, key), key, DistinctRows(rows))
  {
    if rows != [] {
      var n := |rows| - 1;
      assert rows[..n + 1] == rows == rows[..n] + [rows[n]];
      FreshDeliveryIsBooked(b, rows[..n], d, key);
      RowIsBookedIff(b, rows, d, n, key);
      FreshSkips(b, rows, d, n);
      DistinctNext(rows[..n], rows[n], StockOf(b, key), key);
    }
  }

  /** The same rows under another date or invoice number are another delivery: both are booked. */
  lemma TwoDeliveriesAreBookedTwice(b: Books, rows: seq<Row>, d: Delivery, e: Delivery, key: Key)
    requires d != e && forall x :: x in b.journal ==> x.delivery != d && x.delivery != e
    ensures StockOf(ImportAll(ImportAll(b, rows, d), rows, e), key)
            == Raised(Raised(StockOf(b, key), key, DistinctRows(rows)), key, DistinctRows(rows))
  {
    forall x | x in ImportAll(b, rows, d).journal
      ensures x.delivery != e
    {
      JournalHolds(b, rows, d, x);
    }
    FreshDeliveryIsBooked(b, rows, d, key);
    FreshDeliveryIsBooked(ImportAll(b, rows, d), rows, e, key);
  }
}
