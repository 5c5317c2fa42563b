/** What synchronisation keeps and achieves: it refines "overwrite the table", and it keeps an exact price ledger. */
module OfferLedger {
  import opened Options
  import opened OfferTables
  import opened OfferSync

  // ---------------------------------------------------------------- a session that does not see its own rows

  lemma {:induction false} InsertedIff(loaded: map<string, Row>, added: seq<Fresh>)
    ensures var r := Inserted(loaded, added);
            && (r.Some? <==> DistinctIds(added) && IdsOf(added) !! loaded.Keys)
            && (r.Some? ==> r.value.Keys == loaded.Keys + IdsOf(added))
  {
    if added != [] {
      var init, last := added[..|added| - 1], added[|added| - 1];
      InsertedIff(loaded, init);
      assert added == init + [last];
      assert IdsOf(added) == IdsOf(init) + {last.id};
      SnocIsDistinct(init, last);
    }
  }

  lemma {:induction false} InsertedKeeps(loaded: map<string, Row>, added: seq<Fresh>)
    requires Inserted(loaded, added).Some?
    ensures var r := Inserted(loaded, added).value;
            && (forall id :: id in loaded ==> id in r && r[id] == loaded[id])
            && (forall f :: f in added ==> f.id in r && r[f.id] == f.row)
  {
    if added != [] {
      var init, last := added[..|added| - 1], added[|added| - 1];
      InsertedKeeps(loaded, init);
      assert added == init + [last];
    }
  }

  lemma SnocIsDistinct(init: seq<Fresh>, last: Fresh)
    ensures DistinctIds(init + [last]) <==> DistinctIds(init) && last.id !in IdsOf(init)
  {
    var added := init + [last];
    assert forall i :: 0 <= i < |init| ==> added[i] == init[i];
    if last.id in IdsOf(init) {
      var i :| 0 <= i < |init| && init[i].id == last.id;
      assert added[i].id == added[|init|].id;
    }
    if !DistinctIds(init) {
      var i, j :| 0 <= i < j < |init| && init[i].id == init[j].id;
      assert added[i].id == added[j].id;
    }
  }

  lemma SnocRepeats(known: set<string>, init: seq<RemoteOffer>, o: RemoteOffer)
    ensures RepeatsNewId(known, init + [o])
            <==> RepeatsNewId(known, init) || (Priced(o).Some? && o.id !in known && o.id in SyncedIds(init))
  {
    var os := init + [o];
    assert forall i :: 0 <= i < |init| ==> os[i] == init[i];
    if RepeatsNewId(known, init) {
      var i, j :| 0 <= i < j < |init| && init[i].id == init[j].id && init[i].id !in known && Readable(init[i]) && Readable(init[j]);
      assert os[i].id == os[j].id;
    }
    if Priced(o).Some? && o.id !in known && o.id in SyncedIds(init) {
      var i :| 0 <= i < |init| && init[i].id == o.id && Priced(init[i]).Some?;
      assert os[i].id == os[|init|].id;
    }
  }

  /** The session holds what direct upserts would have written: known rows in place, new rows added. */
  ghost predicate Holds(w: Work, t: Tables) {
    && t.history == w.history
    && t.offers.Keys == w.loaded.Keys + IdsOf(w.added)
    && (forall id :: id in w.loaded ==> t.offers[id] == w.loaded[id])
    && (forall f :: f in w.added ==> t.offers[f.id] == f.row)
  }

  lemma UpsertedHolds(w: Work, t: Tables, o: RemoteOffer, price: int, m: Option<Match>, now: nat)
    requires IdsOf(w.added) !! w.loaded.Keys && Holds(w, t) && (o.id !in w.loaded ==> o.id !in IdsOf(w.added))
    ensures Holds(Upserted(w, o, price, m, now), Upsert(t, o, price, m, now))
  {
    var w' := Upserted(w, o, price, m, now);
    if o.id in w.loaded {
      assert forall f :: f in w.added ==> f.id in IdsOf(w.added);
    } else {
      assert IdsOf(w'.added) == IdsOf(w.added) + {o.id};
    }
  }

  /** What the session holds of the visited offers: known ids in place, every other readable listing added. */
  ghost predicate Tracks(w: Work, known: set<string>, os: seq<RemoteOffer>) {
    && w.loaded.Keys == known
    && IdsOf(w.added) == SyncedIds(os) - known
    && (DistinctIds(w.added) <==> !RepeatsNewId(known, os))
  }

  lemma SyncedNext(init: seq<RemoteOffer>, o: RemoteOffer)
    ensures SyncedIds(init + [o]) == SyncedIds(init) + if Priced(o).Some? then {o.id} else {}
  {
    assert forall x :: x in init + [o] <==> x in init || x == o;
  }

  lemma TracksNext(w: Work, known: set<string>, init: seq<RemoteOffer>, o: RemoteOffer, m: Option<Match>, now: nat)
    requires Tracks(w, known, init) && Priced(o).Some?
    ensures Tracks(Upserted(w, o, Priced(o).value, m, now), known, init + [o])
  {
    SnocRepeats(known, init, o);
    SyncedNext(init, o);
    if o.id !in known {
      var row := Fresh(o.id, NewRow(o, Priced(o).value, m, now));
      assert IdsOf(w.added + [row]) == IdsOf(w.added) + {o.id};
      SnocIsDistinct(w.added, row);
    }
  }

  lemma {:induction false} SessionTracks(s: Tables, os: seq<RemoteOffer>, matcher: Matcher, now: nat)
    ensures Tracks(UpsertedAll(Opened(s), os, matcher, now), s.offers.Keys, os)
  {
    if os != [] {
      var init, o := os[..|os| - 1], os[|os| - 1];
      assert os == init + [o];
      SessionTracks(s, init, matcher, now);
      if Priced(o).Some? {
        TracksNext(UpsertedAll(Opened(s), init, matcher, now), s.offers.Keys, init, o, matcher(o.ean, o.title), now);
      } else {
        SnocRepeats(s.offers.Keys, init, o);
        SyncedNext(init, o);
      }
    }
  }

  /** As long as no new id comes twice, the session agrees with direct upserts. */
  lemma {:induction false} SessionHolds(s: Tables, os: seq<RemoteOffer>, matcher: Matcher, now: nat)
    requires !RepeatsNewId(s.offers.Keys, os)
    ensures Holds(UpsertedAll(Opened(s), os, matcher, now), ApplyAll(s, os, matcher, now))
  {
    if os != [] {
      var init, o := os[..|os| - 1], os[|os| - 1];
      assert os == init + [o];
      SnocRepeats(s.offers.Keys, init, o);
      SessionHolds(s, init, matcher, now);
      SessionTracks(s, init, matcher, now);
      if Priced(o).Some? {
        UpsertedHolds(UpsertedAll(Opened(s), init, matcher, now), ApplyAll(s, init, matcher, now),
                      o, Priced(o).value, matcher(o.ean, o.title), now);
      }
    }
  }

  lemma MarkedHolds(w: Work, t: Tables, ids: set<string>)
    requires Holds(w, t) && IdsOf(w.added) <= ids && IdsOf(w.added) !! w.loaded.Keys
    ensures Holds(Marked(w, ids), MarkStale(t, ids))
  {
    assert forall f :: f in w.added ==> f.id in IdsOf(w.added);
  }

  lemma FlushedHolds(w: Work, t: Tables)
    requires Holds(w, t) && DistinctIds(w.added) && IdsOf(w.added) !! w.loaded.Keys
    ensures Flushed(w) == Some(t)
  {
    InsertedIff(w.loaded, w.added);
    InsertedKeeps(w.loaded, w.added);
    var offers := Inserted(w.loaded, w.added).value;
    forall id | id in t.offers
      ensures id in offers && offers[id] == t.offers[id]
    {
      if id !in w.loaded {
        var f :| f in w.added && f.id == id;
      }
    }
    assert offers == t.offers;
  }

  /**
    * A run whose loop finished commits exactly when no id absent from the table was listed twice; what it commits is
    * what direct upserts of the listings, one after the other, and stale marking would leave.
    */
  lemma CommitsIffNoNewIdRepeats(s: Tables, os: seq<RemoteOffer>, matcher: Matcher, now: nat)
    ensures Committed(s, os, matcher, now)
            == if RepeatsNewId(s.offers.Keys, os) then None else Some(Synchronised(s, os, matcher, now))
  {
    var w := UpsertedAll(Opened(s), os, matcher, now);
    SessionTracks(s, os, matcher, now);
    InsertedIff(Marked(w, SyncedIds(os)).loaded, w.added);
    if !RepeatsNewId(s.offers.Keys, os) {
      SessionHolds(s, os, matcher, now);
      MarkedHolds(w, ApplyAll(s, os, matcher, now), SyncedIds(os));
      FlushedHolds(Marked(w, SyncedIds(os)), Synchronised(s, os, matcher, now));
    }
  }

  // ---------------------------------------------------------------- synchronisation refines overwriting

  /** The last readable listing of `id`: what a plain overwrite of the table would leave. */
  function LastListing(os: seq<RemoteOffer>, id: string): Option<RemoteOffer> {
    if os == [] then None
    else if os[|os| - 1].id == id && Readable(os[|os| - 1]) then Some(os[|os| - 1])
    else LastListing(os[..|os| - 1], id)
  }

  /** The last warehouse match found for `id`. */
  function LastMatch(os: seq<RemoteOffer>, matcher: Matcher, id: string): Option<Match> {
    if os == [] then None else
    var o := os[|os| - 1];
    if o.id == id && Readable(o) && matcher(o.ean, o.title).Some? then matcher(o.ean, o.title)
    else LastMatch(os[..|os| - 1], matcher, id)
  }

  predicate Shows(row: Row, o: RemoteOffer) {
    && row.title == o.title
    && (match o.price case Missing => row.price == 0 case Invalid => false case Amount(g) => row.price == g)
    && row.ean == o.ean
    && row.status == o.status
  }

  /** Equal prices; a missing one is zero. */
  predicate SamePrice(p: Price, q: Price) {
    p == q || (p == Missing && q == Amount(0)) || (p == Amount(0) && q == Missing)
  }

  predicate SameListing(o: RemoteOffer, p: RemoteOffer) {
    o.title == p.title && SamePrice(o.price, p.price) && o.ean == p.ean && o.status == p.status
  }

  lemma {:induction false} LastListingIs(os: seq<RemoteOffer>, id: string)
    ensures LastListing(os, id).Some? ==>
              var o := LastListing(os, id).value; o in os && o.id == id && Readable(o)
    ensures LastListing(os, id).Some? <==> id in SyncedIds(os)
  {
    if os != [] {
      var init := os[..|os| - 1];
      LastListingIs(init, id);
      assert forall o :: o in os <==> o in init || o == os[|os| - 1];
    }
  }

  lemma {:induction false} ApplyAllOverwrites(s: Tables, os: seq<RemoteOffer>, matcher: Matcher, now: nat, id: string)
    ensures var t := ApplyAll(s, os, matcher, now);
            match LastListing(os, id)
            case Some(o) => id in t.offers && Shows(t.offers[id], o)
            case None => (id in t.offers <==> id in s.offers) && (id in s.offers ==> t.offers[id] == s.offers[id])
  {
    if os != [] {
      ApplyAllOverwrites(s, os[..|os| - 1], matcher, now, id);
    }
  }

  /** Every listed offer is shown; every other row is as before, except that it is no longer ACTIVE if anything was synced. */
  lemma SynchronisedOverwrites(s: Tables, os: seq<RemoteOffer>, matcher: Matcher, now: nat, id: string)
    ensures var t := Synchronised(s, os, matcher, now);
            match LastListing(os, id)
            case Some(o) => id in t.offers && Shows(t.offers[id], o)
            case None =>
              && (id in t.offers <==> id in s.offers)
              && (id in s.offers ==> t.offers[id] == if s.offers[id].status == "ACTIVE" && SyncedIds(os) != {}
                                                     then s.offers[id].(status := "ENDED") else s.offers[id])
  {
    ApplyAllOverwrites(s, os, matcher, now, id);
    LastListingIs(os, id);
  }

  /**
    * Synchronisation refines overwriting, although it writes only detected differences. A run is refused and changes
    * nothing exactly when an id the table does not know is listed twice; else every listed offer has a row with the
    * title, price, EAN and status of its last readable listing, and every other row is as before, except that it is
    * no longer ACTIVE.
    */
  lemma SyncRefinesOverwrite(s: Tables, os: seq<RemoteOffer>, matcher: Matcher, now: nat, id: string)
    ensures var t := After(s, os, matcher, now);
            if RepeatsNewId(s.offers.Keys, os) then t == s
            else match LastListing(os, id)
                 case Some(o) => id in t.offers && Shows(t.offers[id], o)
                 case None =>
                   && (id in t.offers <==> id in s.offers)
                   && (id in s.offers ==> t.offers[id] == if s.offers[id].status == "ACTIVE" && SyncedIds(os) != {}
                                                          then s.offers[id].(status := "ENDED") else s.offers[id])
  {
    CommitsIffNoNewIdRepeats(s, os, matcher, now);
    SynchronisedOverwrites(s, os, matcher, now, id);
  }

  /** With distinct ids, readable prices and a non-empty catalogue: the table shows the catalogue and nothing else is ACTIVE. */
  lemma SyncShowsCatalogue(s: Tables, cat: seq<RemoteOffer>, matcher: Matcher, now: nat)
    requires cat != [] && forall i :: 0 <= i < |cat| ==> Readable(cat[i])
    requires forall i, j :: 0 <= i < j < |cat| ==> cat[i].id != cat[j].id
    ensures Committed(s, cat, matcher, now).Some?
    ensures var t := After(s, cat, matcher, now);
            && (forall i :: 0 <= i < |cat| ==> cat[i].id in t.offers && Shows(t.offers[cat[i].id], cat[i]))
            && (forall id :: id in t.offers && t.offers[id].status == "ACTIVE" ==> exists i :: 0 <= i < |cat| && cat[i].id == id)
            && (forall id :: id in t.offers ==> id in s.offers || exists i :: 0 <= i < |cat| && cat[i].id == id)
  {
    CommitsIffNoNewIdRepeats(s, cat, matcher, now);
    assert cat[0] in cat && cat[0].id in SyncedIds(cat);
    forall i | 0 <= i < |cat|
      ensures var t := After(s, cat, matcher, now); cat[i].id in t.offers && Shows(t.offers[cat[i].id], cat[i])
    {
      assert cat[i] in cat;
      LastListingIs(cat, cat[i].id);
      assert cat[i].id in SyncedIds(cat);
      SynchronisedOverwrites(s, cat, matcher, now, cat[i].id);
    }
    var t := After(s, cat, matcher, now);
    forall id | id in t.offers && (t.offers[id].status == "ACTIVE" || id !in s.offers)
      ensures exists i :: 0 <= i < |cat| && cat[i].id == id
    {
      LastListingIs(cat, id);
      SynchronisedOverwrites(s, cat, matcher, now, id);
    }
  }

  /** The paging loop, the session and the tables together: one run, 401s included, against a stable catalogue with distinct ids. */
  lemma StableRunShowsCatalogue(s: Tables, api: Api, cat: seq<RemoteOffer>, denied: set<nat>, budget: nat, t: Tokens,
                                renewal: Renewal, matcher: Matcher, now: nat)
    requires Serves(api, cat, |cat|, denied) && budget >= PagesFrom(|cat|, 0) + |denied|
    requires t.refresh != "" && (t.access != "" || (renewal.Renewed? && renewal.access != ""))
    requires cat != [] && forall i :: 0 <= i < |cat| ==> Readable(cat[i])
    requires forall i, j :: 0 <= i < j < |cat| ==> cat[i].id != cat[j].id
    ensures var w := WalkFrom(api, budget, t, renewal);
            var after := After(s, w.visited, matcher, now);
            && w.ending.Finished? && Committed(s, w.visited, matcher, now).Some?
            && (forall i :: 0 <= i < |cat| ==> cat[i].id in after.offers && Shows(after.offers[cat[i].id], cat[i]))
            && (forall id :: id in after.offers && after.offers[id].status == "ACTIVE" ==> exists i :: 0 <= i < |cat| && cat[i].id == id)
  {
    SyncVisitsCatalogue(api, cat, denied, budget, t, renewal);
    SyncShowsCatalogue(s, cat, matcher, now);
  }

  // ---------------------------------------------------------------- the price ledger

  function PricesOf(history: seq<Sample>, id: string): seq<int> {
    if history == [] then []
    else
      var before, last := PricesOf(history[..|history| - 1], id), history[|history| - 1];
      if last.offerId == id then before + [last.price] else before
  }

  /** No two consecutive samples are equal. */
  predicate NoRepeats(prices: seq<int>) {
    forall i :: 0 < i < |prices| ==> prices[i - 1] != prices[i]
  }

  /** The ledger of one offer: empty without a row, else ending at the row's price and without repeats. */
  predicate LedgerAt(s: Tables, id: string) {
    var prices := PricesOf(s.history, id);
    if id in s.offers then |prices| > 0 && prices[|prices| - 1] == s.offers[id].price && NoRepeats(prices)
    else prices == []
  }

  ghost predicate Ledger(s: Tables) {
    forall id :: LedgerAt(s, id)
  }

  lemma PricesOfSnoc(history: seq<Sample>, sample: Sample, id: string)
    ensures PricesOf(history + [sample], id)
            == if sample.offerId == id then PricesOf(history, id) + [sample.price] else PricesOf(history, id)
  {
    assert (history + [sample])[..|history + [sample]| - 1] == history;
  }

  lemma UpsertKeepsLedger(s: Tables, o: RemoteOffer, price: int, m: Option<Match>, now: nat)
    requires Ledger(s)
    ensures Ledger(Upsert(s, o, price, m, now))
  {
    var t := Upsert(s, o, price, m, now);
    forall id
      ensures LedgerAt(t, id)
    {
      assert LedgerAt(s, id);
      PricesOfSnoc(s.history, Sample(o.id, SizeOf(m), price, now), id);
    }
  }

  lemma {:induction false} ApplyAllKeepsLedger(s: Tables, os: seq<RemoteOffer>, matcher: Matcher, now: nat)
    requires Ledger(s)
    ensures Ledger(ApplyAll(s, os, matcher, now))
  {
    if os != [] {
      ApplyAllKeepsLedger(s, os[..|os| - 1], matcher, now);
      var o := os[|os| - 1];
      if Priced(o).Some? {
        UpsertKeepsLedger(ApplyAll(s, os[..|os| - 1], matcher, now), o, Priced(o).value, matcher(o.ean, o.title), now);
      }
    }
  }

  /** Whatever touches no price and no sample keeps the ledger: stale marking and manual links. */
  lemma SamePricesKeepLedger(s: Tables, t: Tables)
    requires Ledger(s) && t.history == s.history && t.offers.Keys == s.offers.Keys
    requires forall id :: id in s.offers ==> t.offers[id].price == s.offers[id].price
    ensures Ledger(t)
  {
    forall id
      ensures LedgerAt(t, id)
    {
      assert LedgerAt(s, id);
    }
  }

  /** A sample as a visited offer asks for it: its price now, and the size it was matched to. */
  ghost predicate SampleOf(x: Sample, o: RemoteOffer, matcher: Matcher, now: nat) {
    && x.offerId == o.id && x.recordedAt == now
    && (match o.price case Missing => x.price == 0 case Invalid => false case Amount(g) => x.price == g)
    && (match matcher(o.ean, o.title) case Some(m) => x.sizeId == Some(m.sizeId) case None => x.sizeId == None)
  }

  /** `after` continues `before` by samples of offers in `os`. */
  ghost predicate Continues(before: seq<Sample>, after: seq<Sample>, os: seq<RemoteOffer>, matcher: Matcher, now: nat) {
    && before <= after
    && forall k :: |before| <= k < |after| ==> exists o :: o in os && SampleOf(after[k], o, matcher, now)
  }

  lemma {:induction false} ApplyAllSamples(s: Tables, os: seq<RemoteOffer>, matcher: Matcher, now: nat)
    ensures Continues(s.history, ApplyAll(s, os, matcher, now).history, os, matcher, now)
  {
    if os != [] {
      var init, o := os[..|os| - 1], os[|os| - 1];
      ApplyAllSamples(s, init, matcher, now);
      assert forall x :: x in init ==> x in os;
      var before, after := ApplyAll(s, init, matcher, now).history, ApplyAll(s, os, matcher, now).history;
      forall k | |s.history| <= k < |after|
        ensures exists x :: x in os && SampleOf(after[k], x, matcher, now)
      {
        if k < |before| {
          assert after[k] == before[k];
        } else {
          assert o in os && SampleOf(after[k], o, matcher, now);
        }
      }
    }
  }

  /** History is never rewritten: a run appends samples of the offers it visited, each at its price, size and time. */
  lemma HistoryOnlyGrows(s: Tables, os: seq<RemoteOffer>, matcher: Matcher, now: nat)
    ensures Continues(s.history, After(s, os, matcher, now).history, os, matcher, now)
  {
    CommitsIffNoNewIdRepeats(s, os, matcher, now);
    ApplyAllSamples(s, os, matcher, now);
  }

  /** Every row a pass adds or changes carries the time of the pass. */
  lemma {:induction false} ChangedRowsAreStamped(s: Tables, os: seq<RemoteOffer>, matcher: Matcher, now: nat, id: string)
    ensures var t := ApplyAll(s, os, matcher, now);
            && (id in s.offers ==> id in t.offers)
            && (id in t.offers ==> t.offers[id].syncedAt == now || (id in s.offers && t.offers[id] == s.offers[id]))
  {
    if os != [] {
      ChangedRowsAreStamped(s, os[..|os| - 1], matcher, now, id);
    }
  }

  /** A manual edit changes the link of one row, and nothing else in either table. */
  lemma EditChangesLinkOnly(s: Tables, id: string, choice: Choice)
    ensures var t := Linked(s, id, choice);
            && t.history == s.history && t.offers.Keys == s.offers.Keys
            && forall x :: x in s.offers ==>
                 var a, b := s.offers[x], t.offers[x];
                 && b.title == a.title && b.price == a.price && b.ean == a.ean && b.status == a.status && b.syncedAt == a.syncedAt
                 && (x != id ==> b == a)
  {
    assert id in s.offers ==> s.offers.Keys + {id} == s.offers.Keys;
  }

  // ---------------------------------------------------------------- whole runs

  /** A synchronisation whose loop finished (its flush may still be refused), one that was given up, or a manual link edit. */
  datatype Event =
    | Sync(os: seq<RemoteOffer>, matcher: Matcher, now: nat)
    | GivenUp
    | Edit(id: string, choice: Choice)

  function Step(s: Tables, e: Event): Tables {
    match e
    case Sync(os, matcher, now) => After(s, os, matcher, now)
    case GivenUp => s
    case Edit(id, choice) => Linked(s, id, choice)
  }

  function Run(s: Tables, events: seq<Event>): Tables {
    if events == [] then s else Step(Run(s, events[..|events| - 1]), events[|events| - 1])
  }

  /** Over any run from empty tables, every offer's history ends at its current price and never repeats a price. */
  lemma {:induction false} RunKeepsLedger(events: seq<Event>)
    ensures Ledger(Run(Tables(map[], []), events))
  {
    if events != [] {
      RunKeepsLedger(events[..|events| - 1]);
      var s := Run(Tables(map[], []), events[..|events| - 1]);
      match events[|events| - 1]
      case Sync(os, matcher, now) =>
        CommitsIffNoNewIdRepeats(s, os, matcher, now);
        ApplyAllKeepsLedger(s, os, matcher, now);
        SamePricesKeepLedger(ApplyAll(s, os, matcher, now), Synchronised(s, os, matcher, now));
      case GivenUp =>
      case Edit(id, choice) =>
        SamePricesKeepLedger(s, Linked(s, id, choice));
    }
  }

  // ---------------------------------------------------------------- links to the warehouse

  datatype Link = Link(productId: Option<int>, sizeId: Option<int>)

  function LinkOf(row: Row): Link {
    Link(row.productId, row.sizeId)
  }

  function MatchLink(m: Option<Match>): Link {
    match m
    case Some(place) => Link(Some(place.productId), Some(place.sizeId))
    case None => Link(None, None)
  }

  lemma {:induction false} ApplyAllLinks(s: Tables, os: seq<RemoteOffer>, matcher: Matcher, now: nat, id: string)
    ensures var t := ApplyAll(s, os, matcher, now);
            id in t.offers ==>
              LinkOf(t.offers[id]) == if LastMatch(os, matcher, id).Some? || id !in s.offers
                                      then MatchLink(LastMatch(os, matcher, id)) else LinkOf(s.offers[id])
    ensures LastMatch(os, matcher, id).Some? ==> id in ApplyAll(s, os, matcher, now).offers
    ensures id in s.offers ==> id in ApplyAll(s, os, matcher, now).offers
  {
    if os != [] {
      ApplyAllLinks(s, os[..|os| - 1], matcher, now, id);
    }
  }

  /** The ids that have a row, told from the events alone: those listed by synchronisations that repeat no new id. */
  ghost function KnownIds(start: set<string>, events: seq<Event>): set<string> {
    if events == [] then start else
    var known := KnownIds(start, events[..|events| - 1]);
    match events[|events| - 1]
    case Sync(os, _, _) => if RepeatsNewId(known, os) then known else known + SyncedIds(os)
    case GivenUp => known
    case Edit(_, _) => known
  }

  /**
    * The link an offer has, told from the events alone: the last of the warehouse matches found for it by a committed
    * synchronisation and the manual edits made on it. A synchronisation without a match, or one that was refused or
    * given up, never appears here.
    */
  ghost function LinkHistory(start: set<string>, link: Link, events: seq<Event>, id: string): Link {
    if events == [] then link else
    var known, before := KnownIds(start, events[..|events| - 1]), LinkHistory(start, link, events[..|events| - 1], id);
    match events[|events| - 1]
    case Sync(os, matcher, _) =>
      if !RepeatsNewId(known, os) && LastMatch(os, matcher, id).Some? then MatchLink(LastMatch(os, matcher, id)) else before
    case GivenUp => before
    case Edit(other, choice) =>
      if other != id || id !in known then before else
      match choice
      case Clear => Link(None, None)
      case Choose(size, product) => if product.Some? then Link(product, Some(size)) else before
  }

  lemma SynchronisedKeys(s: Tables, os: seq<RemoteOffer>, matcher: Matcher, now: nat)
    ensures Synchronised(s, os, matcher, now).offers.Keys == s.offers.Keys + SyncedIds(os)
  {
    forall id
      ensures id in Synchronised(s, os, matcher, now).offers <==> id in s.offers || id in SyncedIds(os)
    {
      ApplyAllOverwrites(s, os, matcher, now, id);
      LastListingIs(os, id);
    }
  }

  lemma {:induction false} RunKnows(s: Tables, events: seq<Event>)
    ensures Run(s, events).offers.Keys == KnownIds(s.offers.Keys, events)
  {
    if events != [] {
      RunKnows(s, events[..|events| - 1]);
      match events[|events| - 1]
      case Sync(os, matcher, now) =>
        var before := Run(s, events[..|events| - 1]);
        CommitsIffNoNewIdRepeats(before, os, matcher, now);
        SynchronisedKeys(before, os, matcher, now);
      case GivenUp =>
      case Edit(_, _) =>
    }
  }

  /** Over any run, an offer's link is the last match or manual edit: synchronisation replaces links, it never clears one. */
  lemma {:induction false} RunLinks(s: Tables, events: seq<Event>, id: string)
    ensures var t := Run(s, events);
            var start := if id in s.offers then LinkOf(s.offers[id]) else Link(None, None);
            var link := LinkHistory(s.offers.Keys, start, events, id);
            && (id in t.offers <==> id in KnownIds(s.offers.Keys, events))
            && link == if id in t.offers then LinkOf(t.offers[id]) else Link(None, None)
  {
    RunKnows(s, events);
    if events != [] {
      RunLinks(s, events[..|events| - 1], id);
      RunKnows(s, events[..|events| - 1]);
      var before := Run(s, events[..|events| - 1]);
      match events[|events| - 1]
      case Sync(os, matcher, now) =>
        CommitsIffNoNewIdRepeats(before, os, matcher, now);
        ApplyAllLinks(before, os, matcher, now, id);
        MatchIsListed(os, matcher, id);
        LastListingIs(os, id);
      case GivenUp =>
      case Edit(other, choice) =>
    }
  }

  lemma {:induction false} MatchIsListed(os: seq<RemoteOffer>, matcher: Matcher, id: string)
    ensures LastMatch(os, matcher, id).Some? ==> LastListing(os, id).Some?
  {
    if os != [] {
      MatchIsListed(os[..|os| - 1], matcher, id);
    }
  }

  // ---------------------------------------------------------------- idempotence

  /** Offers listed under one id carry the same title, price, EAN and status. */
  predicate Unambiguous(os: seq<RemoteOffer>) {
    forall i, j :: 0 <= i < |os| && 0 <= j < |os| && os[i].id == os[j].id && Readable(os[i]) && Readable(os[j])
                   ==> SameListing(os[i], os[j])
  }

  lemma {:induction false} LastMatchOfUnambiguous(os: seq<RemoteOffer>, matcher: Matcher, o: RemoteOffer)
    requires Unambiguous(os) && o in os && Priced(o).Some?
    ensures LastMatch(os, matcher, o.id) == matcher(o.ean, o.title)
  {
    var init, last := os[..|os| - 1], os[|os| - 1];
    var i :| 0 <= i < |os| && os[i] == o;
    assert last.id == o.id && Priced(last).Some? ==> SameListing(os[|os| - 1], os[i]);
    if last.id == o.id && Priced(last).Some? && matcher(last.ean, last.title).Some? {
    } else if o in init {
      LastMatchOfUnambiguous(init, matcher, o);
    } else {
      assert o == last;
      NoMatchLeft(init, os, matcher, o);
    }
  }

  lemma {:induction false} NoMatchLeft(part: seq<RemoteOffer>, os: seq<RemoteOffer>, matcher: Matcher, o: RemoteOffer)
    requires Unambiguous(os) && o in os && Priced(o).Some? && matcher(o.ean, o.title).None?
    requires forall p :: p in part ==> p in os
    ensures LastMatch(part, matcher, o.id).None?
  {
    if part != [] {
      NoMatchLeft(part[..|part| - 1], os, matcher, o);
      var last := part[|part| - 1];
      assert last in os;
      var i :| 0 <= i < |os| && os[i] == o;
      var j :| 0 <= j < |os| && os[j] == last;
      assert last.id == o.id && Priced(last).Some? ==> SameListing(os[i], os[j]);
    }
  }

  /** On an unambiguous catalogue, a second pass over any prefix of it finds nothing to write. */
  lemma {:induction false} SecondPassIsIdle(t: Tables, os: seq<RemoteOffer>, part: seq<RemoteOffer>, matcher: Matcher, now: nat)
    requires part <= os
    requires forall o :: o in os && Priced(o).Some? ==>
               o.id in t.offers && !Differs(t.offers[o.id], o, Priced(o).value, matcher(o.ean, o.title))
    ensures ApplyAll(t, part, matcher, now) == t
  {
    if part != [] {
      SecondPassIsIdle(t, os, part[..|part| - 1], matcher, now);
      assert part[|part| - 1] in os;
    }
  }

  lemma NothingDiffersAfterSync(s: Tables, os: seq<RemoteOffer>, matcher: Matcher, now: nat, o: RemoteOffer)
    requires Unambiguous(os) && o in os && Priced(o).Some?
    ensures var t := Synchronised(s, os, matcher, now);
            o.id in t.offers && !Differs(t.offers[o.id], o, Priced(o).value, matcher(o.ean, o.title))
  {
    LastListingIs(os, o.id);
    SynchronisedOverwrites(s, os, matcher, now, o.id);
    var last := LastListing(os, o.id).value;
    var i :| 0 <= i < |os| && os[i] == o;
    var j :| 0 <= j < |os| && os[j] == last;
    assert SameListing(os[i], os[j]);
    ApplyAllLinks(s, os, matcher, now, o.id);
    LastMatchOfUnambiguous(os, matcher, o);
  }

  lemma {:induction false} DifferingListingIsWritten(s: Tables, os: seq<RemoteOffer>, matcher: Matcher, now: nat, o: RemoteOffer)
    requires o.id in s.offers && o in os && Priced(o).Some? && !Shows(s.offers[o.id], o)
    ensures var t := ApplyAll(s, os, matcher, now); o.id in t.offers && t.offers[o.id].syncedAt == now
  {
    var init, last := os[..|os| - 1], os[|os| - 1];
    ChangedRowsAreStamped(s, init, matcher, now, o.id);
    if o in init {
      DifferingListingIsWritten(s, init, matcher, now, o);
    } else {
      assert o == last;
    }
  }

  /** Direct upserts of the same catalogue again, later, change nothing exactly when no id is listed with two contents. */
  lemma SecondPassIdleIffUnambiguous(s: Tables, os: seq<RemoteOffer>, matcher: Matcher, now: nat, later: nat)
    requires forall id :: id in Synchronised(s, os, matcher, now).offers ==> Synchronised(s, os, matcher, now).offers[id].syncedAt < later
    ensures var once := Synchronised(s, os, matcher, now);
            Synchronised(once, os, matcher, later) == once <==> Unambiguous(os)
  {
    var once := Synchronised(s, os, matcher, now);
    if Unambiguous(os) {
      forall o | o in os && Priced(o).Some?
        ensures o.id in once.offers && !Differs(once.offers[o.id], o, Priced(o).value, matcher(o.ean, o.title))
      {
        NothingDiffersAfterSync(s, os, matcher, now, o);
      }
      SecondPassIsIdle(once, os, os, matcher, later);
      assert MarkStale(once, SyncedIds(os)).offers == once.offers;
    } else {
      var i, j :| 0 <= i < |os| && 0 <= j < |os| && os[i].id == os[j].id
                  && Priced(os[i]).Some? && Priced(os[j]).Some? && !SameListing(os[i], os[j]);
      var id := os[i].id;
      assert os[i] in os && os[j] in os;
      assert id in SyncedIds(os);
      LastListingIs(os, id);
      SynchronisedOverwrites(s, os, matcher, now, id);
      var o := if Shows(once.offers[id], os[i]) then os[j] else os[i];
      DifferingListingIsWritten(once, os, matcher, later, o);
      assert Synchronised(once, os, matcher, later).offers[id].syncedAt == later;
    }
  }

  /**
    * Synchronising the same catalogue again later, against the same warehouse, changes no row and adds no sample
    * exactly when no id is listed twice with different contents, or the first run was refused already: a catalogue
    * that repeats an id the table does not know is refused every time.
    */
  lemma SecondSyncIdleIffUnambiguous(s: Tables, os: seq<RemoteOffer>, matcher: Matcher, now: nat, later: nat)
    requires forall id :: id in After(s, os, matcher, now).offers ==> After(s, os, matcher, now).offers[id].syncedAt < later
    ensures var once := After(s, os, matcher, now);
            && (After(once, os, matcher, later) == once <==> Unambiguous(os) || RepeatsNewId(s.offers.Keys, os))
            && (Committed(once, os, matcher, later).Some? <==> Committed(s, os, matcher, now).Some?)
  {
    var once := After(s, os, matcher, now);
    CommitsIffNoNewIdRepeats(s, os, matcher, now);
    CommitsIffNoNewIdRepeats(once, os, matcher, later);
    if !RepeatsNewId(s.offers.Keys, os) {
      SecondPassIdleIffUnambiguous(s, os, matcher, now, later);
      SynchronisedKeys(s, os, matcher, now);
      assert forall i :: 0 <= i < |os| && Priced(os[i]).Some? ==> os[i] in os && os[i].id in SyncedIds(os);
    }
  }
}
