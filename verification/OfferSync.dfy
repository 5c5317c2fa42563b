/**
  * The local offer table and its price history, and the synchronisation that copies a remote catalogue into them.
  * Prices are whole grosze; an absent EAN or status is the empty string.
  */
module OfferTables {
  import opened Options

  datatype Price = Missing | Invalid | Amount(grosze: int)

  datatype RemoteOffer = RemoteOffer(id: string, title: string, price: Price, ean: string, status: string)

  /** A warehouse position: a product size and its product. */
  datatype Match = Match(productId: int, sizeId: int)

  /** The warehouse lookup by EAN, then by title. */
  type Matcher = (string, string) -> Option<Match>

  datatype Row = Row(title: string, price: int, ean: string, status: string,
                     productId: Option<int>, sizeId: Option<int>, syncedAt: nat)

  datatype Sample = Sample(offerId: string, sizeId: Option<int>, price: int, recordedAt: nat)

  datatype Tables = Tables(offers: map<string, Row>, history: seq<Sample>)

  /** A missing price counts as zero; an unreadable one makes the offer be skipped. */
  function Priced(o: RemoteOffer): Option<int> {
    match o.price
    case Missing => Some(0)
    case Invalid => None
    case Amount(g) => Some(g)
  }

  predicate Readable(o: RemoteOffer) {
    !o.price.Invalid?
  }

  function ProductOf(m: Option<Match>): Option<int> {
    if m.Some? then Some(m.value.productId) else None
  }

  function SizeOf(m: Option<Match>): Option<int> {
    if m.Some? then Some(m.value.sizeId) else None
  }

  predicate MappingMayUpdate(row: Row, m: Option<Match>) {
    m.Some? || (row.sizeId.None? && row.productId.None?)
  }

  predicate Differs(row: Row, o: RemoteOffer, price: int, m: Option<Match>) {
    || row.title != o.title
    || row.price != price
    || row.ean != o.ean
    || row.status != o.status
    || (MappingMayUpdate(row, m) && (row.productId != ProductOf(m) || row.sizeId != SizeOf(m)))
  }

  function Written(row: Row, o: RemoteOffer, price: int, m: Option<Match>, now: nat): Row {
    var r := Row(o.title, price, o.ean, o.status, row.productId, row.sizeId, now);
    if MappingMayUpdate(row, m) then r.(productId := ProductOf(m), sizeId := SizeOf(m)) else r
  }

  function NewRow(o: RemoteOffer, price: int, m: Option<Match>, now: nat): Row {
    Row(o.title, price, o.ean, o.status, ProductOf(m), SizeOf(m), now)
  }

  /** Upserting straight into the tables: insert, or write the row only when something differs; a sample when the price does. */
  function Upsert(s: Tables, o: RemoteOffer, price: int, m: Option<Match>, now: nat): Tables {
    var sample := Sample(o.id, SizeOf(m), price, now);
    if o.id !in s.offers then
      Tables(s.offers[o.id := NewRow(o, price, m, now)], s.history + [sample])
    else
      var row := s.offers[o.id];
      if !Differs(row, o, price, m) then s
      else Tables(s.offers[o.id := Written(row, o, price, m, now)],
                  if row.price != price then s.history + [sample] else s.history)
  }

  function Apply(s: Tables, o: RemoteOffer, matcher: Matcher, now: nat): Tables {
    if Priced(o).None? then s else Upsert(s, o, Priced(o).value, matcher(o.ean, o.title), now)
  }

  function ApplyAll(s: Tables, os: seq<RemoteOffer>, matcher: Matcher, now: nat): Tables {
    if os == [] then s
    else Apply(ApplyAll(s, os[..|os| - 1], matcher, now), os[|os| - 1], matcher, now)
  }

  function SyncedIds(os: seq<RemoteOffer>): set<string> {
    set o | o in os && Priced(o).Some? :: o.id
  }

  /** Rows still ACTIVE that the catalogue no longer lists become ENDED; nothing happens if nothing was synced. */
  function MarkStale(s: Tables, ids: set<string>): Tables {
    if ids == {} then s
    else s.(offers := map id | id in s.offers ::
                        if s.offers[id].status == "ACTIVE" && id !in ids then s.offers[id].(status := "ENDED") else s.offers[id])
  }

  /** Upserting `os` one after the other straight into the tables, then marking stale rows. */
  function Synchronised(s: Tables, os: seq<RemoteOffer>, matcher: Matcher, now: nat): Tables {
    MarkStale(ApplyAll(s, os, matcher, now), SyncedIds(os))
  }

  // ---------------------------------------------------------------- the database session

  /** A row added in a session and not yet written to the database. */
  datatype Fresh = Fresh(id: string, row: Row)

  /** A session that never flushes before its end: its queries see rows of the database, never the added ones. */
  datatype Work = Work(loaded: map<string, Row>, added: seq<Fresh>, history: seq<Sample>)

  function Opened(s: Tables): Work {
    Work(s.offers, [], s.history)
  }

  /** `upsert_offer_from_api` in a session: an id the database does not know is added, however often it was added before. */
  function Upserted(w: Work, o: RemoteOffer, price: int, m: Option<Match>, now: nat): Work {
    if o.id !in w.loaded then
      Work(w.loaded, w.added + [Fresh(o.id, NewRow(o, price, m, now))], w.history + [Sample(o.id, SizeOf(m), price, now)])
    else
      var t := Upsert(Tables(w.loaded, w.history), o, price, m, now);
      Work(t.offers, w.added, t.history)
  }

  function UpsertedAll(w: Work, os: seq<RemoteOffer>, matcher: Matcher, now: nat): Work {
    if os == [] then w else
    var before, o := UpsertedAll(w, os[..|os| - 1], matcher, now), os[|os| - 1];
    if Priced(o).None? then before else Upserted(before, o, Priced(o).value, matcher(o.ean, o.title), now)
  }

  function Marked(w: Work, ids: set<string>): Work {
    w.(loaded := MarkStale(Tables(w.loaded, w.history), ids).offers)
  }

  predicate DistinctIds(added: seq<Fresh>) {
    forall i, j :: 0 <= i < j < |added| ==> added[i].id != added[j].id
  }

  function IdsOf(added: seq<Fresh>): set<string> {
    set f | f in added :: f.id
  }

  /** The flush: the added rows are inserted one by one; the id column is unique. */
  function Inserted(loaded: map<string, Row>, added: seq<Fresh>): Option<map<string, Row>> {
    if added == [] then Some(loaded) else
    var before, last := Inserted(loaded, added[..|added| - 1]), added[|added| - 1];
    if before.None? || last.id in before.value then None else Some(before.value[last.id := last.row])
  }

  function Flushed(w: Work): Option<Tables> {
    var offers := Inserted(w.loaded, w.added);
    if offers.Some? then Some(Tables(offers.value, w.history)) else None
  }

  /** The tables committed by a run that visited `os`, None if its flush is refused and the run rolled back. */
  function Committed(s: Tables, os: seq<RemoteOffer>, matcher: Matcher, now: nat): Option<Tables> {
    Flushed(Marked(UpsertedAll(Opened(s), os, matcher, now), SyncedIds(os)))
  }

  /** The tables after a run that visited `os`, committed or rolled back. */
  function After(s: Tables, os: seq<RemoteOffer>, matcher: Matcher, now: nat): Tables {
    match Committed(s, os, matcher, now)
    case Some(t) => t
    case None => s
  }

  /** Some id the table does not know has two readable listings. */
  ghost predicate RepeatsNewId(known: set<string>, os: seq<RemoteOffer>) {
    exists i, j :: 0 <= i < j < |os| && os[i].id == os[j].id && os[i].id !in known && Readable(os[i]) && Readable(os[j])
  }

  /** The manual link form: clear the link, or choose a size (`product` is its product, None if it is unknown). */
  datatype Choice = Clear | Choose(sizeId: int, product: Option<int>)

  function Linked(s: Tables, id: string, choice: Choice): Tables {
    if id !in s.offers then s else
    match choice
    case Clear => s.(offers := s.offers[id := s.offers[id].(productId := None, sizeId := None)])
    case Choose(size, product) =>
      if product.None? then s
      else s.(offers := s.offers[id := s.offers[id].(productId := product, sizeId := Some(size))])
  }

  function CountMatched(os: seq<RemoteOffer>, matcher: Matcher): nat {
    if os == [] then 0
    else CountMatched(os[..|os| - 1], matcher) +
         (var o := os[|os| - 1]; if Priced(o).Some? && matcher(o.ean, o.title).Some? then 1 else 0)
  }
}

/** `sync_offers`: the paging loop with its token handling, and the single transaction around it. */
module OfferSync {
  import opened Options
  import opened OfferTables

  const LIMIT: nat := 100

  /** The token endpoint's answer; an empty string is a missing field. */
  datatype Renewal = RenewalFailed | Renewed(access: string, refresh: string)

  /** What one catalogue request comes back with. `stored` are the tokens another process may have saved. */
  datatype Reply =
    | Page(offers: seq<RemoteOffer>, total: int)
    | Unauthorized(stored: string, storedRefresh: string, renewal: Renewal)
    | Broken

  /** The outside world: the answer to the n-th request, at the offset it asks for. */
  type Api = (nat, nat) -> Reply

  datatype Ending = Finished | Failed | Waiting

  datatype Tokens = Tokens(access: string, refresh: string)

  datatype Walked = Walked(visited: seq<RemoteOffer>, ending: Ending)

  /** The tokens to go on with after a 401, None when the run has to be given up. */
  function Recover(t: Tokens, stored: string, storedRefresh: string, renewal: Renewal): Option<Tokens> {
    if t.refresh == "" then None
    else if stored != "" && stored != t.access then
      Some(Tokens(stored, if storedRefresh != "" then storedRefresh else t.refresh))
    else if renewal.RenewalFailed? || renewal.access == "" then None
    else Some(Tokens(renewal.access, if renewal.refresh != "" then renewal.refresh else t.refresh))
  }

  function LogIn(t: Tokens, renewal: Renewal): Option<Tokens> {
    if t.access != "" then Some(t)
    else if t.refresh == "" || renewal.RenewalFailed? || renewal.access == "" then None
    else Some(Tokens(renewal.access, if renewal.refresh != "" then renewal.refresh else t.refresh))
  }

  /** What the loop visits from call `n` on; `budget` more requests are answered before the world falls silent. */
  function Walk(api: Api, n: nat, budget: nat, offset: nat, fetched: nat, t: Tokens): Walked
    decreases budget
  {
    if budget == 0 then Walked([], Waiting) else
    match api(n, offset)
    case Broken => Walked([], Failed)
    case Unauthorized(stored, storedRefresh, renewal) =>
      (match Recover(t, stored, storedRefresh, renewal)
       case None => Walked([], Failed)
       case Some(t') => Walk(api, n + 1, budget - 1, offset, fetched, t'))
    case Page(offers, total) =>
      if fetched + |offers| >= total then Walked(offers, Finished)
      else var w := Walk(api, n + 1, budget - 1, offset + LIMIT, fetched + |offers|, t);
           Walked(offers + w.visited, w.ending)
  }

  function WalkFrom(api: Api, budget: nat, t: Tokens, renewal: Renewal): Walked {
    match LogIn(t, renewal)
    case None => Walked([], Failed)
    case Some(t') => Walk(api, 0, budget, 0, 0, t')
  }

  // ---------------------------------------------------------------- what a run comes to, request by request

  function PagesIn(replies: seq<Reply>): nat {
    if replies == [] then 0 else PagesIn(replies[..|replies| - 1]) + if replies[|replies| - 1].Page? then 1 else 0
  }

  function OffersIn(replies: seq<Reply>): seq<RemoteOffer> {
    if replies == [] then []
    else OffersIn(replies[..|replies| - 1]) + if replies[|replies| - 1].Page? then replies[|replies| - 1].offers else []
  }

  /** The stored access token is there and is another one: some other process has refreshed it. */
  predicate HasOther(t: Tokens, r: Reply)
    requires r.Unauthorized?
  {
    r.stored != "" && r.stored != t.access
  }

  /** A request that ends the run in an error. */
  predicate GivesUp(t: Tokens, r: Reply) {
    || r.Broken?
    || (r.Unauthorized? && t.refresh == "")
    || (r.Unauthorized? && !HasOther(t, r) && (r.renewal.RenewalFailed? || r.renewal.access == ""))
  }

  /** The tokens after a 401: the stored pair if there is another, else the renewed one; a missing refresh token is kept. */
  predicate TokensAfter(t: Tokens, r: Reply, t': Tokens)
    requires r.Unauthorized?
  {
    if HasOther(t, r) then
      t'.access == r.stored && (if r.storedRefresh == "" then t'.refresh == t.refresh else t'.refresh == r.storedRefresh)
    else
      && r.renewal.Renewed? && t'.access == r.renewal.access
      && (if r.renewal.refresh == "" then t'.refresh == t.refresh else t'.refresh == r.renewal.refresh)
  }

  /** The answer to the request after `replies`: request number k is asked at 100 times the pages served before it. */
  function NextReply(api: Api, replies: seq<Reply>): Reply {
    api(|replies|, 100 * PagesIn(replies))
  }

  /** After this answer the loop goes on: a page short of the announced total, or a 401 that other tokens may cure. */
  predicate GoesOn(before: seq<Reply>, r: Reply, t: Tokens, t': Tokens) {
    if r.Page? then t' == t && |OffersIn(before) + r.offers| < r.total else !GivesUp(t, r) && TokensAfter(t, r, t')
  }

  /** A beginning of the run: the answers met so far, the tokens used for each, and the loop went on after each. */
  ghost predicate Course(api: Api, start: Tokens, replies: seq<Reply>, ts: seq<Tokens>) {
    && |ts| == |replies| + 1
    && if replies == [] then ts[0] == start else
       var n := |replies| - 1;
       && Course(api, start, replies[..n], ts[..n + 1])
       && replies[n] == NextReply(api, replies[..n])
       && GoesOn(replies[..n], replies[n], ts[n], ts[n + 1])
  }

  ghost predicate FailsAfter(api: Api, start: Tokens, replies: seq<Reply>, ts: seq<Tokens>) {
    Course(api, start, replies, ts) && GivesUp(ts[|replies|], NextReply(api, replies))
  }

  /** The next answer is the last page: with it the announced total is reached. */
  ghost predicate CompletesAfter(api: Api, start: Tokens, replies: seq<Reply>, ts: seq<Tokens>) {
    && Course(api, start, replies, ts) && NextReply(api, replies).Page?
    && |OffersIn(replies) + NextReply(api, replies).offers| >= NextReply(api, replies).total
  }

  /** There is no access token, and none can be had. */
  predicate CannotLogIn(t: Tokens, renewal: Renewal) {
    t.access == "" && (t.refresh == "" || renewal.RenewalFailed? || renewal.access == "")
  }

  /** The tokens a run starts with. */
  predicate LogsInWith(t: Tokens, renewal: Renewal, start: Tokens) {
    if t.access != "" then start == t
    else
      && t.refresh != "" && renewal.Renewed? && renewal.access != "" && start.access == renewal.access
      && (if renewal.refresh == "" then start.refresh == t.refresh else start.refresh == renewal.refresh)
  }

  /** Within `budget` requests, some request fails after a course of recovered 401s and pages short of the total; or there is no login. */
  ghost predicate RunFails(api: Api, budget: nat, t: Tokens, renewal: Renewal) {
    CannotLogIn(t, renewal) ||
    exists start, replies, ts ::
      LogsInWith(t, renewal, start) && |replies| < budget && FailsAfter(api, start, replies, ts)
  }

  /** Within `budget` requests, a page reaches the total; `visited` are the offers of all pages. */
  ghost predicate RunCompletes(api: Api, budget: nat, t: Tokens, renewal: Renewal, visited: seq<RemoteOffer>) {
    exists start, replies, ts ::
      && LogsInWith(t, renewal, start) && |replies| < budget && CompletesAfter(api, start, replies, ts)
      && visited == OffersIn(replies) + NextReply(api, replies).offers
  }

  /** A database session: rows of the offer table as it sees and changes them, added rows and samples. */
  class Session {
    var loaded: map<string, Row>
    var added: seq<Fresh>
    var history: seq<Sample>

    constructor (s: Tables)
      ensures View() == Opened(s)
    {
      loaded, added, history := s.offers, [], s.history;
    }

    function View(): Work
      reads this
    {
      Work(loaded, added, history)
    }

    method RecordPricePoint(offerId: string, sizeId: Option<int>, price: int, recordedAt: nat)
      modifies this`history
      ensures history == old(history) + [Sample(offerId, sizeId, price, recordedAt)]
    {
      history := history + [Sample(offerId, sizeId, price, recordedAt)];
    }

    method UpsertOffer(o: RemoteOffer, price: int, m: Option<Match>, now: nat)
      modifies this
      ensures View() == Upserted(old(View()), o, price, m, now)
    {
      if o.id !in loaded {
        added := added + [Fresh(o.id, Row(o.title, price, o.ean, o.status, ProductOf(m), SizeOf(m), now))];
        RecordPricePoint(o.id, SizeOf(m), price, now);
        return;
      }
      var row := loaded[o.id];
      var mayUpdate := m.Some? || (row.sizeId.None? && row.productId.None?);
      var mappingChanged := false;
      if mayUpdate {
        mappingChanged := row.productId != ProductOf(m) || row.sizeId != SizeOf(m);
      }
      if row.title == o.title && row.price == price && row.ean == o.ean && row.status == o.status && !mappingChanged {
        return;
      }
      var written := row.(title := o.title, price := price, ean := o.ean, status := o.status, syncedAt := now);
      if mayUpdate {
        written := written.(productId := ProductOf(m), sizeId := SizeOf(m));
      }
      loaded := loaded[o.id := written];
      if row.price != price {
        RecordPricePoint(o.id, SizeOf(m), price, now);
      }
    }

    /** The rows of one page, one after the other. */
    method ApplyPage(page: seq<RemoteOffer>, matcher: Matcher, now: nat) returns (ids: set<string>, matched: nat)
      modifies this
      ensures View() == UpsertedAll(old(View()), page, matcher, now)
      ensures ids == SyncedIds(page) && matched == CountMatched(page, matcher)
    {
      ids, matched := {}, 0;
      for i := 0 to |page|
        invariant View() == UpsertedAll(old(View()), page[..i], matcher, now)
        invariant ids == SyncedIds(page[..i]) && matched == CountMatched(page[..i], matcher)
      {
        var o := page[i];
        assert page[..i + 1][..i] == page[..i];
        assert page[..i + 1] == page[..i] + [o];
        var price := Priced(o);
        if price.Some? {
          var m := matcher(o.ean, o.title);
          ids := ids + {o.id};
          UpsertOffer(o, price.value, m, now);
          if m.Some? {
            matched := matched + 1;
          }
        }
      }
      assert page[..|page|] == page;
    }

    /** One page on top of what was gathered so far. */
    method TakePage(page: seq<RemoteOffer>, matcher: Matcher, now: nat, ids0: set<string>, fetched0: nat, matched0: nat,
                    ghost saved: Work, ghost visited: seq<RemoteOffer>)
      returns (ids: set<string>, fetched: nat, matched: nat)
      requires Collected(saved, visited, matcher, now, View(), ids0, fetched0, matched0)
      modifies this
      ensures Collected(saved, visited + page, matcher, now, View(), ids, fetched, matched)
      ensures fetched == fetched0 + |page|
    {
      var pageIds, pageMatched := ApplyPage(page, matcher, now);
      PageCollected(saved, visited, page, matcher, now);
      ids, fetched, matched := ids0 + pageIds, fetched0 + |page|, matched0 + pageMatched;
    }

    /** The paging loop: ask, recover from a 401 with other tokens, apply the page, move to the next one. */
    method WalkPages(api: Api, budget: nat, tokens: Tokens, matcher: Matcher, now: nat)
      returns (ending: Ending, ids: set<string>, fetched: nat, matched: nat)
      modifies this
      ensures var w := Walk(api, 0, budget, 0, 0, tokens);
              && ending == w.ending
              && (ending.Finished? ==> Collected(old(View()), w.visited, matcher, now, View(), ids, fetched, matched))
    {
      var t := tokens;
      var offset: nat, n: nat := 0, 0;
      ids, fetched, matched := {}, 0, 0;
      ghost var visited: seq<RemoteOffer> := [];
      ghost var saved, whole := View(), Walk(api, 0, budget, 0, 0, tokens);
      while n < budget
        invariant n <= budget
        invariant Collected(saved, visited, matcher, now, View(), ids, fetched, matched)
        invariant OnTrack(whole, visited, Walk(api, n, budget - n, offset, fetched, t))
        decreases budget - n
      {
        match api(n, offset) {
          case Broken =>
            ending := Failed;
            return;
          case Unauthorized(stored, storedRefresh, again) =>
            var recovered := Recover(t, stored, storedRefresh, again);
            if recovered.None? {
              ending := Failed;
              return;
            }
            RetryOnTrack(whole, visited, api, n, budget - n, offset, fetched, t, recovered.value);
            t := recovered.value;
          case Page(page, total) =>
            PageOnTrack(whole, visited, page, api, n, budget - n, offset, fetched, t);
            ids, fetched, matched := TakePage(page, matcher, now, ids, fetched, matched, saved, visited);
            visited := visited + page;
            if fetched >= total {
              ending := Finished;
              return;
            }
            offset := offset + LIMIT;
        }
        n := n + 1;
      }
      ending := Waiting;
    }

    method EndStale(ids: set<string>)
      modifies this`loaded
      ensures View() == Marked(old(View()), ids)
    {
      if ids != {} {
        loaded := map id | id in loaded ::
          if loaded[id].status == "ACTIVE" && id !in ids then loaded[id].(status := "ENDED") else loaded[id];
      }
    }

    /** Writes the added rows; the unique id column refuses a second one under an id. */
    method Flush() returns (written: Option<Tables>)
      ensures written == Flushed(View())
    {
      var offers := loaded;
      for i := 0 to |added|
        invariant Inserted(loaded, added[..i]) == Some(offers)
      {
        assert added[..i + 1][..i] == added[..i];
        if added[i].id in offers {
          RefusedForGood(loaded, added, i + 1);
          return None;
        }
        offers := offers[added[i].id := added[i].row];
      }
      assert added[..|added|] == added;
      return Some(Tables(offers, history));
    }
  }

  lemma {:induction false} RefusedForGood(loaded: map<string, Row>, added: seq<Fresh>, k: nat)
    requires k <= |added| && Inserted(loaded, added[..k]).None?
    ensures Inserted(loaded, added).None?
  {
    if k < |added| {
      assert added[..|added| - 1][..k] == added[..k];
      RefusedForGood(loaded, added[..|added| - 1], k);
    } else {
      assert added[..k] == added;
    }
  }

  /** The offer table and the price history as they are committed. */
  class OfferStore {
    var offers: map<string, Row>
    var history: seq<Sample>

    constructor ()
      ensures View() == Tables(map[], [])
    {
      offers, history := map[], [];
    }

    function View(): Tables
      reads this
    {
      Tables(offers, history)
    }

    method LinkOffer(id: string, choice: Choice)
      modifies this
      ensures View() == Linked(old(View()), id, choice)
    {
      if id !in offers {
        return;
      }
      match choice {
        case Clear =>
          offers := offers[id := offers[id].(productId := None, sizeId := None)];
        case Choose(size, product) =>
          if product.Some? {
            offers := offers[id := offers[id].(productId := product, sizeId := Some(size))];
          }
      }
    }

    /**
      * One synchronisation in one session. Only a run whose loop finishes and whose flush is accepted commits; an
      * error rolls back, and a loop still waiting for an answer has committed nothing.
      */
    method SyncOffers(api: Api, budget: nat, tokens: Tokens, renewal: Renewal, matcher: Matcher, now: nat)
      returns (ending: Ending, fetched: nat, matched: nat)
      modifies this
      ensures ending.Finished? <==>
                exists visited :: RunCompletes(api, budget, tokens, renewal, visited)
                                  && Committed(old(View()), visited, matcher, now).Some?
      ensures forall visited :: ending.Finished? && RunCompletes(api, budget, tokens, renewal, visited) ==>
                Committed(old(View()), visited, matcher, now) == Some(View())
                && fetched == |visited| && matched == |MatchedAt(visited, matcher)|
      ensures ending.Failed? <==>
                || RunFails(api, budget, tokens, renewal)
                || (exists visited :: RunCompletes(api, budget, tokens, renewal, visited)
                                      && Committed(old(View()), visited, matcher, now).None?)
      ensures !ending.Finished? ==> View() == old(View())
    {
      WalkEndsAsMet(api, budget, tokens, renewal);
      var login := LogIn(tokens, renewal);
      if login.None? {
        return Failed, 0, 0;
      }
      var session := new Session(View());
      var ids: set<string>;
      ending, ids, fetched, matched := session.WalkPages(api, budget, login.value, matcher, now);
      if ending.Finished? {
        session.EndStale(ids);
        var written := session.Flush();
        CountMatchedIs(WalkFrom(api, budget, tokens, renewal).visited, matcher);
        if written.None? {
          return Failed, 0, 0;
        }
        offers, history := written.value.offers, written.value.history;
      }
    }
  }

  /** What the loop has gathered after visiting `visited`. */
  ghost predicate Collected(saved: Work, visited: seq<RemoteOffer>, matcher: Matcher, now: nat,
                            view: Work, ids: set<string>, fetched: nat, matched: nat) {
    && view == UpsertedAll(saved, visited, matcher, now)
    && ids == SyncedIds(visited) && fetched == |visited| && matched == CountMatched(visited, matcher)
  }

  lemma PageCollected(saved: Work, visited: seq<RemoteOffer>, page: seq<RemoteOffer>, matcher: Matcher, now: nat)
    ensures Collected(saved, visited + page, matcher, now,
                      UpsertedAll(UpsertedAll(saved, visited, matcher, now), page, matcher, now),
                      SyncedIds(visited) + SyncedIds(page), |visited| + |page|,
                      CountMatched(visited, matcher) + CountMatched(page, matcher))
  {
    UpsertedAllConcat(saved, visited, page, matcher, now);
    CountMatchedConcat(visited, page, matcher);
    assert forall o :: o in visited + page <==> o in visited || o in page;
  }

  /** The whole walk is what was visited so far followed by the walk that remains. */
  ghost predicate OnTrack(whole: Walked, visited: seq<RemoteOffer>, rest: Walked) {
    whole == Walked(visited + rest.visited, rest.ending)
  }

  lemma PageOnTrack(whole: Walked, visited: seq<RemoteOffer>, page: seq<RemoteOffer>,
                    api: Api, n: nat, budget: nat, offset: nat, fetched: nat, t: Tokens)
    requires budget > 0 && api(n, offset).Page? && api(n, offset).offers == page
    requires OnTrack(whole, visited, Walk(api, n, budget, offset, fetched, t))
    ensures if fetched + |page| >= api(n, offset).total
            then whole == Walked(visited + page, Finished)
            else OnTrack(whole, visited + page, Walk(api, n + 1, budget - 1, offset + LIMIT, fetched + |page|, t))
  {
    var rest := Walk(api, n + 1, budget - 1, offset + LIMIT, fetched + |page|, t).visited;
    assert visited + (page + rest) == (visited + page) + rest;
  }

  lemma RetryOnTrack(whole: Walked, visited: seq<RemoteOffer>, api: Api, n: nat, budget: nat, offset: nat, fetched: nat,
                     t: Tokens, t': Tokens)
    requires budget > 0 && api(n, offset).Unauthorized?
    requires var r := api(n, offset); Recover(t, r.stored, r.storedRefresh, r.renewal) == Some(t')
    requires OnTrack(whole, visited, Walk(api, n, budget, offset, fetched, t))
    ensures OnTrack(whole, visited, Walk(api, n + 1, budget - 1, offset, fetched, t'))
  {
  }

  /** A course is the beginning of the walk: what is left of the walk starts where the course ends. */
  lemma {:induction false} CourseOnTrack(api: Api, budget: nat, start: Tokens, replies: seq<Reply>, ts: seq<Tokens>)
    requires Course(api, start, replies, ts) && |replies| <= budget
    ensures OnTrack(Walk(api, 0, budget, 0, 0, start), OffersIn(replies),
                    Walk(api, |replies|, budget - |replies|, LIMIT * PagesIn(replies), |OffersIn(replies)|, ts[|replies|]))
  {
    if replies != [] {
      var n := |replies| - 1;
      assert replies == replies[..n] + [replies[n]];
      CourseOnTrack(api, budget, start, replies[..n], ts[..n + 1]);
      CourseStep(Walk(api, 0, budget, 0, 0, start), api, budget - n, replies[..n], replies[n], ts[n], ts[n + 1]);
    }
  }

  lemma CourseStep(whole: Walked, api: Api, budget: nat, init: seq<Reply>, last: Reply, t: Tokens, t': Tokens)
    requires budget > 0 && last == NextReply(api, init)
    requires GoesOn(init, last, t, t')
    requires OnTrack(whole, OffersIn(init), Walk(api, |init|, budget, LIMIT * PagesIn(init), |OffersIn(init)|, t))
    ensures var replies := init + [last];
            OnTrack(whole, OffersIn(replies),
                    Walk(api, |replies|, budget - 1, LIMIT * PagesIn(replies), |OffersIn(replies)|, t'))
  {
    assert (init + [last])[..|init|] == init;
    var fetched := |OffersIn(init)|;
    if last.Page? {
      PageOnTrack(whole, OffersIn(init), last.offers, api, |init|, budget, LIMIT * PagesIn(init), fetched, t);
    } else {
      RecoverIs(t, last, t');
      RetryOnTrack(whole, OffersIn(init), api, |init|, budget, LIMIT * PagesIn(init), fetched, t, t');
      assert OffersIn(init + [last]) == OffersIn(init);
    }
  }

  lemma CourseNext(api: Api, start: Tokens, replies: seq<Reply>, ts: seq<Tokens>, t: Tokens)
    requires Course(api, start, replies, ts) && GoesOn(replies, NextReply(api, replies), ts[|replies|], t)
    ensures Course(api, start, replies + [NextReply(api, replies)], ts + [t])
  {
    var n := |replies|;
    assert (replies + [NextReply(api, replies)])[..n] == replies && (ts + [t])[..n + 1] == ts;
  }

  lemma RecoverIs(t: Tokens, r: Reply, t': Tokens)
    requires r.Unauthorized?
    ensures GivesUp(t, r) <==> Recover(t, r.stored, r.storedRefresh, r.renewal).None?
    ensures !GivesUp(t, r) ==> (TokensAfter(t, r, t') <==> Recover(t, r.stored, r.storedRefresh, r.renewal) == Some(t'))
  {
  }

  /** From any course on, the walk ends in one of three ways, and a longer course shows which. */
  lemma {:induction false} WalkHasCourse(api: Api, budget: nat, start: Tokens, replies: seq<Reply>, ts: seq<Tokens>)
    returns (all: seq<Reply>, allTs: seq<Tokens>)
    requires Course(api, start, replies, ts) && |replies| <= budget
    ensures Course(api, start, all, allTs) && |all| <= budget
    ensures var w := Walk(api, 0, budget, 0, 0, start);
            match w.ending
            case Failed => |all| < budget && FailsAfter(api, start, all, allTs)
            case Finished => |all| < budget && CompletesAfter(api, start, all, allTs)
                             && w.visited == OffersIn(all) + NextReply(api, all).offers
            case Waiting => |all| == budget
    decreases budget - |replies|
  {
    all, allTs := replies, ts;
    CourseOnTrack(api, budget, start, replies, ts);
    if |replies| < budget {
      var r, t := NextReply(api, replies), ts[|replies|];
      if r.Page? {
        PageOnTrack(Walk(api, 0, budget, 0, 0, start), OffersIn(replies), r.offers, api, |replies|, budget - |replies|,
                    LIMIT * PagesIn(replies), |OffersIn(replies)|, t);
        if |OffersIn(replies) + r.offers| < r.total {
          CourseNext(api, start, replies, ts, t);
          all, allTs := WalkHasCourse(api, budget, start, replies + [r], ts + [t]);
        }
      } else if !GivesUp(t, r) {
        RecoverIs(t, r, t);
        var t' := Recover(t, r.stored, r.storedRefresh, r.renewal).value;
        RecoverIs(t, r, t');
        CourseNext(api, start, replies, ts, t');
        all, allTs := WalkHasCourse(api, budget, start, replies + [r], ts + [t']);
      } else if r.Unauthorized? {
        RecoverIs(t, r, t);
      }
    }
  }

  lemma FailureEndsWalk(api: Api, budget: nat, start: Tokens, replies: seq<Reply>, ts: seq<Tokens>)
    requires FailsAfter(api, start, replies, ts) && |replies| < budget
    ensures Walk(api, 0, budget, 0, 0, start).ending.Failed?
  {
    CourseOnTrack(api, budget, start, replies, ts);
    var r, t := NextReply(api, replies), ts[|replies|];
    if r.Unauthorized? {
      RecoverIs(t, r, t);
    }
  }

  lemma CompletionEndsWalk(api: Api, budget: nat, start: Tokens, replies: seq<Reply>, ts: seq<Tokens>)
    requires CompletesAfter(api, start, replies, ts) && |replies| < budget
    ensures Walk(api, 0, budget, 0, 0, start) == Walked(OffersIn(replies) + NextReply(api, replies).offers, Finished)
  {
    CourseOnTrack(api, budget, start, replies, ts);
    PageOnTrack(Walk(api, 0, budget, 0, 0, start), OffersIn(replies), NextReply(api, replies).offers, api, |replies|,
                budget - |replies|, LIMIT * PagesIn(replies), |OffersIn(replies)|, ts[|replies|]);
  }

  lemma LogInIs(t: Tokens, renewal: Renewal, start: Tokens)
    ensures CannotLogIn(t, renewal) <==> LogIn(t, renewal).None?
    ensures LogsInWith(t, renewal, start) <==> LogIn(t, renewal) == Some(start)
  {
  }

  /** The request-by-request walk ends as the answers it meets say, whatever the API answers. */
  lemma WalkEndsAsMet(api: Api, budget: nat, t: Tokens, renewal: Renewal)
    ensures WalkFrom(api, budget, t, renewal).ending.Failed? <==> RunFails(api, budget, t, renewal)
    ensures forall visited :: RunCompletes(api, budget, t, renewal, visited)
                              <==> WalkFrom(api, budget, t, renewal) == Walked(visited, Finished)
  {
    var w := WalkFrom(api, budget, t, renewal);
    LogInIs(t, renewal, t);
    if LogIn(t, renewal).Some? {
      var start := LogIn(t, renewal).value;
      LogInIs(t, renewal, start);
      assert Course(api, start, [], [start]);
      var replies, ts := WalkHasCourse(api, budget, start, [], [start]);
    }
    if RunFails(api, budget, t, renewal) && !CannotLogIn(t, renewal) {
      var start, replies, ts :| LogsInWith(t, renewal, start) && |replies| < budget && FailsAfter(api, start, replies, ts);
      LogInIs(t, renewal, start);
      FailureEndsWalk(api, budget, start, replies, ts);
    }
    forall visited | RunCompletes(api, budget, t, renewal, visited)
      ensures w == Walked(visited, Finished)
    {
      var start, replies, ts :| LogsInWith(t, renewal, start) && |replies| < budget && CompletesAfter(api, start, replies, ts)
                                && visited == OffersIn(replies) + NextReply(api, replies).offers;
      LogInIs(t, renewal, start);
      CompletionEndsWalk(api, budget, start, replies, ts);
    }
  }

  lemma {:induction false} UpsertedAllConcat(w: Work, a: seq<RemoteOffer>, b: seq<RemoteOffer>, matcher: Matcher, now: nat)
    ensures UpsertedAll(w, a + b, matcher, now) == UpsertedAll(UpsertedAll(w, a, matcher, now), b, matcher, now)
  {
    if b == [] {
      assert a + b == a;
    } else {
      assert (a + b)[..|a + b| - 1] == a + b[..|b| - 1];
      UpsertedAllConcat(w, a, b[..|b| - 1], matcher, now);
    }
  }

  lemma {:induction false} CountMatchedConcat(a: seq<RemoteOffer>, b: seq<RemoteOffer>, matcher: Matcher)
    ensures CountMatched(a + b, matcher) == CountMatched(a, matcher) + CountMatched(b, matcher)
  {
    if b == [] {
      assert a + b == a;
    } else {
      assert (a + b)[..|a + b| - 1] == a + b[..|b| - 1];
      CountMatchedConcat(a, b[..|b| - 1], matcher);
    }
  }

  /** The visited offers that are readable and have a place in the warehouse. */
  ghost function MatchedAt(os: seq<RemoteOffer>, matcher: Matcher): set<int> {
    set i | 0 <= i < |os| && Readable(os[i]) && matcher(os[i].ean, os[i].title).Some?
  }

  lemma {:induction false} CountMatchedIs(os: seq<RemoteOffer>, matcher: Matcher)
    ensures CountMatched(os, matcher) == |MatchedAt(os, matcher)|
  {
    if os != [] {
      var n := |os| - 1;
      CountMatchedIs(os[..n], matcher);
      var before := MatchedAt(os[..n], matcher);
      assert forall i :: 0 <= i < n ==> os[..n][i] == os[i];
      if Readable(os[n]) && matcher(os[n].ean, os[n].title).Some? {
        assert MatchedAt(os, matcher) == before + {n};
      } else {
        assert MatchedAt(os, matcher) == before;
      }
    }
  }

  // ---------------------------------------------------------------- a stable catalogue

  function Least(a: int, b: int): int {
    if a < b then a else b
  }

  function Slice(cat: seq<RemoteOffer>, offset: nat): seq<RemoteOffer> {
    if offset >= |cat| then [] else cat[offset..Least(offset + LIMIT, |cat|)]
  }

  /**
    * Every request is answered from `cat`, announced as `total` offers, except the requests numbered in `denied`,
    * which meet a recoverable 401.
    */
  ghost predicate Serves(api: Api, cat: seq<RemoteOffer>, total: int, denied: set<nat>) {
    forall n: nat, offset: nat ::
      if n in denied
      then api(n, offset).Unauthorized? && api(n, offset).renewal.Renewed? && api(n, offset).renewal.access != ""
      else api(n, offset) == Page(Slice(cat, offset), total)
  }

  /** The pages asked for from `offset` on until `total` offers are there: at least one. */
  function PagesFrom(total: int, offset: nat): nat
    decreases total - offset
  {
    if offset + LIMIT >= total then 1 else 1 + PagesFrom(total, offset + LIMIT)
  }

  ghost function Ahead(denied: set<nat>, n: nat): set<nat> {
    set k | k in denied && k >= n
  }

  lemma AheadShrinks(denied: set<nat>, n: nat)
    ensures |Ahead(denied, n)| == |Ahead(denied, n + 1)| + if n in denied then 1 else 0
  {
    if n in denied {
      assert Ahead(denied, n) == Ahead(denied, n + 1) + {n};
    } else {
      assert Ahead(denied, n) == Ahead(denied, n + 1);
    }
  }

  /** What a loop that stops at `total` visits of the catalogue from `offset` on: whole pages. */
  function Seen(cat: seq<RemoteOffer>, total: int, offset: nat): seq<RemoteOffer>
    requires offset <= |cat|
  {
    cat[offset..Least(|cat|, offset + LIMIT * PagesFrom(total, offset))]
  }

  lemma SeenNext(cat: seq<RemoteOffer>, total: int, offset: nat)
    requires offset <= |cat| && total <= |cat|
    ensures Seen(cat, total, offset)
            == if offset + LIMIT < total then Slice(cat, offset) + Seen(cat, total, offset + LIMIT) else Slice(cat, offset)
  {
  }

  lemma WalkSlice(api: Api, cat: seq<RemoteOffer>, total: int, n: nat, budget: nat, offset: nat, t: Tokens)
    requires budget > 0 && offset <= |cat| && total <= |cat| && api(n, offset) == Page(Slice(cat, offset), total)
    ensures var w := Walk(api, n, budget, offset, offset, t);
            if offset + LIMIT < total
            then var rest := Walk(api, n + 1, budget - 1, offset + LIMIT, offset + LIMIT, t);
                 w == Walked(Slice(cat, offset) + rest.visited, rest.ending)
            else w == Walked(Slice(cat, offset), Finished)
  {
  }

  /** Progress is lexicographic: each answer uses up a page, or else one of the finitely many denials still ahead. */
  lemma {:induction false} WalkVisitsRest(api: Api, cat: seq<RemoteOffer>, total: int, denied: set<nat>, n: nat, budget: nat,
                                          offset: nat, t: Tokens)
    requires Serves(api, cat, total, denied) && t.refresh != ""
    requires total <= |cat| && (offset == 0 || offset < |cat|)
    requires budget >= PagesFrom(total, offset) + |Ahead(denied, n)|
    ensures Walk(api, n, budget, offset, offset, t) == Walked(Seen(cat, total, offset), Finished)
    decreases PagesFrom(total, offset), |Ahead(denied, n)|
  {
    AheadShrinks(denied, n);
    if n in denied {
      var r := api(n, offset);
      var t' := Recover(t, r.stored, r.storedRefresh, r.renewal).value;
      WalkVisitsRest(api, cat, total, denied, n + 1, budget - 1, offset, t');
    } else {
      assert api(n, offset) == Page(Slice(cat, offset), total);
      SeenNext(cat, total, offset);
      WalkSlice(api, cat, total, n, budget, offset, t);
      if offset + LIMIT < total {
        WalkVisitsRest(api, cat, total, denied, n + 1, budget - 1, offset + LIMIT, t);
      }
    }
  }

  /** Against a stable catalogue the loop ends and visits exactly the catalogue, each offer once and in order. */
  lemma SyncVisitsCatalogue(api: Api, cat: seq<RemoteOffer>, denied: set<nat>, budget: nat, t: Tokens, renewal: Renewal)
    requires Serves(api, cat, |cat|, denied)
    requires t.refresh != "" && (t.access != "" || (renewal.Renewed? && renewal.access != ""))
    requires budget >= PagesFrom(|cat|, 0) + |denied|
    ensures WalkFrom(api, budget, t, renewal) == Walked(cat, Finished)
  {
    assert Ahead(denied, 0) == denied;
    PagesCover(|cat|, 0);
    assert Seen(cat, |cat|, 0) == cat;
    WalkVisitsRest(api, cat, |cat|, denied, 0, budget, 0, LogIn(t, renewal).value);
  }

  lemma {:induction false} PagesCover(total: int, offset: nat)
    ensures offset + LIMIT * PagesFrom(total, offset) >= total
    decreases total - offset
  {
    if offset + LIMIT < total {
      PagesCover(total, offset + LIMIT);
    }
  }

  /** A total the catalogue cannot reach keeps the loop asking, through all pages and then through empty ones. */
  lemma {:induction false} OverstatedTotalWaits(api: Api, cat: seq<RemoteOffer>, total: int, denied: set<nat>, n: nat, budget: nat,
                                                offset: nat, t: Tokens)
    requires Serves(api, cat, total, denied) && t.refresh != "" && |cat| < total
    ensures Walk(api, n, budget, offset, Least(offset, |cat|), t).ending.Waiting?
    ensures offset >= |cat| ==> Walk(api, n, budget, offset, Least(offset, |cat|), t).visited == []
    ensures budget >= PagesFrom(|cat|, offset) + |Ahead(denied, n)| ==>
              Walk(api, n, budget, offset, Least(offset, |cat|), t).visited == cat[Least(offset, |cat|)..]
    decreases budget
  {
    if budget > 0 {
      AheadShrinks(denied, n);
      var fetched := Least(offset, |cat|);
      if n in denied {
        var r := api(n, offset);
        var t' := Recover(t, r.stored, r.storedRefresh, r.renewal).value;
        OverstatedTotalWaits(api, cat, total, denied, n + 1, budget - 1, offset, t');
      } else {
        assert api(n, offset) == Page(Slice(cat, offset), total);
        assert fetched + |Slice(cat, offset)| == Least(offset + LIMIT, |cat|);
        OverstatedTotalWaits(api, cat, total, denied, n + 1, budget - 1, offset + LIMIT, t);
      }
    }
  }

  /** The loop ends within `budget` requests. */
  predicate Ends(api: Api, budget: nat, t: Tokens) {
    Walk(api, 0, budget, 0, 0, t).ending.Finished?
  }

  /**
    * Against a stable catalogue with finitely many recoverable 401s, the loop ends exactly when the announced total
    * is served. It has then visited the pages up to that total; otherwise it visits everything and keeps asking.
    */
  lemma LoopEndsIffTotalIsServed(api: Api, cat: seq<RemoteOffer>, total: int, denied: set<nat>, t: Tokens)
    requires Serves(api, cat, total, denied) && t.refresh != ""
    ensures (exists budget: nat :: Ends(api, budget, t)) <==> total <= |cat|
    ensures forall budget: nat :: total <= |cat| && budget >= PagesFrom(total, 0) + |denied| ==>
                               Walk(api, 0, budget, 0, 0, t) == Walked(Seen(cat, total, 0), Finished)
    ensures forall budget: nat :: total > |cat| && budget >= PagesFrom(|cat|, 0) + |denied| ==>
                               Walk(api, 0, budget, 0, 0, t) == Walked(cat, Waiting)
  {
    assert Ahead(denied, 0) == denied;
    assert cat[0..] == cat;
    if total <= |cat| {
      forall budget: nat | budget >= PagesFrom(total, 0) + |denied|
        ensures Walk(api, 0, budget, 0, 0, t) == Walked(Seen(cat, total, 0), Finished)
      {
        WalkVisitsRest(api, cat, total, denied, 0, budget, 0, t);
      }
      var enough: nat := PagesFrom(total, 0) + |denied|;
      assert Ends(api, enough, t);
    } else {
      forall budget: nat
        ensures !Ends(api, budget, t)
        ensures budget >= PagesFrom(|cat|, 0) + |denied| ==> Walk(api, 0, budget, 0, 0, t) == Walked(cat, Waiting)
      {
        OverstatedTotalWaits(api, cat, total, denied, 0, budget, 0, t);
      }
    }
  }
}
