/**
  * Coherence of the settings cache. Other worker processes write and delete rows; this process looks at
  * MAX(updated_at), and reloads only when that is greater than the greatest stamp it has seen.
  */
module SettingsCoherence {
  import opened Options
  import opened SettingsTable
  import opened SettingsStore

  /** `horizon` bounds every stamp written so far; `pending` means the MAX query found the cache stale. */
  datatype World = World(table: Table, horizon: Stamp, store: Cache, pending: bool)

  datatype Event =
    | Commit(batch: Table)       // another process commits these rows
    | Erase(keys: set<string>)  // another process deletes these rows
    | Look(ok: bool)            // this process runs the MAX query
    | Load(ok: bool)            // this process runs the SELECT, if the MAX query asked for it
    | Reload(ok: bool)          // this process loads everything again
    | Amend(request: map<string, Option<string>>, clock: string -> Stamp, persist: Write, delete: Write)
                                // this process refreshes and then updates; how its two writes end

  function Start(): World {
    World(map[], 0, Cache(map[], None, false), false)
  }

  function Reply(ok: bool, t: Table): Option<Table> {
    if ok then Some(t) else None
  }

  ghost function Raise(horizon: Stamp, batch: Table): Stamp {
    match Latest(batch)
    case None => horizon
    case Some(m) => if m > horizon then m else horizon
  }

  /** The cache an update starts from: loaded now, or refreshed with both queries answered. */
  ghost function Ready(env: map<string, string>, w: World): Cache {
    if w.store.loaded then Refreshed(w.store, Some(w.table), Some(w.table)) else Loaded(env, Some(w.table))
  }

  ghost function Amended(env: map<string, string>, w: World, e: Event): World
    requires e.Amend?
  {
    var c := Ready(env, w);
    var (store, table, _) := Updated(c, w.table, e.request, e.clock, e.persist, e.delete);
    World(table, Raise(w.horizon, Batch(Changed(c.values, e.request), e.clock)), store, false)
  }

  ghost function Step(env: map<string, string>, w: World, e: Event): World {
    match e
    case Commit(batch) => w.(table := w.table + batch, horizon := Raise(w.horizon, batch))
    case Erase(keys) => w.(table := w.table - keys)
    case Look(ok) => w.(pending := w.store.loaded && Stale(w.store, Reply(ok, w.table)))
    case Load(ok) =>
      if w.pending then w.(store := Absorb(w.store, Reply(ok, w.table)), pending := false) else w
    case Reload(ok) => w.(store := Loaded(env, Reply(ok, w.table)), pending := false)
    case Amend(_, _, _, _) => Amended(env, w, e)
  }

  ghost function Run(env: map<string, string>, events: seq<Event>): World {
    if events == [] then Start()
    else Step(env, Run(env, events[..|events| - 1]), events[|events| - 1])
  }

  ghost predicate StampedNow(c: Cache, request: map<string, Option<string>>, clock: string -> Stamp, horizon: Stamp) {
    forall k :: k in Changed(c.values, request) ==> clock(k) > horizon
  }

  /** An update that raised after committing rows and reading their stamp back: its cache forgets what it committed. */
  ghost predicate FailedHalfway(c: Cache, t: Table, e: Event)
    requires e.Amend?
  {
    Updated(c, t, e.request, e.clock, e.persist, e.delete).2 && Changed(c.values, e.request) != map[] && e.persist.Committed?
  }

  /** A commit is stamped after everything committed before it; an update of this process too, and it does not fail half-way. */
  ghost predicate Orderly(env: map<string, string>, w: World, e: Event) {
    match e
    case Commit(batch) => forall k :: k in batch ==> batch[k].updatedAt > w.horizon
    case Amend(request, clock, _, _) =>
      StampedNow(Ready(env, w), request, clock, w.horizon) && !FailedHalfway(Ready(env, w), w.table, e)
    case _ => true
  }

  /** Stamps increase in commit order, and no update of this process fails half-way. */
  ghost predicate InOrder(env: map<string, string>, events: seq<Event>) {
    events == [] ||
    (InOrder(env, events[..|events| - 1]) && Orderly(env, Run(env, events[..|events| - 1]), events[|events| - 1]))
  }

  /** The value last committed to `key` by any process, read off the commits alone, without the table. */
  ghost function LastCommitted(env: map<string, string>, events: seq<Event>, key: string): Option<string> {
    if events == [] then None else
    var init := events[..|events| - 1];
    match events[|events| - 1]
    case Commit(batch) => if key in batch then Some(batch[key].value) else LastCommitted(env, init, key)
    case Erase(keys) => if key in keys then None else LastCommitted(env, init, key)
    case Amend(request, _, persist, delete) =>
      var values := Ready(env, Run(env, init)).values;
      var blocked := Changed(values, request) != map[] && persist.Refused?;
      if key in Changed(values, request) && !persist.Refused? then Some(Changed(values, request)[key])
      else if key in Removed(values, request) && !blocked && !delete.Refused? then None
      else LastCommitted(env, init, key)
    case _ => LastCommitted(env, init, key)
  }

  /** Every row stamped at or before the last seen stamp agrees with the cache. */
  ghost predicate Coherent(c: Cache, t: Table) {
    c.seen.Some? ==> forall k :: k in t && t[k].updatedAt <= c.seen.value ==> k in c.values && c.values[k] == t[k].value
  }

  ghost predicate Agree(c: Cache, t: Table) {
    forall k :: k in t ==> k in c.values && c.values[k] == t[k].value
  }

  ghost predicate Bounded(c: Cache, t: Table, horizon: Stamp) {
    && (forall k :: k in t ==> t[k].updatedAt <= horizon)
    && (c.seen.Some? ==> c.seen.value <= horizon)
  }

  ghost predicate Inv(w: World) {
    Bounded(w.store, w.table, w.horizon) && Coherent(w.store, w.table)
  }

  // ---------------------------------------------------------------- one update

  /** A successful update on a fresh cache leaves it fresh, and answers every request it was given. */
  lemma FreshWriterStaysFresh(c: Cache, t: Table, request: map<string, Option<string>>, clock: string -> Stamp,
                              persist: Write, delete: Write)
    requires Agree(c, t)
    requires !Updated(c, t, request, clock, persist, delete).2
    ensures var (c', t', _) := Updated(c, t, request, clock, persist, delete);
            && Agree(c', t')
            && (forall k :: k in request && request[k].Some? ==> k in c'.values && c'.values[k] == request[k].value)
            && (forall k :: k in request && request[k].None? ==> k !in c'.values && k !in t')
            && (forall k :: k in t && k !in request ==> k in t' && t'[k] == t[k])
            && (forall k :: k in t && k in request && request[k] == Some(t[k].value) ==> k in t' && t'[k] == t[k])
            && (forall k :: k in t' && !(k in t && t[k] == t'[k]) ==>
                  k in request && request[k].Some? && t'[k] == Row(request[k].value, clock(k)))
  {
    var (c', t', _) := Updated(c, t, request, clock, persist, delete);
    var changed, removed := Changed(c.values, request), Removed(c.values, request);
    assert t' == if removed != {} then (if changed != map[] then t + Batch(changed, clock) else t) - removed
                 else if changed != map[] then t + Batch(changed, clock) else t;
    forall k | k in t'
      ensures k in c'.values && c'.values[k] == t'[k].value
    {
      if k in changed {
      } else {
        assert k in t;
        assert k !in removed;
      }
    }
    forall k | k in request && request[k].Some?
      ensures k in c'.values && c'.values[k] == request[k].value
    {
      if k in changed {
      } else {
        assert k in c.values;
      }
    }
  }

  /** Some committed write of the update read a stamp back. */
  predicate ReadsStamp(c: Cache, request: map<string, Option<string>>, persist: Write, delete: Write) {
    || (Changed(c.values, request) != map[] && persist.Committed?)
    || (Removed(c.values, request) != {} && delete.Committed?)
  }

  /** Table and last seen stamp after a successful update that read a stamp back: it is past every row, if any is left. */
  lemma SeenCoversTable(c: Cache, t: Table, request: map<string, Option<string>>, clock: string -> Stamp,
                        persist: Write, delete: Write)
    requires ReadsStamp(c, request, persist, delete)
    requires !Updated(c, t, request, clock, persist, delete).2
    ensures var (c', t', _) := Updated(c, t, request, clock, persist, delete);
            && t' == (t + Batch(Changed(c.values, request), clock)) - Removed(c.values, request)
            && c'.values == (c.values + Changed(c.values, request)) - Removed(c.values, request)
            && (t' != map[] ==> c'.seen.Some? && forall k :: k in t' ==> t'[k].updatedAt <= c'.seen.value)
  {
    var changed, removed := Changed(c.values, request), Removed(c.values, request);
    var t1 := t + Batch(changed, clock);
    var (c', t', _) := Updated(c, t, request, clock, persist, delete);
    if changed == map[] {
      assert Batch(changed, clock) == map[] && t1 == t;
    } else {
      var k0 :| k0 in changed;
      assert k0 in Batch(changed, clock) && k0 in t1;
    }
    assert t' == t1 - removed;
    assert forall k :: k in t' ==> k in t1 && t1[k] == t'[k];
  }

  /**
    * A process that writes without refreshing first, differences or deletions: its update moves the last seen stamp
    * past rows it never read. The cache is coherent afterwards exactly when every row the update does not touch
    * already agreed with it.
    */
  lemma WriterCoherentIffWasFresh(c: Cache, t: Table, request: map<string, Option<string>>, clock: string -> Stamp,
                                  persist: Write, delete: Write)
    requires ReadsStamp(c, request, persist, delete)
    requires !Updated(c, t, request, clock, persist, delete).2
    ensures var (c', t', _) := Updated(c, t, request, clock, persist, delete);
            Coherent(c', t') <==> forall k :: k in t && k !in Changed(c.values, request) && k !in Removed(c.values, request)
                                              ==> k in c.values && c.values[k] == t[k].value
  {
    SeenCoversTable(c, t, request, clock, persist, delete);
    var (c', t', _) := Updated(c, t, request, clock, persist, delete);
    assert Coherent(c', t') <==> forall k :: k in t' ==> k in c'.values && c'.values[k] == t'[k].value;
    UntouchedRowsDecide(c.values, t, Changed(c.values, request), Removed(c.values, request), clock);
  }

  lemma UntouchedRowsDecide(values: map<string, string>, t: Table, changed: map<string, string>, removed: set<string>,
                            clock: string -> Stamp)
    ensures var values', t' := (values + changed) - removed, (t + Batch(changed, clock)) - removed;
            (forall k :: k in t' ==> k in values' && values'[k] == t'[k].value)
            <==> forall k :: k in t && k !in changed && k !in removed ==> k in values && values[k] == t[k].value
  {
    var values', t' := (values + changed) - removed, (t + Batch(changed, clock)) - removed;
    if forall k :: k in t' ==> k in values' && values'[k] == t'[k].value {
      forall k | k in t && k !in changed && k !in removed
        ensures k in values && values[k] == t[k].value
      {
        assert k in t';
      }
    }
  }

  /**
    * Two workers: another one has written `b`, this one has not looked since and writes `a`. Its last seen stamp then
    * is past the row of `b`, and while nothing else is committed every later `get` returns the old value of `b`.
    */
  lemma StaleWriterMissesARow(a: string, b: string, stale: string, current: string, written: string, clock: string -> Stamp)
    requires a != b && stale != current && written != stale && clock(a) == 3
    ensures var c := Cache(map[a := stale, b := stale], Some(1), true);
            var t := map[a := Row(stale, 1), b := Row(current, 2)];
            var (c', t', raised) := Updated(c, t, map[a := Some(written)], clock, Committed, Committed);
            && !raised && b in t' && t'[b].value == current
            && Refreshed(c', Some(t'), Some(t')) == c' && b in c'.values && c'.values[b] == stale
  {
    var c := Cache(map[a := stale, b := stale], Some(1), true);
    var t := map[a := Row(stale, 1), b := Row(current, 2)];
    var request := map[a := Some(written)];
    var changed := Changed(c.values, request);
    assert a in changed && changed == map[a := written];
    var t1 := t + Batch(changed, clock);
    assert t1[a] == Row(written, 3) && t1[b] == t[b];
    assert Removed(c.values, request) == {};
    assert Latest(t1) == Some(3);
  }

  /** The same with an update that only deletes: taking `a` out makes this worker take the row of `b` for one it has seen. */
  lemma StaleDeleterMissesARow(a: string, b: string, stale: string, current: string, clock: string -> Stamp)
    requires a != b && stale != current
    ensures var c := Cache(map[a := stale, b := stale], Some(1), true);
            var t := map[a := Row(stale, 1), b := Row(current, 2)];
            var (c', t', raised) := Updated(c, t, map[a := None], clock, Committed, Committed);
            && !raised && a !in t' && b in t' && t'[b].value == current
            && Refreshed(c', Some(t'), Some(t')) == c' && b in c'.values && c'.values[b] == stale
  {
    var c := Cache(map[a := stale, b := stale], Some(1), true);
    var t := map[a := Row(stale, 1), b := Row(current, 2)];
    var request: map<string, Option<string>> := map[a := None];
    assert Changed(c.values, request) == map[];
    assert Batch(map[], clock) == map[];
    assert a in request && request[a].None? && a in c.values;
    assert Removed(c.values, request) == {a};
    var rest := t - {a};
    assert b in rest && rest[b] == Row(current, 2) && forall k :: k in rest ==> k == b;
    assert Latest(rest) == Some(2);
  }

  /**
    * `update` that fails puts the old values back in the cache, but rows it had already committed stay in the table.
    * The cache is coherent afterwards exactly when no row was committed with its stamp read back.
    */
  lemma FailedUpdateCoherentIffNothingCommitted(c: Cache, t: Table, request: map<string, Option<string>>,
                                                clock: string -> Stamp, horizon: Stamp, persist: Write, delete: Write)
    requires Bounded(c, t, horizon) && Coherent(c, t) && StampedNow(c, request, clock, horizon)
    requires Updated(c, t, request, clock, persist, delete).2
    ensures var (c', t', _) := Updated(c, t, request, clock, persist, delete);
            && c'.values == c.values
            && (Coherent(c', t') <==> !(Changed(c.values, request) != map[] && persist.Committed?))
  {
    var changed := Changed(c.values, request);
    var (c', t', _) := Updated(c, t, request, clock, persist, delete);
    if changed != map[] && persist.Committed? {
      var k :| k in changed;
      assert k in Batch(changed, clock);
      assert t' == t + Batch(changed, clock);
      assert k in t' && t'[k].value == changed[k];
      assert !(k in c.values && c.values[k] == changed[k]);
    }
  }

  /** A deletion asked for a key this process does not cache deletes nothing: a row another process wrote under it stays. */
  lemma UncachedKeyIsNotDeleted(c: Cache, t: Table, request: map<string, Option<string>>, clock: string -> Stamp,
                                persist: Write, delete: Write, key: string)
    requires key !in c.values && key in request && request[key].None? && key in t
    ensures var t' := Updated(c, t, request, clock, persist, delete).1; key in t' && t'[key] == t[key]
  {
  }

  /** What a failed update leaves in the table: nothing if its first write was refused, else every requested difference and no deletion. */
  lemma FailedUpdateTable(c: Cache, t: Table, request: map<string, Option<string>>, clock: string -> Stamp,
                          persist: Write, delete: Write)
    requires Updated(c, t, request, clock, persist, delete).2
    ensures var t' := Updated(c, t, request, clock, persist, delete).1;
            && (persist.Refused? ==> t' == t)
            && (!persist.Refused? ==>
                  && t.Keys <= t'.Keys
                  && (forall k :: k in t' && !(k in t && t[k] == t'[k]) ==>
                        k in request && request[k].Some? && t'[k] == Row(request[k].value, clock(k)))
                  && (forall k :: k in request && request[k].Some? && !(k in c.values && c.values[k] == request[k].value) ==>
                        k in t' && t'[k] == Row(request[k].value, clock(k))))
  {
    var changed, batch := Changed(c.values, request), Batch(Changed(c.values, request), clock);
    var t' := Updated(c, t, request, clock, persist, delete).1;
    assert batch.Keys == changed.Keys;
    assert batch == map[] <==> changed == map[];
    if !persist.Refused? {
      assert t' == t + batch;
      forall k | k in request && request[k].Some? && !(k in c.values && c.values[k] == request[k].value)
        ensures k in t' && t'[k] == Row(request[k].value, clock(k))
      {
        assert k in changed && k in batch;
      }
    }
  }

  /** After such a failure, as long as nothing else is committed, no `get` of this process ever sees the committed rows. */
  lemma CommittedRowsStayInvisible(c: Cache, t: Table, request: map<string, Option<string>>, clock: string -> Stamp,
                                   delete: Write, key: string)
    requires c.loaded && key in Changed(c.values, request)
    requires Updated(c, t, request, clock, Committed, delete).2
    ensures var (c', t', _) := Updated(c, t, request, clock, Committed, delete);
            && key in t' && t'[key].value == Changed(c.values, request)[key]
            && Refreshed(c', Some(t'), Some(t')) == c'
            && !(key in c'.values && c'.values[key] == t'[key].value)
  {
    assert key in t + Batch(Changed(c.values, request), clock);
  }

  // ---------------------------------------------------------------- runs: readers, and a writer that refreshes first

  /** A refresh with both queries answered leaves the cache equal to the table. */
  lemma ReadyAgrees(env: map<string, string>, w: World)
    requires Inv(w)
    ensures Agree(Ready(env, w), w.table) && Bounded(Ready(env, w), w.table, w.horizon)
  {
  }

  lemma RaiseBounds(horizon: Stamp, batch: Table)
    ensures horizon <= Raise(horizon, batch) && forall k :: k in batch ==> batch[k].updatedAt <= Raise(horizon, batch)
  {
  }

  lemma WroteStaysBounded(seen: Option<Stamp>, t: Table, batch: Table, removed: set<string>, persist: Write, delete: Write,
                          horizon: Stamp)
    requires seen.Some? ==> seen.value <= horizon
    requires forall k :: k in t ==> t[k].updatedAt <= horizon
    requires forall k :: k in batch ==> batch[k].updatedAt <= horizon
    ensures var (seen', t', _) := Wrote(seen, t, batch, removed, persist, delete);
            (seen'.Some? ==> seen'.value <= horizon) && forall k :: k in t' ==> t'[k].updatedAt <= horizon
  {
    assert forall k :: k in t + batch ==> (t + batch)[k].updatedAt <= horizon;
  }

  lemma AmendStaysBounded(env: map<string, string>, w: World, e: Event)
    requires Inv(w) && e.Amend?
    ensures var w' := Amended(env, w, e); Bounded(w'.store, w'.table, w'.horizon)
  {
    var c := Ready(env, w);
    var batch := Batch(Changed(c.values, e.request), e.clock);
    ReadyAgrees(env, w);
    RaiseBounds(w.horizon, batch);
    WroteStaysBounded(c.seen, w.table, batch, Removed(c.values, e.request), e.persist, e.delete, Raise(w.horizon, batch));
  }

  /** An update of this process after a refresh keeps the invariant exactly when it does not fail half-way. */
  lemma AmendKeepsInvIff(env: map<string, string>, w: World, e: Event)
    requires Inv(w) && e.Amend? && StampedNow(Ready(env, w), e.request, e.clock, w.horizon)
    ensures Inv(Amended(env, w, e)) <==> !FailedHalfway(Ready(env, w), w.table, e)
  {
    var c := Ready(env, w);
    ReadyAgrees(env, w);
    AmendStaysBounded(env, w, e);
    if Updated(c, w.table, e.request, e.clock, e.persist, e.delete).2 {
      FailedUpdateCoherentIffNothingCommitted(c, w.table, e.request, e.clock, w.horizon, e.persist, e.delete);
    } else {
      FreshWriterStaysFresh(c, w.table, e.request, e.clock, e.persist, e.delete);
    }
  }

  lemma StepKeepsInv(env: map<string, string>, w: World, e: Event)
    requires Inv(w) && Orderly(env, w, e)
    ensures Inv(Step(env, w, e))
  {
    if e.Amend? {
      AmendKeepsInvIff(env, w, e);
    }
  }

  /**
    * The key invariant holds after every interleaving of commits and deletions by others, failed queries, reloads, and
    * updates of this process itself.
    */
  lemma {:induction false} RunKeepsInv(env: map<string, string>, events: seq<Event>)
    requires InOrder(env, events)
    ensures Inv(Run(env, events))
  {
    if events != [] {
      RunKeepsInv(env, events[..|events| - 1]);
      StepKeepsInv(env, Run(env, events[..|events| - 1]), events[|events| - 1]);
    }
  }

  lemma AmendedTable(env: map<string, string>, w: World, e: Event, key: string)
    requires e.Amend?
    ensures var values, t := Ready(env, w).values, Amended(env, w, e).table;
            var changed, removed := Changed(values, e.request), Removed(values, e.request);
            var blocked := changed != map[] && e.persist.Refused?;
            if key in changed && !e.persist.Refused? then key in t && t[key].value == changed[key]
            else if key in removed && !blocked && !e.delete.Refused? then key !in t
            else (key in t <==> key in w.table) && (key in t ==> t[key] == w.table[key])
  {
    var changed := Changed(Ready(env, w).values, e.request);
    var batch := Batch(changed, e.clock);
    assert batch.Keys == changed.Keys;
    assert batch == map[] <==> changed == map[];
  }

  lemma {:induction false} TableHoldsCommitted(env: map<string, string>, events: seq<Event>, key: string)
    ensures var t := Run(env, events).table;
            LastCommitted(env, events, key) == if key in t then Some(t[key].value) else None
  {
    if events != [] {
      TableHoldsCommitted(env, events[..|events| - 1], key);
      if events[|events| - 1].Amend? {
        AmendedTable(env, Run(env, events[..|events| - 1]), events[|events| - 1], key);
      }
    }
  }

  /** A MAX query that answers either asks for a load or proves the cache equal to the table. */
  lemma LookDecides(env: map<string, string>, w: World)
    requires Inv(w) && w.store.loaded
    ensures var w' := Step(env, w, Look(true)); w'.pending || Agree(w'.store, w'.table)
    ensures var w' := Step(env, Step(env, w, Look(true)).(pending := true), Load(true)); Agree(w'.store, w'.table)
  {
  }

  /** `get` with both queries answered returns the value last committed, whatever happened before. */
  lemma GetReturnsLastCommitted(env: map<string, string>, events: seq<Event>, fallback: map<string, string>,
                                key: string, default: Option<string>)
    requires InOrder(env, events) && Run(env, events).store.loaded
    requires LastCommitted(env, events, key).Some?
    ensures var w := Run(env, events);
            Lookup(Refreshed(w.store, Some(w.table), Some(w.table)), fallback, key, default) == LastCommitted(env, events, key)
  {
    RunKeepsInv(env, events);
    TableHoldsCommitted(env, events, key);
  }

  /** The event writes or deletes a row of `key`, or is an update that asks for it. */
  predicate Names(e: Event, key: string) {
    match e
    case Commit(batch) => key in batch
    case Amend(request, _, _, _) => key in request
    case _ => false
  }

  lemma {:induction false} UnnamedKeyHasNoRow(env: map<string, string>, events: seq<Event>, key: string)
    requires forall e :: e in events ==> !Names(e, key)
    ensures key !in Run(env, events).table
  {
    if events != [] {
      var init, last := events[..|events| - 1], events[|events| - 1];
      assert last in events && forall e :: e in init ==> e in events;
      UnnamedKeyHasNoRow(env, init, key);
      if last.Amend? {
        AmendedTable(env, Run(env, init), last, key);
      }
    }
  }

  /** The cache has `key` exactly as the environment has it. */
  ghost predicate AsInEnvironment(env: map<string, string>, c: Cache, key: string) {
    if c.loaded && key in env then key in c.values && c.values[key] == env[key] else key !in c.values
  }

  lemma UpdateLeavesOthers(c: Cache, t: Table, request: map<string, Option<string>>, clock: string -> Stamp,
                           persist: Write, delete: Write, key: string)
    requires key !in request
    ensures var c' := Updated(c, t, request, clock, persist, delete).0;
            && c'.loaded == c.loaded
            && (key in c'.values <==> key in c.values) && (key in c.values ==> c'.values[key] == c.values[key])
  {
  }

  lemma UnnamedStep(env: map<string, string>, w: World, e: Event, key: string)
    requires key !in w.table && AsInEnvironment(env, w.store, key) && !Names(e, key)
    ensures AsInEnvironment(env, Step(env, w, e).store, key)
  {
    if e.Amend? {
      assert AsInEnvironment(env, Ready(env, w), key);
      UpdateLeavesOthers(Ready(env, w), w.table, e.request, e.clock, e.persist, e.delete, key);
    }
  }

  /** A key the table never held is cached exactly as the environment has it, through all loads, refreshes and updates. */
  lemma {:induction false} UnnamedKeyIsFromEnvironment(env: map<string, string>, events: seq<Event>, key: string)
    requires forall e :: e in events ==> !Names(e, key)
    ensures AsInEnvironment(env, Run(env, events).store, key)
  {
    if events != [] {
      var init, last := events[..|events| - 1], events[|events| - 1];
      assert last in events && forall e :: e in init ==> e in events;
      UnnamedKeyHasNoRow(env, init, key);
      UnnamedKeyIsFromEnvironment(env, init, key);
      UnnamedStep(env, Run(env, init), last, key);
    }
  }

  /**
    * After any run that never names `key`, a `get` of it returns the environment's value, else the non-empty default of
    * the namespace, else the caller's default, whatever its two queries see or fail to see.
    */
  lemma GetFallsBack(env: map<string, string>, events: seq<Event>, fetched: bool, loaded: bool, fallback: map<string, string>,
                     key: string, default: Option<string>)
    requires Run(env, events).store.loaded && forall e :: e in events ==> !Names(e, key)
    ensures var w := Run(env, events);
            Lookup(Refreshed(w.store, Reply(fetched, w.table), Reply(loaded, w.table)), fallback, key, default)
            == if key in env then Some(env[key])
               else if key in fallback && fallback[key] != "" then Some(fallback[key])
               else default
  {
    UnnamedKeyHasNoRow(env, events, key);
    UnnamedKeyIsFromEnvironment(env, events, key);
  }

  /** A refresh whose load fails, or finds no row at all, leaves values and stamp as they were: the next `get` asks again. */
  lemma EmptyLoadChangesNothing(c: Cache, fetch: Option<Table>)
    ensures Refreshed(c, fetch, None) == c && Refreshed(c, fetch, Some(map[])) == c
  {
  }

  /**
    * A key that is cached stays cached, with the value of its row if it has one and else with its old value: only a
    * full reload, or an update of this process that asks for the key, takes it out or changes it otherwise.
    */
  lemma CachedKeyStays(env: map<string, string>, w: World, e: Event, key: string)
    requires key in w.store.values && !e.Reload? && !(e.Amend? && key in e.request) && w.store.loaded
    ensures var w' := Step(env, w, e);
            && key in w'.store.values
            && (w'.store.values[key] == w.store.values[key] || (key in w.table && w'.store.values[key] == w.table[key].value))
  {
  }

  ghost predicate OnlyOthers(events: seq<Event>) {
    forall i :: 0 <= i < |events| ==> events[i].Commit? || events[i].Erase?
  }

  /** While other processes run, this process's cache and its pending load do not move. */
  lemma {:induction false} OthersLeaveStore(env: map<string, string>, events: seq<Event>, others: seq<Event>)
    requires OnlyOthers(others)
    ensures Run(env, events + others).store == Run(env, events).store
    ensures Run(env, events + others).pending == Run(env, events).pending
  {
    if others == [] {
      assert events + others == events;
    } else {
      assert (events + others)[..|events + others| - 1] == events + others[..|others| - 1];
      OthersLeaveStore(env, events, others[..|others| - 1]);
    }
  }

  /**
    * Commits and deletions may fall between the MAX query and the SELECT of one `get`. What it returns is then
    * the value committed at the moment of one of its two queries: the first if the cache was fresh, else the second.
    */
  lemma GetReturnsAValueOfItsOwnTime(env: map<string, string>, events: seq<Event>, others: seq<Event>, key: string)
    requires OnlyOthers(others) && Run(env, events).store.loaded
    requires InOrder(env, events + [Look(true)] + others)
    ensures var looked, full := events + [Look(true)], events + [Look(true)] + others;
            var after := Run(env, full + [Load(true)]);
            if Run(env, looked).pending
            then LastCommitted(env, full, key).Some? ==> key in after.store.values && LastCommitted(env, full, key) == Some(after.store.values[key])
            else LastCommitted(env, events, key).Some? ==> key in after.store.values && LastCommitted(env, events, key) == Some(after.store.values[key])
  {
    var looked := events + [Look(true)];
    var full := looked + others;
    assert looked[..|looked| - 1] == events;
    assert (full + [Load(true)])[..|full + [Load(true)]| - 1] == full;
    OthersLeaveStore(env, looked, others);
    RunKeepsInv(env, full);
    PrefixInOrder(env, looked, others);
    RunKeepsInv(env, events);
    TableHoldsCommitted(env, full, key);
    TableHoldsCommitted(env, events, key);
    assert Run(env, looked) == Step(env, Run(env, events), Look(true));
    assert Run(env, full + [Load(true)]) == Step(env, Run(env, full), Load(true));
  }

  lemma {:induction false} PrefixInOrder(env: map<string, string>, events: seq<Event>, more: seq<Event>)
    requires InOrder(env, events + more)
    ensures InOrder(env, events)
  {
    if more == [] {
      assert events + more == events;
    } else {
      assert (events + more)[..|events + more| - 1] == events + more[..|more| - 1];
      PrefixInOrder(env, events, more[..|more| - 1]);
    }
  }

  /**
    * The assumption on stamps cannot be dropped. On a cache equal to the table, a commit that changes some row
    * reaches the next `get` exactly when one of its stamps is greater than the last seen one.
    */
  lemma CommitIsSeenIffStampedLater(c: Cache, t: Table, batch: Table)
    requires c.loaded && Agree(c, t) && t != map[] && c.seen == Latest(t)
    requires exists k :: k in batch && !(k in c.values && c.values[k] == batch[k].value)
    ensures Agree(Refreshed(c, Some(t + batch), Some(t + batch)), t + batch)
            <==> exists k :: k in batch && batch[k].updatedAt > c.seen.value
  {
    var t' := t + batch;
    if k :| k in batch && batch[k].updatedAt > c.seen.value {
      assert t'[k].updatedAt > c.seen.value;
      assert Stale(c, Some(t'));
    } else {
      assert forall k :: k in t' ==> t'[k].updatedAt <= c.seen.value;
      assert !Stale(c, Some(t'));
      var k :| k in batch && !(k in c.values && c.values[k] == batch[k].value);
      assert t'[k] == batch[k];
    }
  }
}
