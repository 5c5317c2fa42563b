/** The application settings table: one row per key, each row stamped with the time it was written. */
module SettingsTable {
  import opened Options

  /** A stamp is a fixed-width UTC string in the program, compared as text; its order is that of a natural number. */
  type Stamp = nat

  datatype Row = Row(value: string, updatedAt: Stamp)

  type Table = map<string, Row>

  function Values(t: Table): map<string, string> {
    map k | k in t :: t[k].value
  }

  /** `latest` is the greatest stamp in `t`; None exactly when the table is empty. */
  ghost predicate IsLatest(t: Table, latest: Option<Stamp>) {
    match latest
    case None => t == map[]
    case Some(m) =>
      && (exists k :: k in t && t[k].updatedAt == m)
      && (forall k :: k in t ==> t[k].updatedAt <= m)
  }

  /** `SELECT MAX(updated_at)`. */
  ghost function Latest(t: Table): (latest: Option<Stamp>)
    ensures IsLatest(t, latest)
  {
    if t == map[] then None else
    var k :| k in t;
    var rest := t - {k};
    assert forall j :: j in t ==> j == k || (j in rest && rest[j] == t[j]);
    match Latest(rest)
    case None => Some(t[k].updatedAt)
    case Some(m) => if t[k].updatedAt > m then Some(t[k].updatedAt) else Some(m)
  }

  /** `_latest_value`: the running maximum of the loading loop. */
  function LatestValue(current: Option<Stamp>, stamp: Stamp): Option<Stamp> {
    if current.None? || stamp > current.value then Some(stamp) else current
  }

  /** `load_via_engine`: one pass over the rows fills the dictionary and keeps the greatest stamp. */
  method LoadRows(t: Table) returns (data: map<string, string>, latest: Option<Stamp>)
    ensures data == Values(t)
    ensures latest == Latest(t)
  {
    data, latest := map[], None;
    var todo := t.Keys;
    ghost var done: Table := map[];
    while todo != {}
      invariant done.Keys == t.Keys - todo && todo <= t.Keys
      invariant forall k :: k in done ==> done[k] == t[k]
      invariant data == Values(done)
      invariant IsLatest(done, latest)
      decreases todo
    {
      var k :| k in todo;
      data := data[k := t[k].value];
      latest := LatestValue(latest, t[k].updatedAt);
      done := done[k := t[k]];
      todo := todo - {k};
    }
    assert done == t;
  }
}

/** `SettingsStore`: a per-process cache of the settings table, refreshed by comparing `MAX(updated_at)`. */
module SettingsStore {
  import opened Options
  import opened SettingsTable

  /** What one process remembers: the cached values and the greatest stamp it has seen. */
  datatype Cache = Cache(values: map<string, string>, seen: Option<Stamp>, loaded: bool)

  /** How a write to the table ended: refused, committed, or committed with the following MAX query lost. */
  datatype Write = Refused | Committed | CommittedUnread

  // ---------------------------------------------------------------- specification

  function Overlay(env: map<string, string>, t: Table): map<string, string> {
    env + Values(t)
  }

  /** First load, or a load forced by `reload`. `load` is the table the SELECT saw, None if it failed. */
  ghost function Loaded(env: map<string, string>, load: Option<Table>): Cache {
    match load
    case None => Cache(env, None, true)
    case Some(t) => Cache(Overlay(env, t), Latest(t), true)
  }

  /** The MAX query saw table `fetch`; is its answer newer than what the cache remembers? */
  ghost predicate Stale(c: Cache, fetch: Option<Table>) {
    && fetch.Some?
    && Latest(fetch.value).Some?
    && (c.seen.None? || Latest(fetch.value).value > c.seen.value)
  }

  ghost function Absorb(c: Cache, load: Option<Table>): Cache {
    if load.Some? && load.value != map[]
    then c.(values := c.values + Values(load.value), seen := Latest(load.value))
    else c
  }

  ghost function Refreshed(c: Cache, fetch: Option<Table>, load: Option<Table>): Cache {
    if c.loaded && Stale(c, fetch) then Absorb(c, load) else c
  }

  /** The entries of an update request that differ from the cache, and the cached keys it deletes. */
  function Changed(c: map<string, string>, request: map<string, Option<string>>): map<string, string> {
    map k | k in request && request[k].Some? && !(k in c && c[k] == request[k].value) :: request[k].value
  }

  function Removed(c: map<string, string>, request: map<string, Option<string>>): set<string> {
    set k | k in request && request[k].None? && k in c
  }

  function Batch(values: map<string, string>, clock: string -> Stamp): Table {
    map k | k in values :: Row(values[k], clock(k))
  }

  // ---------------------------------------------------------------- the class

  class Database {
    var rows: Table

    /** `persist_many`: upsert every row in one transaction, then read MAX(updated_at) back; nothing for no rows. */
    method PersistMany(values: map<string, string>, clock: string -> Stamp, write: Write)
      returns (raised: bool, latest: Option<Stamp>)
      modifies this
      ensures raised == (values != map[] && write.Refused?)
      ensures rows == if write.Refused? then old(rows) else old(rows) + Batch(values, clock)
      ensures latest == if values != map[] && write.Committed? then Latest(rows) else None
    {
      if values == map[] {
        assert Batch(values, clock) == map[];
        return false, None;
      }
      raised, latest := write.Refused?, None;
      if write.Refused? {
        return;
      }
      rows := rows + Batch(values, clock);
      if write.Committed? {
        var _, m := LoadRows(rows);
        latest := m;
      }
    }

    /** `delete_keys`: delete every named row in one transaction, then read MAX(updated_at) back; nothing for no keys. */
    method DeleteKeys(keys: set<string>, write: Write) returns (raised: bool, latest: Option<Stamp>)
      modifies this
      ensures raised == (keys != {} && write.Refused?)
      ensures rows == if write.Refused? then old(rows) else old(rows) - keys
      ensures latest == if keys != {} && write.Committed? then Latest(rows) else None
    {
      if keys == {} {
        return false, None;
      }
      raised, latest := write.Refused?, None;
      if write.Refused? {
        return;
      }
      rows := rows - keys;
      if write.Committed? {
        var _, m := LoadRows(rows);
        latest := m;
      }
    }
  }

  class SettingsStore {
    const env: map<string, string>
    const fallback: map<string, string>   // namespace entries that are non-empty strings
    var values: map<string, string>
    var loaded: bool
    var dbLastUpdatedAt: Option<Stamp>

    constructor (env: map<string, string>, fallback: map<string, string>)
      ensures this.env == env && this.fallback == fallback
      ensures View() == Cache(map[], None, false)
    {
      this.env, this.fallback := env, fallback;
      values, loaded, dbLastUpdatedAt := map[], false, None;
    }

    ghost function View(): Cache
      reads this
    {
      Cache(values, dbLastUpdatedAt, loaded)
    }

    method EnsureLoaded(load: Option<Table>)
      modifies this
      ensures View() == if old(loaded) then old(View()) else Loaded(env, load)
    {
      if loaded {
        return;
      }
      values, dbLastUpdatedAt := env, None;
      if load.Some? {
        var data, latest := LoadRows(load.value);
        values, dbLastUpdatedAt := values + data, latest;
      }
      loaded := true;
    }

    /** `fetch` and `load` are the tables seen by the MAX query and by the later SELECT, None on failure. */
    method RefreshIfStale(fetch: Option<Table>, load: Option<Table>)
      modifies this
      ensures View() == Refreshed(old(View()), fetch, load)
    {
      if !loaded || fetch.None? {
        return;
      }
      var _, latest := LoadRows(fetch.value);
      if latest.None? {
        return;
      }
      if dbLastUpdatedAt.Some? && latest.value <= dbLastUpdatedAt.value {
        return;
      }
      if load.Some? {
        var data, updatedAt := LoadRows(load.value);
        if data != map[] {
          assert load.value != map[];
          values := values + data;
          dbLastUpdatedAt := updatedAt;
        } else {
          assert forall k :: k in load.value ==> k in data;
          assert load.value == map[];
        }
      }
    }

    method Reload(load: Option<Table>)
      modifies this
      ensures View() == Loaded(env, load)
    {
      loaded := false;
      EnsureLoaded(load);
    }

    /** The cached value, else a non-empty namespace default, else the caller's default. */
    method Get(key: string, default: Option<string>, first: Option<Table>, fetch: Option<Table>, load: Option<Table>)
      returns (r: Option<string>)
      modifies this
      ensures View() == Refreshed(if old(loaded) then old(View()) else Loaded(env, first), fetch, load)
      ensures r == Lookup(View(), fallback, key, default)
      ensures key in values ==> r == Some(values[key])
      ensures key !in values && key in fallback && fallback[key] != "" ==> r == Some(fallback[key])
      ensures key !in values && (key !in fallback || fallback[key] == "") ==> r == default
    {
      EnsureLoaded(first);
      RefreshIfStale(fetch, load);
      if key in values {
        return Some(values[key]);
      }
      if key in fallback && fallback[key] != "" {
        return Some(fallback[key]);
      }
      return default;
    }

    /** The comparing loop of `update`: applies the request to the cached values and collects what differs. */
    method ApplyRequest(request: map<string, Option<string>>)
      returns (changed: map<string, string>, removed: set<string>)
      modifies this`values
      ensures changed == Changed(old(values), request)
      ensures removed == Removed(old(values), request)
      ensures values == (old(values) + changed) - removed
    {
      changed, removed := map[], {};
      ghost var start := values;
      var todo := request.Keys;
      while todo != {}
        invariant todo <= request.Keys
        invariant changed.Keys == Changed(start, request).Keys - todo
        invariant forall k :: k in changed ==> changed[k] == request[k].value
        invariant removed == Removed(start, request) - todo
        invariant values.Keys == (start.Keys + changed.Keys) - removed
        invariant forall k :: k in values ==> values[k] == if k in changed then changed[k] else start[k]
        decreases todo
      {
        var key :| key in todo;
        if request[key].None? {
          if key in values {
            values := values - {key};
            removed := removed + {key};
          }
        } else if !(key in values && values[key] == request[key].value) {
          values := values[key := request[key].value];
          changed := changed[key := request[key].value];
        }
        todo := todo - {key};
      }
    }

    /**
      * `update`: apply the request to the cache, write the differences, then the deletions; if either write is
      * refused put the cached values back. `raised` is the persistence error that reaches the caller.
      */
    method Update(db: Database, request: map<string, Option<string>>, clock: string -> Stamp,
                  first: Option<Table>, persist: Write, delete: Write)
      returns (raised: bool)
      modifies this, db
      ensures (View(), db.rows, raised) ==
              Updated(if old(loaded) then old(View()) else Loaded(env, first), old(db.rows), request, clock, persist, delete)
    {
      EnsureLoaded(first);
      var previous := values;
      var changed, removed := ApplyRequest(request);
      if changed == map[] && removed == {} {
        assert values == previous;
        return false;
      }
      raised := WriteBack(db, changed, removed, clock, persist, delete);
      if raised {
        values := previous;
      }
    }

    /** The writes of `update`: first the differences, then the deletions; each moves the last seen stamp. */
    method WriteBack(db: Database, changed: map<string, string>, removed: set<string>, clock: string -> Stamp,
                     persist: Write, delete: Write) returns (raised: bool)
      modifies this`dbLastUpdatedAt, db
      ensures (dbLastUpdatedAt, db.rows, raised) ==
              Wrote(old(dbLastUpdatedAt), old(db.rows), Batch(changed, clock), removed, persist, delete)
    {
      raised := false;
      if changed != map[] {
        var latest: Option<Stamp>;
        raised, latest := db.PersistMany(changed, clock, persist);
        if latest.Some? {
          dbLastUpdatedAt := latest;
        }
        assert exists k :: k in changed && k in Batch(changed, clock);
      }
      if !raised && removed != {} {
        var latest: Option<Stamp>;
        raised, latest := db.DeleteKeys(removed, delete);
        if latest.Some? {
          dbLastUpdatedAt := latest;
        }
      }
    }
  }

  function Lookup(c: Cache, fallback: map<string, string>, key: string, default: Option<string>): Option<string> {
    if key in c.values then Some(c.values[key])
    else if key in fallback && fallback[key] != "" then Some(fallback[key])
    else default
  }

  ghost function Advance(seen: Option<Stamp>, t: Table, write: Write): Option<Stamp> {
    if write.Committed? && Latest(t).Some? then Latest(t) else seen
  }

  /** The last seen stamp, the table, and whether one of the two writes was refused. */
  ghost function Wrote(seen: Option<Stamp>, t: Table, batch: Table, removed: set<string>, persist: Write, delete: Write):
    (Option<Stamp>, Table, bool)
  {
    if batch != map[] && persist.Refused? then (seen, t, true) else
    var t1 := if batch != map[] then t + batch else t;
    var s1 := if batch != map[] then Advance(seen, t1, persist) else seen;
    if removed == {} then (s1, t1, false)
    else if delete.Refused? then (s1, t1, true)
    else (Advance(s1, t1 - removed, delete), t1 - removed, false)
  }

  /** New cache, new table, and whether the caller sees a persistence error. */
  ghost function Updated(c: Cache, t: Table, request: map<string, Option<string>>, clock: string -> Stamp,
                         persist: Write, delete: Write): (Cache, Table, bool) {
    var changed, removed := Changed(c.values, request), Removed(c.values, request);
    var (seen, t', raised) := Wrote(c.seen, t, Batch(changed, clock), removed, persist, delete);
    (if raised then c.(seen := seen) else c.(values := (c.values + changed) - removed, seen := seen), t', raised)
  }
}
