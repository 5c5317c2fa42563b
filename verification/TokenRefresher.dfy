/** The background loop that refreshes the OAuth token: its failure counter, its single alert and its backoff. */
module TokenRefresher {
  import opened Options

  const NOTIFY_THRESHOLD: nat := 3
  const SHORTEST_WAIT: real := 0.01

  /** One pass of the loop: no token or expiry date, a refresh that is due, or some seconds still to wait. */
  datatype Tick = Missing | Due(refreshed: bool) | Early(seconds: real)

  predicate Fails(t: Tick) {
    t.Missing? || (t.Due? && !t.refreshed)
  }

  function Min(a: real, b: real): real {
    if a < b then a else b
  }

  function Max(a: real, b: real): real {
    if a > b then a else b
  }

  // ---------------------------------------------------------------- what a history of passes means

  /** Length of the failing run at the end of the history. */
  function Trailing(h: seq<Tick>): nat {
    if h == [] || !Fails(h[|h| - 1]) then 0 else 1 + Trailing(h[..|h| - 1])
  }

  /** A maximal run of failing passes starts at `s` and is at least as long as the threshold. */
  predicate LongRunAt(h: seq<Tick>, s: int) {
    && 0 <= s && s + 3 <= |h|
    && (forall i :: s <= i < s + 3 ==> h[i] == Missing || h[i] == Due(false))
    && (s == 0 || (h[s - 1] != Missing && h[s - 1] != Due(false)))
  }

  function LongRuns(h: seq<Tick>): set<int> {
    set s | 0 <= s < |h| && LongRunAt(h, s)
  }

  /** Failed refreshes since the last successful one; passes of other kinds do not count and do not reset. */
  function FailedRefreshes(h: seq<Tick>): nat {
    if h == [] || h[|h| - 1] == Due(true) then 0
    else FailedRefreshes(h[..|h| - 1]) + if h[|h| - 1] == Due(false) then 1 else 0
  }

  function Power(n: nat): real {
    if n == 0 then 1.0 else 2.0 * Power(n - 1)
  }

  /** The j-th wait of a row of failed refreshes: the first is not capped. */
  function Backoff(initial: real, max: real, j: nat): real
    requires j > 0
  {
    if j == 1 then initial else Min(initial * Power(j - 1), max)
  }

  /** The wait after the last pass of `h`; None after a successful refresh, which looks again at once. */
  function WaitAfter(h: seq<Tick>, initial: real, max: real, idle: real): Option<real>
    requires h != []
  {
    match h[|h| - 1]
    case Missing => Some(Max(idle, SHORTEST_WAIT))
    case Due(true) => None
    case Due(false) => Some(Max(Backoff(initial, max, FailedRefreshes(h)), SHORTEST_WAIT))
    case Early(s) => Some(Max(Min(s, idle), SHORTEST_WAIT))
  }

  /** The refreshes that failed since the last one that did not. */
  ghost function FailedSince(h: seq<Tick>): set<int> {
    set i | 0 <= i < |h| && h[i] == Due(false) && forall j :: i < j < |h| ==> h[j] != Due(true)
  }

  lemma FailedSinceNext(h: seq<Tick>, t: Tick)
    ensures FailedSince(h + [t])
            == if t == Due(true) then {} else if t == Due(false) then FailedSince(h) + {|h|} else FailedSince(h)
  {
    var more := h + [t];
    assert more[|h|] == t;
    forall i | 0 <= i < |h|
      ensures i in FailedSince(more) <==> i in FailedSince(h) && t != Due(true)
    {
      assert more[i] == h[i];
      if i in FailedSince(more) {
        assert forall j :: i < j < |h| ==> more[j] == h[j];
      }
    }
  }

  lemma {:induction false} FailedRefreshesCounted(h: seq<Tick>)
    ensures FailedRefreshes(h) == |FailedSince(h)|
  {
    if h != [] {
      var n := |h| - 1;
      assert h == h[..n] + [h[n]];
      FailedRefreshesCounted(h[..n]);
      FailedSinceNext(h[..n], h[n]);
    }
  }

  /**
    * How long each kind of pass waits, never less than a hundredth of a second: without a token the idle interval; with
    * time left, that time but no longer than the idle interval; after a failed refresh, the backoff of as many failed
    * refreshes as there were since the last good one, whatever other passes fell between; after a good one, not at all.
    */
  lemma WaitIs(h: seq<Tick>, t: Tick, initial: real, max: real, idle: real)
    ensures var wait := WaitAfter(h + [t], initial, max, idle);
            && (t == Due(true) <==> wait == None)
            && (wait.Some? ==> wait.value >= 0.01)
            && (t == Missing ==> wait.value == if idle > 0.01 then idle else 0.01)
            && (t.Early? ==>
                  && (wait.value <= t.seconds || wait.value == 0.01) && (wait.value <= idle || wait.value == 0.01)
                  && (wait.value == t.seconds || wait.value == idle || t.seconds <= 0.01 || idle <= 0.01))
            && (t == Due(false) ==>
                  var j := |FailedSince(h + [t])|;
                  j > 0 && (wait.value == Backoff(initial, max, j) || (wait.value == 0.01 && Backoff(initial, max, j) < 0.01)))
  {
    FailedRefreshesCounted(h + [t]);
  }

  /** The first backoff is the initial one; each later one doubles, up to the cap. */
  lemma BackoffIs(initial: real, max: real, j: nat)
    requires max >= 0.0 && j > 0
    ensures Backoff(initial, max, 1) == initial
    ensures initial <= max ==> Backoff(initial, max, j) <= max
    ensures Backoff(initial, max, j + 1) == if Backoff(initial, max, j) * 2.0 < max then Backoff(initial, max, j) * 2.0 else max
  {
    BackoffNext(initial, max, j);
  }

  lemma {:induction false} TrailingMeaning(h: seq<Tick>)
    ensures var n := Trailing(h);
            n <= |h| && (forall i :: |h| - n <= i < |h| ==> Fails(h[i])) && (n < |h| ==> !Fails(h[|h| - n - 1]))
  {
    if h != [] && Fails(h[|h| - 1]) {
      TrailingMeaning(h[..|h| - 1]);
    }
  }

  lemma LongRunAtNext(h: seq<Tick>, t: Tick, s: int)
    ensures LongRunAt(h + [t], s) <==>
            if s == |h| + 1 - NOTIFY_THRESHOLD then Trailing(h + [t]) == NOTIFY_THRESHOLD else LongRunAt(h, s)
  {
    if s == |h| + 1 - NOTIFY_THRESHOLD {
      LongRunAtEnd(h + [t]);
    } else if 0 <= s && s + NOTIFY_THRESHOLD <= |h| {
      assert forall i :: 0 <= i < |h| ==> (h + [t])[i] == h[i];
    }
  }

  lemma LongRunAtEnd(h: seq<Tick>)
    ensures LongRunAt(h, |h| - NOTIFY_THRESHOLD) <==> Trailing(h) == NOTIFY_THRESHOLD
  {
    TrailingMeaning(h);
    var n := Trailing(h);
    assert n < |h| ==> !Fails(h[|h| - n - 1]);
  }

  lemma TrailingNext(h: seq<Tick>, t: Tick)
    ensures Trailing(h + [t]) == if Fails(t) then Trailing(h) + 1 else 0
    ensures Trailing(h + [t]) <= |h| + 1
  {
    assert (h + [t])[..|h|] == h;
    TrailingMeaning(h);
  }

  /** One more pass adds a long run exactly when it is the failing pass that completes the threshold. */
  lemma LongRunsNext(h: seq<Tick>, t: Tick)
    ensures var s := |h| + 1 - NOTIFY_THRESHOLD;
            s !in LongRuns(h) && LongRuns(h + [t]) == LongRuns(h) + if Trailing(h + [t]) == NOTIFY_THRESHOLD then {s} else {}
  {
    TrailingNext(h, t);
    var last := |h| + 1 - NOTIFY_THRESHOLD;
    var completed := Trailing(h + [t]) == NOTIFY_THRESHOLD;
    forall s
      ensures s in LongRuns(h + [t]) <==> s in LongRuns(h) || (completed && s == last)
    {
      LongRunAtNext(h, t, s);
    }
  }

  /** What one more pass does to the counters. */
  lemma HistoryNext(h: seq<Tick>, t: Tick)
    ensures Trailing(h + [t]) == if Fails(t) then Trailing(h) + 1 else 0
    ensures |LongRuns(h + [t])| == |LongRuns(h)| + if Fails(t) && Trailing(h) + 1 == NOTIFY_THRESHOLD then 1 else 0
  {
    TrailingNext(h, t);
    LongRunsNext(h, t);
  }

  lemma {:induction false} PowerGrows(n: nat)
    ensures Power(n) >= 1.0
  {
    if n > 0 {
      PowerGrows(n - 1);
    }
  }

  /** Doubling and capping after each failed refresh is the closed form. */
  lemma BackoffNext(initial: real, max: real, j: nat)
    requires max >= 0.0 && j > 0
    ensures Min(Backoff(initial, max, j) * 2.0, max) == Backoff(initial, max, j + 1)
  {
    PowerGrows(j - 1);
    assert Power(j) == 2.0 * Power(j - 1);
    assert initial * Power(j) == 2.0 * (initial * Power(j - 1));
    assert Power(0) == 1.0;
  }

  function Capped(initial: real, max: real, j: nat): real
    requires j > 0
  {
    Min(initial * Power(j - 1), max)
  }

  /** The backoff is capped from the first wait on exactly when `initial` is within the cap. */
  lemma BackoffIsCappedIff(initial: real, max: real)
    ensures (forall j: nat :: j > 0 ==> Backoff(initial, max, j) == Capped(initial, max, j)) <==> initial <= max
  {
    assert Power(0) == 1.0;
    assert initial * Power(0) == initial;
    assert Capped(initial, max, 1) == Min(initial, max);
    assert Backoff(initial, max, 1) == initial;
  }

  /** Each pass of `ticks` is followed by the wait its history asks for. */
  ghost predicate WaitsAre(waits: seq<Option<real>>, ticks: seq<Tick>, initial: real, max: real, idle: real) {
    |waits| == |ticks| && forall i :: 0 <= i < |ticks| ==> waits[i] == WaitAfter(ticks[..i + 1], initial, max, idle)
  }

  lemma WaitsNext(waits: seq<Option<real>>, ticks: seq<Tick>, t: Tick, wait: Option<real>, initial: real, max: real, idle: real)
    requires WaitsAre(waits, ticks, initial, max, idle) && wait == WaitAfter(ticks + [t], initial, max, idle)
    ensures WaitsAre(waits + [wait], ticks + [t], initial, max, idle)
  {
    forall i | 0 <= i <= |ticks|
      ensures (waits + [wait])[i] == WaitAfter((ticks + [t])[..i + 1], initial, max, idle)
    {
      assert (ticks + [t])[..i + 1] == if i < |ticks| then ticks[..i + 1] else ticks + [t];
    }
  }

  // ---------------------------------------------------------------- the class

  class AllegroTokenRefresher {
    const idleInterval: real
    const errorBackoffInitial: real
    const errorBackoffMax: real
    var consecutiveFailures: nat
    var notificationSent: bool
    var alerts: nat
    ghost var history: seq<Tick>

    ghost predicate Valid()
      reads this
    {
      && errorBackoffMax >= 0.0
      && consecutiveFailures == Trailing(history)
      && notificationSent == (consecutiveFailures >= NOTIFY_THRESHOLD)
      && alerts == |LongRuns(history)|
    }

    constructor (idle: real, initial: real, max: real)
      requires max >= 0.0
      ensures Valid() && history == []
      ensures idleInterval == idle && errorBackoffInitial == initial && errorBackoffMax == max
    {
      idleInterval, errorBackoffInitial, errorBackoffMax := idle, initial, max;
      consecutiveFailures, notificationSent, alerts := 0, false, 0;
      history := [];
    }

    /** One more failure; the alert goes out once, when the threshold is reached, whether or not Messenger takes it. */
    method TrackFailure(ghost t: Tick)
      requires Valid() && Fails(t)
      modifies this
      ensures Valid() && history == old(history) + [t]
    {
      HistoryNext(history, t);
      consecutiveFailures := consecutiveFailures + 1;
      if consecutiveFailures >= NOTIFY_THRESHOLD && !notificationSent {
        alerts := alerts + 1;
        notificationSent := true;
      }
      history := history + [t];
    }

    method ResetFailures(ghost t: Tick)
      requires Valid() && !Fails(t)
      modifies this
      ensures Valid() && history == old(history) + [t]
    {
      HistoryNext(history, t);
      consecutiveFailures, notificationSent := 0, false;
      history := history + [t];
    }

    /** One pass of the loop, after the passes `h` of this life of the thread. */
    method Pass(t: Tick, backoff: real, ghost h: seq<Tick>) returns (wait: Option<real>, next: real)
      requires Valid() && backoff == Backoff(errorBackoffInitial, errorBackoffMax, FailedRefreshes(h) + 1)
      modifies this
      ensures Valid() && history == old(history) + [t]
      ensures wait == WaitAfter(h + [t], errorBackoffInitial, errorBackoffMax, idleInterval)
      ensures next == Backoff(errorBackoffInitial, errorBackoffMax, FailedRefreshes(h + [t]) + 1)
    {
      assert (h + [t])[..|h|] == h;
      wait, next := None, backoff;
      match t {
        case Missing =>
          TrackFailure(t);
          wait := Some(Max(idleInterval, SHORTEST_WAIT));
        case Due(refreshed) =>
          if refreshed {
            next := errorBackoffInitial;
            ResetFailures(t);
          } else {
            TrackFailure(t);
            wait := Some(Max(backoff, SHORTEST_WAIT));
            BackoffNext(errorBackoffInitial, errorBackoffMax, FailedRefreshes(h) + 1);
            next := Min(backoff * 2.0, errorBackoffMax);
          }
        case Early(seconds) =>
          ResetFailures(t);
          wait := Some(Max(Min(seconds, idleInterval), SHORTEST_WAIT));
      }
    }

    /**
      * `_run`, for the passes of one life of the thread. The counters go on from where an earlier thread left them;
      * the backoff starts anew. Over the whole history there is one alert per maximal run of three or more failing
      * passes, and each wait is the one its history asks for.
      */
    method Run(ticks: seq<Tick>) returns (waits: seq<Option<real>>)
      requires Valid()
      modifies this
      ensures Valid() && history == old(history) + ticks
      ensures alerts == |LongRuns(history)|
      ensures WaitsAre(waits, ticks, errorBackoffInitial, errorBackoffMax, idleInterval)
    {
      var backoff := errorBackoffInitial;
      waits := [];
      for i := 0 to |ticks|
        invariant Valid() && history == old(history) + ticks[..i]
        invariant backoff == Backoff(errorBackoffInitial, errorBackoffMax, FailedRefreshes(ticks[..i]) + 1)
        invariant WaitsAre(waits, ticks[..i], errorBackoffInitial, errorBackoffMax, idleInterval)
      {
        assert ticks[..i] + [ticks[i]] == ticks[..i + 1];
        var wait: Option<real>;
        wait, backoff := Pass(ticks[i], backoff, ticks[..i]);
        WaitsNext(waits, ticks[..i], ticks[i], wait, errorBackoffInitial, errorBackoffMax, idleInterval);
        waits := waits + [wait];
      }
      assert ticks[..|ticks|] == ticks;
    }
  }
}
