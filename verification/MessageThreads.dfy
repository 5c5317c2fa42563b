/** What the message runs leave in the thread table and in newly stored messages, told from the runs alone. */
module MessageThreads {
  import opened Options
  import opened MessageTables
  import opened MessageDelivery

  // ---------------------------------------------------------------- what a window says

  /** The i-th message of the window is stored by it: it is not known, and this is its first appearance. */
  ghost predicate StoresAt(known: set<string>, ms: seq<Fetched>, i: nat)
    requires i < |ms|
  {
    ms[i].id.Some? && ms[i].id.value !in known && First(ms, i)
  }

  /** The i-th message gives the thread a time: it has one, or it is stored now. */
  ghost predicate Dates(known: set<string>, ms: seq<Fetched>, i: nat)
    requires i < |ms|
  {
    ms[i].id.Some? && (ms[i].created.Some? || StoresAt(known, ms, i))
  }

  function TimeOf(m: Fetched, now: nat): nat {
    if m.created.Some? then m.created.value else now
  }

  /** `latest` is the time of the last message of the window that gives one. */
  ghost predicate LatestIs(known: set<string>, ms: seq<Fetched>, now: nat, latest: Option<nat>) {
    match latest
    case None => forall i :: 0 <= i < |ms| ==> !Dates(known, ms, i)
    case Some(time) =>
      exists i :: 0 <= i < |ms| && Dates(known, ms, i) && time == TimeOf(ms[i], now)
                  && forall j :: i < j < |ms| ==> !Dates(known, ms, j)
  }

  /** The stored message is the fetched one. */
  predicate Holds(db: Db, m: Fetched, tid: string, now: nat) {
    && m.id.Some? && m.id.value in db.messages
    && var x := db.messages[m.id.value]; x.threadId == tid && x.body == m.body && x.createdAt == TimeOf(m, now)
  }

  lemma AppearancesNext(known: set<string>, init: seq<Fetched>, m: Fetched)
    ensures var ms := init + [m];
            && (forall i :: 0 <= i < |init| ==> (StoresAt(known, ms, i) <==> StoresAt(known, init, i)))
            && (forall i :: 0 <= i < |init| ==> (Dates(known, ms, i) <==> Dates(known, init, i)))
            && (StoresAt(known, ms, |init|) <==> m.id.Some? && m.id.value !in known && !Seen(init, m.id.value))
  {
    var ms := init + [m];
    forall i | 0 <= i < |init|
      ensures First(ms, i) <==> First(init, i)
    {
      assert forall j :: 0 <= j <= i ==> ms[j] == init[j];
    }
    assert forall j :: 0 <= j < |init| ==> ms[j] == init[j] && init[j] in init;
  }

  lemma LatestNext(known: set<string>, init: seq<Fetched>, m: Fetched, now: nat, before: Option<nat>)
    requires LatestIs(known, init, now, before)
    ensures LatestIs(known, init + [m], now,
                     if Dates(known, init + [m], |init|) then Some(TimeOf(m, now)) else before)
  {
    AppearancesNext(known, init, m);
    var ms := init + [m];
    if !Dates(known, ms, |init|) && before.Some? {
      var i :| 0 <= i < |init| && Dates(known, init, i) && before.value == TimeOf(init[i], now)
               && forall j :: i < j < |init| ==> !Dates(known, init, j);
      assert Dates(known, ms, i) && ms[i] == init[i];
    }
  }

  /** What a window does to the time of its thread, to the thread's mark, and to every other thread. */
  lemma {:induction false} WindowThreads(p: Pass, tid: string, ms: seq<Fetched>, now: nat)
    requires p.latest.None?
    ensures var q := ReceiveAll(p, tid, ms, now);
            && LatestIs(p.s.db.messages.Keys, ms, now, q.latest)
            && q.s.db.threads == if tid in p.s.db.threads && HasNews(p.s.db.messages.Keys, ms)
                                 then p.s.db.threads[tid := p.s.db.threads[tid].(read := false)] else p.s.db.threads
  {
    if ms != [] {
      var init, m := ms[..|ms| - 1], ms[|ms| - 1];
      var known := p.s.db.messages.Keys;
      assert ms == init + [m];
      WindowThreads(p, tid, init, now);
      LatestNext(known, init, m, now, ReceiveAll(p, tid, init, now).latest);
      AppearancesNext(known, init, m);
      NewsNext(known, init, m);
      if m.id.Some? {
        ReceiveAllStep(p, tid, init, now, m.id.value);
      }
    }
  }

  /** Every message a window stores is the fetched one, under this thread. */
  lemma {:induction false} WindowStores(p: Pass, tid: string, ms: seq<Fetched>, now: nat, i: nat)
    requires i < |ms| && StoresAt(p.s.db.messages.Keys, ms, i)
    ensures Holds(ReceiveAll(p, tid, ms, now).s.db, ms[i], tid, now)
  {
    var n := |ms| - 1;
    var init, m := ms[..n], ms[n];
    assert ms == init + [m];
    AppearancesNext(p.s.db.messages.Keys, init, m);
    if i < n {
      WindowStores(p, tid, init, now, i);
      if m.id.Some? {
        ReceiveStep(ReceiveAll(p, tid, init, now), tid, m, now, ms[i].id.value);
      }
    } else {
      ReceiveAllStep(p, tid, init, now, m.id.value);
    }
  }

  // ---------------------------------------------------------------- what a run says

  /** This remote thread is looked at as thread `tid`; an empty id is none for a discussion. */
  predicate Handled(ch: Channel, inc: Incoming, tid: string) {
    inc.id == Some(tid) && !(ch.Discussions? && tid == "")
  }

  function IdsIn(ch: Channel, inc: Incoming): set<string> {
    if inc.id.Some? && Handled(ch, inc, inc.id.value) && inc.messages.Some?
    then set m | m in inc.messages.value && m.id.Some? :: m.id.value else {}
  }

  /** The messages known after looking at `incs`. */
  function KnownAfter(known: set<string>, ch: Channel, incs: seq<Incoming>): set<string> {
    if incs == [] then known else KnownAfter(known, ch, incs[..|incs| - 1]) + IdsIn(ch, incs[|incs| - 1])
  }

  /** Some window of the thread holds news of the buyer. */
  ghost predicate FoundNews(known: set<string>, ch: Channel, incs: seq<Incoming>, tid: string) {
    exists j :: 0 <= j < |incs| && NewsAt(known, ch, incs, tid, j)
  }

  ghost predicate NewsAt(known: set<string>, ch: Channel, incs: seq<Incoming>, tid: string, j: nat)
    requires j < |incs|
  {
    Handled(ch, incs[j], tid) && incs[j].messages.Some? && HasNews(KnownAfter(known, ch, incs[..j]), incs[j].messages.value)
  }

  /** The mark the thread has on the remote side when it is first looked at: discussions count as read. */
  function RemoteMark(ch: Channel, incs: seq<Incoming>, tid: string): Option<bool> {
    if incs == [] then None else
    var before, last := RemoteMark(ch, incs[..|incs| - 1], tid), incs[|incs| - 1];
    if before.Some? || !Handled(ch, last, tid) then before else Some(ch.Discussions? || last.readRemote)
  }

  /** The last window of the thread that gives a time, gives it `time`; None if no window does. */
  ghost predicate LastTimeIs(known: set<string>, ch: Channel, incs: seq<Incoming>, tid: string, now: nat, time: Option<nat>) {
    match time
    case None => forall j :: 0 <= j < |incs| ==> TimeAt(known, ch, incs, tid, now, j, None)
    case Some(_) =>
      exists j :: 0 <= j < |incs| && TimeAt(known, ch, incs, tid, now, j, time)
                  && forall k :: j < k < |incs| ==> TimeAt(known, ch, incs, tid, now, k, None)
  }

  /** The j-th remote thread gives thread `tid` this time; none if it is another thread or its window could not be fetched. */
  ghost predicate TimeAt(known: set<string>, ch: Channel, incs: seq<Incoming>, tid: string, now: nat, j: nat, time: Option<nat>)
    requires j < |incs|
  {
    if Handled(ch, incs[j], tid) && incs[j].messages.Some?
    then LatestIs(KnownAfter(known, ch, incs[..j]), incs[j].messages.value, now, time)
    else time == None
  }

  // ---------------------------------------------------------------- one remote thread

  lemma KnownNext(s: State, ch: Channel, inc: Incoming, auto: bool, now: nat)
    ensures Process(s, ch, inc, auto, now).db.messages.Keys == s.db.messages.Keys + IdsIn(ch, inc)
  {
    forall id
      ensures id in Process(s, ch, inc, auto, now).db.messages <==> id in s.db.messages || id in IdsIn(ch, inc)
    {
      ProcessStep(s, ch, inc, auto, now, id);
    }
  }

  /** What looking at one remote thread does to thread `tid`. */
  ghost predicate ThreadMoves(before: map<string, Thread>, after: map<string, Thread>, known: set<string>, ch: Channel,
                              inc: Incoming, tid: string, now: nat) {
    if !Handled(ch, inc, tid) then
      (tid in after <==> tid in before) && (tid in before ==> after[tid] == before[tid])
    else
      && tid in after
      && var start := if tid in before then before[tid] else Thread(ch.Discussions? || inc.readRemote, now);
         if inc.messages.None? then after[tid] == start else
         && (after[tid].read <==> start.read && !HasNews(known, inc.messages.value))
         && exists latest: Option<nat> :: LatestIs(known, inc.messages.value, now, latest)
                             && after[tid].lastMessageAt == if latest.Some? then latest.value else start.lastMessageAt
  }

  lemma CloseThreads(p: Pass, ch: Channel, done: string, auto: bool, reply: Reply)
    requires done in p.s.db.threads
    ensures Close(p, ch, done, auto, reply).db.threads
            == if p.latest.Some? then p.s.db.threads[done := p.s.db.threads[done].(lastMessageAt := p.latest.value)]
               else p.s.db.threads
  {
  }

  lemma ProcessThreads(s: State, ch: Channel, inc: Incoming, auto: bool, now: nat, tid: string)
    ensures ThreadMoves(s.db.threads, Process(s, ch, inc, auto, now).db.threads, s.db.messages.Keys, ch, inc, tid, now)
  {
    if !Skipped(ch, inc) && inc.messages.Some? {
      var id, ms := inc.id.value, inc.messages.value;
      var ready := Pass(s.(db := Opened(s.db, ch, inc, now)), None, false);
      var p := ReceiveAll(ready, id, ms, now);
      WindowThreads(ready, id, ms, now);
      assert ready.s.db.messages.Keys == s.db.messages.Keys;
      CloseThreads(p, ch, id, auto, inc.reply);
      assert LatestIs(s.db.messages.Keys, ms, now, p.latest);
    }
  }

  // ---------------------------------------------------------------- one run

  lemma {:induction false} RunKnows(s: State, ch: Channel, incs: seq<Incoming>, auto: bool, now: nat)
    ensures ProcessAll(s, ch, incs, auto, now).db.messages.Keys == KnownAfter(s.db.messages.Keys, ch, incs)
  {
    if incs != [] {
      RunKnows(s, ch, incs[..|incs| - 1], auto, now);
      KnownNext(ProcessAll(s, ch, incs[..|incs| - 1], auto, now), ch, incs[|incs| - 1], auto, now);
    }
  }

  /** What a run does to thread `tid`, from its start and the remote threads alone. */
  ghost predicate RunMoves(before: map<string, Thread>, after: map<string, Thread>, known: set<string>, ch: Channel,
                           incs: seq<Incoming>, tid: string, now: nat) {
    && (tid in after <==> tid in before || RemoteMark(ch, incs, tid).Some?)
    && (tid in after ==>
          var start := if tid in before then before[tid] else Thread(RemoteMark(ch, incs, tid).value, now);
          && (after[tid].read <==> start.read && !FoundNews(known, ch, incs, tid))
          && exists time: Option<nat> :: LastTimeIs(known, ch, incs, tid, now, time)
                            && after[tid].lastMessageAt == if time.Some? then time.value else start.lastMessageAt)
  }

  lemma RunMovesNext(before: map<string, Thread>, mid: map<string, Thread>, after: map<string, Thread>, known: set<string>,
                     ch: Channel, init: seq<Incoming>, inc: Incoming, tid: string, now: nat)
    requires RunMoves(before, mid, known, ch, init, tid, now)
    requires ThreadMoves(mid, after, KnownAfter(known, ch, init), ch, inc, tid, now)
    ensures RunMoves(before, after, known, ch, init + [inc], tid, now)
  {
    var incs := init + [inc];
    assert incs[..|init|] == init;
    MarkNext(ch, init, inc, tid);
    NewsAtNext(known, ch, init, inc, tid);
    if tid in after {
      var start := if tid in before then before[tid] else Thread(RemoteMark(ch, incs, tid).value, now);
      var earlier: Option<nat> := None;
      if tid in mid {
        earlier :| LastTimeIs(known, ch, init, tid, now, earlier)
               && mid[tid].lastMessageAt == if earlier.Some? then earlier.value else start.lastMessageAt;
      } else {
        NothingWithoutThread(known, ch, init, tid, now);
      }
      var latest: Option<nat> := None;
      if Handled(ch, inc, tid) && inc.messages.Some? {
        latest :| LatestIs(KnownAfter(known, ch, init), inc.messages.value, now, latest)
                  && after[tid].lastMessageAt
                     == if latest.Some? then latest.value
                        else (if tid in mid then mid[tid].lastMessageAt else start.lastMessageAt);
      }
      LastTimeNext(known, ch, init, inc, tid, now, earlier, latest);
      var time := if latest.Some? then latest else earlier;
      assert LastTimeIs(known, ch, incs, tid, now, time);
    }
  }

  lemma MarkNext(ch: Channel, init: seq<Incoming>, inc: Incoming, tid: string)
    ensures RemoteMark(ch, init + [inc], tid)
            == if RemoteMark(ch, init, tid).Some? || !Handled(ch, inc, tid) then RemoteMark(ch, init, tid)
               else Some(ch.Discussions? || inc.readRemote)
  {
    assert (init + [inc])[..|init|] == init;
  }

  lemma NewsAtNext(known: set<string>, ch: Channel, init: seq<Incoming>, inc: Incoming, tid: string)
    ensures FoundNews(known, ch, init + [inc], tid)
            <==> FoundNews(known, ch, init, tid)
                 || (Handled(ch, inc, tid) && inc.messages.Some? && HasNews(KnownAfter(known, ch, init), inc.messages.value))
  {
    var incs := init + [inc];
    forall j | 0 <= j < |init|
      ensures NewsAt(known, ch, incs, tid, j) <==> NewsAt(known, ch, init, tid, j)
    {
      assert incs[..j] == init[..j] && incs[j] == init[j];
    }
    assert incs[..|init|] == init;
    assert NewsAt(known, ch, incs, tid, |init|)
           <==> Handled(ch, inc, tid) && inc.messages.Some? && HasNews(KnownAfter(known, ch, init), inc.messages.value);
    if FoundNews(known, ch, init, tid) {
      var j :| 0 <= j < |init| && NewsAt(known, ch, init, tid, j);
      assert NewsAt(known, ch, incs, tid, j);
    }
  }

  lemma TimeAtNext(known: set<string>, ch: Channel, init: seq<Incoming>, inc: Incoming, tid: string, now: nat, j: nat, time: Option<nat>)
    requires j < |init|
    ensures TimeAt(known, ch, init + [inc], tid, now, j, time) <==> TimeAt(known, ch, init, tid, now, j, time)
  {
    assert (init + [inc])[..j] == init[..j] && (init + [inc])[j] == init[j];
  }

  lemma LastTimeNext(known: set<string>, ch: Channel, init: seq<Incoming>, inc: Incoming, tid: string, now: nat,
                     earlier: Option<nat>, latest: Option<nat>)
    requires LastTimeIs(known, ch, init, tid, now, earlier)
    requires if Handled(ch, inc, tid) && inc.messages.Some?
             then LatestIs(KnownAfter(known, ch, init), inc.messages.value, now, latest) else latest == None
    ensures LastTimeIs(known, ch, init + [inc], tid, now, if latest.Some? then latest else earlier)
  {
    var incs := init + [inc];
    assert incs[..|init|] == init;
    assert TimeAt(known, ch, incs, tid, now, |init|, latest);
    forall j, time: Option<nat> | 0 <= j < |init|
      ensures TimeAt(known, ch, incs, tid, now, j, time) <==> TimeAt(known, ch, init, tid, now, j, time)
    {
      TimeAtNext(known, ch, init, inc, tid, now, j, time);
    }
    if latest.None? && earlier.Some? {
      var j :| 0 <= j < |init| && TimeAt(known, ch, init, tid, now, j, earlier)
               && forall k :: j < k < |init| ==> TimeAt(known, ch, init, tid, now, k, None);
      assert TimeAt(known, ch, incs, tid, now, j, earlier);
    }
  }

  lemma {:induction false} NothingWithoutThread(known: set<string>, ch: Channel, incs: seq<Incoming>, tid: string, now: nat)
    requires RemoteMark(ch, incs, tid).None?
    ensures LastTimeIs(known, ch, incs, tid, now, None) && !FoundNews(known, ch, incs, tid)
  {
    if incs != [] {
      var init, last := incs[..|incs| - 1], incs[|incs| - 1];
      assert incs == init + [last];
      MarkNext(ch, init, last, tid);
      NewsAtNext(known, ch, init, last, tid);
      NothingWithoutThread(known, ch, init, tid, now);
      LastTimeNext(known, ch, init, last, tid, now, None, None);
    }
  }

  lemma {:induction false} ProcessAllThreads(s: State, ch: Channel, incs: seq<Incoming>, auto: bool, now: nat, tid: string)
    ensures RunMoves(s.db.threads, ProcessAll(s, ch, incs, auto, now).db.threads, s.db.messages.Keys, ch, incs, tid, now)
  {
    if incs == [] {
      assert LastTimeIs(s.db.messages.Keys, ch, incs, tid, now, None);
    } else {
      var init, last := incs[..|incs| - 1], incs[|incs| - 1];
      var mid := ProcessAll(s, ch, init, auto, now);
      assert incs == init + [last];
      ProcessAllThreads(s, ch, init, auto, now, tid);
      RunKnows(s, ch, init, auto, now);
      ProcessThreads(mid, ch, last, auto, now, tid);
      RunMovesNext(s.db.threads, mid.db.threads, ProcessAll(s, ch, incs, auto, now).db.threads, s.db.messages.Keys,
                   ch, init, last, tid, now);
    }
  }

  // ---------------------------------------------------------------- whole sequences of runs

  /** The messages stored after these runs: those of the windows of committed ones. */
  function KnownBy(events: seq<Event>): set<string> {
    if events == [] then {} else
    var known, e := KnownBy(events[..|events| - 1]), events[|events| - 1];
    if e.Checked? then KnownAfter(known, e.ch, e.incs) else known
  }

  lemma {:induction false} StoredIsKnown(events: seq<Event>)
    ensures Run(events).db.messages.Keys == KnownBy(events)
  {
    if events != [] {
      var init, e := events[..|events| - 1], events[|events| - 1];
      StoredIsKnown(init);
      RunKnows(Run(init), e.ch, e.incs, e.auto, e.now);
    }
  }

  /**
    * Over any runs. A rolled-back run moves no thread. A committed one adds the threads it looks at, with the remote
    * mark (read, for a discussion); a thread is unread afterwards exactly when it started so or the run found news of
    * the buyer in it; and its time is that of the last message, dated or newly stored, of its last window with one.
    */
  lemma RunMovesThreads(events: seq<Event>, e: Event, tid: string)
    ensures var before, after := Run(events).db.threads, Run(events + [e]).db.threads;
            if e.Aborted? then after == before else RunMoves(before, after, KnownBy(events), e.ch, e.incs, tid, e.now)
  {
    assert (events + [e])[..|events|] == events;
    StoredIsKnown(events);
    ProcessAllThreads(Run(events), e.ch, e.incs, e.auto, e.now, tid);
  }

  /** The j-th remote thread of a run stores the message at place `i` of its window. */
  ghost predicate RunStoresAt(known: set<string>, ch: Channel, incs: seq<Incoming>, j: nat, i: nat) {
    && j < |incs| && incs[j].id.Some? && Handled(ch, incs[j], incs[j].id.value) && incs[j].messages.Some?
    && i < |incs[j].messages.value| && StoresAt(KnownAfter(known, ch, incs[..j]), incs[j].messages.value, i)
  }

  /** Whatever message a committed run stores first, it stores as fetched: thread, text, and its time or else the run's. */
  lemma {:induction false} RunStoresFetched(s: State, ch: Channel, incs: seq<Incoming>, auto: bool, now: nat, j: nat, i: nat)
    requires RunStoresAt(s.db.messages.Keys, ch, incs, j, i)
    ensures Holds(ProcessAll(s, ch, incs, auto, now).db, incs[j].messages.value[i], incs[j].id.value, now)
  {
    var n := |incs| - 1;
    var mid := ProcessAll(s, ch, incs[..n], auto, now);
    var m, tid := incs[j].messages.value[i], incs[j].id.value;
    if j < n {
      assert incs[..n][..j] == incs[..j];
      RunStoresFetched(s, ch, incs[..n], auto, now, j, i);
      ProcessStep(mid, ch, incs[n], auto, now, m.id.value);
    } else {
      RunKnows(s, ch, incs[..n], auto, now);
      WindowStores(Pass(mid.(db := Opened(mid.db, ch, incs[n], now)), None, false), tid, incs[n].messages.value, now, i);
    }
  }

  lemma CommittedRunStoresFetched(events: seq<Event>, e: Event, j: nat, i: nat)
    requires e.Checked? && RunStoresAt(KnownBy(events), e.ch, e.incs, j, i)
    ensures Holds(Run(events + [e]).db, e.incs[j].messages.value[i], e.incs[j].id.value, e.now)
  {
    assert (events + [e])[..|events|] == events;
    StoredIsKnown(events);
    RunStoresFetched(Run(events), e.ch, e.incs, e.auto, e.now, j, i);
  }
}
