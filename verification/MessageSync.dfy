/**
  * Synchronisation of buyer messages: overlapping windows of messages are fetched again and again, each message is
  * stored once, announced on Messenger, and each thread may get one automatic reply.
  */
module MessageTables {
  import opened Options

  /** Discussions (disputes) and ordinary message threads share the message and thread tables. */
  datatype Channel = Discussions | Threads

  /** A fetched message. `sendOk` tells whether a Messenger announcement tried at this point would succeed. */
  datatype Fetched = Fetched(id: Option<string>, fromBuyer: bool, body: string, created: Option<nat>, sendOk: bool)

  /** How an automatic reply would end if tried: not sent, sent, or sent with the row about it lost. */
  datatype Reply = NotSent | Sent | SentUnrecorded

  /** One remote thread; `messages` is None when fetching its window failed. */
  datatype Incoming = Incoming(id: Option<string>, readRemote: bool, messages: Option<seq<Fetched>>, reply: Reply)

  datatype Message = Message(threadId: string, body: string, createdAt: nat, notified: bool)

  datatype Thread = Thread(read: bool, lastMessageAt: nat)

  datatype Db = Db(messages: map<string, Message>, threads: map<string, Thread>,
                   repliedDiscussions: set<string>, repliedThreads: set<string>)

  /** The database, and what has really been sent: announcements by message id, replies by thread. */
  datatype State = State(db: Db, sends: seq<string>, replies: seq<(Channel, string)>)

  function Replied(db: Db, ch: Channel): set<string> {
    if ch.Discussions? then db.repliedDiscussions else db.repliedThreads
  }

  predicate Notified(db: Db, id: string) {
    id in db.messages && db.messages[id].notified
  }

  /** `notify_allegro_message_once`. */
  function Notify(s: State, id: string, sendOk: bool): State {
    if id !in s.db.messages || s.db.messages[id].notified || !sendOk then s
    else s.(db := s.db.(messages := s.db.messages[id := s.db.messages[id].(notified := true)]), sends := s.sends + [id])
  }

  /** The state of the message loop of one thread. */
  datatype Pass = Pass(s: State, latest: Option<nat>, anyNew: bool)

  function Receive(p: Pass, tid: string, m: Fetched, now: nat): Pass {
    if m.id.None? then p else
    var id, db := m.id.value, p.s.db;
    if id in db.messages then
      Pass(if m.fromBuyer then Notify(p.s, id, m.sendOk) else p.s, if m.created.Some? then m.created else p.latest, p.anyNew)
    else
      var created := if m.created.Some? then m.created.value else now;
      var s := p.s.(db := db.(messages := db.messages[id := Message(tid, m.body, created, false)]));
      if !m.fromBuyer then Pass(s, Some(created), p.anyNew)
      else
        var s' := Notify(s, id, m.sendOk);
        Pass(s'.(db := s'.db.(threads := Unread(s'.db.threads, tid))), Some(created), true)
  }

  function Unread(threads: map<string, Thread>, tid: string): map<string, Thread> {
    if tid in threads then threads[tid := threads[tid].(read := false)] else threads
  }

  function ReceiveAll(p: Pass, tid: string, ms: seq<Fetched>, now: nat): Pass {
    if ms == [] then p
    else Receive(ReceiveAll(p, tid, ms[..|ms| - 1], now), tid, ms[|ms| - 1], now)
  }

  /** `_send_auto_reply_*`: only if no reply to this thread is on record. */
  function AutoReply(s: State, ch: Channel, tid: string, reply: Reply): State {
    if tid in Replied(s.db, ch) || reply.NotSent? then s else
    var s' := s.(replies := s.replies + [(ch, tid)]);
    if reply.SentUnrecorded? then s'
    else if ch.Discussions? then s'.(db := s.db.(repliedDiscussions := s.db.repliedDiscussions + {tid}))
    else s'.(db := s.db.(repliedThreads := s.db.repliedThreads + {tid}))
  }

  /** A thread without an id is skipped; so is a discussion with an empty one. */
  predicate Skipped(ch: Channel, inc: Incoming) {
    inc.id.None? || (ch.Discussions? && inc.id.value == "")
  }

  function Opened(db: Db, ch: Channel, inc: Incoming, now: nat): Db
    requires inc.id.Some?
  {
    if inc.id.value in db.threads then db
    else db.(threads := db.threads[inc.id.value := Thread(ch.Discussions? || inc.readRemote, now)])
  }

  function Close(p: Pass, ch: Channel, tid: string, auto: bool, reply: Reply): State {
    var s := if p.latest.Some? && tid in p.s.db.threads
             then p.s.(db := p.s.db.(threads := p.s.db.threads[tid := p.s.db.threads[tid].(lastMessageAt := p.latest.value)]))
             else p.s;
    if p.anyNew && auto then AutoReply(s, ch, tid, reply) else s
  }

  /** `_process_discussion` and `_process_message_thread`. */
  function Process(s: State, ch: Channel, inc: Incoming, auto: bool, now: nat): State {
    if Skipped(ch, inc) then s else
    var ready := s.(db := Opened(s.db, ch, inc, now));
    if inc.messages.None? then ready
    else Close(ReceiveAll(Pass(ready, None, false), inc.id.value, inc.messages.value, now), ch, inc.id.value, auto, inc.reply)
  }

  function ProcessAll(s: State, ch: Channel, incs: seq<Incoming>, auto: bool, now: nat): State {
    if incs == [] then s
    else Process(ProcessAll(s, ch, incs[..|incs| - 1], auto, now), ch, incs[|incs| - 1], auto, now)
  }
}

module MessageSync {
  import opened Options
  import opened MessageTables

  class AllegroSyncService {
    var messages: map<string, Message>
    var threads: map<string, Thread>
    var repliedDiscussions: set<string>
    var repliedThreads: set<string>
    var sends: seq<string>
    var replies: seq<(Channel, string)>

    constructor ()
      ensures View() == State(Db(map[], map[], {}, {}), [], [])
    {
      messages, threads, repliedDiscussions, repliedThreads := map[], map[], {}, {};
      sends, replies := [], [];
    }

    ghost function View(): State
      reads this
    {
      State(Db(messages, threads, repliedDiscussions, repliedThreads), sends, replies)
    }

    method NotifyOnce(id: string, sendOk: bool) returns (sent: bool)
      modifies this`messages, this`sends
      ensures View() == Notify(old(View()), id, sendOk)
      ensures sent == (sends != old(sends))
    {
      if id !in messages {
        return false;
      }
      if messages[id].notified {
        return false;
      }
      if !sendOk {
        return false;
      }
      sends := sends + [id];
      messages := messages[id := messages[id].(notified := true)];
      return true;
    }

    method SendAutoReply(ch: Channel, tid: string, reply: Reply)
      modifies this`replies, this`repliedDiscussions, this`repliedThreads
      ensures View() == AutoReply(old(View()), ch, tid, reply)
    {
      if tid in (if ch.Discussions? then repliedDiscussions else repliedThreads) {
        return;
      }
      if reply.NotSent? {
        return;
      }
      replies := replies + [(ch, tid)];
      if reply.Sent? {
        if ch.Discussions? {
          repliedDiscussions := repliedDiscussions + {tid};
        } else {
          repliedThreads := repliedThreads + {tid};
        }
      }
    }

    /** The loop over one window of messages. */
    method ReceiveWindow(tid: string, ms: seq<Fetched>, now: nat) returns (latest: Option<nat>, anyNew: bool)
      modifies this
      ensures Pass(View(), latest, anyNew) == ReceiveAll(Pass(old(View()), None, false), tid, ms, now)
    {
      latest, anyNew := None, false;
      for i := 0 to |ms|
        invariant Pass(View(), latest, anyNew) == ReceiveAll(Pass(old(View()), None, false), tid, ms[..i], now)
      {
        var m := ms[i];
        assert ms[..i + 1][..i] == ms[..i];
        if m.id.Some? {
          var id := m.id.value;
          if id in messages {
            latest := if m.created.Some? then m.created else latest;
            if m.fromBuyer {
              var _ := NotifyOnce(id, m.sendOk);
            }
          } else {
            var created := if m.created.Some? then m.created.value else now;
            messages := messages[id := Message(tid, m.body, created, false)];
            latest := Some(created);
            if m.fromBuyer {
              var _ := NotifyOnce(id, m.sendOk);
              anyNew := true;
              if tid in threads {
                threads := threads[tid := threads[tid].(read := false)];
              }
            }
          }
        }
      }
      assert ms[..|ms|] == ms;
    }

    method ProcessThread(ch: Channel, inc: Incoming, auto: bool, now: nat)
      modifies this
      ensures View() == Process(old(View()), ch, inc, auto, now)
    {
      if inc.id.None? || (ch.Discussions? && inc.id.value == "") {
        return;
      }
      var tid := inc.id.value;
      if tid !in threads {
        threads := threads[tid := Thread(ch.Discussions? || inc.readRemote, now)];
      }
      if inc.messages.None? {
        return;
      }
      var latest, anyNew := ReceiveWindow(tid, inc.messages.value, now);
      if latest.Some? && tid in threads {
        threads := threads[tid := threads[tid].(lastMessageAt := latest.value)];
      }
      if anyNew && auto {
        SendAutoReply(ch, tid, inc.reply);
      }
    }

    /**
      * `check_discussions` / `check_messages`: all threads in one transaction. If it `raises`, the database goes back
      * to what it was, but nothing that was sent can be called back. (A run that raises half-way is the run on the
      * threads and messages it got through.)
      */
    method Check(ch: Channel, incs: seq<Incoming>, auto: bool, now: nat, raises: bool)
      modifies this
      ensures var done := ProcessAll(old(View()), ch, incs, auto, now);
              View() == if raises then done.(db := old(View()).db) else done
    {
      var m0, t0, d0, r0 := messages, threads, repliedDiscussions, repliedThreads;
      for i := 0 to |incs|
        invariant View() == ProcessAll(old(View()), ch, incs[..i], auto, now)
      {
        assert incs[..i + 1][..i] == incs[..i];
        ProcessThread(ch, incs[i], auto, now);
      }
      assert incs[..|incs|] == incs;
      if raises {
        messages, threads, repliedDiscussions, repliedThreads := m0, t0, d0, r0;
      }
    }
  }
}

/** At-most-once delivery over whole runs. */
module MessageDelivery {
  import opened Options
  import opened MessageTables

  datatype Event =
    | Checked(ch: Channel, incs: seq<Incoming>, auto: bool, now: nat)
    | Aborted(ch: Channel, incs: seq<Incoming>, auto: bool, now: nat)

  function Step(s: State, e: Event): State {
    var done := ProcessAll(s, e.ch, e.incs, e.auto, e.now);
    if e.Aborted? then done.(db := s.db) else done
  }

  const EMPTY := State(Db(map[], map[], {}, {}), [], [])

  function Run(events: seq<Event>): State {
    if events == [] then EMPTY else Step(Run(events[..|events| - 1]), events[|events| - 1])
  }

  function Count<T(==)>(log: seq<T>, x: T): nat {
    if log == [] then 0 else Count(log[..|log| - 1], x) + if log[|log| - 1] == x then 1 else 0
  }

  lemma CountSnoc<T>(log: seq<T>, y: T, x: T)
    ensures Count(log + [y], x) == Count(log, x) + if y == x then 1 else 0
  {
    assert (log + [y])[..|log + [y]| - 1] == log;
  }

  // ---------------------------------------------------------------- what each step keeps

  /** Announcements sent beyond the one the flag accounts for. */
  function Surplus(s: State, id: string): int {
    Count(s.sends, id) - if Notified(s.db, id) then 1 else 0
  }

  function ReplySurplus(s: State, ch: Channel, tid: string): int {
    Count(s.replies, (ch, tid)) - if tid in Replied(s.db, ch) then 1 else 0
  }

  /** Stored messages stay as they are, except that their flag may rise. */
  ghost predicate Grows(a: Db, b: Db) {
    forall id :: id in a.messages ==>
      id in b.messages && (b.messages[id] == a.messages[id] || b.messages[id] == a.messages[id].(notified := true))
  }

  predicate Seen(ms: seq<Fetched>, id: string) {
    exists m :: m in ms && m.id == Some(id)
  }

  /** Some appearance of the message, as the buyer's, met a working Messenger. */
  predicate Announced(ms: seq<Fetched>, id: string) {
    exists m :: m in ms && m.id == Some(id) && m.fromBuyer && m.sendOk
  }

  /** From `a` to `b`: message `id` is stored if it was or is `seen`, flagged if it was or is `announced`, no reply is sent. */
  ghost predicate Advances(a: State, b: State, id: string, seen: bool, announced: bool) {
    && Surplus(b, id) == Surplus(a, id)
    && b.replies == a.replies
    && b.db.repliedDiscussions == a.db.repliedDiscussions
    && b.db.repliedThreads == a.db.repliedThreads
    && Grows(a.db, b.db)
    && (id in b.db.messages <==> id in a.db.messages || seen)
    && (Notified(b.db, id) <==> Notified(a.db, id) || announced)
  }

  lemma NotifyStep(s: State, which: string, sendOk: bool, id: string)
    ensures Advances(s, Notify(s, which, sendOk), id, false, which == id && id in s.db.messages && sendOk)
  {
    var t := Notify(s, which, sendOk);
    if which in s.db.messages && !s.db.messages[which].notified && sendOk {
      CountSnoc(s.sends, which, id);
      assert t.sends == s.sends + [which];
      assert Notified(t.db, id) <==> Notified(s.db, id) || which == id;
    } else {
      assert t == s;
    }
  }

  lemma ReceiveStep(p: Pass, tid: string, m: Fetched, now: nat, id: string)
    ensures Advances(p.s, Receive(p, tid, m, now).s, id, m.id == Some(id), m.id == Some(id) && m.fromBuyer && m.sendOk)
  {
    if m.id.Some? {
      var which, db := m.id.value, p.s.db;
      if which in db.messages {
        NotifyStep(p.s, which, m.sendOk, id);
      } else {
        var created := if m.created.Some? then m.created.value else now;
        var s := p.s.(db := db.(messages := db.messages[which := Message(tid, m.body, created, false)]));
        assert Advances(p.s, s, id, which == id, false);
        NotifyStep(s, which, m.sendOk, id);
        assert Receive(p, tid, m, now).s.db.messages == (if m.fromBuyer then Notify(s, which, m.sendOk) else s).db.messages;
      }
    }
  }

  lemma {:induction false} ReceiveAllStep(p: Pass, tid: string, ms: seq<Fetched>, now: nat, id: string)
    ensures Advances(p.s, ReceiveAll(p, tid, ms, now).s, id, Seen(ms, id), Announced(ms, id))
  {
    if ms != [] {
      var init, last := ms[..|ms| - 1], ms[|ms| - 1];
      ReceiveAllStep(p, tid, init, now, id);
      ReceiveStep(ReceiveAll(p, tid, init, now), tid, last, now, id);
      assert forall m :: m in ms <==> m in init || m == last;
    }
  }

  predicate ThreadSeen(ch: Channel, inc: Incoming, id: string) {
    !Skipped(ch, inc) && inc.messages.Some? && Seen(inc.messages.value, id)
  }

  predicate ThreadAnnounced(ch: Channel, inc: Incoming, id: string) {
    !Skipped(ch, inc) && inc.messages.Some? && Announced(inc.messages.value, id)
  }

  lemma ProcessStep(s: State, ch: Channel, inc: Incoming, auto: bool, now: nat, id: string)
    ensures var t := Process(s, ch, inc, auto, now);
            && Surplus(t, id) == Surplus(s, id)
            && Grows(s.db, t.db)
            && (id in t.db.messages <==> id in s.db.messages || ThreadSeen(ch, inc, id))
            && (Notified(t.db, id) <==> Notified(s.db, id) || ThreadAnnounced(ch, inc, id))
  {
    if !Skipped(ch, inc) && inc.messages.Some? {
      ReceiveAllStep(Pass(s.(db := Opened(s.db, ch, inc, now)), None, false), inc.id.value, inc.messages.value, now, id);
    }
  }

  /** The window holds a message of the buyer that is not stored yet, at its first appearance. */
  ghost predicate HasNews(known: set<string>, ms: seq<Fetched>) {
    exists i :: 0 <= i < |ms| && ms[i].id.Some? && ms[i].fromBuyer && ms[i].id.value !in known && First(ms, i)
  }

  ghost predicate First(ms: seq<Fetched>, i: nat)
    requires i < |ms|
  {
    forall j :: 0 <= j < i ==> ms[j].id != ms[i].id
  }

  lemma NewsNext(known: set<string>, init: seq<Fetched>, m: Fetched)
    ensures HasNews(known, init + [m])
            <==> HasNews(known, init) || (m.id.Some? && m.fromBuyer && m.id.value !in known && !Seen(init, m.id.value))
  {
    var ms := init + [m];
    assert forall i :: 0 <= i < |init| ==> ms[i] == init[i];
    forall i | 0 <= i < |init|
      ensures First(ms, i) <==> First(init, i)
    {
    }
    if HasNews(known, init) {
      var i :| 0 <= i < |init| && init[i].id.Some? && init[i].fromBuyer && init[i].id.value !in known && First(init, i);
      assert First(ms, i);
    }
    if m.id.Some? && !Seen(init, m.id.value) {
      assert forall j :: 0 <= j < |init| ==> init[j] in init;
      assert First(ms, |init|);
    }
  }

  lemma {:induction false} NewsIsFound(p: Pass, tid: string, ms: seq<Fetched>, now: nat)
    ensures ReceiveAll(p, tid, ms, now).anyNew == (p.anyNew || HasNews(p.s.db.messages.Keys, ms))
  {
    if ms != [] {
      var init, m := ms[..|ms| - 1], ms[|ms| - 1];
      assert ms == init + [m];
      NewsIsFound(p, tid, init, now);
      NewsNext(p.s.db.messages.Keys, init, m);
      if m.id.Some? {
        ReceiveAllStep(p, tid, init, now, m.id.value);
      }
    }
  }

  /** Processing this thread tries an automatic reply to thread `tid` of `kind`. */
  ghost predicate Tries(s: State, ch: Channel, inc: Incoming, auto: bool, kind: Channel, tid: string) {
    && ch == kind && inc.id == Some(tid) && !Skipped(ch, inc)
    && auto && inc.messages.Some? && HasNews(s.db.messages.Keys, inc.messages.value) && tid !in Replied(s.db, kind)
  }

  lemma CloseReplies(p: Pass, ch: Channel, done: string, auto: bool, reply: Reply, kind: Channel, tid: string)
    ensures var t := Close(p, ch, done, auto, reply);
            var tries := p.anyNew && auto && (ch, done) == (kind, tid) && tid !in Replied(p.s.db, kind);
            && Count(t.replies, (kind, tid)) == Count(p.s.replies, (kind, tid)) + (if tries && !reply.NotSent? then 1 else 0)
            && (tid in Replied(t.db, kind) <==> tid in Replied(p.s.db, kind) || (tries && reply.Sent?))
  {
    var s := Close(p, ch, done, false, reply);
    assert s.replies == p.s.replies && Replied(s.db, kind) == Replied(p.s.db, kind);
    if p.anyNew && auto && done !in Replied(s.db, ch) && !reply.NotSent? {
      CountSnoc(s.replies, (ch, done), (kind, tid));
      assert AutoReply(s, ch, done, reply).replies == s.replies + [(ch, done)];
    }
  }

  lemma ProcessReplies(s: State, ch: Channel, inc: Incoming, auto: bool, now: nat, kind: Channel, tid: string)
    ensures var t := Process(s, ch, inc, auto, now);
            var tries := Tries(s, ch, inc, auto, kind, tid);
            && Count(t.replies, (kind, tid)) == Count(s.replies, (kind, tid)) + (if tries && !inc.reply.NotSent? then 1 else 0)
            && (tid in Replied(t.db, kind) <==> tid in Replied(s.db, kind) || (tries && inc.reply.Sent?))
  {
    if !Skipped(ch, inc) && inc.messages.Some? {
      var p := Pass(s.(db := Opened(s.db, ch, inc, now)), None, false);
      var q := ReceiveAll(p, inc.id.value, inc.messages.value, now);
      ReceiveAllStep(p, inc.id.value, inc.messages.value, now, "");
      NewsIsFound(p, inc.id.value, inc.messages.value, now);
      assert HasNews(p.s.db.messages.Keys, inc.messages.value) <==> HasNews(s.db.messages.Keys, inc.messages.value);
      CloseReplies(q, ch, inc.id.value, auto, inc.reply, kind, tid);
    }
  }

  /** Of the replies to thread `tid` a run sends, those whose row is lost. */
  ghost function LostReplies(s: State, ch: Channel, incs: seq<Incoming>, auto: bool, now: nat, kind: Channel, tid: string): nat {
    if incs == [] then 0 else
    var init, last := incs[..|incs| - 1], incs[|incs| - 1];
    LostReplies(s, ch, init, auto, now, kind, tid) +
    if Tries(ProcessAll(s, ch, init, auto, now), ch, last, auto, kind, tid) && last.reply.SentUnrecorded? then 1 else 0
  }

  /** All replies to thread `tid` a run sends. */
  ghost function SentReplies(s: State, ch: Channel, incs: seq<Incoming>, auto: bool, now: nat, kind: Channel, tid: string): nat {
    if incs == [] then 0 else
    var init, last := incs[..|incs| - 1], incs[|incs| - 1];
    SentReplies(s, ch, init, auto, now, kind, tid) +
    if Tries(ProcessAll(s, ch, init, auto, now), ch, last, auto, kind, tid) && !last.reply.NotSent? then 1 else 0
  }

  lemma {:induction false} ProcessAllReplies(s: State, ch: Channel, incs: seq<Incoming>, auto: bool, now: nat,
                                             kind: Channel, tid: string)
    ensures var t := ProcessAll(s, ch, incs, auto, now);
            && Count(t.replies, (kind, tid)) == Count(s.replies, (kind, tid)) + SentReplies(s, ch, incs, auto, now, kind, tid)
            && ReplySurplus(t, kind, tid) == ReplySurplus(s, kind, tid) + LostReplies(s, ch, incs, auto, now, kind, tid)
  {
    if incs != [] {
      ProcessAllReplies(s, ch, incs[..|incs| - 1], auto, now, kind, tid);
      ProcessReplies(ProcessAll(s, ch, incs[..|incs| - 1], auto, now), ch, incs[|incs| - 1], auto, now, kind, tid);
    }
  }

  lemma {:induction false} ProcessAllStep(s: State, ch: Channel, incs: seq<Incoming>, auto: bool, now: nat, id: string)
    ensures var t := ProcessAll(s, ch, incs, auto, now);
            && Surplus(t, id) == Surplus(s, id)
            && Grows(s.db, t.db)
            && (id in t.db.messages <==> id in s.db.messages || exists inc :: inc in incs && ThreadSeen(ch, inc, id))
            && (Notified(t.db, id) <==> Notified(s.db, id) || exists inc :: inc in incs && ThreadAnnounced(ch, inc, id))
  {
    if incs != [] {
      var init, last := incs[..|incs| - 1], incs[|incs| - 1];
      ProcessAllStep(s, ch, init, auto, now, id);
      ProcessStep(ProcessAll(s, ch, init, auto, now), ch, last, auto, now, id);
      assert forall inc :: inc in incs <==> inc in init || inc == last;
    }
  }

  // ---------------------------------------------------------------- whole runs

  /** In this run the message appears as the buyer's at a moment when Messenger works. */
  ghost predicate RunAnnounces(e: Event, id: string) {
    exists inc :: inc in e.incs && ThreadAnnounced(e.ch, inc, id)
  }

  /** A committed run announced the message. */
  ghost predicate Delivered(events: seq<Event>, id: string) {
    exists e :: e in events && e.Checked? && RunAnnounces(e, id)
  }

  lemma DeliveredNext(init: seq<Event>, e: Event, id: string)
    ensures Delivered(init + [e], id) <==> Delivered(init, id) || (e.Checked? && RunAnnounces(e, id))
  {
    assert forall x :: x in init + [e] <==> x in init || x == e;
  }

  /** The runs that announced the message and were rolled back before any committed run had announced it. */
  ghost function WastedRuns(events: seq<Event>, id: string): nat {
    if events == [] then 0 else
    var init, last := events[..|events| - 1], events[|events| - 1];
    WastedRuns(init, id) + if last.Aborted? && RunAnnounces(last, id) && !Delivered(init, id) then 1 else 0
  }

  /**
    * Over any sequence of runs, told from the events alone: a message is announced once by the first committed run that
    * announces it, and once more by every run before that which announced it and was rolled back; never otherwise.
    */
  lemma {:induction false} AnnouncementsAreCounted(events: seq<Event>, id: string)
    ensures Notified(Run(events).db, id) <==> Delivered(events, id)
    ensures Count(Run(events).sends, id) == WastedRuns(events, id) + if Delivered(events, id) then 1 else 0
  {
    if events != [] {
      var init, e := events[..|events| - 1], events[|events| - 1];
      AnnouncementsAreCounted(init, id);
      ProcessAllStep(Run(init), e.ch, e.incs, e.auto, e.now, id);
      assert events == init + [e];
      DeliveredNext(init, e, id);
    }
  }

  /** A run that announced the message was rolled back, and run `j` announces it while no committed run has. */
  ghost predicate Repeats(events: seq<Event>, id: string, j: nat)
    requires j < |events|
  {
    && RunAnnounces(events[j], id) && !Delivered(events[..j], id)
    && exists e :: e in events[..j] && e.Aborted? && RunAnnounces(e, id)
  }

  lemma {:induction false} WastedRunExists(events: seq<Event>, id: string)
    requires !Delivered(events, id)
    ensures WastedRuns(events, id) > 0 <==> exists e :: e in events && e.Aborted? && RunAnnounces(e, id)
  {
    if events != [] {
      var init, last := events[..|events| - 1], events[|events| - 1];
      assert events == init + [last];
      DeliveredNext(init, last, id);
      WastedRunExists(init, id);
      assert forall x :: x in events <==> x in init || x == last;
    }
  }

  /**
    * A message is announced at most once exactly when no run announces it again between a rolled-back run that
    * announced it and the first committed one: so committed runs alone deliver at most once.
    */
  lemma {:induction false} AtMostOnceIff(events: seq<Event>, id: string)
    ensures Count(Run(events).sends, id) <= 1 <==> forall j :: 0 <= j < |events| ==> !Repeats(events, id, j)
  {
    if events != [] {
      var n := |events| - 1;
      var init := events[..n];
      AtMostOnceIff(init, id);
      AnnouncementsAreCounted(init, id);
      AnnouncementsAreCounted(events, id);
      assert events == init + [events[n]];
      DeliveredNext(init, events[n], id);
      if !Delivered(init, id) {
        WastedRunExists(init, id);
      }
      forall j | 0 <= j < n
        ensures Repeats(events, id, j) <==> Repeats(init, id, j)
      {
        assert events[..j] == init[..j];
      }
      assert Repeats(events, id, n) <==> RunAnnounces(events[n], id) && !Delivered(init, id) && WastedRuns(init, id) > 0;
      assert (forall j :: 0 <= j < |events| ==> !Repeats(events, id, j))
             <==> (forall j :: 0 <= j < n ==> !Repeats(init, id, j)) && !Repeats(events, id, n);
    }
  }

  /**
    * After any run: a message is stored exactly when some committed run fetched it, and flagged exactly when in some
    * committed run it appeared as the buyer's at a moment when Messenger worked. So a failed announcement is retried
    * whenever the message is seen again, and no flag rises without a send.
    */
  lemma {:induction false} StoredAndFlaggedExactly(events: seq<Event>, id: string)
    ensures id in Run(events).db.messages <==>
            exists e, inc :: e in events && e.Checked? && inc in e.incs && ThreadSeen(e.ch, inc, id)
    ensures Notified(Run(events).db, id) <==>
            exists e, inc :: e in events && e.Checked? && inc in e.incs && ThreadAnnounced(e.ch, inc, id)
  {
    if events != [] {
      var init, last := events[..|events| - 1], events[|events| - 1];
      StoredAndFlaggedExactly(init, id);
      ProcessAllStep(Run(init), last.ch, last.incs, last.auto, last.now, id);
      assert forall e :: e in events <==> e in init || e == last;
    }
  }

  /** Once stored, a message keeps its thread, text and time for ever. */
  lemma {:induction false} StoredOnce(events: seq<Event>, more: seq<Event>)
    ensures Grows(Run(events).db, Run(events + more).db)
  {
    if more == [] {
      assert events + more == events;
    } else {
      var e := more[|more| - 1];
      assert (events + more)[..|events + more| - 1] == events + more[..|more| - 1];
      StoredOnce(events, more[..|more| - 1]);
      ProcessAllStep(Run(events + more[..|more| - 1]), e.ch, e.incs, e.auto, e.now, "");
    }
  }

  /** The replies to thread `tid` no record tells of: those lost in committed runs, and all those of rolled-back runs. */
  ghost function WastedReplies(events: seq<Event>, kind: Channel, tid: string): nat {
    if events == [] then 0 else
    var init, e := events[..|events| - 1], events[|events| - 1];
    WastedReplies(init, kind, tid) +
    if e.Aborted? then SentReplies(Run(init), e.ch, e.incs, e.auto, e.now, kind, tid)
    else LostReplies(Run(init), e.ch, e.incs, e.auto, e.now, kind, tid)
  }

  /**
    * Over any sequence of runs, a thread gets one automatic reply if one is on record, and one more for every reply to
    * this thread that was sent in a rolled-back run or whose row was lost. So it gets at most one exactly when no such
    * reply was sent, or a single one and none is on record.
    */
  lemma {:induction false} RepliesAreCounted(events: seq<Event>, kind: Channel, tid: string)
    ensures Count(Run(events).replies, (kind, tid))
            == WastedReplies(events, kind, tid) + if tid in Replied(Run(events).db, kind) then 1 else 0
    ensures Count(Run(events).replies, (kind, tid)) <= 1
            <==> WastedReplies(events, kind, tid) == 0
                 || (WastedReplies(events, kind, tid) == 1 && tid !in Replied(Run(events).db, kind))
  {
    if events != [] {
      var init, e := events[..|events| - 1], events[|events| - 1];
      RepliesAreCounted(init, kind, tid);
      ProcessAllReplies(Run(init), e.ch, e.incs, e.auto, e.now, kind, tid);
    }
  }

  /** A thread with one new message of the buyer. */
  function News(id: string, reply: Reply): Incoming {
    Incoming(Some("t"), true, Some([Fetched(Some(id), true, "hello", Some(1), false)]), reply)
  }

  lemma NewsTries(s: State, id: string, reply: Reply)
    requires id !in s.db.messages && "t" !in s.db.repliedThreads
    ensures Tries(s, Threads, News(id, reply), true, Threads, "t")
  {
    var ms := News(id, reply).messages.value;
    assert ms[0].id.Some? && First(ms, 0);
  }

  /** The replies and the stored messages of a run over one thread with a new message. */
  lemma NewsRun(s: State, id: string, reply: Reply, now: nat)
    requires id !in s.db.messages && "t" !in s.db.repliedThreads && !reply.NotSent?
    ensures var t := ProcessAll(s, Threads, [News(id, reply)], true, now);
            && Count(t.replies, (Threads, "t")) == Count(s.replies, (Threads, "t")) + 1
            && ("t" in t.db.repliedThreads <==> reply.Sent?)
            && forall other :: other in t.db.messages <==> other in s.db.messages || other == id
  {
    var inc := News(id, reply);
    assert [inc][..0] == [];
    assert ProcessAll(s, Threads, [inc], true, now) == Process(s, Threads, inc, true, now);
    NewsTries(s, id, reply);
    ProcessReplies(s, Threads, inc, true, now, Threads, "t");
    forall other
      ensures other in Process(s, Threads, inc, true, now).db.messages <==> other in s.db.messages || other == id
    {
      ProcessStep(s, Threads, inc, true, now, other);
      var ms := inc.messages.value;
      assert ms[0] in ms;
    }
  }

  /** Two committed runs: the row about the first reply is lost, so the next new message gets a second one. */
  lemma LostRecordRepliesTwice()
    ensures var events := [Checked(Threads, [News("m", SentUnrecorded)], true, 2), Checked(Threads, [News("n", Sent)], true, 3)];
            Count(Run(events).replies, (Threads, "t")) == 2
  {
    var first := Checked(Threads, [News("m", SentUnrecorded)], true, 2);
    var second := Checked(Threads, [News("n", Sent)], true, 3);
    assert [first][..0] == [] && [first, second][..1] == [first];
    NewsRun(EMPTY, "m", SentUnrecorded, 2);
    assert Run([first]) == Step(EMPTY, first);
    NewsRun(Run([first]), "n", Sent, 3);
  }

  /** A window in which every message is already stored sends no automatic reply: a reply that failed waits for a new message. */
  lemma {:induction false} KnownWindowIsNotFresh(p: Pass, tid: string, ms: seq<Fetched>, now: nat)
    requires forall m :: m in ms && m.id.Some? ==> m.id.value in p.s.db.messages
    ensures ReceiveAll(p, tid, ms, now).anyNew == p.anyNew
    ensures ReceiveAll(p, tid, ms, now).s.db.messages.Keys == p.s.db.messages.Keys
  {
    if ms != [] {
      KnownWindowIsNotFresh(p, tid, ms[..|ms| - 1], now);
      assert ms[|ms| - 1] in ms;
    }
  }

  lemma NoReplyWithoutNewMessage(s: State, ch: Channel, inc: Incoming, auto: bool, now: nat)
    requires inc.messages.Some? ==> forall m :: m in inc.messages.value && m.id.Some? ==> m.id.value in s.db.messages
    ensures Process(s, ch, inc, auto, now).replies == s.replies
  {
    if !Skipped(ch, inc) && inc.messages.Some? {
      var p := Pass(s.(db := Opened(s.db, ch, inc, now)), None, false);
      KnownWindowIsNotFresh(p, inc.id.value, inc.messages.value, now);
      ReceiveAllStep(p, inc.id.value, inc.messages.value, now, "");
    }
  }

  /** A run rolled back after sending announces the message a second time when it is repeated. */
  lemma RollbackAnnouncesTwice()
    ensures var incs := [Incoming(Some("t"), true, Some([Fetched(Some("m"), true, "hello", Some(1), true)]), NotSent)];
            Count(Run([Aborted(Threads, incs, false, 2), Checked(Threads, incs, false, 3)]).sends, "m") == 2
  {
    var m := Fetched(Some("m"), true, "hello", Some(1), true);
    var inc := Incoming(Some("t"), true, Some([m]), NotSent);
    var first, second := Aborted(Threads, [inc], false, 2), Checked(Threads, [inc], false, 3);
    AnnouncesOnce(EMPTY, m, inc, 2);
    assert [first][..0] == [];
    assert Run([first]) == EMPTY.(sends := ["m"]);
    AnnouncesOnce(Run([first]), m, inc, 3);
    assert [first, second][..1] == [first];
    CountSnoc([], "m", "m");
    CountSnoc(["m"], "m", "m");
  }

  lemma AnnouncesOnce(s: State, m: Fetched, inc: Incoming, now: nat)
    requires m == Fetched(Some("m"), true, "hello", Some(1), true) && inc == Incoming(Some("t"), true, Some([m]), NotSent)
    requires s.db == EMPTY.db
    ensures ProcessAll(s, Threads, [inc], false, now).sends == s.sends + ["m"]
    ensures ProcessAll(s, Threads, [inc], false, now).replies == s.replies
  {
    var ready := Pass(s.(db := Opened(s.db, Threads, inc, now)), None, false);
    assert [m][..0] == [] && [inc][..0] == [];
    assert ReceiveAll(ready, "t", [m], now) == Receive(ready, "t", m, now);
    assert ProcessAll(s, Threads, [inc], false, now) == Process(s, Threads, inc, false, now);
  }
}
