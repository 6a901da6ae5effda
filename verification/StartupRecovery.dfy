/** Recovery of ticket questions when a worker starts: a question whose processing began before the
    start and never completed is put back on the queue. */
module StartupRecovery {
  import opened Machines
  import Q = TicketQuery

  datatype Role = Customer | Assistant | OtherRole

  /** `content` is the stripped text, `collapsed` the same with every run of blanks made one space;
      `stamp` is the creation time as text. */
  datatype Message = Message(role: Role, content: string, collapsed: string, stamp: string)

  datatype Kind = Processing | Completion | OtherKind

  datatype Event = Event(kind: Kind, about: string, stamp: string)

  /** Events newest first. */
  datatype Ticket = Ticket(id: string, resolved: bool, messages: seq<Message>, events: seq<Event>)

  type Key = (string, string)

  datatype Task = Query(key: Key, message: string) | OtherTask

  /** How a timestamp reads; text that is no timestamp reads as `None`. */
  type Clock = string -> Option<int>

  const TOLERANCE := Q.TOLERANCE
  const EVENT_WINDOW := 50
  const QUEUE_WINDOW := 200

  function Take<T>(xs: seq<T>, n: nat): seq<T> { if |xs| <= n then xs else xs[..n] }

  function At(read: Clock, stamp: string): Option<int> { if stamp == "" then None else read(stamp) }

  predicate StampsMatch(read: Clock, actual: string, expected: string) {
    var a, e := At(read, actual), At(read, expected);
    actual == expected
    || if a.Some? && e.Some? then -TOLERANCE <= a.value - e.value <= TOLERANCE
       else Take(actual, 19) == Take(expected, 19)
  }

  // ----- which questions are stale -----

  function LatestCustomer(ms: seq<Message>): (r: Option<nat>)
    ensures r.Some? ==> r.value < |ms| && ms[r.value].role == Customer && forall k :: r.value < k < |ms| ==> ms[k].role != Customer
    ensures r.None? ==> forall k :: 0 <= k < |ms| ==> ms[k].role != Customer
  {
    if ms == [] then None
    else if ms[|ms| - 1].role == Customer then Some(|ms| - 1)
    else LatestCustomer(ms[..|ms| - 1])
  }

  predicate About(read: Clock, e: Event, kind: Kind, stamp: string) {
    e.kind == kind && e.about != "" && StampsMatch(read, e.about, stamp)
  }

  /** The newest listed event of a kind about the message. */
  function Newest(read: Clock, es: seq<Event>, kind: Kind, stamp: string): Option<Event> {
    if es == [] then None
    else if About(read, es[0], kind, stamp) then Some(es[0])
    else Newest(read, es[1..], kind, stamp)
  }

  predicate Before(read: Clock, stamp: string, start: int) {
    At(read, stamp).Some? && At(read, stamp).value < start
  }

  /** The question is open: an unresolved ticket's latest customer message, not blank, older than the
      start and with no assistant message behind it. */
  predicate Open(read: Clock, start: int, t: Ticket) {
    var i := LatestCustomer(t.messages);
    && !t.resolved && t.id != "" && i.Some?
    && t.messages[i.value].collapsed != ""
    && Before(read, t.messages[i.value].stamp, start)
    && forall k :: i.value < k < |t.messages| ==> t.messages[k].role != Assistant
  }

  /** Its processing began before the start and did not complete. */
  predicate Interrupted(read: Clock, start: int, es: seq<Event>, stamp: string) {
    var p := Newest(read, es, Processing, stamp);
    p.Some? && Before(read, p.value.stamp, start) && Newest(read, es, Completion, stamp).None?
  }

  function StaleKey(read: Clock, start: int, t: Ticket): Option<Key> {
    if !Open(read, start, t) then None
    else
      var stamp := t.messages[LatestCustomer(t.messages).value].stamp;
      if Interrupted(read, start, Take(t.events, EVENT_WINDOW), stamp) then Some((t.id, stamp)) else None
  }

  // ----- the pass -----

  function Pending(tasks: seq<Task>): set<Key> {
    set k | 0 <= k < |tasks| && tasks[k].Query? && tasks[k].key.0 != "" && tasks[k].key.1 != "" :: tasks[k].key
  }

  /** What a snapshot lists: the first entries of every queue the worker serves, unreadable ones left out. */
  function Shown(queues: seq<seq<Task>>, readable: seq<bool>): seq<Task>
    requires |readable| == |queues|
  {
    if queues == [] then []
    else
      var n := |queues| - 1;
      Shown(queues[..n], readable[..n]) + if readable[n] then Take(queues[n], QUEUE_WINDOW) else []
  }

  /** The questions among them. */
  function Snapshot(queues: seq<seq<Task>>, readable: seq<bool>): set<Key>
    requires |readable| == |queues|
  {
    Pending(Shown(queues, readable))
  }

  predicate Takes(read: Clock, start: int, pending: set<Key>, t: Ticket, accepts: bool) {
    StaleKey(read, start, t).Some? && StaleKey(read, start, t).value !in pending && accepts
  }

  /** The tasks a pass enqueues; `accepts[i]` says whether the queue would take one for ticket `i`. */
  function Recovered(read: Clock, start: int, pending: set<Key>, ts: seq<Ticket>, accepts: seq<bool>): seq<Task>
    requires |ts| == |accepts|
    decreases |ts|
  {
    if ts == [] then []
    else if Takes(read, start, pending, ts[0], accepts[0]) then
      [TaskFor(ts[0])] + Recovered(read, start, pending + {StaleKey(read, start, ts[0]).value}, ts[1..], accepts[1..])
    else Recovered(read, start, pending, ts[1..], accepts[1..])
  }

  function TaskFor(t: Ticket): Task {
    var i := LatestCustomer(t.messages);
    if i.None? then OtherTask else Query((t.id, t.messages[i.value].stamp), t.messages[i.value].collapsed)
  }

  /** The queues a worker serves; questions go to the one at `home`. */
  class TaskQueue {
    var queues: seq<seq<Task>>
    const home: nat

    ghost predicate Valid()
      reads this
    {
      home < |queues|
    }

    constructor (queues: seq<seq<Task>>, home: nat)
      requires home < |queues|
      ensures Valid() && this.queues == queues && this.home == home
    {
      this.queues, this.home := queues, home;
    }

    method Enqueue(task: Task, accepts: bool) returns (ok: bool)
      requires Valid()
      modifies this
      ensures Valid() && ok == accepts
      ensures queues == if accepts then old(queues)[home := old(queues)[home] + [task]] else old(queues)
    {
      if accepts {
        queues := queues[home := queues[home] + [task]];
      }
      return accepts;
    }

    method ListPending(readable: seq<bool>) returns (tasks: seq<Task>)
      requires |readable| == |queues|
      ensures tasks == Shown(queues, readable)
    {
      tasks := [];
      for q := 0 to |queues|
        invariant tasks == Shown(queues[..q], readable[..q])
      {
        assert queues[..q + 1][..q] == queues[..q] && readable[..q + 1][..q] == readable[..q];
        if !readable[q] {
          continue;
        }
        tasks := tasks + if |queues[q]| <= QUEUE_WINDOW then queues[q] else queues[q][..QUEUE_WINDOW];
      }
      assert queues[..|queues|] == queues && readable[..|queues|] == readable;
    }

    method PendingKeys(readable: seq<bool>) returns (keys: set<Key>)
      requires |readable| == |queues|
      ensures keys == Snapshot(queues, readable)
    {
      keys := {};
      var listed := ListPending(readable);
      for k := 0 to |listed|
        invariant keys == Pending(listed[..k])
      {
        assert listed[..k + 1] == listed[..k] + [listed[k]];
        PendingSnoc(listed[..k], listed[k]);
        if listed[k].Query? && listed[k].key.0 != "" && listed[k].key.1 != "" {
          keys := keys + {listed[k].key};
        }
      }
      assert listed[..|listed|] == listed;
    }
  }

  lemma PendingSnoc(tasks: seq<Task>, task: Task)
    ensures Pending(tasks + [task]) ==
              Pending(tasks) + if task.Query? && task.key.0 != "" && task.key.1 != "" then {task.key} else {}
  {
    var after := tasks + [task];
    assert after[|tasks|] == task;
    forall key | key in Pending(tasks) ensures key in Pending(after) {
      var k :| 0 <= k < |tasks| && tasks[k].Query? && tasks[k].key == key;
      assert after[k] == tasks[k];
    }
  }

  method HasAssistantAfter(ms: seq<Message>, index: nat) returns (found: bool)
    ensures found <==> exists k :: index < k < |ms| && ms[k].role == Assistant
  {
    var k := index + 1;
    while k < |ms|
      invariant forall j :: index < j < k && j < |ms| ==> ms[j].role != Assistant
    {
      if ms[k].role == Assistant {
        return true;
      }
      k := k + 1;
    }
    return false;
  }

  method FindNewest(read: Clock, es: seq<Event>, kind: Kind, stamp: string) returns (r: Option<Event>)
    ensures r == Newest(read, es, kind, stamp)
  {
    for k := 0 to |es|
      invariant Newest(read, es, kind, stamp) == Newest(read, es[k..], kind, stamp)
    {
      assert es[k..][1..] == es[k + 1..];
      if About(read, es[k], kind, stamp) {
        return Some(es[k]);
      }
    }
    return None;
  }

  /** The checks one ticket has to pass, in their order. */
  method Check(read: Clock, start: int, t: Ticket, pending: set<Key>) returns (key: Option<Key>)
    ensures key == if Takes(read, start, pending, t, true) then StaleKey(read, start, t) else None
  {
    if t.resolved || t.id == "" {
      return None;
    }
    var index := LatestCustomer(t.messages);
    if index.None? {
      return None;
    }
    var latest := t.messages[index.value];
    if latest.collapsed == "" || !Before(read, latest.stamp, start) {
      return None;
    }
    var answered := HasAssistantAfter(t.messages, index.value);
    if answered || (t.id, latest.stamp) in pending {
      return None;
    }
    var listed := Take(t.events, EVENT_WINDOW);
    var processing := FindNewest(read, listed, Processing, latest.stamp);
    if processing.None? || !Before(read, processing.value.stamp, start) {
      return None;
    }
    var completion := FindNewest(read, listed, Completion, latest.stamp);
    if completion.Some? {
      return None;
    }
    return Some((t.id, latest.stamp));
  }

  /** The pass over all tickets. `start` is `None` when the worker's own start time does not read. */
  method Recover(queue: TaskQueue, readable: seq<bool>, read: Clock, start: Option<int>, ts: seq<Ticket>, accepts: seq<bool>) returns (count: nat)
    requires queue.Valid() && |readable| == |queue.queues| && |ts| == |accepts|
    modifies queue
    ensures var was := old(queue.queues);
            var added := if start.None? then [] else Recovered(read, start.value, Snapshot(was, readable), ts, accepts);
            queue.Valid() && queue.queues == was[queue.home := was[queue.home] + added] && count == |added|
  {
    if start.None? {
      assert queue.queues[queue.home] + [] == queue.queues[queue.home];
      return 0;
    }
    var pending := queue.PendingKeys(readable);
    ghost var all := Recovered(read, start.value, pending, ts, accepts);
    ghost var home := queue.queues[queue.home];
    count := 0;
    for i := 0 to |ts|
      invariant queue.Valid() && queue.queues == old(queue.queues)[queue.home := queue.queues[queue.home]]
      invariant queue.queues[queue.home] + Recovered(read, start.value, pending, ts[i..], accepts[i..]) == home + all
      invariant count + |Recovered(read, start.value, pending, ts[i..], accepts[i..])| == |all|
    {
      assert ts[i..][1..] == ts[i + 1..] && accepts[i..][1..] == accepts[i + 1..];
      var key := Check(read, start.value, ts[i], pending);
      if key.None? {
        continue;
      }
      var ok := queue.Enqueue(TaskFor(ts[i]), accepts[i]);
      if !ok {
        continue;
      }
      pending := pending + {key.value};
      count := count + 1;
    }
    assert queue.queues[queue.home] + [] == queue.queues[queue.home];
  }

  // ----- exactness -----

  ghost predicate Wanted(read: Clock, start: int, pending: set<Key>, ts: seq<Ticket>, accepts: seq<bool>, key: Key)
    requires |ts| == |accepts|
  {
    exists i :: 0 <= i < |ts| && StaleKey(read, start, ts[i]) == Some(key) && key !in pending && accepts[i]
  }

  ghost predicate Enqueues(tasks: seq<Task>, key: Key) {
    exists k :: 0 <= k < |tasks| && tasks[k].Query? && tasks[k].key == key
  }

  lemma TaskForStale(read: Clock, start: int, t: Ticket)
    requires StaleKey(read, start, t).Some?
    ensures TaskFor(t).Query? && TaskFor(t).key == StaleKey(read, start, t).value
  {
  }

  lemma ConsEnqueues(x: Task, xs: seq<Task>, key: Key)
    ensures Enqueues([x] + xs, key) <==> (x.Query? && x.key == key) || Enqueues(xs, key)
  {
    if Enqueues(xs, key) {
      var k :| 0 <= k < |xs| && xs[k].Query? && xs[k].key == key;
      assert ([x] + xs)[k + 1] == xs[k];
    }
    if x.Query? && x.key == key { assert ([x] + xs)[0] == x; }
  }

  lemma ConsWanted(read: Clock, start: int, pending: set<Key>, ts: seq<Ticket>, accepts: seq<bool>, key: Key)
    requires |ts| == |accepts| > 0
    ensures Wanted(read, start, pending, ts, accepts, key) <==>
              (StaleKey(read, start, ts[0]) == Some(key) && key !in pending && accepts[0])
              || Wanted(read, start, pending, ts[1..], accepts[1..], key)
  {
    if Wanted(read, start, pending, ts[1..], accepts[1..], key) {
      var i :| 0 <= i < |ts| - 1 && StaleKey(read, start, ts[1..][i]) == Some(key) && key !in pending && accepts[1..][i];
      assert ts[i + 1] == ts[1..][i] && accepts[i + 1] == accepts[1..][i];
    }
    if Wanted(read, start, pending, ts, accepts, key) {
      var i :| 0 <= i < |ts| && StaleKey(read, start, ts[i]) == Some(key) && key !in pending && accepts[i];
      if i > 0 { assert ts[1..][i - 1] == ts[i] && accepts[1..][i - 1] == accepts[i]; }
    }
  }

  /** A pass enqueues exactly the stale questions that the queue takes and the snapshot does not
      show. */
  lemma {:induction false} RecoversExactly(read: Clock, start: int, pending: set<Key>, ts: seq<Ticket>, accepts: seq<bool>, key: Key)
    requires |ts| == |accepts|
    ensures Enqueues(Recovered(read, start, pending, ts, accepts), key) <==> Wanted(read, start, pending, ts, accepts, key)
    decreases |ts|
  {
    if ts != [] {
      ConsWanted(read, start, pending, ts, accepts, key);
      if Takes(read, start, pending, ts[0], accepts[0]) {
        var k0 := StaleKey(read, start, ts[0]).value;
        TaskForStale(read, start, ts[0]);
        ConsEnqueues(TaskFor(ts[0]), Recovered(read, start, pending + {k0}, ts[1..], accepts[1..]), key);
        RecoversExactly(read, start, pending + {k0}, ts[1..], accepts[1..], key);
      } else {
        RecoversExactly(read, start, pending, ts[1..], accepts[1..], key);
      }
    }
  }

  /** Questions, all different, none of them pending. */
  ghost predicate Fresh(tasks: seq<Task>, pending: set<Key>) {
    && (forall k :: 0 <= k < |tasks| ==> tasks[k].Query? && tasks[k].key !in pending)
    && (forall j, k :: 0 <= j < k < |tasks| ==> tasks[j].key != tasks[k].key)
  }

  /** Each of them once, and none the snapshot shows. */
  lemma {:induction false} RecoversOnce(read: Clock, start: int, pending: set<Key>, ts: seq<Ticket>, accepts: seq<bool>)
    requires |ts| == |accepts|
    ensures Fresh(Recovered(read, start, pending, ts, accepts), pending)
    decreases |ts|
  {
    var xs := Recovered(read, start, pending, ts, accepts);
    if ts != [] {
      if Takes(read, start, pending, ts[0], accepts[0]) {
        var k0 := StaleKey(read, start, ts[0]).value;
        TaskForStale(read, start, ts[0]);
        RecoversOnce(read, start, pending + {k0}, ts[1..], accepts[1..]);
        var rest := Recovered(read, start, pending + {k0}, ts[1..], accepts[1..]);
        assert xs == [TaskFor(ts[0])] + rest;
        forall k | 0 < k < |xs| ensures xs[k].Query? && xs[k].key !in pending && xs[k].key != k0 {
          assert xs[k] == rest[k - 1];
        }
      } else {
        RecoversOnce(read, start, pending, ts[1..], accepts[1..]);
        assert xs == Recovered(read, start, pending, ts[1..], accepts[1..]);
      }
    }
  }

  /** A later pass adds nothing exactly when the snapshot shows every stale question the queue takes. */
  lemma {:induction false} AddsNothingExactly(read: Clock, start: int, pending: set<Key>, ts: seq<Ticket>, accepts: seq<bool>)
    requires |ts| == |accepts|
    ensures Recovered(read, start, pending, ts, accepts) == [] <==>
            forall i :: 0 <= i < |ts| && StaleKey(read, start, ts[i]).Some? && accepts[i] ==> StaleKey(read, start, ts[i]).value in pending
  {
    var xs := Recovered(read, start, pending, ts, accepts);
    RecoversOnce(read, start, pending, ts, accepts);
    if xs != [] {
      assert xs[0].Query?;
      RecoversExactly(read, start, pending, ts, accepts, xs[0].key);
      assert Enqueues(xs, xs[0].key);
    } else {
      forall i | 0 <= i < |ts| && StaleKey(read, start, ts[i]).Some? && accepts[i]
        ensures StaleKey(read, start, ts[i]).value in pending
      {
        RecoversExactly(read, start, pending, ts, accepts, StaleKey(read, start, ts[i]).value);
      }
    }
  }

  // ----- what that says of a ticket -----

  predicate Early(read: Clock, stamp: string, start: int) { stamp != "" && read(stamp).Some? && read(stamp).value < start }

  /** An event of the kind about the message: the same text, or within a second of it, or, where one of the
      two does not read, with the same first nineteen characters. */
  predicate Concerns(read: Clock, e: Event, kind: Kind, stamp: string) {
    && e.kind == kind && e.about != ""
    && (e.about == stamp
        || if stamp != "" && read(stamp).Some? && read(e.about).Some?
           then read(stamp).value <= read(e.about).value + 1000 && read(e.about).value <= read(stamp).value + 1000
           else Take(e.about, 19) == Take(stamp, 19))
  }

  ghost predicate IsNewest(read: Clock, es: seq<Event>, p: nat, stamp: string) {
    p < |es| && p < 50 && Concerns(read, es[p], Processing, stamp) && forall q :: 0 <= q < p ==> !Concerns(read, es[q], Processing, stamp)
  }

  /** The ticket is open, its latest customer message `i` is not blank, older than the start and followed by
      no answer; the newest listed event of its processing is older than the start, and no listed event
      says that it completed. */
  ghost predicate IsStale(read: Clock, start: int, t: Ticket, i: nat) {
    && !t.resolved && t.id != ""
    && i < |t.messages| && t.messages[i].role == Customer && (forall k :: i < k < |t.messages| ==> t.messages[k].role == OtherRole)
    && t.messages[i].collapsed != "" && Early(read, t.messages[i].stamp, start)
    && (exists p: nat :: IsNewest(read, t.events, p, t.messages[i].stamp) && Early(read, t.events[p].stamp, start))
    && (forall p :: 0 <= p < |t.events| && p < 50 ==> !Concerns(read, t.events[p], Completion, t.messages[i].stamp))
  }

  lemma {:induction false} NewestMeans(read: Clock, es: seq<Event>, kind: Kind, stamp: string)
    ensures match Newest(read, es, kind, stamp)
            case None => forall p :: 0 <= p < |es| ==> !Concerns(read, es[p], kind, stamp)
            case Some(e) => exists p :: 0 <= p < |es| && es[p] == e && Concerns(read, e, kind, stamp)
                                        && forall q :: 0 <= q < p ==> !Concerns(read, es[q], kind, stamp)
    decreases |es|
  {
    if es != [] && !About(read, es[0], kind, stamp) {
      NewestMeans(read, es[1..], kind, stamp);
      assert forall p :: 1 <= p < |es| ==> es[p] == es[1..][p - 1];
      if Newest(read, es[1..], kind, stamp).Some? {
        var e := Newest(read, es[1..], kind, stamp).value;
        var p :| 0 <= p < |es| - 1 && es[1..][p] == e && forall q :: 0 <= q < p ==> !Concerns(read, es[1..][q], kind, stamp);
        assert es[p + 1] == e;
      }
    } else if es != [] {
      assert es[0] == es[0];
    }
  }

  /** A question counts as stale exactly when that holds of its ticket. */
  lemma StaleExactly(read: Clock, start: int, t: Ticket, key: Key)
    ensures StaleKey(read, start, t) == Some(key) <==>
              exists i: nat :: IsStale(read, start, t, i) && key == (t.id, t.messages[i].stamp)
  {
    var latest := LatestCustomer(t.messages);
    if latest.Some? {
      var stamp := t.messages[latest.value].stamp;
      var es := Take(t.events, EVENT_WINDOW);
      NewestMeans(read, es, Processing, stamp);
      NewestMeans(read, es, Completion, stamp);
      StaleMessage(read, start, t, latest.value);
      forall i: nat | IsStale(read, start, t, i) ensures i == latest.value {}
    }
  }

  lemma StaleMessage(read: Clock, start: int, t: Ticket, i: nat)
    requires LatestCustomer(t.messages) == Some(i)
    ensures StaleKey(read, start, t).Some? <==> IsStale(read, start, t, i)
  {
    var stamp := t.messages[i].stamp;
    var es := Take(t.events, EVENT_WINDOW);
    NewestMeans(read, es, Processing, stamp);
    NewestMeans(read, es, Completion, stamp);
    if Newest(read, es, Processing, stamp).Some? {
      var p :| 0 <= p < |es| && es[p] == Newest(read, es, Processing, stamp).value && Concerns(read, es[p], Processing, stamp)
               && forall q :: 0 <= q < p ==> !Concerns(read, es[q], Processing, stamp);
      assert IsNewest(read, t.events, p, stamp);
      forall q: nat | IsNewest(read, t.events, q, stamp) ensures q == p { assert es[q] == t.events[q]; }
    } else {
      forall q: nat ensures !IsNewest(read, t.events, q, stamp) {
        if q < |es| { assert es[q] == t.events[q]; }
      }
    }
    assert forall p :: 0 <= p < |es| ==> es[p] == t.events[p];
  }

  /** So a pass enqueues a question if and only if it is stale in that sense, not shown, and taken: never one
      that is resolved, answered or completed. */
  lemma EnqueuesStaleExactly(read: Clock, start: int, pending: set<Key>, ts: seq<Ticket>, accepts: seq<bool>, key: Key)
    requires |ts| == |accepts|
    ensures Enqueues(Recovered(read, start, pending, ts, accepts), key) <==>
              key !in pending && exists n: nat, i: nat :: n < |ts| && accepts[n] && IsStale(read, start, ts[n], i) && key == (ts[n].id, ts[n].messages[i].stamp)
  {
    RecoversExactly(read, start, pending, ts, accepts, key);
    forall n | 0 <= n < |ts| { StaleExactly(read, start, ts[n], key); }
  }

  // ----- a second pass -----

  /** The tickets after a pass: recovering one records an event of another kind on it. */
  ghost predicate Logged(before: seq<Ticket>, after: seq<Ticket>) {
    && |after| == |before|
    && forall i :: 0 <= i < |before| ==>
         after[i] == before[i] || exists e: Event :: e.kind == OtherKind && after[i] == before[i].(events := [e] + before[i].events)
  }

  /** An event of another kind pushes the oldest out of the window, which can only make a stale
      question look unprocessed. */
  lemma LoggedNotStaler(read: Clock, start: int, t: Ticket, e: Event)
    requires e.kind == OtherKind && StaleKey(read, start, t).Some?
    ensures var u := t.(events := [e] + t.events);
            StaleKey(read, start, u).Some? ==> StaleKey(read, start, u) == StaleKey(read, start, t)
  {
  }

  predicate Listed(queues: seq<seq<Task>>, readable: seq<bool>, q: nat, k: nat)
    requires |readable| == |queues|
  {
    q < |queues| && readable[q] && k < |queues[q]| && k < 200
  }

  /** The snapshot shows exactly what stands among the first 200 entries of a readable queue. */
  lemma {:induction false} ShownExactly(queues: seq<seq<Task>>, readable: seq<bool>, t: Task)
    requires |readable| == |queues|
    ensures t in Shown(queues, readable) <==> exists q: nat, k: nat :: Listed(queues, readable, q, k) && queues[q][k] == t
    decreases |queues|
  {
    if queues != [] {
      var n := |queues| - 1;
      ShownExactly(queues[..n], readable[..n], t);
      if t in Shown(queues[..n], readable[..n]) {
        var q: nat, k: nat :| Listed(queues[..n], readable[..n], q, k) && queues[..n][q][k] == t;
        assert Listed(queues, readable, q, k) && queues[q][k] == t;
      }
      if readable[n] && t in Take(queues[n], QUEUE_WINDOW) {
        var k :| 0 <= k < |Take(queues[n], QUEUE_WINDOW)| && Take(queues[n], QUEUE_WINDOW)[k] == t;
        assert Listed(queues, readable, n, k) && queues[n][k] == t;
      }
      forall q: nat, k: nat | Listed(queues, readable, q, k) && queues[q][k] == t ensures t in Shown(queues, readable) {
        if q < n {
          assert Listed(queues[..n], readable[..n], q, k) && queues[..n][q][k] == t;
        } else {
          assert Take(queues[n], QUEUE_WINDOW)[k] == t;
        }
      }
    }
  }

  /** A snapshot in which everything is readable shows no less after entries were appended to a queue. */
  lemma SnapshotGrows(queues: seq<seq<Task>>, readable: seq<bool>, all: seq<bool>, home: nat, added: seq<Task>, key: Key)
    requires |readable| == |queues| == |all| && home < |queues| && (forall q :: 0 <= q < |all| ==> all[q])
    requires key in Snapshot(queues, readable)
    ensures key in Snapshot(queues[home := queues[home] + added], all)
  {
    var shown := Shown(queues, readable);
    var i :| 0 <= i < |shown| && shown[i].Query? && shown[i].key == key;
    ShownExactly(queues, readable, shown[i]);
    var q: nat, k: nat :| Listed(queues, readable, q, k) && queues[q][k] == shown[i];
    var after := queues[home := queues[home] + added];
    assert Listed(after, all, q, k) && after[q][k] == shown[i];
    InSnapshot(after, all, shown[i]);
  }

  lemma InSnapshot(queues: seq<seq<Task>>, readable: seq<bool>, t: Task)
    requires |readable| == |queues| && t.Query? && t.key.0 != "" && t.key.1 != ""
    requires exists q: nat, k: nat :: Listed(queues, readable, q, k) && queues[q][k] == t
    ensures t.key in Snapshot(queues, readable)
  {
    ShownExactly(queues, readable, t);
    var shown := Shown(queues, readable);
    var i :| 0 <= i < |shown| && shown[i] == t;
    assert shown[i].key == t.key;
  }

  /** After a pass over a queue that takes everything, every stale question is in the snapshot, if that
      queue fits. */
  lemma StaleIsShown(read: Clock, start: int, queues: seq<seq<Task>>, home: nat, readable: seq<bool>, all: seq<bool>,
                     ts: seq<Ticket>, yes: seq<bool>, i: nat)
    requires |readable| == |queues| == |all| && home < |queues| && (forall q :: 0 <= q < |all| ==> all[q])
    requires |yes| == |ts| && (forall k :: 0 <= k < |yes| ==> yes[k])
    requires i < |ts| && StaleKey(read, start, ts[i]).Some?
    ensures var added := Recovered(read, start, Snapshot(queues, readable), ts, yes);
            |queues[home] + added| <= QUEUE_WINDOW ==>
              StaleKey(read, start, ts[i]).value in Snapshot(queues[home := queues[home] + added], all)
  {
    var added := Recovered(read, start, Snapshot(queues, readable), ts, yes);
    var after := queues[home := queues[home] + added];
    var key := StaleKey(read, start, ts[i]).value;
    if key in Snapshot(queues, readable) {
      SnapshotGrows(queues, readable, all, home, added, key);
    } else if |queues[home] + added| <= QUEUE_WINDOW {
      RecoversExactly(read, start, Snapshot(queues, readable), ts, yes, key);
      assert Enqueues(added, key);
      var k :| 0 <= k < |added| && added[k].Query? && added[k].key == key;
      var at := |queues[home]| + k;
      assert Listed(after, all, home, at) && after[home][at] == added[k];
      InSnapshot(after, all, added[k]);
    }
  }

  /** Two passes in a row with a queue that takes everything and nothing dequeued in between: the
      second adds nothing when it can read all queues and the questions' own fits the snapshot. */
  lemma SecondPassAddsNothing(read: Clock, start: int, queues: seq<seq<Task>>, home: nat, readable: seq<bool>, all: seq<bool>,
                              ts: seq<Ticket>, after: seq<Ticket>, yes: seq<bool>)
    requires |readable| == |queues| == |all| && home < |queues| && (forall q :: 0 <= q < |all| ==> all[q])
    requires |yes| == |ts| && (forall i :: 0 <= i < |yes| ==> yes[i]) && Logged(ts, after)
    requires forall i :: 0 <= i < |ts| && after[i] != ts[i] ==> StaleKey(read, start, ts[i]).Some?
    ensures var grown := queues[home] + Recovered(read, start, Snapshot(queues, readable), ts, yes);
            |grown| <= QUEUE_WINDOW ==> Recovered(read, start, Snapshot(queues[home := grown], all), after, yes) == []
  {
    var grown := queues[home] + Recovered(read, start, Snapshot(queues, readable), ts, yes);
    if |grown| <= QUEUE_WINDOW {
      forall i | 0 <= i < |after| && StaleKey(read, start, after[i]).Some? && yes[i]
        ensures StaleKey(read, start, after[i]).value in Snapshot(queues[home := grown], all)
      {
        if after[i] != ts[i] {
          var e: Event :| e.kind == OtherKind && after[i] == ts[i].(events := [e] + ts[i].events);
          LoggedNotStaler(read, start, ts[i], e);
        }
        StaleIsShown(read, start, queues, home, readable, all, ts, yes, i);
      }
      AddsNothingExactly(read, start, Snapshot(queues[home := grown], all), after, yes);
    }
  }

  /** The promise stops at the window: a question already queued behind the first 200 entries is
      enqueued again. */
  lemma QueuedBehindTheWindow(read: Clock, start: int, t: Ticket) returns (tasks: seq<Task>)
    requires StaleKey(read, start, t).Some?
    ensures Enqueues(tasks, StaleKey(read, start, t).value)
    ensures Recovered(read, start, Snapshot([tasks], [true]), [t], [true]) == [TaskFor(t)]
  {
    tasks := seq(QUEUE_WINDOW, i => OtherTask) + [TaskFor(t)];
    TaskForStale(read, start, t);
    assert tasks[QUEUE_WINDOW] == TaskFor(t);
    var shown := Shown([tasks], [true]);
    forall i | 0 <= i < |shown| ensures shown[i] == OtherTask { ShownExactly([tasks], [true], shown[i]); }
    assert Snapshot([tasks], [true]) == {};
  }

  // ----- what becomes of a recovered task -----

  function AsMsg(read: Clock, m: Message): Q.Msg {
    match m.role
    case Customer => Q.Customer(m.content, At(read, m.stamp))
    case Assistant => Q.Assistant(false, None)
    case OtherRole => Q.Other
  }

  function AsMsgs(read: Clock, ms: seq<Message>): seq<Q.Msg> { seq(|ms|, i requires 0 <= i < |ms| => AsMsg(read, ms[i])) }

  lemma {:induction false} SameLatest(read: Clock, ms: seq<Message>)
    ensures Q.LatestCustomer(AsMsgs(read, ms)) == LatestCustomer(ms)
    decreases |ms|
  {
    if ms != [] {
      assert AsMsgs(read, ms)[..|ms| - 1] == AsMsgs(read, ms[..|ms| - 1]);
      SameLatest(read, ms[..|ms| - 1]);
    }
  }

  /** The recovered task carries the collapsed text, and the delivery compares it with the stored
      text: it finds its message exactly when collapsing changed nothing, and is dropped as stale
      otherwise. */
  lemma RecoveredTaskFindsItsMessage(read: Clock, start: int, t: Ticket)
    requires StaleKey(read, start, t).Some?
    ensures var i := LatestCustomer(t.messages).value;
            var m := t.messages[i];
            Q.Target(AsMsgs(read, t.messages), Q.Task(TaskFor(t).message, At(read, m.stamp))) ==
              if m.collapsed == m.content then Some(i) else None
  {
    SameLatest(read, t.messages);
  }
}
