/** Leased dispatch of enablement requests to the AgentRelay server.

    A request is leased, a remote task is created under an idempotency key that is a function of
    the request id, and the returned task id is stored. Responses can be lost, leases expire, and
    several workers can be between lease and completion of the same request. */
module RelayDispatch {
  import opened Machines

  type RequestId = string
  type TaskId = nat

  datatype Status = Gated | DispatchPending | Dispatching | Dispatched | Terminal

  datatype Request = Request(status: Status, leaseToken: Option<nat>, leaseUntil: nat, task: Option<TaskId>)

  /** The tasks the server created, oldest first, each with the key it was created under. */
  datatype Created = Created(key: string, task: TaskId)

  datatype Pc =
    | Idle
    | Leased(id: RequestId)
    | Answered(id: RequestId, task: TaskId)   // holds the server's answer
    | Rejected(id: RequestId)                 // the server refused, or the ticket was found closed

  /** `idempotent` says whether the server honours its keys; it is fixed for a run. */
  datatype State = State(requests: map<RequestId, Request>, server: seq<Created>, now: nat, idempotent: bool, pcs: seq<Pc>)

  datatype Action =
    | Lease(id: RequestId, token: nat, seconds: nat)
    | Create(reaches: bool, answered: bool)
    | Refuse
    | Store
    | Finish
    | Crash(reaches: bool)

  datatype Event =
    | Worker(w: nat, a: Action)
    | Release(id: RequestId)
    | Close(id: RequestId)      // another part of the system ends the request
    | Tick(t: nat)

  const KEY_PREFIX := "enablement-relay:"

  function KeyOf(id: RequestId): string { KEY_PREFIX + id }

  function Init(ids: set<RequestId>, n: nat, idempotent: bool): State {
    State(map id | id in ids :: Request(Gated, None, 0, None), [], 0, idempotent, seq(n, i => Idle))
  }

  predicate Leasable(r: Request, token: nat, now: nat) {
    r.status == DispatchPending || (r.status == Dispatching && (r.leaseUntil <= now || r.leaseToken == Some(token)))
  }

  /** The first task created under `key`, which is what an idempotent server answers with. */
  function Lookup(server: seq<Created>, key: string): Option<TaskId> {
    if server == [] then None
    else if server[0].key == key then Some(server[0].task)
    else Lookup(server[1..], key)
  }

  /** A create call that arrives: a new task unless the key is known to an idempotent server. Task
      ids are fresh: the server numbers its tasks. */
  function Arrive(server: seq<Created>, key: string, idempotent: bool): (seq<Created>, TaskId) {
    var known := Lookup(server, key);
    if idempotent && known.Some? then (server, known.value)
    else (server + [Created(key, |server|)], |server|)
  }

  function Act(s: State, pc: Pc, a: Action): (State, Pc) {
    match a
    case Lease(id, token, seconds) =>
      if pc == Idle && id in s.requests && Leasable(s.requests[id], token, s.now) then
        (s.(requests := s.requests[id := s.requests[id].(status := Dispatching, leaseToken := Some(token), leaseUntil := s.now + seconds)]),
         Leased(id))
      else (s, pc)
    case Create(reaches, answered) =>
      if !pc.Leased? || (answered && !reaches) then (s, pc)
      else if !reaches then (s, Idle)
      else
        var (server, task) := Arrive(s.server, KeyOf(pc.id), s.idempotent);
        (s.(server := server), if answered then Answered(pc.id, task) else Idle)
    case Refuse => (s, if pc.Leased? then Rejected(pc.id) else pc)
    case Store =>
      if !pc.Answered? then (s, pc)
      else if pc.id in s.requests && s.requests[pc.id].status == Dispatching then
        (s.(requests := s.requests[pc.id := Request(Dispatched, None, 0, Some(pc.task))]), Idle)
      else (s, Idle)
    case Finish =>
      if !pc.Rejected? then (s, pc)
      else if pc.id in s.requests then (s.(requests := s.requests[pc.id := s.requests[pc.id].(status := Terminal)]), Idle)
      else (s, Idle)
    case Crash(reaches) =>
      if pc.Leased? && reaches then (s.(server := Arrive(s.server, KeyOf(pc.id), s.idempotent).0), Idle)
      else (s, Idle)
  }

  function Step(s: State, e: Event): State {
    match e
    case Worker(w, a) =>
      if w < |s.pcs| then
        var (t, pc) := Act(s, s.pcs[w], a);
        t.(pcs := s.pcs[w := pc])
      else s
    case Release(id) =>
      if id in s.requests && s.requests[id].status == Gated then
        s.(requests := s.requests[id := s.requests[id].(status := DispatchPending)])
      else s
    case Close(id) =>
      if id in s.requests then s.(requests := s.requests[id := s.requests[id].(status := Terminal)]) else s
    case Tick(t) => if t >= s.now then s.(now := t) else s
  }

  // ----- the server's log under an idempotent receiver -----

  ghost predicate KeysUnique(server: seq<Created>) {
    forall i, j :: 0 <= i < j < |server| ==> server[i].key != server[j].key
  }

  ghost predicate Numbered(server: seq<Created>) {
    forall i :: 0 <= i < |server| ==> server[i].task == i
  }

  ghost predicate Has(server: seq<Created>, id: RequestId, task: TaskId) {
    task < |server| && server[task] == Created(KeyOf(id), task)
  }

  ghost predicate Stored(requests: map<RequestId, Request>, server: seq<Created>) {
    forall id :: id in requests && requests[id].task.Some? ==> Has(server, id, requests[id].task.value)
  }

  ghost predicate PcInv(server: seq<Created>, pc: Pc) { pc.Answered? ==> Has(server, pc.id, pc.task) }

  ghost predicate Inv(s: State) {
    && s.idempotent && KeysUnique(s.server) && Numbered(s.server) && Stored(s.requests, s.server)
    && (forall i :: 0 <= i < |s.pcs| ==> PcInv(s.server, s.pcs[i]))
  }

  lemma {:induction false} LookupFinds(server: seq<Created>, key: string)
    ensures match Lookup(server, key)
            case Some(task) => exists i :: 0 <= i < |server| && server[i] == Created(key, task)
            case None => forall i :: 0 <= i < |server| ==> server[i].key != key
    decreases |server|
  {
    if server != [] && server[0].key != key {
      LookupFinds(server[1..], key);
      if Lookup(server[1..], key).Some? {
        var i :| 0 <= i < |server[1..]| && server[1..][i] == Created(key, Lookup(server[1..], key).value);
        assert server[i + 1] == server[1..][i];
      } else {
        forall i | 0 <= i < |server| ensures server[i].key != key {
          if i > 0 { assert server[i] == server[1..][i - 1]; }
        }
      }
    } else if server != [] {
      assert server[0] == Created(key, server[0].task);
    }
  }

  lemma ArriveKeeps(server: seq<Created>, id: RequestId)
    requires KeysUnique(server) && Numbered(server)
    ensures var (after, task) := Arrive(server, KeyOf(id), true);
            KeysUnique(after) && Numbered(after) && server <= after && Has(after, id, task)
  {
    LookupFinds(server, KeyOf(id));
  }

  lemma ActInv(s: State, pc: Pc, a: Action)
    requires s.idempotent && KeysUnique(s.server) && Numbered(s.server) && Stored(s.requests, s.server) && PcInv(s.server, pc)
    ensures var (t, q) := Act(s, pc, a);
            && t.idempotent && t.pcs == s.pcs && s.server <= t.server
            && KeysUnique(t.server) && Numbered(t.server) && Stored(t.requests, t.server) && PcInv(t.server, q)
  {
    if pc.Leased? { ArriveKeeps(s.server, pc.id); }
  }

  lemma StepInv(s: State, e: Event)
    requires Inv(s)
    ensures Inv(Step(s, e))
  {
    if e.Worker? && e.w < |s.pcs| {
      var t := Act(s, s.pcs[e.w], e.a).0;
      ActInv(s, s.pcs[e.w], e.a);
      forall i | 0 <= i < |s.pcs| && i != e.w ensures PcInv(t.server, s.pcs[i]) {
        assert PcInv(s.server, s.pcs[i]);
      }
    }
  }

  lemma RunInv(ids: set<RequestId>, n: nat, es: seq<Event>)
    ensures Inv(Exec(Step, Init(ids, n, true), es))
  {
    forall s: State, e: Event | Inv(s) ensures Inv(Step(s, e)) { StepInv(s, e); }
    Invariant(Step, Inv, Init(ids, n, true), es);
  }

  lemma KeyIsInjective(a: RequestId, b: RequestId)
    requires KeyOf(a) == KeyOf(b)
    ensures a == b
  {
    assert a == KeyOf(a)[|KEY_PREFIX|..] == KeyOf(b)[|KEY_PREFIX|..] == b;
  }

  /** With an idempotent server every request has at most one remote task, through expired leases,
      lost answers, crashes and any number of workers; a stored task id is that task's id; and no
      two requests store the same one, so looking a request up by its task is unambiguous. */
  lemma AtMostOneTask(ids: set<RequestId>, n: nat, es: seq<Event>)
    ensures var s := Exec(Step, Init(ids, n, true), es);
            && (forall i, j, id :: 0 <= i < j < |s.server| && s.server[i].key == KeyOf(id) ==> s.server[j].key != KeyOf(id))
            && (forall id :: id in s.requests && s.requests[id].task.Some? ==>
                  Lookup(s.server, KeyOf(id)) == s.requests[id].task)
            && (forall a, b | a in s.requests && b in s.requests && s.requests[a].task.Some? ::
                  s.requests[a].task == s.requests[b].task ==> a == b)
  {
    RunInv(ids, n, es);
    var s := Exec(Step, Init(ids, n, true), es);
    forall id | id in s.requests && s.requests[id].task.Some?
      ensures Lookup(s.server, KeyOf(id)) == s.requests[id].task
    {
      LookupFinds(s.server, KeyOf(id));
    }
    forall a, b | a in s.requests && b in s.requests && s.requests[a].task.Some? && s.requests[a].task == s.requests[b].task
      ensures a == b
    {
      KeyIsInjective(a, b);
    }
  }

  // ----- what carries this -----

  ghost predicate OneTaskEach(s: State) {
    forall i, j, id :: 0 <= i < j < |s.server| && s.server[i].key == KeyOf(id) ==> s.server[j].key != KeyOf(id)
  }

  /** The server's part cannot be left out: over all runs a request has one task exactly when the
      server honours its keys, or no worker or no request is there to make one. Against a server that
      ignores the keys a single worker is enough: its answer is lost, its lease expires, it asks again. */
  lemma OneTaskEachExactly(ids: set<RequestId>, n: nat, idempotent: bool)
    ensures (forall es :: OneTaskEach(Exec(Step, Init(ids, n, idempotent), es))) <==> idempotent || n == 0 || ids == {}
  {
    var s0 := Init(ids, n, idempotent);
    if idempotent {
      forall es ensures OneTaskEach(Exec(Step, s0, es)) { AtMostOneTask(ids, n, es); }
    } else if n == 0 || ids == {} {
      var inv := (s: State) => s.server == [] && (forall i :: 0 <= i < |s.pcs| ==> s.pcs[i] == Idle) && (|s.pcs| == 0 || s.requests == map[]);
      forall es ensures OneTaskEach(Exec(Step, s0, es)) { Invariant(Step, inv, s0, es); }
    } else {
      var id :| id in ids;
      var es := AskedTwice(ids, n, id);
      assert !OneTaskEach(Exec(Step, s0, es));
    }
  }

  lemma AskedTwice(ids: set<RequestId>, n: nat, id: RequestId) returns (es: seq<Event>)
    requires id in ids && n > 0
    ensures var u := Exec(Step, Init(ids, n, false), es); |u.server| == 2 && u.server[0].key == KeyOf(id) == u.server[1].key
  {
    var fs, s := LostAnswer(ids, n, id);
    var gs := [Tick(120), Worker(0, Lease(id, 2, 120)), Worker(0, Create(true, true))];
    var s1 := Step(s, gs[0]);
    var s2 := Step(s1, gs[1]);
    assert s2.pcs[0] == Leased(id);
    Run3(Step, s, gs);
    Concat(Step, Init(ids, n, false), fs, gs);
    es := fs + gs;
  }

  lemma LostAnswer(ids: set<RequestId>, n: nat, id: RequestId) returns (es: seq<Event>, s: State)
    requires id in ids && n > 0
    ensures Exec(Step, Init(ids, n, false), es) == s && |s.pcs| == n && s.pcs[0] == Idle && !s.idempotent && s.now == 0
    ensures s.server == [Created(KeyOf(id), 0)] && id in s.requests && s.requests[id] == Request(Dispatching, Some(1), 120, None)
  {
    es := [Release(id), Worker(0, Lease(id, 1, 120)), Worker(0, Create(true, false))];
    var s0 := Init(ids, n, false);
    var s1 := Step(s0, es[0]);
    var s2 := Step(s1, es[1]);
    assert s2.pcs[0] == Leased(id);
    s := Step(s2, es[2]);
    Run3(Step, s0, es);
  }

  // ----- the dispatch drain -----

  /** What the ticket read says before the create call, and how that call ends. */
  datatype Ticket = Actionable | Closed | Unclear
  datatype Answer = Accepted | Lost(reached: bool) | Refused
  datatype Attempt = Attempt(token: nat, ticket: Ticket, answer: Answer)

  const LEASE_SECONDS := 120

  /** The steps of a worker that holds the lease. */
  function Held(a: Attempt): seq<Action> {
    if a.ticket == Unclear then [Crash(false)]
    else if a.ticket == Closed || a.answer == Refused then [Refuse, Finish]
    else if a.answer == Accepted then [Create(true, true), Store]
    else [Create(a.answer.reached, false), Crash(false)]
  }

  function Acts(s: State, pc: Pc, acts: seq<Action>): (State, Pc)
    decreases |acts|
  {
    if acts == [] then (s, pc) else var (t, q) := Act(s, pc, acts[0]); Acts(t, q, acts[1..])
  }

  lemma ActsOne(s: State, pc: Pc, a: Action)
    ensures Acts(s, pc, [a]) == Act(s, pc, a)
  {
    assert [a][1..] == [];
  }

  lemma ActsPair(s: State, pc: Pc, a: Action, b: Action)
    ensures Acts(s, pc, [a, b]) == Act(Act(s, pc, a).0, Act(s, pc, a).1, b)
  {
    assert [a, b][1..] == [b] && [b][1..] == [];
    var (t, q) := Act(s, pc, a);
    var (u, r) := Act(t, q, b);
    assert Acts(u, r, []) == (u, r);
  }

  function Dispatch(s: State, id: RequestId, a: Attempt): (State, Pc) {
    var (t, pc) := Act(s, Idle, Lease(id, a.token, LEASE_SECONDS));
    if pc.Leased? then Acts(t, pc, Held(a)) else (t, Idle)
  }

  /** One listed request. `ready`: the mode still asks for dispatching and the transport is configured;
      otherwise the request is handed back and closed. */
  function Handle(s: State, ready: bool, id: RequestId, a: Attempt): State {
    if ready then Dispatch(s, id, a).0 else Step(s, Close(id))
  }

  function HandleAll(s: State, ready: bool, ids: seq<RequestId>, attempts: seq<Attempt>): State
    requires |ids| == |attempts|
    decreases |ids|
  {
    if ids == [] then s else HandleAll(Handle(s, ready, ids[0], attempts[0]), ready, ids[1..], attempts[1..])
  }

  class Relay {
    var requests: map<RequestId, Request>
    var server: seq<Created>
    const now: nat
    const idempotent: bool

    constructor (requests: map<RequestId, Request>, server: seq<Created>, now: nat, idempotent: bool)
      ensures this.requests == requests && this.server == server && this.now == now && this.idempotent == idempotent
    {
      this.requests, this.server, this.now, this.idempotent := requests, server, now, idempotent;
    }

    function View(): State
      reads this
    {
      State(requests, server, now, idempotent, [])
    }

    /** A lease can be taken: the request is pending, or its lease ran out, or it is the caller's own. */
    ghost predicate Free(id: RequestId, token: nat)
      reads this
    {
      id in requests &&
      match requests[id].status
      case DispatchPending => true
      case Dispatching => now >= requests[id].leaseUntil || requests[id].leaseToken == Some(token)
      case _ => false
    }

    method ClaimDispatch(id: RequestId, token: nat) returns (claimed: bool)
      modifies this`requests
      ensures (View(), if claimed then Leased(id) else Idle) == Act(old(View()), Idle, Lease(id, token, LEASE_SECONDS))
      ensures claimed <==> old(Free(id, token))
      ensures requests == if claimed then old(requests)[id := Request(Dispatching, Some(token), now + 120, old(requests)[id].task)]
                          else old(requests)
    {
      if id !in requests {
        return false;
      }
      var r := requests[id];
      claimed := r.status == DispatchPending
                 || (r.status == Dispatching && (r.leaseUntil <= now || r.leaseToken == Some(token)));
      if claimed {
        requests := requests[id := r.(status := Dispatching, leaseToken := Some(token), leaseUntil := now + LEASE_SECONDS)];
      }
    }

    /** The server's side of a create call that arrives. */
    method CreateTask(key: string) returns (task: TaskId)
      modifies this`server
      ensures (server, task) == Arrive(old(server), key, idempotent)
      ensures !idempotent || (forall c :: c in old(server) ==> c.key != key) ==>
                task == |old(server)| && server == old(server) + [Created(key, task)]
      ensures idempotent && (exists c :: c in old(server) && c.key == key) ==> server == old(server) && Created(key, task) in server
    {
      var known := Lookup(server, key);
      LookupFinds(server, key);
      if idempotent && known.Some? {
        return known.value;
      }
      task := |server|;
      server := server + [Created(key, task)];
    }

    method CompleteDispatch(id: RequestId, task: TaskId)
      modifies this`requests
      ensures (View(), Idle) == Act(old(View()), Answered(id, task), Store)
      ensures requests == if id in old(requests) && old(requests)[id].status == Dispatching
                          then old(requests)[id := Request(Dispatched, None, 0, Some(task))] else old(requests)
    {
      if id in requests && requests[id].status == Dispatching {
        requests := requests[id := Request(Dispatched, None, 0, Some(task))];
      }
    }

    method FinishRequest(id: RequestId)
      modifies this`requests
      ensures (View(), Idle) == Act(old(View()), Rejected(id), Finish)
      ensures requests == if id in old(requests) then old(requests)[id := old(requests)[id].(status := Terminal)] else old(requests)
    {
      if id in requests {
        requests := requests[id := requests[id].(status := Terminal)];
      }
    }

    /** The server was asked for a task under this key. */
    ghost predicate Asked(before: seq<Created>, after: seq<Created>, key: string) {
      if idempotent && exists c :: c in before && c.key == key then after == before
      else after == before + [Created(key, |before|)]
    }

    /** One request of the drain: lease, look at the ticket, create under the request's key, store. */
    method DispatchRequest(id: RequestId, a: Attempt)
      modifies this
      ensures View() == Dispatch(old(View()), id, a).0
      ensures requests.Keys == old(requests.Keys) && forall k :: k in requests && k != id ==> requests[k] == old(requests)[k]
      // without the lease nothing happens
      ensures !old(Free(id, a.token)) ==> requests == old(requests) && server == old(server)
      // the server hears of it exactly when the ticket is open and the call arrives
      ensures old(Free(id, a.token)) && a.ticket == Actionable && (a.answer == Accepted || a.answer == Lost(true)) ==>
                Asked(old(server), server, KeyOf(id))
      ensures a.ticket != Actionable || a.answer == Refused || a.answer == Lost(false) ==> server == old(server)
      // and how a leased request ends
      ensures old(Free(id, a.token)) ==>
                && (requests[id].status == Dispatched <==> a.ticket == Actionable && a.answer == Accepted)
                && (requests[id].status == Dispatched ==> requests[id].task.Some? && Created(KeyOf(id), requests[id].task.value) in server)
                && (requests[id].status == Terminal <==> a.ticket == Closed || (a.ticket == Actionable && a.answer == Refused))
                && (requests[id].status == Dispatching ==>
                      requests[id] == Request(Dispatching, Some(a.token), now + 120, old(requests)[id].task))
                && requests[id].status in {Dispatched, Terminal, Dispatching}
    {
      var claimed := ClaimDispatch(id, a.token);
      if !claimed {
        return;
      }
      if a.ticket == Unclear {
        ActsOne(View(), Leased(id), Crash(false));
        return;
      }
      if a.ticket == Closed || a.answer == Refused {
        ActsPair(View(), Leased(id), Refuse, Finish);
        FinishRequest(id);
        return;
      }
      if a.answer == Accepted {
        ActsPair(View(), Leased(id), Create(true, true), Store);
        var task := CreateTask(KeyOf(id));
        CompleteDispatch(id, task);
        return;
      }
      ActsPair(View(), Leased(id), Create(a.answer.reached, false), Crash(false));
      if a.answer.reached {
        var task := CreateTask(KeyOf(id));
      }
    }

    method Drain(ready: bool, pending: seq<RequestId>, attempts: seq<Attempt>)
      requires |pending| == |attempts|
      modifies this
      ensures View() == HandleAll(old(View()), ready, pending, attempts)
      ensures requests.Keys == old(requests.Keys) && forall k :: k in requests && k !in pending ==> requests[k] == old(requests)[k]
      ensures !ready ==> server == old(server) && forall k :: k in requests && k in pending ==> requests[k].status == Terminal
    {
      for i := 0 to |pending|
        invariant HandleAll(View(), ready, pending[i..], attempts[i..]) == HandleAll(old(View()), ready, pending, attempts)
        invariant requests.Keys == old(requests.Keys) && forall k :: k in requests && k !in pending ==> requests[k] == old(requests)[k]
        invariant !ready ==> server == old(server) && forall k :: k in requests && k in pending[..i] ==> requests[k].status == Terminal
      {
        assert pending[..i + 1] == pending[..i] + [pending[i]];
        assert pending[i..][1..] == pending[i + 1..] && attempts[i..][1..] == attempts[i + 1..];
        if ready {
          DispatchRequest(pending[i], attempts[i]);
        } else {
          FinishRequest(pending[i]);
        }
      }
    }
  }

  /** What a drain keeps, from any state of the machine and whatever the answers: one task per key,
      and every stored task id is the request's own; a drain that is not ready creates no task and
      leaves no listed request open. */
  lemma {:induction false} DrainKeeps(s: State, ready: bool, ids: seq<RequestId>, attempts: seq<Attempt>)
    requires |ids| == |attempts| && s.pcs == [] && Inv(s)
    ensures var t := HandleAll(s, ready, ids, attempts);
            && Inv(t) && s.server <= t.server && t.requests.Keys == s.requests.Keys
            && (!ready ==> t.server == s.server && (forall id :: id in s.requests && s.requests[id].status == Terminal ==> t.requests[id].status == Terminal)
                           && forall id :: id in ids && id in s.requests ==> t.requests[id].status == Terminal)
    decreases |ids|
  {
    if ids != [] {
      if ready {
        var (t, pc) := Act(s, Idle, Lease(ids[0], attempts[0].token, LEASE_SECONDS));
        ActInv(s, Idle, Lease(ids[0], attempts[0].token, LEASE_SECONDS));
        if pc.Leased? { ActsKeep(t, pc, Held(attempts[0])); }
      } else {
        StepInv(s, Close(ids[0]));
      }
      DrainKeeps(Handle(s, ready, ids[0], attempts[0]), ready, ids[1..], attempts[1..]);
    }
  }

  lemma {:induction false} ActsKeep(s: State, pc: Pc, acts: seq<Action>)
    requires s.pcs == [] && Inv(s) && PcInv(s.server, pc)
    ensures var (t, q) := Acts(s, pc, acts); t.pcs == [] && Inv(t) && s.server <= t.server && t.requests.Keys == s.requests.Keys
    decreases |acts|
  {
    if acts != [] {
      ActInv(s, pc, acts[0]);
      var (t, q) := Act(s, pc, acts[0]);
      ActsKeep(t, q, acts[1..]);
    }
  }
}
