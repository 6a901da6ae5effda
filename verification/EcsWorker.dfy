/** One processing job of the automation worker: claims with a token, a lease that may run out under
    a working claimant, and the announcement of external effects. */
module EcsWorker {
  import opened Machines

  datatype Status = Pending | Claimed | Completed | FailedClean | OutcomeUnknown

  datatype Row = InProgress | Confirmed | Unknown

  /** `Completed` is a job that ended completed or in human review with an outcome; `FailedClean` one
      that failed without an announced effect. */
  datatype Outcome = Done | Ambiguous

  /** `started` is the claimant's own flag. */
  datatype Pc =
    | Idle
    | Running(token: nat, started: bool)
    | Renewed(token: nat)
    | Marked(token: nat)
    | Reporting(token: nat, started: bool, outcome: Outcome)
    | Closing(token: nat, started: bool, outcome: Outcome)
    | Failing(token: nat, started: bool)
    | FailClosing(token: nat, started: bool)

  /** `acted` and the fields after it are history: the claims under which an external effect happened,
      whether one happened without a delivery row, how often the job was closed, and whether a
      claimant died after announcing. */
  datatype Job = Job(status: Status, token: nat, marked: bool, row: Option<Row>,
                     acted: set<nat>, early: bool, closed: nat, died: bool)

  datatype Action =
    | Claim(expired: bool)
    | Renew          // the three store calls of an announcement
    | Mark
    | Record
    | Effect
    | Return(outcome: Outcome)
    | Raise
    | Report         // the store calls of the normal end
    | Close
    | FailRow        // and of the exception handler
    | FailClose
    | Crash

  datatype Event = Worker(w: nat, a: Action)

  /** `disciplined`: processors act only after announcing. */
  datatype State = State(job: Job, disciplined: bool, pcs: seq<Pc>)

  const FRESH := Job(Pending, 0, false, None, {}, false, 0, false)

  function Init(n: nat, disciplined: bool): State {
    State(FRESH, disciplined, seq(n, i => Idle))
  }

  predicate Holds(j: Job, token: nat) { j.status == Claimed && j.token == token }

  function RowFor(o: Outcome): Row { if o == Done then Confirmed else Unknown }

  function ClosedAs(j: Job, s: Status): Job { j.(status := s, closed := j.closed + 1) }

  function Act(j: Job, disciplined: bool, pc: Pc, a: Action): (Job, Pc) {
    match a
    case Claim(expired) =>
      if pc != Idle then (j, pc)
      else if j.status == Claimed && expired && j.marked then (ClosedAs(j, OutcomeUnknown), pc)
      else if j.status == Pending || (j.status == Claimed && expired) then
        (j.(status := Claimed, token := j.token + 1), Running(j.token + 1, false))
      else (j, pc)
    case Renew =>
      if !pc.Running? then (j, pc)
      else if !Holds(j, pc.token) then (j, Failing(pc.token, pc.started))
      else (j, if pc.started then pc else Renewed(pc.token))
    case Mark =>
      if !pc.Renewed? then (j, pc)
      else if !Holds(j, pc.token) then (j, Failing(pc.token, false))
      else (j.(marked := true), Marked(pc.token))
    case Record => if pc.Marked? then (j.(row := Some(InProgress)), Running(pc.token, true)) else (j, pc)
    case Effect =>
      if !pc.Running? || (disciplined && !pc.started) then (j, pc)
      else (j.(acted := j.acted + {pc.token}, early := j.early || j.row.None?), pc)
    case Return(outcome) => (j, if pc.Running? then Reporting(pc.token, pc.started, outcome) else pc)
    case Raise => (j, if pc.Running? then Failing(pc.token, pc.started) else pc)
    case Report =>
      if !pc.Reporting? then (j, pc)
      else (if pc.started then j.(row := Some(RowFor(pc.outcome))) else j, Closing(pc.token, pc.started, pc.outcome))
    case Close =>
      if !pc.Closing? then (j, pc)
      else if !Holds(j, pc.token) then (j, Failing(pc.token, pc.started))
      else (ClosedAs(j, if pc.outcome == Done then Completed else OutcomeUnknown), Idle)
    case FailRow =>
      if !pc.Failing? then (j, pc)
      else (if pc.started then j.(row := Some(Unknown)) else j, FailClosing(pc.token, pc.started))
    case FailClose =>
      if !pc.FailClosing? then (j, pc)
      else if !Holds(j, pc.token) then (j, Idle)
      else (ClosedAs(j, if pc.started || j.marked then OutcomeUnknown else FailedClean), Idle)
    case Crash => (j.(died := j.died || Announced(pc)), Idle)
  }

  predicate Announced(pc: Pc) {
    match pc
    case Idle => false
    case Renewed(_) => false
    case Marked(_) => true
    case _ => pc.started
  }

  function Step(s: State, e: Event): State {
    if e.w < |s.pcs| then
      var (j, pc) := Act(s.job, s.disciplined, s.pcs[e.w], e.a);
      s.(job := j, pcs := s.pcs[e.w := pc])
    else s
  }

  // ----- over all runs -----

  ghost predicate JobInv(j: Job, disciplined: bool) {
    && (disciplined ==> !j.early && (j.acted != {} ==> j.marked && j.acted == {j.token} && j.row.Some?))
    && (j.row.Some? ==> j.marked)
    && (j.status == Pending ==> !j.marked)
    && j.closed == (if j.status == Pending || j.status == Claimed then 0 else 1)
    && (j.status == Completed ==> j.row == if j.marked then Some(Confirmed) else None)
    && (j.status == FailedClean ==> !j.marked)
  }

  ghost predicate PcInv(j: Job, pc: Pc) {
    && (pc != Idle ==> pc.token <= j.token)
    && (pc != Idle && pc.token == j.token ==> (Announced(pc) <==> j.marked))
    && (Announced(pc) ==> pc.token == j.token && j.status != Completed)
    && (pc.Running? && pc.started ==> j.row == Some(InProgress))
    && (pc.Closing? && pc.started ==> j.row == Some(RowFor(pc.outcome)))
    && (pc.FailClosing? && pc.started ==> j.row == Some(Unknown))
  }

  predicate Apart(p: Pc, q: Pc) { p == Idle || q == Idle || p.token != q.token }

  /** What a step of another claimant leaves alone or only moves on. */
  ghost predicate Undisturbed(j: Job, k: Job, pc: Pc) {
    && j.token <= k.token
    && (pc != Idle && pc.token == j.token == k.token ==> (k.marked <==> j.marked))
    && (j.marked ==> k.marked && k.token == j.token)
    && (Announced(pc) ==> k.row == j.row && k.status != Completed)
  }

  lemma ActOnJob(j: Job, disciplined: bool, pc: Pc, a: Action)
    requires JobInv(j, disciplined) && PcInv(j, pc)
    ensures var (k, q) := Act(j, disciplined, pc, a); JobInv(k, disciplined) && PcInv(k, q)
  {
    if a.Effect? && pc.Running? { assert {pc.token} + {pc.token} == {pc.token}; }
  }

  lemma ActOnOther(j: Job, disciplined: bool, pc: Pc, a: Action, other: Pc)
    requires JobInv(j, disciplined) && PcInv(j, pc) && PcInv(j, other) && Apart(pc, other)
    ensures var (k, q) := Act(j, disciplined, pc, a); Undisturbed(j, k, other) && Apart(q, other)
  {
  }

  lemma UndisturbedKeeps(j: Job, k: Job, pc: Pc)
    requires PcInv(j, pc) && Undisturbed(j, k, pc)
    ensures PcInv(k, pc)
  {
  }

  lemma ActInv(j: Job, disciplined: bool, pc: Pc, a: Action, other: Pc)
    requires JobInv(j, disciplined) && PcInv(j, pc) && PcInv(j, other) && Apart(pc, other)
    ensures var (k, q) := Act(j, disciplined, pc, a);
            JobInv(k, disciplined) && PcInv(k, q) && PcInv(k, other) && Apart(q, other)
  {
    ActOnJob(j, disciplined, pc, a);
    ActOnOther(j, disciplined, pc, a, other);
    UndisturbedKeeps(j, Act(j, disciplined, pc, a).0, other);
  }

  ghost predicate Inv(s: State) {
    && JobInv(s.job, s.disciplined)
    && (forall i :: 0 <= i < |s.pcs| ==> PcInv(s.job, s.pcs[i]))
    && (forall i, k :: 0 <= i < k < |s.pcs| ==> Apart(s.pcs[i], s.pcs[k]))
  }

  /** A delivery in progress has an announcing claimant at work, or one that died. */
  ghost predicate Attended(s: State) {
    s.job.row == Some(InProgress) && !s.job.died ==> exists i :: 0 <= i < |s.pcs| && Announced(s.pcs[i])
  }

  lemma StepInv(s: State, e: Event)
    requires Inv(s)
    ensures Inv(Step(s, e))
  {
    if e.w < |s.pcs| {
      var pc := s.pcs[e.w];
      ActInv(s.job, s.disciplined, pc, e.a, Idle);
      forall i | 0 <= i < |s.pcs| && i != e.w
        ensures var (j, q) := Act(s.job, s.disciplined, pc, e.a); PcInv(j, s.pcs[i]) && Apart(q, s.pcs[i]) && Apart(s.pcs[i], q)
      {
        assert Apart(pc, s.pcs[i]);
        ActInv(s.job, s.disciplined, pc, e.a, s.pcs[i]);
      }
    }
  }

  lemma ActAttends(j: Job, disciplined: bool, pc: Pc, a: Action)
    requires PcInv(j, pc)
    ensures var (k, q) := Act(j, disciplined, pc, a);
            k.row == Some(InProgress) && !k.died ==> !j.died && (if j.row == k.row then Announced(pc) ==> Announced(q) else Announced(q))
  {
  }

  lemma StepAttends(s: State, e: Event)
    requires Inv(s) && Attended(s)
    ensures Attended(Step(s, e))
  {
    if e.w < |s.pcs| {
      var u := Step(s, e);
      ActAttends(s.job, s.disciplined, s.pcs[e.w], e.a);
      if u.job.row == Some(InProgress) && !u.job.died {
        if s.job.row == u.job.row {
          var i :| 0 <= i < |s.pcs| && Announced(s.pcs[i]);
          assert Announced(u.pcs[i]);
        } else {
          assert Announced(u.pcs[e.w]);
        }
      }
    }
  }

  ghost predicate Safe(s: State) { Inv(s) && Attended(s) }

  lemma RunInv(n: nat, disciplined: bool, es: seq<Event>)
    ensures Safe(Exec(Step, Init(n, disciplined), es))
  {
    forall s: State, e: Event | Safe(s) ensures Safe(Step(s, e)) { StepInv(s, e); StepAttends(s, e); }
    Invariant(Step, Safe, Init(n, disciplined), es);
  }

  lemma {:induction false} DisciplineIsFixed(s: State, es: seq<Event>)
    ensures Exec(Step, s, es).disciplined == s.disciplined && |Exec(Step, s, es).pcs| == |s.pcs|
    decreases |es|
  {
    if es != [] { DisciplineIsFixed(s, es[..|es| - 1]); }
  }

  /** Whatever crashes and leases that run out under a working claimant: external effects happen under
      at most one claim, exactly when processors announce before they act. */
  lemma OneActingClaimExactly(n: nat, disciplined: bool)
    ensures (forall es :: |Exec(Step, Init(n, disciplined), es).job.acted| <= 1) <==> n == 0 || disciplined
  {
    if n == 0 {
      forall es ensures |Exec(Step, Init(n, disciplined), es).job.acted| <= 1 { NobodyActs(disciplined, es); }
    } else if disciplined {
      forall es ensures |Exec(Step, Init(n, disciplined), es).job.acted| <= 1 {
        RunInv(n, disciplined, es);
        DisciplineIsFixed(Init(n, disciplined), es);
      }
    } else {
      var es := ActsUnderTwoClaims(n);
    }
  }

  lemma {:induction false} NobodyActs(disciplined: bool, es: seq<Event>)
    ensures Exec(Step, Init(0, disciplined), es) == Init(0, disciplined)
    decreases |es|
  {
    if es != [] { NobodyActs(disciplined, es[..|es| - 1]); }
  }

  lemma ActsUnderTwoClaims(n: nat) returns (es: seq<Event>)
    requires n >= 1
    ensures |Exec(Step, Init(n, false), es).job.acted| == 2
  {
    es := [Worker(0, Claim(false)), Worker(0, Effect), Worker(0, Crash), Worker(0, Claim(true)), Worker(0, Effect)];
    var s0 := Init(n, false);
    var s1, j2 := Step(s0, es[0]), FRESH.(status := Claimed, token := 1, acted := FRESH.acted + {1}, early := true);
    assert s1.pcs[0] == Running(1, false);
    var s2 := State(j2, false, s1.pcs);
    assert Step(s1, es[1]) == s2;
    var s3 := State(j2, false, s2.pcs[0 := Idle]);
    var s4 := State(j2.(token := 2), false, s3.pcs[0 := Running(2, false)]);
    var s5 := State(s4.job.(acted := j2.acted + {2}), false, s4.pcs);
    assert Step(s4, es[4]) == s5;
    Run5(Step, s0, es);
    assert s5.job.acted == {1, 2};
  }

  /** What a closed job says, in every run with disciplined processors: it was closed once; completed
      means no announcement or a confirmed delivery; failed cleanly means no delivery row and no
      effect; and a delivery still in progress means the announcing claimant died or is still at
      work. */
  lemma WhatAClosedJobSays(n: nat, es: seq<Event>)
    ensures var s := Exec(Step, Init(n, true), es);
            && s.job.closed <= 1 && !s.job.early
            && (s.job.status == Completed ==> s.job.row == if s.job.marked then Some(Confirmed) else None)
            && (s.job.status == Completed && s.job.acted != {} ==> s.job.row == Some(Confirmed))
            && (s.job.status == FailedClean ==> s.job.row.None? && s.job.acted == {})
            && (s.job.row == Some(InProgress) ==> s.job.died || exists i :: 0 <= i < |s.pcs| && Announced(s.pcs[i]))
  {
    RunInv(n, true, es);
    DisciplineIsFixed(Init(n, true), es);
  }

  // ----- one claim, as the worker processes it -----

  /** What the business processor does until it returns or raises. */
  datatype Call = Announce | Affect

  datatype Ending = Returns(outcome: Outcome) | Raises

  predicate AnnouncesFirst(calls: seq<Call>) {
    forall i :: 0 <= i < |calls| && calls[i] == Affect ==> exists k :: 0 <= k < i && calls[k] == Announce
  }

  lemma AnnouncesFirstIsDecidedAtOnce(calls: seq<Call>)
    requires calls != []
    ensures calls[0] == Announce ==> AnnouncesFirst(calls)
    ensures calls[0] == Affect ==> !AnnouncesFirst(calls)
  {
  }

  function Called(j: Job, pc: Pc, c: Call): (Job, Pc) {
    match c
    case Announce =>
      var (j1, p1) := Act(j, false, pc, Renew);
      var (j2, p2) := Act(j1, false, p1, Mark);
      Act(j2, false, p2, Record)
    case Affect => Act(j, false, pc, Effect)
  }

  function AfterCalls(j: Job, pc: Pc, calls: seq<Call>): (Job, Pc)
    decreases |calls|
  {
    if calls == [] then (j, pc)
    else var (k, q) := Called(j, pc, calls[0]); AfterCalls(k, q, calls[1..])
  }

  function EndAction(ending: Ending): Action { if ending.Returns? then Return(ending.outcome) else Raise }

  function Handled(j: Job, pc: Pc): (Job, Pc) {
    var (j1, p1) := Act(j, false, pc, FailRow);
    Act(j1, false, p1, FailClose)
  }

  function Ended(j: Job, pc: Pc, ending: Ending): (Job, Pc) {
    var (j1, p1) := Act(j, false, pc, EndAction(ending));
    var (j2, p2) := Act(j1, false, p1, Report);
    var (j3, p3) := Act(j2, false, p2, Close);
    Handled(j3, p3)
  }

  /** The job after one claimant has run from the processor's first call to the end. */
  function Processed(j: Job, token: nat, calls: seq<Call>, ending: Ending): Job {
    var (k, q) := AfterCalls(j, Running(token, false), calls);
    Ended(k, q, ending).0
  }

  class Store {
    var job: Job

    constructor ()
      ensures job == FRESH
    {
      job := FRESH;
    }

    /** The check every claim-fenced store call makes; `false` is the lost-claim error. */
    predicate Claims(token: nat)
      reads this
    {
      job.status == Claimed && job.token == token
    }

    method MarkStarted(token: nat) returns (ok: bool)
      modifies this
      ensures ok == old(Claims(token)) && job == if ok then old(job).(marked := true) else old(job)
    {
      ok := job.status == Claimed && job.token == token;
      if ok {
        job := job.(marked := true);
      }
    }

    method RecordDelivery(row: Row)
      modifies this
      ensures job == old(job).(row := Some(row))
    {
      job := job.(row := Some(row));
    }

    method CloseJob(token: nat, status: Status) returns (ok: bool)
      modifies this
      ensures ok == old(Claims(token))
      ensures job == if ok then old(job).(status := status, closed := old(job).closed + 1) else old(job)
    {
      ok := job.status == Claimed && job.token == token;
      if ok {
        job := job.(status := status, closed := job.closed + 1);
      }
    }

    /** An external effect, seen from outside. */
    method Effect(token: nat)
      modifies this
      ensures job == old(job).(acted := old(job).acted + {token}, early := old(job).early || old(job).row.None?)
    {
      job := job.(acted := job.acted + {token}, early := job.early || job.row.None?);
    }
  }

  /** The closure handed to the processor. */
  method BeforeExternal(store: Store, token: nat, started: bool) returns (raised: bool, now: bool)
    modifies store
    ensures (store.job, if raised then Failing(token, now) else Running(token, now)) ==
              Called(old(store.job), Running(token, started), Announce)
    // it raises exactly when the claim is lost, and then writes nothing
    ensures raised <==> !old(store.Claims(token))
    ensures raised ==> store.job == old(store.job) && now == started
    // the first announcement under a held claim marks the job and opens its delivery row, a later one does nothing
    ensures !raised ==> now && store.job == if started then old(store.job) else old(store.job).(marked := true, row := Some(InProgress))
  {
    if !store.Claims(token) {
      return true, started;
    }
    if started {
      return false, started;
    }
    var ok := store.MarkStarted(token);
    store.RecordDelivery(InProgress);
    return false, true;
  }

  lemma {:induction false} FailingStays(j: Job, token: nat, started: bool, calls: seq<Call>)
    ensures AfterCalls(j, Failing(token, started), calls) == (j, Failing(token, started))
    decreases |calls|
  {
    if calls != [] { FailingStays(j, token, started, calls[1..]); }
  }

  /** The processor's calls, up to the end or the first that raises. */
  method RunProcessor(store: Store, token: nat, calls: seq<Call>) returns (raised: bool, started: bool)
    modifies store
    ensures (store.job, if raised then Failing(token, started) else Running(token, started)) ==
              AfterCalls(old(store.job), Running(token, false), calls)
    ensures store.job.status == old(store.job).status && store.job.token == old(store.job).token && store.job.closed == old(store.job).closed
    ensures store.job.row == if started then Some(InProgress) else old(store.job).row
    // under a held claim every call goes through
    ensures old(store.Claims(token)) ==>
              && !raised && (started <==> Announce in calls)
              && store.job.acted == old(store.job).acted + (if Affect in calls then {token} else {})
    // under a lost one the first announcement raises, and only what was done before it was done
    ensures !old(store.Claims(token)) ==>
              && (raised <==> Announce in calls) && !started
              && (calls == [] || calls[0] == Announce ==> store.job == old(store.job))
  {
    started := false;
    for i := 0 to |calls|
      invariant AfterCalls(store.job, Running(token, started), calls[i..]) ==
                  AfterCalls(old(store.job), Running(token, false), calls)
      invariant store.job.status == old(store.job).status && store.job.token == old(store.job).token && store.job.closed == old(store.job).closed
      invariant store.job.row == if started then Some(InProgress) else old(store.job).row
      invariant started <==> old(store.Claims(token)) && Announce in calls[..i]
      invariant !old(store.Claims(token)) ==> Announce !in calls[..i]
      invariant store.job.acted == old(store.job).acted + if Affect in calls[..i] then {token} else {}
      invariant i == 0 ==> store.job == old(store.job)
    {
      assert calls[..i + 1] == calls[..i] + [calls[i]];
      assert calls[i..][1..] == calls[i + 1..];
      if calls[i] == Announce {
        raised, started := BeforeExternal(store, token, started);
        if raised {
          FailingStays(store.job, token, started, calls[i + 1..]);
          return;
        }
      } else {
        store.Effect(token);
      }
    }
    assert calls[..|calls|] == calls;
    raised := false;
  }

  /** The exception handler; `escaped` is the lost-claim error it raises itself. */
  method HandleFailure(store: Store, token: nat, started: bool) returns (escaped: bool)
    modifies store
    ensures store.job == Handled(old(store.job), Failing(token, started)).0
    ensures escaped <==> !old(store.Claims(token))
    ensures store.job == old(store.job).(
              row := if started then Some(Unknown) else old(store.job).row,
              status := if escaped then old(store.job).status else if started || old(store.job).marked then OutcomeUnknown else FailedClean,
              closed := old(store.job).closed + if escaped then 0 else 1)
  {
    if started {
      store.RecordDelivery(Unknown);
    }
    var ok := store.CloseJob(token, if started || store.job.marked then OutcomeUnknown else FailedClean);
    return !ok;
  }

  /** The normal end; `false` is the lost-claim error of its last call. */
  method HandleReturn(store: Store, token: nat, started: bool, outcome: Outcome) returns (ok: bool)
    modifies store
    ensures ok == old(store.Claims(token))
    ensures var (j, pc) := Act(old(store.job), false, Reporting(token, started, outcome), Report);
            (store.job, if ok then Idle else Failing(token, started)) == Act(j, false, pc, Close)
    ensures store.job == old(store.job).(
              row := if !started then old(store.job).row else if outcome == Done then Some(Confirmed) else Some(Unknown),
              status := if !ok then old(store.job).status else if outcome == Done then Completed else OutcomeUnknown,
              closed := old(store.job).closed + if ok then 1 else 0)
  {
    if started {
      store.RecordDelivery(if outcome == Done then Confirmed else Unknown);
    }
    ok := store.CloseJob(token, if outcome == Done then Completed else OutcomeUnknown);
  }

  /** One claimed job from the processor's first call to the end. */
  method ProcessClaimed(store: Store, token: nat, calls: seq<Call>, ending: Ending) returns (escaped: bool)
    modifies store
    ensures store.job == Processed(old(store.job), token, calls, ending)
    ensures escaped <==> !old(store.Claims(token))
    // with the claim lost a processor that announces first changes nothing at all
    ensures !old(store.Claims(token)) && AnnouncesFirst(calls) ==> store.job == old(store.job)
    // with the claim held, every effect counts under it, and the job is closed as the ending says
    ensures old(store.Claims(token)) ==>
              && store.job.acted == old(store.job).acted + (if Affect in calls then {token} else {})
              && store.job.closed == old(store.job).closed + 1
              && (ending == Returns(Done) ==> store.job.status == Completed)
              && (ending == Returns(Ambiguous) ==> store.job.status == OutcomeUnknown)
              && (ending == Raises && Announce in calls ==> store.job.status == OutcomeUnknown)
              && (Announce in calls ==> store.job.row == if ending == Returns(Done) then Some(Confirmed) else Some(Unknown))
  {
    assert AnnouncesFirst(calls) ==> calls == [] || calls[0] == Announce;
    var raised, started := RunProcessor(store, token, calls);
    if !raised && ending.Returns? {
      var ok := HandleReturn(store, token, started, ending.outcome);
      if ok {
        return false;
      }
    }
    escaped := HandleFailure(store, token, started);
  }

  // ----- that it is a run of the machine -----

  function CallMoves(w: nat, c: Call): seq<Event> {
    if c == Announce then [Worker(w, Renew), Worker(w, Mark), Worker(w, Record)] else [Worker(w, Effect)]
  }

  function CallEvents(w: nat, calls: seq<Call>): seq<Event> {
    if calls == [] then [] else CallMoves(w, calls[0]) + CallEvents(w, calls[1..])
  }

  function EndEvents(w: nat, ending: Ending): seq<Event> {
    [Worker(w, EndAction(ending)), Worker(w, Report), Worker(w, Close), Worker(w, FailRow), Worker(w, FailClose)]
  }

  function Put(s: State, w: nat, r: (Job, Pc)): State
    requires w < |s.pcs|
  {
    s.(job := r.0, pcs := s.pcs[w := r.1])
  }

  /** A claimant in the processor's hands or already failing, whose next effect is announced if that is
      asked for. */
  predicate Ready(disciplined: bool, pc: Pc, calls: seq<Call>) {
    pc.Failing? || (pc.Running? && (disciplined && !pc.started ==> AnnouncesFirst(calls)))
  }

  lemma OneMove(s: State, w: nat, r: (Job, Pc), a: Action)
    requires w < |s.pcs| && (!s.disciplined || a != Effect || (r.1.Running? ==> r.1.started))
    ensures Step(Put(s, w, r), Worker(w, a)) == Put(s, w, Act(r.0, false, r.1, a))
  {
  }

  lemma CallIsARun(s: State, w: nat, r: (Job, Pc), c: Call)
    requires w < |s.pcs| && (!s.disciplined || c != Affect || (r.1.Running? ==> r.1.started))
    ensures Exec(Step, Put(s, w, r), CallMoves(w, c)) == Put(s, w, Called(r.0, r.1, c))
  {
    var es := CallMoves(w, c);
    if c == Announce {
      var r1 := Act(r.0, false, r.1, Renew);
      var r2 := Act(r1.0, false, r1.1, Mark);
      OneMove(s, w, r, Renew);
      OneMove(s, w, r1, Mark);
      OneMove(s, w, r2, Record);
      Run3(Step, Put(s, w, r), es);
    } else {
      OneMove(s, w, r, Effect);
      Run1(Step, Put(s, w, r), es);
    }
  }

  lemma {:induction false} CallsAreARun(s: State, w: nat, r: (Job, Pc), calls: seq<Call>)
    requires w < |s.pcs| && Ready(s.disciplined, r.1, calls)
    ensures Exec(Step, Put(s, w, r), CallEvents(w, calls)) == Put(s, w, AfterCalls(r.0, r.1, calls))
    decreases |calls|
  {
    if calls != [] {
      var c := calls[0];
      AnnouncesFirstIsDecidedAtOnce(calls);
      CallIsARun(s, w, r, c);
      Concat(Step, Put(s, w, r), CallMoves(w, c), CallEvents(w, calls[1..]));
      CallsAreARun(s, w, Called(r.0, r.1, c), calls[1..]);
    }
  }

  lemma EndIsARun(s: State, w: nat, r: (Job, Pc), ending: Ending)
    requires w < |s.pcs|
    ensures Exec(Step, Put(s, w, r), EndEvents(w, ending)) == Put(s, w, Ended(r.0, r.1, ending))
  {
    var r1 := Act(r.0, false, r.1, EndAction(ending));
    var r2 := Act(r1.0, false, r1.1, Report);
    var r3 := Act(r2.0, false, r2.1, Close);
    var r4 := Act(r3.0, false, r3.1, FailRow);
    OneMove(s, w, r, EndAction(ending));
    OneMove(s, w, r1, Report);
    OneMove(s, w, r2, Close);
    OneMove(s, w, r3, FailRow);
    OneMove(s, w, r4, FailClose);
    Run5(Step, Put(s, w, r), EndEvents(w, ending));
  }

  /** What the worker does with a claim is a run of the machine, whoever else holds a token; of the
      machine with discipline, if its processor announces before it acts. */
  lemma ProcessingIsARun(s: State, w: nat, calls: seq<Call>, ending: Ending)
    requires w < |s.pcs| && s.pcs[w].Running? && !s.pcs[w].started && (s.disciplined ==> AnnouncesFirst(calls))
    ensures Exec(Step, s, CallEvents(w, calls) + EndEvents(w, ending)).job == Processed(s.job, s.pcs[w].token, calls, ending)
  {
    assert Put(s, w, (s.job, s.pcs[w])) == s;
    Concat(Step, s, CallEvents(w, calls), EndEvents(w, ending));
    CallsAreARun(s, w, (s.job, s.pcs[w]), calls);
    EndIsARun(s, w, AfterCalls(s.job, s.pcs[w], calls), ending);
  }

  /** So wherever other claimants, leases and crashes left the job, processing it with a processor that
      announces first leaves the effects under one claim. */
  lemma ProcessingKeepsOneClaim(n: nat, es: seq<Event>, w: nat, calls: seq<Call>, ending: Ending)
    requires AnnouncesFirst(calls)
    ensures var s := Exec(Step, Init(n, true), es);
            w < |s.pcs| && s.pcs[w].Running? && !s.pcs[w].started ==>
              |Processed(s.job, s.pcs[w].token, calls, ending).acted| <= 1
  {
    var s := Exec(Step, Init(n, true), es);
    if w < |s.pcs| && s.pcs[w].Running? && !s.pcs[w].started {
      DisciplineIsFixed(Init(n, true), es);
      var fs := CallEvents(w, calls) + EndEvents(w, ending);
      ProcessingIsARun(s, w, calls, ending);
      Concat(Step, Init(n, true), es, fs);
      RunInv(n, true, es + fs);
      DisciplineIsFixed(Init(n, true), es + fs);
    }
  }

  // ----- what one undisturbed claim leaves behind -----

  lemma {:induction false} CallsLeave(j: Job, started: bool, calls: seq<Call>)
    requires j.status == Claimed && (if started then j.marked && j.row == Some(InProgress) else !j.marked && j.row.None?)
    ensures var (k, q) := AfterCalls(j, Running(j.token, started), calls);
            && q == Running(j.token, started || Announce in calls)
            && k.status == Claimed && k.token == j.token && k.closed == j.closed && (k.marked <==> started || Announce in calls)
            && k.early == (j.early || (!started && !AnnouncesFirst(calls)))
            && (!q.started ==> k.row == j.row)
    decreases |calls|
  {
    if calls != [] {
      AnnouncesFirstIsDecidedAtOnce(calls);
      var (k, q) := Called(j, Running(j.token, started), calls[0]);
      CallsLeave(k, q.started, calls[1..]);
      assert calls == [calls[0]] + calls[1..];
    }
  }

  /** With the claim held throughout: no external effect precedes its delivery row exactly when the
      processor announces before it acts; the job is closed exactly once; an exception is recorded
      as unknown exactly when an effect was announced; and the row ends confirmed with a completion,
      or unknown, never in progress. */
  lemma OneClaimLeaves(j: Job, calls: seq<Call>, ending: Ending)
    requires j.status == Claimed && !j.marked && j.row.None? && !j.early
    ensures var u := Processed(j, j.token, calls, ending);
            var announced := Announce in calls;
            && (!u.early <==> AnnouncesFirst(calls))
            && u.closed == j.closed + 1
            && u.status == (if ending == Returns(Done) then Completed
                            else if announced || ending.Returns? then OutcomeUnknown else FailedClean)
            && u.row == (if !announced then None else if ending == Returns(Done) then Some(Confirmed) else Some(Unknown))
  {
    CallsLeave(j, false, calls);
  }

  // ----- what the processor reports -----

  /** The statuses a report carries, trimmed and in lower case. */
  datatype Fields = Fields(email: string, automation: string, response: string)

  /** A report may hold the account case, and the comment path wraps it as a trigger. */
  datatype Summary = Summary(own: Fields, accountCase: Option<Fields>, trigger: Option<Summary>)

  datatype Verdict = StatusCompleted | StatusHumanReview | StatusUnknown

  predicate ForHuman(status: string) { status == "human_review" || status == "human_review_required" }

  function ExecutionStatus(r: Summary): Verdict {
    var e := if r.trigger.Some? then r.trigger.value else r;
    var c := if e.accountCase.Some? then e.accountCase.value else e.own;
    if e.own.email == "outcome_unknown" || c.email == "outcome_unknown" then StatusUnknown
    else if ForHuman(e.own.response) || ForHuman(c.automation) then StatusHumanReview
    else StatusCompleted
  }

  /** What a report says, on the part it wraps if it wraps one: unknown if either of its two statuses of the
      mail is; else for a human if its response or its case's automation is; else completed. */
  lemma StatusSays(r: Summary)
    ensures var e := if r.trigger.Some? then r.trigger.value else r;
            var c := if e.accountCase.Some? then e.accountCase.value else e.own;
            && (ExecutionStatus(r) == StatusUnknown <==> e.own.email == "outcome_unknown" || c.email == "outcome_unknown")
            && (ExecutionStatus(r) == StatusHumanReview <==>
                  e.own.email != "outcome_unknown" && c.email != "outcome_unknown"
                  && (e.own.response == "human_review" || e.own.response == "human_review_required"
                      || c.automation == "human_review" || c.automation == "human_review_required"))
  {
  }

  function Ends(r: Summary): Ending { Returns(if ExecutionStatus(r) == StatusUnknown then Ambiguous else Done) }

  /** From report to ledger, with the claim held: after an announcement the delivery row ends unknown
      exactly when the send was, on both paths alike, and wrapping a report changes nothing. */
  lemma ReportDecidesTheRow(j: Job, calls: seq<Call>, r: Summary, sync: Fields)
    requires j.status == Claimed && !j.marked && j.row.None? && !j.early && Announce in calls && r.trigger.None?
    ensures var unknown := r.own.email == "outcome_unknown"
                           || (r.accountCase.Some? && r.accountCase.value.email == "outcome_unknown");
            && (Processed(j, j.token, calls, Ends(r)).row == Some(Unknown) <==> unknown)
            && (Processed(j, j.token, calls, Ends(r)).status == Completed <==> !unknown)
            && Processed(j, j.token, calls, Ends(Summary(sync, None, Some(r)))) == Processed(j, j.token, calls, Ends(r))
  {
    OneClaimLeaves(j, calls, Ends(r));
  }
}
