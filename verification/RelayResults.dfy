/** The result side of one dispatched enablement request: record, acknowledge, apply, re-drive and
    expire, by any number of workers with a crash allowed between any two writes; composed with the
    reply job the application saves and the Zendesk row its message gets. */
module RelayResults {
  import opened Machines
  import J = ReplyJobs
  import Z = ZendeskLedger

  datatype Req = Dispatched | ResultReceived | Completed | Failed | Expired | Cancelled

  /** An outcome the contract knows, or text outside its vocabulary. `approved` says whether the
      enabled result passes the read-back and the approval gate, which depend on stored data only. */
  datatype Outcome = Enabled(approved: bool) | OwnershipMismatch | ProjectNotFound | OtherKnown | Foreign

  datatype Applied = NotYet | AppliedResult | Superseded

  datatype Result = Result(outcome: Outcome, applied: Applied)

  datatype Payload = Invalid | Valid(outcome: Outcome)

  datatype Op = Mark(to: Applied) | Finish(status: Req) | CancelPending | SaveJob | SaveOtherJob

  /** What applying a result amounts to once the live checks have been read. */
  datatype Plan =
    | TicketClosed | GateFailed | NotApplicable | Success
    | OwnershipReply | OwnershipHuman | NotFoundReply | FailureChain

  function Ops(p: Plan): seq<Op> {
    match p
    case TicketClosed => [Mark(Superseded), Finish(Cancelled)]
    case GateFailed => [Mark(AppliedResult), Finish(Failed)]
    case NotApplicable => [Mark(Superseded), Finish(Failed)]
    case Success => [CancelPending, SaveJob, Finish(Completed), Mark(AppliedResult)]
    case OwnershipReply => [CancelPending, SaveOtherJob, Mark(AppliedResult), Finish(Completed)]
    case OwnershipHuman => [Mark(Superseded), Finish(Completed)]
    case NotFoundReply => [Mark(AppliedResult), CancelPending, SaveOtherJob, Finish(Failed)]
    case FailureChain => [Mark(AppliedResult), Finish(Failed)]
  }

  /** Which plans the code can take for a stored outcome. */
  predicate Fits(p: Plan, o: Outcome) {
    match p
    case TicketClosed => true
    case GateFailed => o == Enabled(false)
    case NotApplicable => o == Enabled(true)
    case Success => o == Enabled(true)
    case OwnershipReply => o == OwnershipMismatch
    case OwnershipHuman => o == OwnershipMismatch
    case NotFoundReply => o == ProjectNotFound
    case FailureChain => o == ProjectNotFound || o == OtherKnown
  }

  datatype Pc =
    | Idle
    | Handling(payload: Payload, seen: Req)   // task detail fetched, request row as it was then
    | AckValid(winner: bool)
    | FailChain
    | CheckFailed
    | AckInvalid
    | Entry                                   // about to read the live ticket and plan
    | Applying(plan: Plan, next: nat)
    | Expiring(to: Req)                       // the sweep saw no result and is about to close

  /** `won` says whether the request was still dispatched when its result was recorded; `acks` logs for
      each acknowledgement whether it was durable when sent. */
  datatype Shared = Shared(req: Req, res: Option<Result>, won: bool, job: Option<J.State>, led: Option<Z.State>, acks: seq<bool>)

  datatype State = State(sh: Shared, pcs: seq<Pc>)

  datatype Action =
    | Pull(payload: Payload)
    | Handle
    | FinishFailed
    | Recheck
    | Ack(ok: bool)
    | Redrive
    | MakePlan(plan: Plan)
    | Defer
    | Do
    | SweepCheck(to: Req)
    | SweepFinish
    | Crash

  datatype Event =
    | Worker(w: nat, a: Action)
    | Job(je: J.Event, eligible: bool)    // a step of the reply workers on the completion job
    | Ledger(ze: Z.Event)                // a step of the delivery workers on its message's row

  const OPEN := Shared(Dispatched, None, false, None, None, [])

  function Init(n: nat): State { State(OPEN, seq(n, i => Idle)) }

  predicate Terminal(r: Req) { r == Completed || r == Failed || r == Expired || r == Cancelled }

  predicate Waiting(res: Option<Result>) { res.Some? && res.value.applied == NotYet }

  /** A result row exists or the request is closed: what an acknowledgement has to wait for. */
  predicate Durable(sh: Shared) { sh.res.Some? || Terminal(sh.req) }

  /** What the deferred scan lists. */
  predicate Deferred(sh: Shared) { Waiting(sh.res) && (sh.req == Dispatched || sh.req == ResultReceived) }

  function Closed(r: Req, to: Req): Req { if Terminal(r) then r else to }

  function Perform(sh: Shared, op: Op, n: nat): Shared {
    match op
    case Mark(to) => if Waiting(sh.res) then sh.(res := Some(sh.res.value.(applied := to))) else sh
    case Finish(to) => sh.(req := Closed(sh.req, to))
    case CancelPending => if sh.job.Some? then sh.(job := Some(J.Step(sh.job.value, J.CancelPending))) else sh
    case SaveJob =>
      sh.(job := Some(if sh.job.Some? then J.Step(sh.job.value, J.Save) else J.Init(J.Queued, n, true, false)))
    case SaveOtherJob => sh
  }

  /** A close by somebody who is not applying the result. */
  function CloseByOther(sh: Shared, to: Req): Shared { sh.(req := Closed(sh.req, to)) }

  /** The plan's mark is behind it. */
  predicate Marked(plan: Plan, next: nat) {
    match plan
    case Success => false
    case OwnershipReply => next >= 3
    case _ => next >= 1
  }

  /** Between the mark and the close behind it. */
  predicate MidPlan(pc: Pc) { pc.Applying? && Marked(pc.plan, pc.next) }

  /** A step that writes nothing of a plan. */
  function Move(sh: Shared, pc: Pc, a: Action): (Shared, Pc) {
    match a
    case Pull(payload) =>
      (sh, if pc == Idle then Handling(payload, sh.req) else pc)
    case Handle =>
      if !pc.Handling? then (sh, pc)
      else if pc.payload == Invalid then
        (sh, if pc.seen == Completed || pc.seen == Failed || pc.seen == Cancelled then AckInvalid else FailChain)
      else if pc.payload.outcome == Foreign || sh.res.Some? then (sh, AckValid(false))
      else
        var winner := sh.req == Dispatched;
        (sh.(res := Some(Result(pc.payload.outcome, NotYet)), won := winner, req := if winner then ResultReceived else sh.req),
         AckValid(winner))
    case FinishFailed => if pc == FailChain then (CloseByOther(sh, Failed), CheckFailed) else (sh, pc)
    case Recheck => (sh, if pc == CheckFailed then if sh.req == Failed then AckInvalid else Idle else pc)
    case Ack(ok) =>
      if !pc.AckValid? && !pc.AckInvalid? then (sh, pc)
      else if !ok then (sh, Idle)
      else (sh.(acks := sh.acks + [Durable(sh)]), if pc == AckValid(true) then Entry else Idle)
    case Redrive => (sh, if pc == Idle && Deferred(sh) then Entry else pc)
    case MakePlan(plan) =>
      (sh, if pc == Entry && sh.res.Some? && Fits(plan, sh.res.value.outcome) then Applying(plan, 0) else pc)
    case Defer => (sh, if pc == Entry then Idle else pc)
    case Do => (sh, pc)
    case SweepCheck(to) =>
      (sh, if pc == Idle && sh.req == Dispatched && sh.res.None? && (to == Expired || to == Cancelled) then Expiring(to) else pc)
    case SweepFinish => if pc.Expiring? then (CloseByOther(sh, pc.to), Idle) else (sh, pc)
    case Crash => (sh, Idle)
  }

  /** The next write of the plan being applied. */
  function DoNext(sh: Shared, pc: Pc, n: nat): (Shared, Pc) {
    if !pc.Applying? then (sh, pc)
    else if pc.next >= |Ops(pc.plan)| then (sh, Idle)
    else (Perform(sh, Ops(pc.plan)[pc.next], n), if pc.next + 1 == |Ops(pc.plan)| then Idle else pc.(next := pc.next + 1))
  }

  function Act(sh: Shared, pc: Pc, a: Action, n: nat): (Shared, Pc) { if a.Do? then DoNext(sh, pc, n) else Move(sh, pc, a) }

  function Step(s: State, e: Event): State {
    match e
    case Worker(w, a) =>
      if w < |s.pcs| then
        var (sh, pc) := Act(s.sh, s.pcs[w], a, |s.pcs|);
        State(sh, s.pcs[w := pc])
      else s
    case Job(je, eligible) =>
      if s.sh.job.None? || je.Save? then s
      else
        var before := s.sh.job.value;
        var after := J.Step(before, je);
        var published := after.job.stage == J.Published && before.job.stage != J.Published && eligible;
        s.(sh := s.sh.(job := Some(after),
                       led := if published && s.sh.led.None? then Some(Z.Init(Z.Account, |s.pcs|)) else s.sh.led))
    case Ledger(ze) => if s.sh.led.Some? then s.(sh := s.sh.(led := Some(Z.Step(s.sh.led.value, ze)))) else s
  }

  // ----- one customer message, one public comment -----

  ghost predicate Unique(s: State) {
    && (s.sh.job.Some? ==> s.sh.job.value.messages <= 1)
    && (s.sh.led.Some? ==> s.sh.job.Some? && s.sh.job.value.messages == 1 && Z.Inv(s.sh.led.value))
  }

  lemma JobUnique(j: J.State, e: J.Event)
    requires j.messages <= 1
    ensures j.messages <= J.Step(j, e).messages <= 1
  {
  }

  lemma PerformUnique(s: State, op: Op)
    requires Unique(s)
    ensures Unique(s.(sh := Perform(s.sh, op, |s.pcs|)))
  {
    if s.sh.job.Some? {
      JobUnique(s.sh.job.value, J.CancelPending);
      JobUnique(s.sh.job.value, J.Save);
    }
  }

  lemma WorkerUnique(s: State, w: nat, a: Action)
    requires Unique(s) && w < |s.pcs|
    ensures Unique(Step(s, Worker(w, a)))
  {
    var pc := s.pcs[w];
    if a.Do? && pc.Applying? && pc.next < |Ops(pc.plan)| {
      PerformUnique(s, Ops(pc.plan)[pc.next]);
    } else {
      var sh := Act(s.sh, pc, a, |s.pcs|).0;
      assert sh.job == s.sh.job && sh.led == s.sh.led;
    }
  }

  lemma UniqueStep(s: State, e: Event)
    requires Unique(s)
    ensures Unique(Step(s, e))
  {
    match e
    case Worker(w, a) => if w < |s.pcs| { WorkerUnique(s, w, a); }
    case Job(je, eligible) =>
      Z.InitInv(Z.Account, |s.pcs|);
      if s.sh.job.Some? { JobUnique(s.sh.job.value, je); }
    case Ledger(ze) =>
      if s.sh.led.Some? { Z.StepInv(s.sh.led.value, ze); }
  }

  /** Whatever crashes fall between record, acknowledge, cancel, save, close and mark, and however
      often the deferred re-drive saves the job again: the job id has at most one customer message,
      and Zendesk shows it at most once. */
  lemma AtMostOneCompletionMessage(n: nat, es: seq<Event>)
    ensures var sh := Exec(Step, Init(n), es).sh;
            && (sh.job.Some? ==> sh.job.value.messages <= 1)
            && (sh.led.Some? ==> sh.job.Some? && sh.job.value.messages == 1 && sh.led.value.posts <= 1)
  {
    forall s: State, e: Event | Unique(s) ensures Unique(Step(s, e)) { UniqueStep(s, e); }
    Invariant(Step, Unique, Init(n), es);
  }

  // ----- durability, order of the writes, and what the deferred scan still reaches -----

  predicate AllDurable(acks: seq<bool>) { forall i :: 0 <= i < |acks| ==> acks[i] }

  ghost predicate ShInv(sh: Shared) {
    && (sh.won ==> sh.res.Some?)
    && (sh.res.Some? ==> sh.res.value.outcome != Foreign)
    && (sh.req == ResultReceived ==> sh.res.Some?)
    && (sh.res == Some(Result(Enabled(true), AppliedResult)) ==> sh.job.Some?)
  }

  ghost predicate PcInv(sh: Shared, pc: Pc) {
    match pc
    case Handling(_, seen) => Terminal(seen) ==> Terminal(sh.req)
    case AckValid(winner) => winner ==> sh.res.Some?
    case AckInvalid => Terminal(sh.req)
    case Entry => sh.res.Some?
    case Expiring(to) => Terminal(to)
    case Applying(plan, next) =>
      && sh.res.Some? && Fits(plan, sh.res.value.outcome) && next < |Ops(plan)|
      && (plan == Success && next >= 2 ==> sh.job.Some?)
      && (plan == Success && next >= 3 ==> Terminal(sh.req))
      && (Marked(plan, next) ==> sh.res.value.applied != NotYet)
    case _ => true
  }

  ghost predicate Inv(s: State) {
    ShInv(s.sh) && forall i :: 0 <= i < |s.pcs| ==> PcInv(s.sh, s.pcs[i])
  }

  /** What one write of a plan does, the job's contents aside. */
  ghost predicate Effect(sh: Shared, op: Op, u: Shared) {
    && u.won == sh.won && u.acks == sh.acks
    && u.res == (if op.Mark? && Waiting(sh.res) then Some(Result(sh.res.value.outcome, op.to)) else sh.res)
    && u.req == (if op.Finish? then Closed(sh.req, op.status) else sh.req)
    && (u.job.Some? <==> sh.job.Some? || op == SaveJob)
  }

  lemma PerformEffect(sh: Shared, op: Op, n: nat)
    ensures Effect(sh, op, Perform(sh, op, n))
  {
  }

  lemma PlanInv(sh: Shared, plan: Plan, next: nat, u: Shared)
    requires ShInv(sh) && PcInv(sh, Applying(plan, next)) && Effect(sh, Ops(plan)[next], u)
    ensures ShInv(u) && Grows(sh, u) && (next + 1 < |Ops(plan)| ==> PcInv(u, Applying(plan, next + 1)))
  {
  }

  /** What never goes back. */
  predicate Grows(sh: Shared, u: Shared) {
    && (Terminal(sh.req) ==> Terminal(u.req)) && (sh.job.Some? ==> u.job.Some?)
    && (sh.res.Some? ==> u.res.Some? && u.res.value.outcome == sh.res.value.outcome
                         && (sh.res.value.applied != NotYet ==> u.res.value.applied != NotYet))
  }

  lemma GrowthKeeps(sh: Shared, u: Shared, pc: Pc)
    requires PcInv(sh, pc) && Grows(sh, u)
    ensures PcInv(u, pc)
  {
  }

  lemma AckInv(sh: Shared, pc: Pc, ok: bool)
    requires ShInv(sh) && PcInv(sh, pc)
    ensures var (u, q) := Move(sh, pc, Ack(ok)); ShInv(u) && PcInv(u, q) && Grows(sh, u)
  {
  }

  lemma HandleInv(sh: Shared, pc: Pc)
    requires ShInv(sh) && PcInv(sh, pc)
    ensures var (u, q) := Move(sh, pc, Handle); ShInv(u) && PcInv(u, q) && Grows(sh, u)
  {
  }

  lemma CloseInv(sh: Shared, pc: Pc, a: Action)
    requires ShInv(sh) && PcInv(sh, pc) && (a.FinishFailed? || a.SweepFinish?)
    ensures var (u, q) := Move(sh, pc, a); ShInv(u) && PcInv(u, q) && Grows(sh, u)
  {
  }

  lemma MoveInv(sh: Shared, pc: Pc, a: Action)
    requires ShInv(sh) && PcInv(sh, pc) && !a.Ack? && !a.Handle? && !a.FinishFailed? && !a.SweepFinish?
    ensures var (u, q) := Move(sh, pc, a); ShInv(u) && PcInv(u, q) && Grows(sh, u)
  {
  }

  lemma DoInv(sh: Shared, pc: Pc, n: nat)
    requires ShInv(sh) && PcInv(sh, pc)
    ensures var (u, q) := DoNext(sh, pc, n); ShInv(u) && PcInv(u, q) && Grows(sh, u)
  {
    if pc.Applying? {
      PerformEffect(sh, Ops(pc.plan)[pc.next], n);
      PlanInv(sh, pc.plan, pc.next, Perform(sh, Ops(pc.plan)[pc.next], n));
    }
  }

  lemma ActInv(sh: Shared, pc: Pc, a: Action, n: nat)
    requires ShInv(sh) && PcInv(sh, pc)
    ensures var (u, q) := Act(sh, pc, a, n); ShInv(u) && PcInv(u, q) && Grows(sh, u)
  {
    if a.Ack? {
      AckInv(sh, pc, a.ok);
    } else if a.Do? {
      DoInv(sh, pc, n);
    } else if a.Handle? {
      HandleInv(sh, pc);
    } else if a.FinishFailed? || a.SweepFinish? {
      CloseInv(sh, pc, a);
    } else {
      MoveInv(sh, pc, a);
    }
  }

  lemma StepInv(s: State, e: Event)
    requires Inv(s)
    ensures Inv(Step(s, e))
  {
    if e.Worker? && e.w < |s.pcs| {
      var pc := s.pcs[e.w];
      var u := Act(s.sh, pc, e.a, |s.pcs|).0;
      ActInv(s.sh, pc, e.a, |s.pcs|);
      forall i | 0 <= i < |s.pcs| && i != e.w ensures PcInv(u, s.pcs[i]) { GrowthKeeps(s.sh, u, s.pcs[i]); }
    }
  }

  lemma RunInv(n: nat, es: seq<Event>)
    ensures Inv(Exec(Step, Init(n), es))
  {
    forall s: State, e: Event | Inv(s) ensures Inv(Step(s, e)) { StepInv(s, e); }
    Invariant(Step, Inv, Init(n), es);
  }

  /** An approved enabled result is marked applied only after its reply job is saved. */
  lemma AppliedOnlyAfterSave(n: nat, es: seq<Event>)
    ensures var sh := Exec(Step, Init(n), es).sh;
            sh.res == Some(Result(Enabled(true), AppliedResult)) ==> sh.job.Some?
  {
    RunInv(n, es);
  }

  lemma MoveDurable(sh: Shared, pc: Pc, a: Action)
    requires Durable(sh)
    ensures Durable(Move(sh, pc, a).0)
  {
  }

  lemma DurableStep(s: State, e: Event)
    requires Durable(s.sh)
    ensures Durable(Step(s, e).sh)
  {
    if e.Worker? && e.w < |s.pcs| {
      var pc := s.pcs[e.w];
      if !e.a.Do? {
        MoveDurable(s.sh, pc, e.a);
      } else if pc.Applying? && pc.next < |Ops(pc.plan)| {
        PerformEffect(s.sh, Ops(pc.plan)[pc.next], |s.pcs|);
      }
    }
  }

  lemma {:induction false} DurableForever(s: State, es: seq<Event>)
    requires Durable(s.sh)
    ensures Durable(Exec(Step, s, es).sh)
    decreases |es|
  {
    if es != [] {
      DurableForever(s, es[..|es| - 1]);
      DurableStep(Exec(Step, s, es[..|es| - 1]), es[|es| - 1]);
    }
  }

  // ----- what each promise needs -----

  predicate Is(e: Event, a: Action) { e.Worker? && e.a == a }

  /** No worker takes this action in the run. */
  ghost predicate Never(a: Action, es: seq<Event>) { forall k :: 0 <= k < |es| ==> !Is(es[k], a) }

  lemma {:induction false} InvariantWithout(inv: State -> bool, a: Action, s: State, es: seq<Event>)
    requires inv(s) && Never(a, es)
    requires forall t: State, e: Event :: inv(t) && !Is(e, a) ==> inv(Step(t, e))
    ensures inv(Exec(Step, s, es))
    decreases |es|
  {
    if es != [] {
      InvariantWithout(inv, a, s, es[..|es| - 1]);
      assert !Is(es[|es| - 1], a);
    }
  }

  // ----- acknowledged means durable -----

  ghost predicate Heard(sh: Shared, pc: Pc) {
    (pc.Handling? ==> pc.payload != Valid(Foreign)) && (pc.AckValid? ==> sh.res.Some?)
  }

  ghost predicate Durably(s: State) {
    Inv(s) && AllDurable(s.sh.acks) && forall i :: 0 <= i < |s.pcs| ==> Heard(s.sh, s.pcs[i])
  }

  lemma ActDurably(sh: Shared, pc: Pc, a: Action, n: nat)
    requires ShInv(sh) && PcInv(sh, pc) && AllDurable(sh.acks) && Heard(sh, pc) && a != Pull(Valid(Foreign))
    ensures var (u, q) := Act(sh, pc, a, n); AllDurable(u.acks) && Heard(u, q) && (sh.res.Some? ==> u.res.Some?)
  {
    if a.Do? && pc.Applying? {
      PerformEffect(sh, Ops(pc.plan)[pc.next], n);
    } else if a.Ack? {
      assert AllDurable(sh.acks + [true]);
    }
  }

  lemma DurablyStep(s: State, e: Event)
    requires Durably(s) && !Is(e, Pull(Valid(Foreign)))
    ensures Durably(Step(s, e))
  {
    StepInv(s, e);
    if e.Worker? && e.w < |s.pcs| { ActDurably(s.sh, s.pcs[e.w], e.a, |s.pcs|); }
  }

  ghost predicate DurableAfter(n: nat, es: seq<Event>) { AllDurable(Exec(Step, Init(n), es).sh.acks) }

  /** Every acknowledgement of every run is durable if and only if no payload names an outcome outside
      the vocabulary: such a payload is acknowledged without a trace. */
  lemma AckedMeansDurableExactly(n: nat, foreign: bool)
    ensures (forall es :: (foreign || Never(Pull(Valid(Foreign)), es)) ==> DurableAfter(n, es))
            <==> n == 0 || !foreign
  {
    if !foreign {
      forall s: State, e: Event | Durably(s) && !Is(e, Pull(Valid(Foreign))) ensures Durably(Step(s, e)) { DurablyStep(s, e); }
      forall es | Never(Pull(Valid(Foreign)), es) ensures DurableAfter(n, es) {
        InvariantWithout(Durably, Pull(Valid(Foreign)), Init(n), es);
      }
    } else if n == 0 {
      forall es ensures DurableAfter(n, es) { Nobody(es); }
    } else {
      var es := ForgottenAck(n);
    }
  }

  lemma {:induction false} Nobody(es: seq<Event>)
    ensures Exec(Step, Init(0), es) == Init(0)
    decreases |es|
  {
    if es != [] { Nobody(es[..|es| - 1]); }
  }

  // ----- a waiting winner stays listed -----

  /** A winner that waits is listed by the deferred scan, or its job is saved and the request completed. */
  ghost predicate Kept(sh: Shared) {
    sh.won && Waiting(sh.res) ==> Deferred(sh) || (sh.job.Some? && sh.req == Completed)
  }

  /** The sweep or the failure chain closes a request whose recorded result still waits. */
  ghost predicate Disturbs(s: State, e: Event) {
    && e.Worker? && e.w < |s.pcs| && Waiting(s.sh.res) && !Terminal(s.sh.req)
    && ((e.a == SweepFinish && s.pcs[e.w].Expiring?) || (e.a == FinishFailed && s.pcs[e.w] == FailChain))
  }

  /** The success plan closes the request, its job saved and its mark still ahead. */
  ghost predicate Completes(s: State, e: Event) {
    e.Worker? && e.w < |s.pcs| && e.a == Do && s.pcs[e.w] == Applying(Success, 2)
  }

  /** Step by step, from every reachable state: a listed result stops being listed while it still waits
      exactly when somebody else closes the request, or the success plan does with its job saved. */
  lemma UnlistedExactly(s: State, e: Event)
    requires Inv(s) && Deferred(s.sh)
    ensures var u := Step(s, e).sh;
            && (Waiting(u.res) && !Deferred(u) <==> Disturbs(s, e) || Completes(s, e))
            && (Completes(s, e) ==> u.job.Some? && u.req == Completed)
  {
    if e.Worker? && e.w < |s.pcs| {
      var pc := s.pcs[e.w];
      if e.a.Do? && pc.Applying? { PerformEffect(s.sh, Ops(pc.plan)[pc.next], |s.pcs|); }
    }
  }

  lemma KeptStep(s: State, e: Event)
    requires Inv(s) && Kept(s.sh) && !Disturbs(s, e)
    ensures Kept(Step(s, e).sh)
  {
    var u := Step(s, e).sh;
    if Deferred(s.sh) {
      UnlistedExactly(s, e);
    } else if e.Worker? && e.w < |s.pcs| {
      var pc := s.pcs[e.w];
      if e.a.Do? && pc.Applying? { PerformEffect(s.sh, Ops(pc.plan)[pc.next], |s.pcs|); }
    }
  }

  /** In every run in which no step disturbs a waiting winner, none becomes unreachable. */
  lemma KeptUnlessDisturbed(n: nat, es: seq<Event>)
    requires Along(Step, (s, e) => !Disturbs(s, e), Init(n), es)
    ensures Kept(Exec(Step, Init(n), es).sh)
  {
    var ok := (s, e) => !Disturbs(s, e);
    var inv := (s: State) => Inv(s) && Kept(s.sh);
    forall s: State, e: Event | inv(s) && ok(s, e) ensures inv(Step(s, e)) { StepInv(s, e); KeptStep(s, e); }
    InvariantAlong(Step, inv, ok, Init(n), es);
  }

  /** A single worker that meets no invalid payload: it never fails a request on its own, and while it
      is about to expire one nobody records a result. */
  ghost predicate Lone(s: State) {
    && Inv(s) && Kept(s.sh) && |s.pcs| <= 1
    && forall i :: 0 <= i < |s.pcs| ==>
         s.pcs[i] != FailChain && (s.pcs[i].Handling? ==> s.pcs[i].payload != Invalid) && (s.pcs[i].Expiring? ==> s.sh.res.None?)
  }

  lemma LoneStep(s: State, e: Event)
    requires Lone(s) && !Is(e, Pull(Invalid))
    ensures Lone(Step(s, e))
  {
    StepInv(s, e);
    KeptStep(s, e);
  }

  ghost predicate KeptAfter(n: nat, es: seq<Event>) { Kept(Exec(Step, Init(n), es).sh) }

  /** Every winner that waits stays listed, in every run, if and only if there is a single worker and no
      invalid payload comes for a task whose result is recorded: two workers let the expiry sweep close
      a request between its read of "no result" and the close, and an invalid payload fails a request
      without looking at its result. */
  lemma WinnerListedExactly(n: nat, invalid: bool)
    ensures (forall es :: (invalid || Never(Pull(Invalid), es)) ==> KeptAfter(n, es))
            <==> n == 0 || (n == 1 && !invalid)
  {
    if n == 0 {
      forall es ensures KeptAfter(n, es) { Nobody(es); }
    } else if n == 1 && !invalid {
      forall s: State, e: Event | Lone(s) && !Is(e, Pull(Invalid)) ensures Lone(Step(s, e)) { LoneStep(s, e); }
      forall es | Never(Pull(Invalid), es) ensures KeptAfter(n, es) {
        InvariantWithout(Lone, Pull(Invalid), Init(n), es);
      }
    } else if invalid {
      var es := InvalidHidesAWinner(n);
      assert !KeptAfter(n, es);
    } else {
      var es := SweepRaceHidesAWinner(n);
      assert !KeptAfter(n, es);
    }
  }

  // ----- which waiting results can still be applied -----

  /** A worker that has the result in hand. */
  predicate Carries(pc: Pc) { pc == Entry || pc == AckValid(true) || pc.Applying? }

  ghost predicate InHand(s: State) { exists w :: 0 <= w < |s.pcs| && Carries(s.pcs[w]) }

  ghost predicate AppliedAfter(s: State, es: seq<Event>) { !Waiting(Exec(Step, s, es).sh.res) }

  /** From every reachable state: some continuation applies a waiting result if and only if a worker has
      it in hand or, with a worker to do it, the deferred scan lists it. So a result the scan lost and
      nobody holds waits for ever. */
  lemma ApplicableExactly(s: State)
    requires Inv(s) && Waiting(s.sh.res)
    ensures (exists es :: AppliedAfter(s, es)) <==> InHand(s) || (Deferred(s.sh) && |s.pcs| > 0)
  {
    if InHand(s) {
      var w :| 0 <= w < |s.pcs| && Carries(s.pcs[w]);
      var es := CarriedOut(s, w);
    } else if Deferred(s.sh) && |s.pcs| > 0 {
      var es := [Worker(0, Crash), Worker(0, Redrive)];
      var s1 := Step(s, es[0]);
      StepInv(s, es[0]);
      StepInv(s1, es[1]);
      var s2 := Step(s1, es[1]);
      assert s2.pcs[0] == Entry && s2.sh == s.sh;
      Run2(Step, s, es);
      var fs := CarriedOut(s2, 0);
      Concat(Step, s, es, fs);
      assert AppliedAfter(s, es + fs);
    } else {
      forall es ensures !AppliedAfter(s, es) { HiddenForever(s, es); }
    }
  }

  /** Who has the result in hand can bring it to its mark. */
  lemma {:induction false} CarriedOut(s: State, w: nat) returns (es: seq<Event>)
    requires Inv(s) && Waiting(s.sh.res) && w < |s.pcs| && Carries(s.pcs[w])
    ensures AppliedAfter(s, es)
    decreases if s.pcs[w].Applying? then 4 - s.pcs[w].next else if s.pcs[w] == Entry then 5 else 6
  {
    var pc := s.pcs[w];
    var a := if pc.Applying? then Do else if pc == Entry then MakePlan(TicketClosed) else Ack(true);
    var u := Step(s, Worker(w, a));
    StepInv(s, Worker(w, a));
    if pc.Applying? { PerformEffect(s.sh, Ops(pc.plan)[pc.next], |s.pcs|); }
    var fs := [];
    if Waiting(u.sh.res) {
      assert Carries(u.pcs[w]);
      fs := CarriedOut(u, w);
    }
    First(Step, s, Worker(w, a), fs);
    es := [Worker(w, a)] + fs;
  }

  ghost predicate Hidden(s: State) {
    Waiting(s.sh.res) && (Terminal(s.sh.req) || s.pcs == []) && !InHand(s)
  }

  lemma HiddenStep(s: State, e: Event)
    requires Hidden(s)
    ensures Hidden(Step(s, e)) && (s.sh.job.None? ==> Step(s, e).sh.job.None?)
  {
    var u := Step(s, e);
    if e.Worker? && e.w < |s.pcs| {
      assert !Carries(s.pcs[e.w]);
      assert forall w :: 0 <= w < |u.pcs| ==> !Carries(u.pcs[w]);
    }
  }

  /** A result that waits behind a closed request with nobody holding it stays unlisted and unapplied in
      every continuation, and no job is saved for it. */
  lemma {:induction false} HiddenForever(s: State, es: seq<Event>)
    requires Hidden(s)
    ensures var u := Exec(Step, s, es); Hidden(u) && !AppliedAfter(s, es) && (s.sh.job.None? ==> u.sh.job.None?)
    decreases |es|
  {
    if es != [] {
      HiddenForever(s, es[..|es| - 1]);
      HiddenStep(Exec(Step, s, es[..|es| - 1]), es[|es| - 1]);
    }
  }

  // ----- a marked result closes its request -----

  ghost predicate MarkedOpen(sh: Shared) { sh.res.Some? && !Waiting(sh.res) && !Terminal(sh.req) }

  /** A result is marked, its request is open, and nobody has the close ahead. */
  ghost predicate Unattended(s: State) {
    MarkedOpen(s.sh) && forall i :: 0 <= i < |s.pcs| ==> !MidPlan(s.pcs[i])
  }

  /** The only worker with the close ahead dies between the mark and the close. */
  ghost predicate Cuts(s: State, e: Event) {
    && e.Worker? && e.a == Crash && e.w < |s.pcs| && MarkedOpen(s.sh) && MidPlan(s.pcs[e.w])
    && forall i :: 0 <= i < |s.pcs| && i != e.w ==> !MidPlan(s.pcs[i])
  }

  /** A worker that does not die carries the close it owes, or pays it. */
  lemma ActTidy(sh: Shared, pc: Pc, a: Action, n: nat)
    requires PcInv(sh, pc)
    ensures var (u, q) := Act(sh, pc, a, n);
            && (MidPlan(pc) && a != Crash ==> MidPlan(q) || Terminal(u.req))
            && (MarkedOpen(u) && !MarkedOpen(sh) ==> MidPlan(q))
  {
    if a.Do? && pc.Applying? { PerformEffect(sh, Ops(pc.plan)[pc.next], n); }
  }

  /** Step by step, from every reachable state: a marked open request is left alone exactly by that. */
  lemma UnattendedExactly(s: State, e: Event)
    requires Inv(s) && !Unattended(s)
    ensures Unattended(Step(s, e)) <==> Cuts(s, e)
  {
    var u := Step(s, e);
    if e.Worker? && e.w < |s.pcs| {
      ActTidy(s.sh, s.pcs[e.w], e.a, |s.pcs|);
      assert u.pcs[e.w] == Act(s.sh, s.pcs[e.w], e.a, |s.pcs|).1;
      if MarkedOpen(s.sh) && MarkedOpen(u.sh) {
        var i :| 0 <= i < |s.pcs| && MidPlan(s.pcs[i]);
        if j :| 0 <= j < |s.pcs| && j != e.w && MidPlan(s.pcs[j]) {
          assert MidPlan(u.pcs[j]);
        } else {
          assert i == e.w;
        }
      }
    }
  }

  ghost predicate UnattendedAfter(n: nat, es: seq<Event>) { Unattended(Exec(Step, Init(n), es)) }

  /** A marked result leaves its request open with nobody to close it in no run if and only if there
      are no workers or none of them dies. */
  lemma MarkedMeansClosedExactly(n: nat, crashes: bool)
    ensures (forall es :: (crashes || Never(Crash, es)) ==> !UnattendedAfter(n, es)) <==> n == 0 || !crashes
  {
    if n == 0 {
      forall es ensures !UnattendedAfter(n, es) { Nobody(es); }
    } else if !crashes {
      var inv := (s: State) => Inv(s) && !Unattended(s);
      forall s: State, e: Event | inv(s) && !Is(e, Crash) ensures inv(Step(s, e)) { StepInv(s, e); UnattendedExactly(s, e); }
      forall es | Never(Crash, es) ensures !UnattendedAfter(n, es) { InvariantWithout(inv, Crash, Init(n), es); }
    } else {
      var es := CutStrandsARequest(n);
      assert UnattendedAfter(n, es);
    }
  }

  // ----- one consumption -----

  /** One event consumed from pull to acknowledgement with nothing in between. */
  function Consumption(w: nat, p: Payload, acked: bool): seq<Event> {
    [Worker(w, Pull(p)), Worker(w, Handle), Worker(w, FinishFailed), Worker(w, Recheck), Worker(w, Ack(acked))]
  }

  /** What that does to the shared state and the worker. */
  function Consumed(sh: Shared, p: Payload, acked: bool): (Shared, Pc) {
    var m1 := Move(sh, Idle, Pull(p));
    var m2 := Move(m1.0, m1.1, Handle);
    var m3 := Move(m2.0, m2.1, FinishFailed);
    var m4 := Move(m3.0, m3.1, Recheck);
    Move(m4.0, m4.1, Ack(acked))
  }

  function Put(s: State, w: nat, r: (Shared, Pc)): State
    requires w < |s.pcs|
  {
    State(r.0, s.pcs[w := r.1])
  }

  lemma Moves(s: State, w: nat, r: (Shared, Pc), a: Action)
    requires w < |s.pcs| && !a.Do?
    ensures Step(Put(s, w, r), Worker(w, a)) == Put(s, w, Move(r.0, r.1, a))
  {
  }

  lemma ConsumptionIsARun(s: State, w: nat, p: Payload, acked: bool)
    requires w < |s.pcs| && s.pcs[w] == Idle
    ensures Exec(Step, s, Consumption(w, p, acked)) == Put(s, w, Consumed(s.sh, p, acked))
  {
    var m1 := Move(s.sh, Idle, Pull(p));
    var m2 := Move(m1.0, m1.1, Handle);
    var m3 := Move(m2.0, m2.1, FinishFailed);
    var m4 := Move(m3.0, m3.1, Recheck);
    assert Put(s, w, (s.sh, Idle)) == s;
    Moves(s, w, (s.sh, Idle), Pull(p));
    Moves(s, w, m1, Handle);
    Moves(s, w, m2, FinishFailed);
    Moves(s, w, m3, Recheck);
    Moves(s, w, m4, Ack(acked));
    Run5(Step, s, Consumption(w, p, acked));
  }

  lemma ConsumedAcks(sh: Shared, p: Payload)
    ensures Consumed(sh, p, true).0.acks ==
              sh.acks + if p == Invalid && sh.req == Expired then [] else [Durable(sh) || p != Valid(Foreign)]
  {
    var m1 := Move(sh, Idle, Pull(p));
    var m2 := Move(m1.0, m1.1, Handle);
    var m3 := Move(m2.0, m2.1, FinishFailed);
    var m4 := Move(m3.0, m3.1, Recheck);
    assert m1 == (sh, Handling(p, sh.req));
    if p.Valid? {
      assert m4 == m2;
      assert m2.1.AckValid? && (Durable(m2.0) <==> Durable(sh) || p != Valid(Foreign));
    } else {
      assert m4.1 == if sh.req == Expired then Idle else AckInvalid;
      assert Durable(m4.0);
    }
    assert m4.0.acks == sh.acks;
  }

  /** Such an event is acknowledged durably exactly when its outcome is in the vocabulary or the
      request was durable already; it is not acknowledged at all exactly when the payload is
      invalid and the request expired, since "expired" is not among the closed statuses the
      handler checks. */
  lemma ConsumptionAcks(s: State, w: nat, p: Payload)
    requires w < |s.pcs| && s.pcs[w] == Idle
    ensures Exec(Step, s, Consumption(w, p, true)).sh.acks ==
              s.sh.acks + if p == Invalid && s.sh.req == Expired then [] else [Durable(s.sh) || p != Valid(Foreign)]
  {
    ConsumptionIsARun(s, w, p, true);
    ConsumedAcks(s.sh, p);
  }

  // ----- the runs behind the three conditions -----

  /** One more move of a concrete run, given with what it does to the shared state and the mover. */
  lemma Then(s0: State, es: seq<Event>, s: State, w: nat, a: Action, u: Shared, q: Pc) returns (fs: seq<Event>, t: State)
    requires Exec(Step, s0, es) == s && w < |s.pcs| && Act(s.sh, s.pcs[w], a, |s.pcs|) == (u, q)
    ensures fs == es + [Worker(w, a)] && t == State(u, s.pcs[w := q]) && Exec(Step, s0, fs) == t
  {
    fs := es + [Worker(w, a)];
    t := State(u, s.pcs[w := q]);
    Snoc(Step, s0, es, Worker(w, a));
  }

  function Won(o: Outcome): Shared { OPEN.(req := ResultReceived, res := Some(Result(o, NotYet)), won := true) }

  /** A payload outside the vocabulary is acknowledged, and nothing is recorded. */
  lemma ForgottenAck(n: nat) returns (es: seq<Event>)
    requires n >= 1
    ensures Exec(Step, Init(n), es).sh.acks == [false] && !DurableAfter(n, es)
  {
    var s0, s := Init(n), Init(n);
    es := [];
    es, s := Then(s0, es, s, 0, Pull(Valid(Foreign)), OPEN, Handling(Valid(Foreign), Dispatched));
    es, s := Then(s0, es, s, 0, Handle, OPEN, AckValid(false));
    es, s := Then(s0, es, s, 0, Ack(true), OPEN.(acks := OPEN.acks + [false]), Idle);
    assert !s.sh.acks[0];
  }

  /** The sweep finds no result; then the result is recorded and its recorder has the acknowledgement ahead. */
  lemma RecordedBehindTheSweep(n: nat) returns (es: seq<Event>, s: State)
    requires n >= 2
    ensures s == Exec(Step, Init(n), es) && |s.pcs| == n && s.sh == Won(Enabled(true)) && Never(Pull(Invalid), es)
    ensures s.pcs[0] == AckValid(true) && s.pcs[1] == Expiring(Expired) && forall i :: 2 <= i < n ==> s.pcs[i] == Idle
  {
    var o, s0 := Enabled(true), Init(n);
    es, s := [], s0;
    es, s := Then(s0, es, s, 1, SweepCheck(Expired), OPEN, Expiring(Expired));
    es, s := Then(s0, es, s, 0, Pull(Valid(o)), OPEN, Handling(Valid(o), Dispatched));
    es, s := Then(s0, es, s, 0, Handle, Won(o), AckValid(true));
  }

  /** The sweep reads "no result", the result is recorded, the sweep closes the request, and the
      winner dies before applying: the result is hidden. */
  lemma SweepRaceHidesAWinner(n: nat) returns (es: seq<Event>)
    requires n >= 2
    ensures var s := Exec(Step, Init(n), es);
            s.sh.won && s.sh.job.None? && Hidden(s) && Terminal(s.sh.req) && s.sh.acks == [true] && Never(Pull(Invalid), es)
  {
    var s0, s := Init(n), Init(n);
    var shut := Won(Enabled(true)).(req := Expired);
    es, s := RecordedBehindTheSweep(n);
    es, s := Then(s0, es, s, 1, SweepFinish, shut, Idle);
    es, s := Then(s0, es, s, 0, Ack(true), shut.(acks := shut.acks + [true]), Entry);
    es, s := Then(s0, es, s, 0, Crash, s.sh, Idle);
  }

  lemma AcknowledgedFailure(n: nat) returns (es: seq<Event>, s: State)
    requires n >= 1
    ensures s == Exec(Step, Init(n), es) && |s.pcs| == n && s.sh == Won(OtherKnown).(acks := OPEN.acks + [true])
    ensures s.pcs[0] == Entry && forall i :: 1 <= i < n ==> s.pcs[i] == Idle
  {
    var o, s0 := OtherKnown, Init(n);
    es, s := [], s0;
    es, s := Then(s0, es, s, 0, Pull(Valid(o)), OPEN, Handling(Valid(o), Dispatched));
    es, s := Then(s0, es, s, 0, Handle, Won(o), AckValid(true));
    es, s := Then(s0, es, s, 0, Ack(true), Won(o).(acks := OPEN.acks + [true]), Entry);
  }

  /** A worker dies with an acknowledged result in hand, and an invalid payload on the same task then
      fails the request: hidden again. */
  lemma InvalidHidesAWinner(n: nat) returns (es: seq<Event>)
    requires n >= 1
    ensures var s := Exec(Step, Init(n), es); s.sh.won && s.sh.job.None? && Hidden(s) && Terminal(s.sh.req) && s.sh.acks == [true]
  {
    var s0, s := Init(n), Init(n);
    es, s := AcknowledgedFailure(n);
    es, s := Then(s0, es, s, 0, Crash, s.sh, Idle);
    es, s := Then(s0, es, s, 0, Pull(Invalid), s.sh, Handling(Invalid, ResultReceived));
    es, s := Then(s0, es, s, 0, Handle, s.sh, FailChain);
    es, s := Then(s0, es, s, 0, FinishFailed, s.sh.(req := Failed), CheckFailed);
  }

  /** A failing result is marked before its failure is recorded; a crash between the two strands the
      request. */
  lemma CutStrandsARequest(n: nat) returns (es: seq<Event>)
    requires n >= 1
    ensures Stranded(Exec(Step, Init(n), es)) && Unattended(Exec(Step, Init(n), es))
  {
    var s0, s := Init(n), Init(n);
    es, s := AcknowledgedFailure(n);
    es, s := Then(s0, es, s, 0, MakePlan(FailureChain), s.sh, Applying(FailureChain, 0));
    es, s := Then(s0, es, s, 0, Do, s.sh.(res := Some(Result(OtherKnown, AppliedResult))), Applying(FailureChain, 1));
    es, s := Then(s0, es, s, 0, Crash, s.sh, Idle);
  }

  ghost predicate Stuck(sh: Shared) { sh.req == ResultReceived && sh.res.Some? && !Waiting(sh.res) }

  predicate Harmless(pc: Pc) { pc == Idle || (pc.Handling? && pc.payload != Invalid) || pc == AckValid(false) }

  ghost predicate Stranded(s: State) { Stuck(s.sh) && forall i :: 0 <= i < |s.pcs| ==> Harmless(s.pcs[i]) }

  lemma MoveStranded(sh: Shared, pc: Pc, a: Action)
    requires Stuck(sh) && Harmless(pc) && a != Pull(Invalid)
    ensures Stuck(Move(sh, pc, a).0) && Harmless(Move(sh, pc, a).1)
  {
  }

  lemma StrandedStep(s: State, e: Event)
    requires Stranded(s) && !Is(e, Pull(Invalid))
    ensures Stranded(Step(s, e))
  {
    if e.Worker? && e.w < |s.pcs| { MoveStranded(s.sh, s.pcs[e.w], e.a); }
  }

  /** And nothing but an invalid payload on the same task ever closes a stranded request: neither the
      deferred scan, nor the expiry sweep, nor a redelivery of the result. */
  lemma {:induction false} StrandedForever(s: State, es: seq<Event>)
    requires Stranded(s) && Never(Pull(Invalid), es)
    ensures Stranded(Exec(Step, s, es))
    decreases |es|
  {
    if es != [] {
      StrandedForever(s, es[..|es| - 1]);
      StrandedStep(Exec(Step, s, es[..|es| - 1]), es[|es| - 1]);
    }
  }
}
