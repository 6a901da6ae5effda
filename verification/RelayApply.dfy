/** Consuming one relay event and applying one result, as the worker does it against the store: the
    branches that choose what to do, and the writes in their order. Both are proved to be what
    `RelayResults` says of its consumption events and plans. */
module RelayApply {
  import opened Machines
  import opened RelayResults
  import J = ReplyJobs

  datatype TicketClass = Actionable | Gone | Unconfirmed

  /** How preparing the completion reply ended; `Raised` includes an unreadable status. */
  datatype SuccessClass = Prepared | Raised | EvidenceOnly

  datatype OwnershipState = QueuedReply | HumanTakeover | Retry

  /** What the live reads say while a result is applied; `ticket` is `None` when the read failed. */
  datatype Live = Live(hasTicket: bool, ticket: Option<TicketClass>, success: SuccessClass, ownership: OwnershipState,
                       writeAttempted: bool, notFoundQueued: bool)

  /** The choice the branches make; `None` leaves the result for the deferred scan. */
  function Chosen(o: Outcome, l: Live): Option<Plan> {
    if l.hasTicket && (l.ticket.None? || l.ticket.value == Unconfirmed) then None
    else if l.hasTicket && l.ticket.value == Gone then Some(TicketClosed)
    else
      match o
      case Enabled(approved) =>
        if !approved then Some(GateFailed)
        else if l.success == Prepared then Some(Success)
        else if l.success == Raised then None else Some(NotApplicable)
      case OwnershipMismatch =>
        if l.ownership == QueuedReply then Some(OwnershipReply)
        else if l.ownership == HumanTakeover then Some(OwnershipHuman) else None
      case ProjectNotFound => if !l.writeAttempted && l.notFoundQueued then Some(NotFoundReply) else Some(FailureChain)
      case OtherKnown => Some(FailureChain)
      case Foreign => None
  }

  /** Every choice is a plan the machine allows for that outcome. */
  lemma ChosenFits(o: Outcome, l: Live)
    ensures Chosen(o, l).Some? ==> Fits(Chosen(o, l).value, o)
  {
  }

  function PerformAll(sh: Shared, ops: seq<Op>, n: nat): Shared
    decreases |ops|
  {
    if ops == [] then sh else PerformAll(Perform(sh, ops[0], n), ops[1..], n)
  }

  lemma AllFirst(sh: Shared, op: Op, rest: seq<Op>, n: nat)
    ensures PerformAll(sh, [op] + rest, n) == PerformAll(Perform(sh, op, n), rest, n)
  {
    assert ([op] + rest)[1..] == rest;
  }

  lemma All2(sh: Shared, a: Op, b: Op, n: nat)
    ensures PerformAll(sh, [a, b], n) == Perform(Perform(sh, a, n), b, n)
  {
    assert [a, b] == [a] + ([b] + []);
    AllFirst(sh, a, [b] + [], n);
    AllFirst(Perform(sh, a, n), b, [], n);
  }

  lemma All4(sh: Shared, a: Op, b: Op, c: Op, d: Op, n: nat)
    ensures PerformAll(sh, [a, b, c, d], n) == Perform(Perform(Perform(Perform(sh, a, n), b, n), c, n), d, n)
  {
    assert [a, b, c, d] == [a] + ([b] + [c, d]);
    AllFirst(sh, a, [b] + [c, d], n);
    AllFirst(Perform(sh, a, n), b, [c, d], n);
    All2(Perform(Perform(sh, a, n), b, n), c, d, n);
  }

  /** The request row, its result row, the completion job and the acknowledgement log. */
  class Store {
    var sh: Shared
    const n: nat

    constructor (n: nat)
      ensures this.n == n && sh == OPEN
    {
      this.n, sh := n, OPEN;
    }

    /** What applying leaves: a waiting result is marked, an open request is closed, the completion job is
        as given, and nothing else changed. */
    ghost predicate Ended(before: Shared, after: Shared, applied: Applied, req: Req, job: Option<J.State>) {
      && after.job == job && after.won == before.won && after.led == before.led && after.acks == before.acks
      && after.res == (if before.res.Some? && before.res.value.applied == NotYet then Some(Result(before.res.value.outcome, applied)) else before.res)
      && after.req == (if before.req == Dispatched || before.req == ResultReceived then req else before.req)
    }

    /** Pending replies are cancelled, the completion job's own among them. */
    ghost function NoLongerPending(job: Option<J.State>): Option<J.State> {
      if job.None? then None else Some(J.Step(job.value, J.CancelPending))
    }

    /** The completion job is saved as a new queued one. */
    ghost function QueuedAgain(job: Option<J.State>): (s: J.State)
      ensures job.None? || job.value.saves ==> s.job == J.Job(J.Queued, None, 0, false)
    {
      if job.None? then J.Init(J.Queued, n, true, false) else J.Step(J.Step(job.value, J.CancelPending), J.Save)
    }

    method MarkApplied(to: Applied)
      modifies this
      ensures sh == Perform(old(sh), Mark(to), n)
    {
      if sh.res.Some? && sh.res.value.applied == NotYet {
        sh := sh.(res := Some(sh.res.value.(applied := to)));
      }
    }

    method FinishRequest(status: Req)
      modifies this
      ensures sh == Perform(old(sh), Finish(status), n)
    {
      if sh.req == Dispatched || sh.req == ResultReceived {
        sh := sh.(req := status);
      }
    }

    method CancelPendingReplies()
      modifies this
      ensures sh == Perform(old(sh), CancelPending, n)
    {
      if sh.job.Some? {
        sh := sh.(job := Some(J.Step(sh.job.value, J.CancelPending)));
      }
    }

    method SaveCompletionJob()
      modifies this
      ensures sh == Perform(old(sh), SaveJob, n)
    {
      var job := if sh.job.Some? then J.Step(sh.job.value, J.Save) else J.Init(J.Queued, n, true, false);
      sh := sh.(job := Some(job));
    }

    method RecordResult(o: Outcome) returns (winner: bool)
      modifies this
      ensures winner <==> o != Foreign && old(sh).res.None? && old(sh).req == Dispatched
      ensures sh == if o == Foreign || old(sh).res.Some? then old(sh)
                    else old(sh).(res := Some(Result(o, NotYet)), won := winner,
                                  req := if winner then ResultReceived else old(sh).req)
    {
      if o == Foreign || sh.res.Some? {
        return false;
      }
      winner := sh.req == Dispatched;
      sh := sh.(res := Some(Result(o, NotYet)), won := winner, req := if winner then ResultReceived else sh.req);
    }

    method Acknowledge(ok: bool)
      modifies this
      ensures sh == if ok then old(sh).(acks := old(sh).acks + [Durable(old(sh))]) else old(sh)
    {
      if ok {
        sh := sh.(acks := sh.acks + [Durable(sh)]);
      }
    }

    /** The handling of a payload that cannot be parsed or bound: fail first, acknowledge only what is
        durable. "Expired" is not among the closed statuses it knows. */
    method HandleInvalid(acked: bool)
      modifies this
      ensures (sh, Idle) == Consumed(old(sh), Invalid, acked)
      // an open request fails; the acknowledgement is durable, and missing exactly behind an expired request
      ensures sh == old(sh).(req := if old(sh).req in {Dispatched, ResultReceived} then Failed else old(sh).req,
                             acks := old(sh).acks + if acked && old(sh).req != Expired then [true] else [])
    {
      if sh.req == Completed || sh.req == Failed || sh.req == Cancelled {
        Acknowledge(acked);
        return;
      }
      if sh.req != Expired {
        sh := sh.(req := Failed);
      }
      if sh.req != Failed {
        return;
      }
      Acknowledge(acked);
    }

    /** A pulled message event: record, acknowledge, and hand a winner on to be applied. */
    method Consume(p: Payload, acked: bool) returns (apply: bool)
      modifies this
      ensures (sh, if apply then Entry else Idle) == Consumed(old(sh), p, acked)
      // applied at once exactly by the consumer whose acknowledged result was the first on a dispatched request
      ensures apply <==> acked && p.Valid? && p.outcome != Foreign && old(sh).res.None? && old(sh).req == Dispatched
      ensures p.Valid? ==>
                && sh.res == (if old(sh).res.Some? || p.outcome == Foreign then old(sh).res else Some(Result(p.outcome, NotYet)))
                && sh.req == (if sh.res == old(sh).res || old(sh).req != Dispatched then old(sh).req else ResultReceived)
                && sh.acks == old(sh).acks + (if acked then [sh.res.Some? || Terminal(sh.req)] else [])
                && sh.job == old(sh).job && sh.led == old(sh).led
    {
      if p == Invalid {
        HandleInvalid(acked);
        return false;
      }
      var winner := RecordResult(p.outcome);
      Acknowledge(acked);
      return acked && winner;
    }

    /** Applying a recorded result: the branches, then the writes of the branch taken. */
    method ApplyResult(o: Outcome, l: Live) returns (plan: Option<Plan>)
      modifies this
      ensures plan == Chosen(o, l)
      ensures sh == if plan.None? then old(sh) else PerformAll(old(sh), Ops(plan.value), n)
      // a ticket that cannot be read, or whose state is unclear, defers everything
      ensures l.hasTicket && (l.ticket.None? || l.ticket.value == Unconfirmed) ==> plan.None? && sh == old(sh)
      // behind a closed ticket every outcome supersedes its result and cancels its request
      ensures l.hasTicket && l.ticket == Some(Gone) ==> plan.Some? && Ended(old(sh), sh, Superseded, Cancelled, old(sh).job)
      // otherwise the outcome decides
      ensures !l.hasTicket || l.ticket == Some(Actionable) ==>
                match o
                case Enabled(false) => plan.Some? && Ended(old(sh), sh, AppliedResult, Failed, old(sh).job)
                case Enabled(true) =>
                  (match l.success
                   case Prepared => plan.Some? && Ended(old(sh), sh, AppliedResult, Completed, Some(QueuedAgain(old(sh).job)))
                   case Raised => plan.None? && sh == old(sh)
                   case EvidenceOnly => plan.Some? && Ended(old(sh), sh, Superseded, Failed, old(sh).job))
                case OwnershipMismatch =>
                  (match l.ownership
                   case QueuedReply => plan.Some? && Ended(old(sh), sh, AppliedResult, Completed, NoLongerPending(old(sh).job))
                   case HumanTakeover => plan.Some? && Ended(old(sh), sh, Superseded, Completed, old(sh).job)
                   case Retry => plan.None? && sh == old(sh))
                case ProjectNotFound =>
                  plan.Some? && Ended(old(sh), sh, AppliedResult, Failed,
                                      if l.notFoundQueued && !l.writeAttempted then NoLongerPending(old(sh).job) else old(sh).job)
                case OtherKnown => plan.Some? && Ended(old(sh), sh, AppliedResult, Failed, old(sh).job)
                case Foreign => plan.None? && sh == old(sh)
    {
      if l.hasTicket {
        if l.ticket.None? || l.ticket.value == Unconfirmed {
          return None;
        }
        if l.ticket.value == Gone {
          All2(sh, Mark(Superseded), Finish(Cancelled), n);
          MarkApplied(Superseded);
          FinishRequest(Cancelled);
          return Some(TicketClosed);
        }
      }
      match o {
        case Enabled(approved) => plan := ApplyEnabled(approved, l.success);
        case OwnershipMismatch => plan := ApplyOwnership(l.ownership);
        case Foreign => plan := None;
        case _ => plan := ApplyOther(o == ProjectNotFound && !l.writeAttempted && l.notFoundQueued);
      }
    }

    method ApplyEnabled(approved: bool, success: SuccessClass) returns (plan: Option<Plan>)
      modifies this
      ensures plan == if !approved then Some(GateFailed)
                      else if success == Prepared then Some(Success)
                      else if success == Raised then None else Some(NotApplicable)
      ensures sh == if plan.None? then old(sh) else PerformAll(old(sh), Ops(plan.value), n)
      ensures !approved ==> Ended(old(sh), sh, AppliedResult, Failed, old(sh).job)
      ensures approved && success == Prepared ==> Ended(old(sh), sh, AppliedResult, Completed, Some(QueuedAgain(old(sh).job)))
      ensures approved && success == EvidenceOnly ==> Ended(old(sh), sh, Superseded, Failed, old(sh).job)
    {
      if !approved {
        All2(sh, Mark(AppliedResult), Finish(Failed), n);
        MarkApplied(AppliedResult);
        FinishRequest(Failed);
        return Some(GateFailed);
      }
      if success == Prepared {
        All4(sh, CancelPending, SaveJob, Finish(Completed), Mark(AppliedResult), n);
        CancelPendingReplies();
        SaveCompletionJob();
        FinishRequest(Completed);
        MarkApplied(AppliedResult);
        return Some(Success);
      }
      if success == Raised {
        return None;
      }
      All2(sh, Mark(Superseded), Finish(Failed), n);
      MarkApplied(Superseded);
      FinishRequest(Failed);
      return Some(NotApplicable);
    }

    method ApplyOwnership(state: OwnershipState) returns (plan: Option<Plan>)
      modifies this
      ensures plan == if state == QueuedReply then Some(OwnershipReply)
                      else if state == HumanTakeover then Some(OwnershipHuman) else None
      ensures sh == if plan.None? then old(sh) else PerformAll(old(sh), Ops(plan.value), n)
      ensures state == QueuedReply ==> Ended(old(sh), sh, AppliedResult, Completed, NoLongerPending(old(sh).job))
      ensures state == HumanTakeover ==> Ended(old(sh), sh, Superseded, Completed, old(sh).job)
    {
      if state == QueuedReply {
        All4(sh, CancelPending, SaveOtherJob, Mark(AppliedResult), Finish(Completed), n);
        CancelPendingReplies();
        MarkApplied(AppliedResult);
        FinishRequest(Completed);
        return Some(OwnershipReply);
      }
      if state == HumanTakeover {
        All2(sh, Mark(Superseded), Finish(Completed), n);
        MarkApplied(Superseded);
        FinishRequest(Completed);
        return Some(OwnershipHuman);
      }
      return None;
    }

    method ApplyOther(reply: bool) returns (plan: Option<Plan>)
      modifies this
      ensures plan == Some(if reply then NotFoundReply else FailureChain)
      ensures sh == PerformAll(old(sh), Ops(plan.value), n)
      ensures Ended(old(sh), sh, AppliedResult, Failed, if reply then NoLongerPending(old(sh).job) else old(sh).job)
    {
      if reply {
        All4(sh, Mark(AppliedResult), CancelPending, SaveOtherJob, Finish(Failed), n);
        MarkApplied(AppliedResult);
        CancelPendingReplies();
        FinishRequest(Failed);
        return Some(NotFoundReply);
      }
      All2(sh, Mark(AppliedResult), Finish(Failed), n);
      MarkApplied(AppliedResult);
      FinishRequest(Failed);
      return Some(FailureChain);
    }
  }

  // ----- that both are runs of the machine -----

  function Dos(w: nat, k: nat): seq<Event> { if k == 0 then [] else [Worker(w, Do)] + Dos(w, k - 1) }

  /** The writes of a plan, one event each, are what the method did. */
  lemma {:induction false} PlanIsARun(s: State, w: nat, plan: Plan, next: nat)
    requires w < |s.pcs| && next < |Ops(plan)| && s.pcs[w] == Applying(plan, next)
    ensures Exec(Step, s, Dos(w, |Ops(plan)| - next)) ==
              State(PerformAll(s.sh, Ops(plan)[next..], |s.pcs|), s.pcs[w := Idle])
    decreases |Ops(plan)| - next
  {
    var ops := Ops(plan);
    var u := Step(s, Worker(w, Do));
    First(Step, s, Worker(w, Do), Dos(w, |ops| - next - 1));
    assert ops[next..] == [ops[next]] + ops[next + 1..];
    AllFirst(s.sh, ops[next], ops[next + 1..], |s.pcs|);
    DoStep(s, w);
    if next + 1 < |ops| {
      PlanIsARun(u, w, plan, next + 1);
      assert u.pcs[w := Idle] == s.pcs[w := Idle];
    } else {
      assert ops[next + 1..] == [];
    }
  }

  lemma DoStep(s: State, w: nat)
    requires w < |s.pcs| && s.pcs[w].Applying? && s.pcs[w].next < |Ops(s.pcs[w].plan)|
    ensures var pc := s.pcs[w];
            Step(s, Worker(w, Do)) ==
              State(Perform(s.sh, Ops(pc.plan)[pc.next], |s.pcs|),
                    s.pcs[w := if pc.next + 1 == |Ops(pc.plan)| then Idle else pc.(next := pc.next + 1)])
  {
  }
}
