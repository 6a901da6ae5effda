/** One account reply job under any number of workers.

    A job is claimed for preparing, later claimed again for publishing, and every write of a
    claimant is guarded by the token (status, claimed_at, attempt_count) of its claim. Publication
    is one transaction that stores the customer message under the job id and reuses a stored one.
    The three pipeline spellings of each status (plain, persona, persona v8) are one stage here. */
module ReplyJobs {
  import opened Machines

  datatype Stage = Queued | Preparing | Scheduled | Publishing | Published | Cancelled | Failed | ManualAttention

  datatype Job = Job(stage: Stage, claimedAt: Option<nat>, attempt: nat, compat: bool)

  datatype Token = Token(stage: Stage, claimedAt: nat, attempt: nat)

  datatype Pc =
    | Idle
    | Working(token: Token)
    | Delivering                 // writing a published message to Zendesk
    | Overwriting(copy: Job)     // found the ticket closed and holds a copy of the job to cancel

  datatype Action =
    | Claim(now: nat)
    | Update(to: Stage, sawCompat: bool)
    | Fail(sawCompat: bool)
    | Publish(humanReview: bool, sawCompat: bool)
    | Deliver
    | ReadClosed
    | Overwrite
    | Crash

  datatype Event =
    | Worker(w: nat, a: Action)
    | CancelPending              // another part of the system cancels the ticket's pending replies
    | SetCompat                  // Hermes takes the reply over
    | Save                       // the row is written again under the same job id

  /** `saves` and `strict` are fixed for a run: whether the row may be re-saved, and whether every
      claim reads a later clock than the one before. */
  datatype State = State(job: Job, clock: nat, messages: nat, claims: nat, preparing: nat, changes: nat,
                         saves: bool, strict: bool, pcs: seq<Pc>)

  const MAX_ATTEMPTS := 4

  function Init(stage: Stage, n: nat, saves: bool, strict: bool): State {
    State(Job(stage, None, 0, false), 0, 0, 0, 0, 0, saves, strict, seq(n, i => Idle))
  }

  predicate Waiting(g: Stage) { g == Queued || g == Scheduled }
  predicate InWork(g: Stage) { g == Preparing || g == Publishing }
  predicate Final(g: Stage) { g == Published || g == Cancelled || g == Failed || g == ManualAttention }

  predicate Matches(j: Job, t: Token) {
    InWork(t.stage) && j.stage == t.stage && j.claimedAt == Some(t.claimedAt) && j.attempt == t.attempt
  }

  /** Where a claimant may move its job: a parked job goes back to the queue, which skips it. */
  predicate Allowed(from: Stage, to: Stage, compat: bool) {
    to == Cancelled || to == ManualAttention || (to == Queued && compat)
    || (from == Preparing && to == Scheduled) || (from == Publishing && to == Publishing)
  }

  /** The status an exception leaves behind. */
  function Retried(t: Token): Stage {
    if t.attempt >= MAX_ATTEMPTS then Failed else if t.stage == Preparing then Queued else Scheduled
  }

  datatype View = View(job: Job, clock: nat, messages: nat, strict: bool, pc: Pc)

  function Act(v: View, a: Action): View {
    match a
    case Claim(now) =>
      if v.pc == Idle && Waiting(v.job.stage) && !v.job.compat && (now > v.clock || (now == v.clock && !v.strict)) then
        var stage := if v.job.stage == Queued then Preparing else Publishing;
        v.(job := v.job.(stage := stage, claimedAt := Some(now), attempt := v.job.attempt + 1),
           clock := now, pc := Working(Token(stage, now, v.job.attempt + 1)))
      else v
    case Update(to, sawCompat) =>
      if !v.pc.Working? then v
      else if Matches(v.job, v.pc.token) && (v.job.compat ==> sawCompat) && Allowed(v.job.stage, to, v.job.compat) then
        v.(job := v.job.(stage := to), pc := if to == Publishing then v.pc else Idle)
      else v.(pc := Idle)
    case Fail(sawCompat) =>
      if !v.pc.Working? then v
      else if Matches(v.job, v.pc.token) && (v.job.compat ==> sawCompat) then
        v.(job := v.job.(stage := Retried(v.pc.token)), pc := Idle)
      else v.(pc := Idle)
    case Publish(humanReview, sawCompat) =>
      if !v.pc.Working? || v.pc.token.stage != Publishing then v
      else if Matches(v.job, v.pc.token) && (v.job.compat ==> sawCompat) then
        if humanReview then v.(job := v.job.(stage := ManualAttention), pc := Idle)
        else v.(job := v.job.(stage := Published), messages := if v.messages == 0 then 1 else v.messages, pc := Delivering)
      else v                     // the refusal raises: the exception handler follows with `Fail`
    case Deliver => if v.pc == Idle && v.messages > 0 then v.(pc := Delivering) else v
    case ReadClosed =>
      if v.pc != Delivering then v
      else if v.job.stage == Published || v.job.stage == Cancelled || v.job.stage == Failed then v.(pc := Idle)
      else v.(pc := Overwriting(v.job))
    case Overwrite =>
      if v.pc.Overwriting? then v.(job := v.pc.copy.(stage := Cancelled), pc := Idle) else v
    case Crash => v.(pc := Idle)
  }

  function One(b: bool): nat { if b then 1 else 0 }

  function Step(s: State, e: Event): State {
    match e
    case Worker(w, a) =>
      if w < |s.pcs| then
        var v := Act(View(s.job, s.clock, s.messages, s.strict, s.pcs[w]), a);
        var claimed := One(a.Claim? && v.job != s.job);
        s.(job := v.job, clock := v.clock, messages := v.messages, pcs := s.pcs[w := v.pc],
           claims := s.claims + claimed,
           preparing := s.preparing + if v.job.stage == Preparing then claimed else 0,
           changes := s.changes + One(v.job.stage != s.job.stage))
      else s
    case CancelPending =>
      if Waiting(s.job.stage) || s.job.stage == Preparing then
        s.(job := s.job.(stage := Cancelled), changes := s.changes + 1)
      else s
    case SetCompat => s.(job := s.job.(compat := true))
    case Save => if s.saves then s.(job := Job(Queued, None, 0, false)) else s
  }

  /** What the rest of the system does to a job: pending replies are cancelled while they wait or are prepared,
      not while they are published; Hermes parks a job without moving it; a save starts it over. */
  lemma OthersDo(s: State)
    ensures var cancelled := Step(s, CancelPending).job;
            cancelled == if s.job.stage in {Queued, Preparing, Scheduled} then s.job.(stage := Cancelled) else s.job
    ensures Step(s, SetCompat).job == s.job.(compat := true)
    ensures Step(s, Save).job == if s.saves then Job(Queued, None, 0, false) else s.job
  {
  }

  // ----- the fence -----

  /** Every worker's write except the closed-ticket cancellation needs the current token. */
  lemma WritesAreFenced(v: View, a: Action)
    requires Act(v, a).job != v.job && !a.Overwrite?
    ensures if v.pc == Idle then a.Claim? && Waiting(v.job.stage) else v.pc.Working? && Matches(v.job, v.pc.token)
  {
  }

  /** A token some claim of this run handed out. */
  ghost predicate Issued(j: Job, clock: nat, saves: bool, t: Token) {
    InWork(t.stage) && t.claimedAt <= clock && (!saves ==> t.attempt <= j.attempt)
  }

  ghost predicate JobInv(j: Job, clock: nat, messages: nat, saves: bool) {
    && (j.claimedAt.Some? ==> j.claimedAt.value <= clock)
    && messages <= 1
    && (!saves && messages == 1 ==> j.stage == Published)
  }

  ghost predicate PcInv(j: Job, clock: nat, saves: bool, pc: Pc) {
    && (pc.Working? ==> Issued(j, clock, saves, pc.token))
    && (pc.Delivering? && !saves ==> j.stage == Published)
    && (pc.Overwriting? ==> saves && !(pc.copy.stage == Published || pc.copy.stage == Cancelled || pc.copy.stage == Failed)
                            && (pc.copy.claimedAt.Some? ==> pc.copy.claimedAt.value <= clock))
  }

  ghost predicate Inv(s: State) {
    && (s.saves ==> s.strict)
    && JobInv(s.job, s.clock, s.messages, s.saves)
    && (forall i :: 0 <= i < |s.pcs| ==> PcInv(s.job, s.clock, s.saves, s.pcs[i]))
    && (forall i, j :: 0 <= i < j < |s.pcs| && s.pcs[i].Working? && s.pcs[j].Working? ==> s.pcs[i].token != s.pcs[j].token)
  }

  lemma ActInv(v: View, a: Action, saves: bool, other: Pc)
    requires JobInv(v.job, v.clock, v.messages, saves) && (saves ==> v.strict)
    requires PcInv(v.job, v.clock, saves, v.pc) && PcInv(v.job, v.clock, saves, other)
    requires v.pc.Working? && other.Working? ==> v.pc.token != other.token
    ensures var u := Act(v, a);
            && JobInv(u.job, u.clock, u.messages, saves)
            && PcInv(u.job, u.clock, saves, u.pc) && PcInv(u.job, u.clock, saves, other)
            && (u.pc.Working? && other.Working? ==> u.pc.token != other.token)
  {
  }

  lemma StepInv(s: State, e: Event)
    requires Inv(s)
    ensures Inv(Step(s, e))
  {
    if e.Worker? && e.w < |s.pcs| {
      var v := View(s.job, s.clock, s.messages, s.strict, s.pcs[e.w]);
      ActInv(v, e.a, s.saves, Idle);
      forall i | 0 <= i < |s.pcs| && i != e.w
        ensures var u := Act(v, e.a);
                && PcInv(u.job, u.clock, s.saves, s.pcs[i])
                && (u.pc.Working? && s.pcs[i].Working? ==> u.pc.token != s.pcs[i].token)
      {
        ActInv(v, e.a, s.saves, s.pcs[i]);
      }
    }
  }

  lemma ActStale(v: View, a: Action, saves: bool, t: Token)
    requires JobInv(v.job, v.clock, v.messages, saves) && (saves ==> v.strict) && PcInv(v.job, v.clock, saves, v.pc)
    requires Issued(v.job, v.clock, saves, t) && !Matches(v.job, t)
    ensures var u := Act(v, a); Issued(u.job, u.clock, saves, t) && !Matches(u.job, t)
  {
  }

  /** No matter who claims, cancels, retries, publishes or crashes: a token that is not current stays
      so, hence a stale claimant never overwrites a newer claim. The fence is safe without
      re-saves, and with them as long as every claim reads a later clock. */
  lemma {:induction false} StaleStaysStale(s: State, es: seq<Event>, t: Token)
    requires Inv(s) && Issued(s.job, s.clock, s.saves, t) && !Matches(s.job, t)
    ensures var u := Exec(Step, s, es);
            Inv(u) && u.saves == s.saves && Issued(u.job, u.clock, u.saves, t) && !Matches(u.job, t)
    decreases |es|
  {
    if es != [] {
      var e, u := es[|es| - 1], Exec(Step, s, es[..|es| - 1]);
      StaleStaysStale(s, es[..|es| - 1], t);
      StepInv(u, e);
      if e.Worker? && e.w < |u.pcs| {
        ActStale(View(u.job, u.clock, u.messages, u.strict, u.pcs[e.w]), e.a, u.saves, t);
      }
    }
  }

  lemma RunInv(stage: Stage, n: nat, saves: bool, strict: bool, es: seq<Event>)
    requires saves ==> strict
    ensures Inv(Exec(Step, Init(stage, n, saves, strict), es))
  {
    forall s: State, e: Event | Inv(s) ensures Inv(Step(s, e)) { StepInv(s, e); }
    Invariant(Step, Inv, Init(stage, n, saves, strict), es);
  }

  /** At most one worker holds the current token. */
  ghost predicate OneHolder(s: State) {
    forall i, j :: 0 <= i < j < |s.pcs| && s.pcs[i].Working? && s.pcs[j].Working? ==>
      !(Matches(s.job, s.pcs[i].token) && Matches(s.job, s.pcs[j].token))
  }

  /** The message of a job exists at most once, however often the row is written again and whatever
      the clocks read; and the fence names one worker unless equal clocks meet a re-save. */
  lemma OneCurrentClaimant(stage: Stage, n: nat, saves: bool, strict: bool, es: seq<Event>)
    ensures var s := Exec(Step, Init(stage, n, saves, strict), es);
            s.messages <= 1 && (n <= 1 || !saves || strict ==> OneHolder(s))
  {
    var s0 := Init(stage, n, saves, strict);
    Invariant(Step, (s: State) => s.messages <= 1 && |s.pcs| == n, s0, es);
    if !saves || strict { RunInv(stage, n, saves, strict, es); }
  }

  /** The condition is exact: with two workers, re-saves and clocks that may repeat, two claims around
      a re-save hand out the same token, and the first claimant may then write over the second. */
  lemma OneCurrentClaimantExactly(stage: Stage, n: nat, saves: bool, strict: bool)
    ensures (forall es :: OneHolder(Exec(Step, Init(stage, n, saves, strict), es))) <==> n <= 1 || !saves || strict
  {
    if n <= 1 || !saves || strict {
      forall es ensures OneHolder(Exec(Step, Init(stage, n, saves, strict), es)) {
        OneCurrentClaimant(stage, n, saves, strict, es);
      }
    } else {
      EqualClocksBreakTheFence(stage, n);
    }
  }

  lemma EqualClocksBreakTheFence(stage: Stage, n: nat)
    requires n >= 2
    ensures exists es :: !OneHolder(Exec(Step, Init(stage, n, true, false), es))
  {
    var es := [Save, Worker(0, Claim(5)), Save, Worker(1, Claim(5))];
    var s0 := Init(stage, n, true, false);
    var s1 := Step(s0, es[0]);
    var s2 := Step(s1, es[1]);
    var s3 := Step(s2, es[2]);
    var s4 := Step(s3, es[3]);
    Run4(Step, s0, es);
    assert s4.pcs[0] == Working(Token(Preparing, 5, 1)) == s4.pcs[1];
    assert !OneHolder(Exec(Step, s0, es));
  }

  // ----- without re-saves: absorbing statuses, no unfenced write, bounded claims -----

  /** What is left of the retry budget: every change of stage spends some of it. */
  function Rank(j: Job): nat {
    if Final(j.stage) then 0
    else 1 + 2 * (if j.attempt <= 5 then 5 - j.attempt else 0) + One(InWork(j.stage))
  }

  ghost predicate JobBudget(j: Job, claims: nat, preparing: nat, changes: nat) {
    && claims == j.attempt
    && preparing <= claims
    && (j.stage == Queued && !j.compat ==> j.attempt <= 3)
    && (j.stage == Preparing || j.stage == Scheduled ==> j.attempt <= 4)
    && j.attempt <= 5 && preparing <= 4
    && changes + Rank(j) <= 11
  }

  ghost predicate Budget(s: State) { !s.saves && Inv(s) && JobBudget(s.job, s.claims, s.preparing, s.changes) }

  /** What a worker's step may do to its job: claim it from a waiting stage, or move its own claim. */
  ghost predicate Spends(j: Job, u: Job, claimed: bool) {
    || (u == j && !claimed)
    || (claimed && Waiting(j.stage) && !j.compat && u.attempt == j.attempt + 1 && !u.compat
        && u.stage == if j.stage == Queued then Preparing else Publishing)
    || (!claimed && InWork(j.stage) && u.attempt == j.attempt && u.compat == j.compat
        && (Final(u.stage) || u.stage == j.stage || (u.stage == Queued && j.compat)
            || (u.stage == Scheduled && j.stage == Preparing) || (u.stage == Retried(Token(j.stage, 0, j.attempt)))))
  }

  lemma ActSpends(v: View, a: Action)
    requires PcInv(v.job, v.clock, false, v.pc)
    ensures Spends(v.job, Act(v, a).job, a.Claim? && Act(v, a).job != v.job)
  {
  }

  lemma SpendingKeeps(j: Job, u: Job, claimed: bool, claims: nat, preparing: nat, changes: nat)
    requires JobBudget(j, claims, preparing, changes) && Spends(j, u, claimed)
    ensures JobBudget(u, claims + One(claimed), preparing + (if u.stage == Preparing then One(claimed) else 0),
                      changes + One(u.stage != j.stage))
    ensures Final(j.stage) ==> u.stage == j.stage
  {
  }

  lemma BudgetStep(s: State, e: Event)
    requires Budget(s)
    ensures Budget(Step(s, e))
    ensures Final(s.job.stage) ==> Step(s, e).job.stage == s.job.stage
  {
    StepInv(s, e);
    if e.Worker? && e.w < |s.pcs| {
      var v := View(s.job, s.clock, s.messages, s.strict, s.pcs[e.w]);
      ActSpends(v, e.a);
      SpendingKeeps(s.job, Act(v, e.a).job, e.a.Claim? && Act(v, e.a).job != s.job, s.claims, s.preparing, s.changes);
    }
  }

  /** Without re-saves a job is claimed at most five times, at most four of them for preparing, and
      changes its status at most eleven times, crashes included: at most ten claims and releases
      and a final status. */
  lemma AtMostFiveClaims(stage: Stage, n: nat, strict: bool, es: seq<Event>)
    requires Waiting(stage)
    ensures var s := Exec(Step, Init(stage, n, false, strict), es);
            s.claims <= 5 && s.preparing <= 4 && s.changes <= 11
            && (s.claims == 5 ==> s.job.stage == Publishing || Final(s.job.stage) || s.job.compat)
  {
    forall s: State, e: Event | Budget(s) ensures Budget(Step(s, e)) { BudgetStep(s, e); }
    Invariant(Step, Budget, Init(stage, n, false, strict), es);
  }

  /** Published, cancelled, failed and handed to a human are absorbing. */
  lemma {:induction false} FinalIsAbsorbing(s: State, es: seq<Event>)
    requires Budget(s) && Final(s.job.stage)
    ensures Exec(Step, s, es).job.stage == s.job.stage && Budget(Exec(Step, s, es))
    decreases |es|
  {
    if es != [] {
      FinalIsAbsorbing(s, es[..|es| - 1]);
      BudgetStep(Exec(Step, s, es[..|es| - 1]), es[|es| - 1]);
    }
  }

  lemma {:induction false} SavesFixed(s: State, es: seq<Event>)
    ensures Exec(Step, s, es).saves == s.saves && |Exec(Step, s, es).pcs| == |s.pcs|
    decreases |es|
  {
    if es != [] { SavesFixed(s, es[..|es| - 1]); }
  }

  // ----- the closed-ticket cancellation, which writes without a fence -----

  /** Some worker is about to write the job without comparing a token. */
  ghost predicate Unfenced(s: State) {
    exists i :: 0 <= i < |s.pcs| && s.pcs[i].Overwriting?
  }

  /** Some worker's next write cancels a job that another worker holds with the current token. */
  ghost predicate Clobbers(s: State) {
    exists i, j :: 0 <= i < |s.pcs| && 0 <= j < |s.pcs| && s.pcs[i].Overwriting? && s.pcs[j].Working?
      && Matches(s.job, s.pcs[j].token) && Step(s, Worker(i, Overwrite)).job.stage == Cancelled
  }

  /** The unfenced write is dead code exactly when no row is written again: only a re-save leaves an
      open job beside a published message. */
  lemma UnfencedWriteIsDeadExactly(stage: Stage, n: nat, saves: bool, strict: bool)
    ensures (forall es :: !Unfenced(Exec(Step, Init(stage, n, saves, strict), es))) <==> n == 0 || !saves
  {
    var s0 := Init(stage, n, saves, strict);
    if n == 0 || !saves {
      forall es ensures !Unfenced(Exec(Step, s0, es)) {
        SavesFixed(s0, es);
        if !saves { RunInv(stage, n, false, strict, es); }
      }
    } else {
      var es, s := ClosedAfterResave(stage, n, strict);
      assert s.pcs[0].Overwriting?;
    }
  }

  /** And it takes a live claim from another worker, strict clocks or not, exactly when there is
      another worker and rows are written again. */
  lemma ClosedTicketClobbersExactly(stage: Stage, n: nat, saves: bool, strict: bool)
    ensures (forall es :: !Clobbers(Exec(Step, Init(stage, n, saves, strict), es))) <==> n <= 1 || !saves
  {
    var s0 := Init(stage, n, saves, strict);
    if n <= 1 || !saves {
      forall es ensures !Clobbers(Exec(Step, s0, es)) {
        SavesFixed(s0, es);
        if !saves { RunInv(stage, n, false, strict, es); }
      }
    } else {
      var es, s := ClosedAfterResave(stage, n, strict);
      var e := Worker(1, Claim(3));
      var t := Step(s, e);
      Snoc(Step, s0, es, e);
      assert t.pcs[0].Overwriting? && t.pcs[1] == Working(Token(Preparing, 3, 1));
      assert Clobbers(Exec(Step, s0, es + [e]));
    }
  }

  /** A job is published and saved again; the redelivered message finds the ticket closed. */
  lemma ClosedAfterResave(stage: Stage, n: nat, strict: bool) returns (es: seq<Event>, s: State)
    requires n >= 1
    ensures Exec(Step, Init(stage, n, true, strict), es) == s && |s.pcs| == n && s.clock == 2
    ensures s.job == Job(Queued, None, 0, false) && s.pcs[0] == Overwriting(s.job)
    ensures n >= 2 ==> s.pcs[1] == Idle
  {
    var s0 := Init(stage, n, true, strict);
    var fs, t := PublishedOnce(stage, n, strict);
    var gs := [Save, Worker(0, ReadClosed)];
    var t1 := Step(t, gs[0]);
    s := Step(t1, gs[1]);
    Run2(Step, t, gs);
    Concat(Step, s0, fs, gs);
    es := fs + gs;
  }

  lemma PublishedOnce(stage: Stage, n: nat, strict: bool) returns (es: seq<Event>, s: State)
    requires n >= 1
    ensures Exec(Step, Init(stage, n, true, strict), es) == s && |s.pcs| == n && s.clock == 2 && s.saves
    ensures s.job.stage == Published && s.pcs[0] == Delivering
    ensures n >= 2 ==> s.pcs[1] == Idle
  {
    var fs, t := ScheduledOnce(stage, n, strict);
    var gs := [Worker(0, Claim(2)), Worker(0, Publish(false, false))];
    var t1 := Step(t, gs[0]);
    assert t1.pcs[0] == Working(Token(Publishing, 2, 2));
    s := Step(t1, gs[1]);
    Run2(Step, t, gs);
    Concat(Step, Init(stage, n, true, strict), fs, gs);
    es := fs + gs;
  }

  lemma ScheduledOnce(stage: Stage, n: nat, strict: bool) returns (es: seq<Event>, s: State)
    requires n >= 1
    ensures Exec(Step, Init(stage, n, true, strict), es) == s && |s.pcs| == n && s.clock == 1 && s.saves
    ensures s.job == Job(Scheduled, Some(1), 1, false) && s.pcs[0] == Idle && s.messages == 0
    ensures n >= 2 ==> s.pcs[1] == Idle
  {
    es := [Save, Worker(0, Claim(1)), Worker(0, Update(Scheduled, false))];
    var s0 := Init(stage, n, true, strict);
    var s1 := Step(s0, es[0]);
    var s2 := Step(s1, es[1]);
    assert s2.pcs[0] == Working(Token(Preparing, 1, 1));
    s := Step(s2, es[2]);
    Run3(Step, s0, es);
  }
}
