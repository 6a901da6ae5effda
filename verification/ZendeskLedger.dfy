/** One row of the Zendesk comment ledger under any number of workers.

    A row is queued, claimed by a compare-and-set (pending), and then written to Zendesk at most
    once. Everything after the write is a read-only audit. The three delivery sources share the
    row operations but guard them differently; each worker carries its own program counter, and a
    worker can crash at every point. */
module ZendeskLedger {
  import opened Machines

  datatype Source = Account | Hermes | Engineer
  datatype Status = Queued | Pending | Delivered | OutcomeUnknown | Failed | Cancelled
  datatype Outcome = Added | Unknown | Rejected

  /** The idempotency record of the account path; `Settled(Added)` is its "completed" state. */
  datatype Idem = NoRecord | Processing | Settled(outcome: Outcome)

  datatype Pc =
    | Idle
    | Listed(seen: Status)                       // holds a possibly stale listing of the row
    | Claimed                                    // won the claim, nothing written outside yet
    | Sending                                    // about to write the public comment
    | Recording(result: Outcome, audited: bool)  // result known, not yet persisted
    | Auditing                                   // about to reconcile by reading
    | ReadingAudit
    | Completing(to: Status)                     // about to close the row directly

  /** What the comment call answers. Only `Ok` says something about the comment: a refusal may be a
      timeout or a server error behind which the comment was published. */
  datatype Reply = Ok | Ambiguous | Refused | Broke

  datatype State = State(src: Source, row: Status, idem: Idem, posts: nat, pcs: seq<Pc>)

  datatype Event =
    | List(w: nat)
    | MissingMessage(w: nat)
    | GuardStop(w: nat, to: Status)
    | Claim(w: nat)
    | ReleaseStop(w: nat, to: Status)
    | Undo(w: nat)
    | Begin(w: nat)
    | Write(w: nat, lands: bool, reply: Reply)
    | Record(w: nat, committed: bool, raised: bool)
    | StartAudit(w: nat, targetOk: bool)
    | ReadAudit(w: nat, found: bool, verified: bool)
    | Complete(w: nat)
    | Crash(w: nat, lands: bool)

  // ----- the atomic row operations of the repository -----

  predicate Open(row: Status) { row == Queued || row == Pending || row == OutcomeUnknown }

  function Claimable(row: Status): Status { if row == Queued then Pending else row }

  function Completed(row: Status, to: Status): Status { if row == Delivered then Delivered else to }

  function Requeued(row: Status): Status { if row == Pending then Queued else row }

  function StatusFor(r: Outcome): Status {
    match r
    case Added => Delivered
    case Unknown => OutcomeUnknown
    case Rejected => Failed
  }

  function Resettled(idem: Idem, r: Outcome): Idem { if idem == Settled(Added) then idem else Settled(r) }

  // ----- the machine -----

  function Init(src: Source, n: nat): State {
    State(src, Queued, NoRecord, 0, seq(n, i => Idle))
  }

  /** What one worker sees and changes: the shared row, and its own program counter. */
  datatype View = View(src: Source, row: Status, idem: Idem, posts: nat, pc: Pc)

  function Step(s: State, e: Event): State {
    if e.w < |s.pcs| then
      var v := Act(View(s.src, s.row, s.idem, s.posts, s.pcs[e.w]), e);
      State(s.src, v.row, v.idem, v.posts, s.pcs[e.w := v.pc])
    else s
  }

  function Act(v: View, e: Event): View {
    match e
    case List(_) =>
      if v.pc == Idle && Open(v.row) then v.(pc := Listed(v.row)) else v
    case MissingMessage(_) =>
      if v.src == Account && v.pc.Listed? then
        v.(pc := Idle, row := if v.pc.seen == Queued then Completed(v.row, Failed) else v.row)
      else v
    case GuardStop(_, to) =>
      if v.pc == Listed(Queued) && (to == Failed || to == Cancelled) && (v.src == Hermes || (v.src == Engineer && to == Failed)) then
        v.(pc := Idle, row := Completed(v.row, to))
      else v
    case Claim(_) =>
      if !v.pc.Listed? || (v.src != Account && v.pc.seen != Queued) then v
      else if v.row == Queued then v.(row := Claimable(v.row), pc := Claimed)
      else v.(pc := if v.src == Account && Open(v.row) then Auditing else Idle)
    case ReleaseStop(_, to) =>
      if v.pc == Claimed && (to == Failed || to == Cancelled) && (v.src == Account || (v.src == Hermes && to == Failed)) then
        v.(pc := Idle, row := Completed(v.row, to))
      else v
    case Undo(_) =>
      if v.pc == Claimed && v.src == Account then v.(pc := Idle, row := Requeued(v.row)) else v
    case Begin(_) =>
      if v.pc != Claimed then v
      else if v.src != Account then v.(pc := Sending)
      else if v.idem == NoRecord then v.(idem := Processing, pc := Sending)
      else v.(pc := if v.idem.Settled? && v.idem.outcome != Added then Recording(v.idem.outcome, false) else Idle)
    case Write(_, lands, reply) =>
      if v.pc != Sending || (reply == Ok && !lands) then v
      else v.(posts := v.posts + if lands then 1 else 0, pc := AfterWrite(v.src, reply))
    case Record(_, committed, raised) =>
      if !v.pc.Recording? || (!committed && !raised) then v
      else
        var u := if committed && v.idem != NoRecord
          then v.(idem := Resettled(v.idem, v.pc.result), row := Completed(v.row, StatusFor(v.pc.result)))
          else v;
        u.(pc :=
          if raised then if v.pc.audited then Completing(OutcomeUnknown) else Auditing
          else if !v.pc.audited && v.pc.result == Unknown then Auditing else Idle)
    case StartAudit(_, targetOk) =>
      if v.pc != Auditing then v
      else if !targetOk then v.(pc := Completing(Failed))
      else if v.idem == Settled(Added) then v.(pc := Idle)
      else v.(pc := ReadingAudit, idem := if v.idem == NoRecord then Processing else v.idem)
    case ReadAudit(_, found, verified) =>
      if found && v.posts == 0 then v                      // the readback is sound
      else if v.src == Account then
        if v.pc == ReadingAudit then v.(pc := Recording(if found && verified then Added else Unknown, true)) else v
      else if v.pc.Listed? && v.pc.seen != Queued then v.(pc := if found then Completing(Delivered) else Idle)
      else v
    case Complete(_) =>
      if v.pc.Completing? then v.(row := Completed(v.row, v.pc.to), pc := Idle) else v
    case Crash(_, lands) =>
      v.(posts := v.posts + if lands && v.pc == Sending then 1 else 0, pc := Idle)
  }

  function AfterWrite(src: Source, reply: Reply): Pc {
    if src == Account then
      match reply
      case Ok => Recording(Added, false)
      case Ambiguous => Recording(Unknown, false)
      case Refused => Recording(Rejected, false)
      case Broke => Completing(Failed)
    else
      match reply
      case Ok => Completing(Delivered)
      case Ambiguous => Completing(OutcomeUnknown)
      case Refused => Completing(Failed)
      case Broke => Idle
  }

  // ----- conservation of the right to post -----

  predicate Holder(pc: Pc) { pc == Claimed || pc == Sending }

  predicate ClaimsSuccess(pc: Pc) { (pc.Recording? && pc.result == Added) || pc == Completing(Delivered) }

  /** Posts made, rights held and the right still in the queue. */
  function Tokens(row: Status, posts: nat, holders: nat): nat {
    posts + holders + if row == Queued then 1 else 0
  }

  ghost predicate RowInv(src: Source, row: Status, idem: Idem, posts: nat, holders: nat) {
    && Tokens(row, posts, holders) <= 1
    && (row == Delivered || idem == Settled(Added) ==> posts == 1)
    && (src == Account && row == Cancelled ==> Tokens(row, posts, holders) == 0)
  }

  ghost predicate PcInv(src: Source, posts: nat, pc: Pc) {
    && (ClaimsSuccess(pc) ==> posts == 1)
    && (src == Account ==> pc != Completing(Cancelled))
    && pc != Completing(Queued)
  }

  ghost predicate Inv(s: State) {
    && RowInv(s.src, s.row, s.idem, s.posts, Count(Holder, s.pcs))
    && forall i :: 0 <= i < |s.pcs| ==> PcInv(s.src, s.posts, s.pcs[i])
  }

  lemma InitInv(src: Source, n: nat)
    ensures Inv(Init(src, n))
  {
    CountZero(Holder, Init(src, n).pcs);
  }

  function Held(pc: Pc): nat { if Holder(pc) then 1 else 0 }

  /** One worker's step moves its right to post, spends it, or gives it back; it never makes one. */
  lemma ActConserves(v: View, e: Event, others: nat)
    requires RowInv(v.src, v.row, v.idem, v.posts, others + Held(v.pc)) && PcInv(v.src, v.posts, v.pc)
    ensures var u := Act(v, e);
            && u.src == v.src && u.posts >= v.posts
            && RowInv(u.src, u.row, u.idem, u.posts, others + Held(u.pc)) && PcInv(u.src, u.posts, u.pc)
  {
  }

  lemma StepInv(s: State, e: Event)
    requires Inv(s)
    ensures Inv(Step(s, e))
  {
    if e.w < |s.pcs| {
      var v := View(s.src, s.row, s.idem, s.posts, s.pcs[e.w]);
      var u := Act(v, e);
      CountUpdate(Holder, s.pcs, e.w, u.pc);
      if Holder(v.pc) { CountHas(Holder, s.pcs, e.w); }
      ActConserves(v, e, Count(Holder, s.pcs) - Held(v.pc));
    }
  }

  lemma RunInv(s: State, es: seq<Event>)
    requires Inv(s)
    ensures Inv(Exec(Step, s, es))
  {
    forall t: State, e: Event | Inv(t) ensures Inv(Step(t, e)) { StepInv(t, e); }
    Invariant(Step, Inv, s, es);
  }

  lemma {:induction false} SourceIsFixed(s: State, es: seq<Event>)
    ensures Exec(Step, s, es).src == s.src && Exec(Step, s, es).posts >= s.posts
    ensures |Exec(Step, s, es).pcs| == |s.pcs|
    decreases |es|
  {
    if es != [] { SourceIsFixed(s, es[..|es| - 1]); }
  }

  /** Whatever the interleaving of any number of workers, crashes, undone claims, lost replies and
      audits: at most one public comment per row, delivered means exactly one, and on the account
      path cancelled means none. */
  lemma AtMostOnePost(src: Source, n: nat, es: seq<Event>)
    ensures var s := Exec(Step, Init(src, n), es);
            && Tokens(s.row, s.posts, Count(Holder, s.pcs)) <= 1
            && (s.row == Delivered ==> s.posts == 1)
            && (src == Account && s.row == Cancelled ==> s.posts == 0)
  {
    InitInv(src, n);
    RunInv(Init(src, n), es);
    SourceIsFixed(Init(src, n), es);
  }

  /** Once the comment is public the row is never claimable again and nobody can post. */
  lemma NeverResent(s: State, es: seq<Event>)
    requires Inv(s) && s.posts == 1
    ensures var t := Exec(Step, s, es);
            t.posts == 1 && t.row != Queued && forall i :: 0 <= i < |t.pcs| ==> !Holder(t.pcs[i])
  {
    RunInv(s, es);
    SourceIsFixed(s, es);
    var t := Exec(Step, s, es);
    forall i | 0 <= i < |t.pcs| ensures !Holder(t.pcs[i]) {
      if Holder(t.pcs[i]) { CountHas(Holder, t.pcs, i); }
    }
  }

  // ----- runs of one worker -----

  function Solo(v: View): State { State(v.src, v.row, v.idem, v.posts, [v.pc]) }

  /** What one worker's events do to what it sees when nobody interferes. */
  function Play(v: View, es: seq<Event>): View
    decreases |es|
  {
    if es == [] then v else Play(Act(v, es[0]), es[1..])
  }

  lemma PlayFirst(v: View, e: Event, es: seq<Event>)
    ensures Play(v, [e] + es) == Play(Act(v, e), es)
  {
    assert ([e] + es)[1..] == es;
  }

  lemma Play2(v: View, a: Event, b: Event)
    ensures Play(v, [a, b]) == Act(Act(v, a), b)
  {
    assert [a, b] == [a] + ([b] + []);
    PlayFirst(v, a, [b] + []);
    PlayFirst(Act(v, a), b, []);
  }

  lemma Play3(v: View, a: Event, b: Event, c: Event)
    ensures Play(v, [a, b, c]) == Act(Act(Act(v, a), b), c)
  {
    assert [a, b, c] == [a] + [b, c];
    PlayFirst(v, a, [b, c]);
    Play2(Act(v, a), b, c);
  }

  /** What worker `w` sees, and the state once it sees `v`. */
  function Seen(s: State, w: nat): View
    requires w < |s.pcs|
  {
    View(s.src, s.row, s.idem, s.posts, s.pcs[w])
  }

  function Put(s: State, w: nat, v: View): State
    requires w < |s.pcs|
  {
    State(s.src, v.row, v.idem, v.posts, s.pcs[w := v.pc])
  }

  lemma OneStep(s: State, w: nat, v: View, e: Event)
    requires w < |s.pcs| && v.src == s.src && e.w == w
    ensures Step(Put(s, w, v), e) == Put(s, w, Act(v, e)) && Act(v, e).src == s.src
  {
  }

  /** The events of one worker while the others stand still. */
  lemma {:induction false} PlayAt(s: State, w: nat, es: seq<Event>)
    requires w < |s.pcs| && forall i :: 0 <= i < |es| ==> es[i].w == w
    ensures Exec(Step, s, es) == Put(s, w, Play(Seen(s, w), es))
    decreases |es|
  {
    var v := Seen(s, w);
    assert Put(s, w, v) == s;
    if es != [] {
      var t := Put(s, w, Act(v, es[0]));
      assert es == [es[0]] + es[1..];
      First(Step, s, es[0], es[1..]);
      OneStep(s, w, v, es[0]);
      PlayAt(t, w, es[1..]);
    }
  }

  lemma {:induction false} PlayIsARun(v: View, es: seq<Event>)
    requires forall i :: 0 <= i < |es| ==> es[i].w == 0
    ensures Exec(Step, Solo(v), es) == Solo(Play(v, es))
    decreases |es|
  {
    if es != [] {
      assert es == [es[0]] + es[1..];
      First(Step, Solo(v), es[0], es[1..]);
      assert Step(Solo(v), es[0]) == Solo(Act(v, es[0]));
      PlayIsARun(Act(v, es[0]), es[1..]);
    }
  }

  // ----- what a cancelled or failed row says -----

  /** The row closed as `to` says that nothing was published. */
  ghost predicate Honoured(s: State, to: Status) { s.row == to ==> s.posts == 0 }

  /** Runs in which a refused write has not landed, where that is assumed. */
  predicate Honest(e: Event) { !(e.Write? && e.lands && e.reply == Refused) }

  predicate Permitted(honest: bool, es: seq<Event>) {
    honest ==> forall k :: 0 <= k < |es| ==> Honest(es[k])
  }

  /** The statuses the ticket guard may close a row with. */
  predicate CanStop(src: Source, to: Status) {
    (src == Hermes && (to == Failed || to == Cancelled)) || (src == Engineer && to == Failed)
  }

  /** Engineer rows are never cancelled. */
  ghost predicate NeverCancelled(s: State) {
    s.src == Engineer && s.row != Cancelled && forall i :: 0 <= i < |s.pcs| ==> s.pcs[i] != Completing(Cancelled)
  }

  lemma NeverCancelledStep(s: State, e: Event)
    requires NeverCancelled(s)
    ensures NeverCancelled(Step(s, e))
  {
  }

  /** What one worker alone sees: its listing is not stale, and a row closed as `to` has no comment and
      nobody at work. */
  ghost predicate AloneAt(v: View, to: Status) {
    && v.src != Account
    && (v.pc == Listed(Queued) ==> v.row == Queued)
    && (v.row == to ==> v.posts == 0 && v.pc == Idle)
    && (v.pc == Completing(to) ==> v.posts == 0)
    && !v.pc.Recording? && v.pc != Auditing && v.pc != ReadingAudit
    && Tokens(v.row, v.posts, Held(v.pc)) <= 1
  }

  lemma AloneAct(v: View, e: Event, to: Status)
    requires AloneAt(v, to) && (to == Cancelled || (to == Failed && Honest(e)))
    requires v.pc != Completing(Queued) && v.pc != Completing(Cancelled)
    ensures var u := Act(v, e); AloneAt(u, to) && u.pc != Completing(Queued) && u.pc != Completing(Cancelled)
  {
  }

  ghost predicate Alone(s: State, to: Status) {
    && |s.pcs| == 1 && AloneAt(Seen(s, 0), to)
    && s.pcs[0] != Completing(Queued) && s.pcs[0] != Completing(Cancelled)
  }

  lemma AloneStep(s: State, e: Event, to: Status)
    requires Alone(s, to) && (to == Cancelled || (to == Failed && Honest(e)))
    ensures Alone(Step(s, e), to)
  {
    if e.w == 0 { AloneAct(Seen(s, 0), e, to); }
  }

  lemma AloneRuns(src: Source, to: Status, honest: bool, es: seq<Event>)
    requires src != Account && Permitted(honest, es) && (to == Cancelled || (to == Failed && honest))
    ensures Alone(Exec(Step, Init(src, 1), es), to)
  {
    var inv := (t: State) => Alone(t, to);
    var ok := (t: State, e: Event) => to == Cancelled || Honest(e);
    forall t: State, e: Event | inv(t) && ok(t, e) ensures inv(Step(t, e)) { AloneStep(t, e, to); }
    InvariantAlong(Step, inv, ok, Init(src, 1), es);
  }

  /** The guard of a second worker closes the row from a stale listing while the first, which then
      dies, is writing. */
  lemma GuardRace(n: nat, src: Source, to: Status) returns (es: seq<Event>)
    requires n >= 2 && CanStop(src, to)
    ensures Permitted(true, es) && !Honoured(Exec(Step, Init(src, n), es), to)
  {
    var s0 := Init(src, n);
    var first, last := [List(0), List(1), Claim(0)], [Begin(0), GuardStop(1, to), Crash(0, true)];
    var mid := State(src, Pending, NoRecord, 0, s0.pcs[0 := Claimed][1 := Listed(Queued)]);
    GuardRaceClaims(s0, first, mid);
    GuardRaceStops(mid, last, to);
    Concat(Step, s0, first, last);
    es := first + last;
  }

  lemma GuardRaceClaims(s: State, es: seq<Event>, t: State)
    requires |s.pcs| >= 2 && s.pcs[0] == Idle && s.pcs[1] == Idle && s.row == Queued && s.src != Account
    requires es == [List(0), List(1), Claim(0)] && t == s.(row := Pending, pcs := s.pcs[0 := Claimed][1 := Listed(Queued)])
    ensures Exec(Step, s, es) == t
  {
    Run3(Step, s, es);
    assert s.pcs[0 := Listed(Queued)][1 := Listed(Queued)][0 := Claimed] == t.pcs;
  }

  lemma GuardRaceStops(s: State, es: seq<Event>, to: Status)
    requires |s.pcs| >= 2 && s.pcs[0] == Claimed && s.pcs[1] == Listed(Queued) && CanStop(s.src, to)
    requires s.row == Pending && s.posts == 0 && es == [Begin(0), GuardStop(1, to), Crash(0, true)]
    ensures Exec(Step, s, es).row == to && Exec(Step, s, es).posts == 1
  {
    Run3(Step, s, es);
  }

  /** One worker is enough for a published comment behind a failed row: an unexpected error of the
      account write, or a refusal that landed on the other paths. */
  lemma FailsAfterPosting(n: nat, src: Source) returns (es: seq<Event>)
    requires n >= 1
    ensures Permitted(src == Account, es) && !Honoured(Exec(Step, Init(src, n), es), Failed)
  {
    var s0, reply := Init(src, n), if src == Account then Broke else Refused;
    var v := Seen(s0, 0);
    var v2 := v.(row := Pending, pc := Claimed);
    var first, last := [List(0), Claim(0)], [Begin(0), Write(0, true, reply), Complete(0)];
    Play2(v, List(0), Claim(0));
    Play3(v2, Begin(0), Write(0, true, reply), Complete(0));
    PlayAt(s0, 0, first);
    PlayAt(Put(s0, 0, v2), 0, last);
    Concat(Step, s0, first, last);
    es := first + last;
  }

  /** A cancelled row never hides a published comment in any run exactly when the row is not a Hermes
      row or one worker handles it: the Hermes guard cancels from a listing that may be stale. */
  lemma CancelledMeansUnpublishedExactly(src: Source, n: nat)
    ensures (forall es :: Honoured(Exec(Step, Init(src, n), es), Cancelled)) <==> src != Hermes || n <= 1
  {
    if src == Hermes && n >= 2 {
      var es := GuardRace(n, src, Cancelled);
    } else {
      forall es ensures Honoured(Exec(Step, Init(src, n), es), Cancelled) { CancelledIsHonoured(src, n, es); }
    }
  }

  lemma CancelledIsHonoured(src: Source, n: nat, es: seq<Event>)
    requires src != Hermes || n <= 1
    ensures Honoured(Exec(Step, Init(src, n), es), Cancelled)
  {
    if n == 0 {
      NobodyMoves(src, es);
    } else if src == Account {
      AtMostOnePost(src, n, es);
    } else if src == Engineer {
      forall t: State, e: Event | NeverCancelled(t) ensures NeverCancelled(Step(t, e)) { NeverCancelledStep(t, e); }
      Invariant(Step, NeverCancelled, Init(src, n), es);
    } else {
      AloneRuns(src, Cancelled, false, es);
    }
  }

  lemma {:induction false} NobodyMoves(src: Source, es: seq<Event>)
    ensures Exec(Step, Init(src, 0), es) == Init(src, 0)
    decreases |es|
  {
    if es != [] { NobodyMoves(src, es[..|es| - 1]); }
  }

  /** A failed row never hides a published comment in any run exactly when one worker handles a row
      that is not an account row and refused writes have not landed. */
  lemma FailedMeansUnpublishedExactly(src: Source, n: nat, honest: bool)
    ensures (forall es | Permitted(honest, es) :: Honoured(Exec(Step, Init(src, n), es), Failed)) <==>
            n == 0 || (n == 1 && src != Account && honest)
  {
    if n == 0 {
      forall es ensures Honoured(Exec(Step, Init(src, n), es), Failed) { NobodyMoves(src, es); }
    } else if n == 1 && src != Account && honest {
      forall es | Permitted(honest, es) ensures Honoured(Exec(Step, Init(src, n), es), Failed) {
        AloneRuns(src, Failed, honest, es);
      }
    } else if src == Account || !honest {
      var es := FailsAfterPosting(n, src);
    } else {
      var es := GuardRace(n, src, Failed);
    }
  }

  // ----- exactly when an account reply can still reach the customer -----

  /** With a record present and nobody writing, the idempotency fence refuses every later write. */
  ghost predicate Fenced(s: State) {
    s.src == Account && s.idem != NoRecord && forall i :: 0 <= i < |s.pcs| ==> s.pcs[i] != Sending
  }

  /** Nobody holds the right to post, and neither does the queue nor anybody about to refill it. */
  ghost predicate Spent(s: State) {
    s.row != Queued && forall i :: 0 <= i < |s.pcs| ==> !Holder(s.pcs[i]) && s.pcs[i] != Completing(Queued)
  }

  predicate Writing(pc: Pc) { pc == Sending }

  predicate Sendable(s: State) {
    || s.posts == 1
    || (exists i :: 0 <= i < |s.pcs| && Writing(s.pcs[i]))
    || (s.idem == NoRecord && (s.row == Queued || exists i :: 0 <= i < |s.pcs| && Holder(s.pcs[i])))
  }

  lemma ActBlocked(v: View, e: Event)
    ensures v.src == Account && v.idem != NoRecord && v.pc != Sending ==>
              var u := Act(v, e); u.src == Account && u.idem != NoRecord && u.pc != Sending && u.posts == v.posts
    ensures v.row != Queued && !Holder(v.pc) && v.pc != Completing(Queued) ==>
              var u := Act(v, e); u.row != Queued && !Holder(u.pc) && u.pc != Completing(Queued) && u.posts == v.posts
  {
  }

  lemma BlockedNeverPosts(s: State, es: seq<Event>)
    requires Fenced(s) || Spent(s)
    ensures Exec(Step, s, es).posts == s.posts
  {
    var inv := (t: State) => (Fenced(t) || Spent(t)) && t.posts == s.posts;
    forall t: State, e: Event | inv(t) ensures inv(Step(t, e)) {
      if e.w < |t.pcs| { ActBlocked(View(t.src, t.row, t.idem, t.posts, t.pcs[e.w]), e); }
    }
    Invariant(Step, inv, s, es);
  }

  /** The comment can still be published from `s` if and only if it already is, somebody is writing
      it, or it is unclaimed or held and no idempotency record exists yet. */
  lemma SendableExactly(s: State)
    requires s.src == Account && Inv(s) && |s.pcs| > 0
    ensures Sendable(s) <==> exists es :: Exec(Step, s, es).posts == 1
  {
    if Sendable(s) {
      var es := SendingRun(s);
    } else {
      forall es ensures Exec(Step, s, es).posts != 1 {
        assert forall i :: 0 <= i < |s.pcs| && s.pcs[i] == Sending ==> Writing(s.pcs[i]);
        BlockedNeverPosts(s, es);
      }
    }
  }

  lemma SendingRun(s: State) returns (es: seq<Event>)
    requires s.src == Account && Inv(s) && |s.pcs| > 0 && Sendable(s)
    ensures Exec(Step, s, es).posts == 1
  {
    if s.posts == 1 {
      es := [];
    } else if i :| 0 <= i < |s.pcs| && Writing(s.pcs[i]) {
      es := [Write(i, true, Ok)];
      Run1(Step, s, es);
    } else if i :| 0 <= i < |s.pcs| && Holder(s.pcs[i]) {
      es := [Begin(i), Write(i, true, Ok)];
      var s1 := Step(s, es[0]);
      Run2(Step, s, es);
    } else {
      es := [Crash(0, false), List(0)] + [Claim(0), Begin(0), Write(0, true, Ok)];
      FromQueue(s);
    }
  }

  /** A queued row nobody ever tried to send is listed, claimed and sent. */
  lemma FromQueue(s: State)
    requires s.src == Account && s.row == Queued && s.idem == NoRecord && s.posts == 0 && |s.pcs| > 0
    ensures Exec(Step, s, [Crash(0, false), List(0)] + [Claim(0), Begin(0), Write(0, true, Ok)]).posts == 1
  {
    var es, fs := [Crash(0, false), List(0)], [Claim(0), Begin(0), Write(0, true, Ok)];
    Concat(Step, s, es, fs);
    Run2(Step, s, es);
    if s.pcs[0] == Sending { assert Step(s, es[0]).posts == 0; }
    var t := s.(pcs := s.pcs[0 := Listed(Queued)]);
    assert Step(Step(s, es[0]), es[1]) == t;
    PlayAt(t, 0, fs);
    Play3(Seen(t, 0), Claim(0), Begin(0), Write(0, true, Ok));
  }

  /** A read-only audit that runs between a claim and its write settles the idempotency record, and
      the claimed reply is then never sent, whatever happens afterwards. */
  lemma AuditBeforeWriteLosesTheReply() returns (es: seq<Event>)
    ensures var s := Exec(Step, Init(Account, 2), es);
            && s.row == OutcomeUnknown && s.pcs == [Claimed, Idle] && s.posts == 0
            && forall fs :: Exec(Step, s, fs).posts == 0
  {
    es := ClaimWhileListed() + AuditWhileClaimed();
    Concat(Step, Init(Account, 2), ClaimWhileListed(), AuditWhileClaimed());
    ClaimWhileListedRuns();
    AuditWhileClaimedRuns();
    FencedOut();
  }

  lemma FencedOut()
    ensures var s := State(Account, OutcomeUnknown, Settled(Unknown), 0, [Claimed, Idle]);
            forall fs :: Exec(Step, s, fs).posts == 0
  {
    var s := State(Account, OutcomeUnknown, Settled(Unknown), 0, [Claimed, Idle]);
    forall fs ensures Exec(Step, s, fs).posts == 0 { BlockedNeverPosts(s, fs); }
  }

  function ClaimWhileListed(): seq<Event> { [List(0), List(1), Claim(0), Claim(1)] }

  function AuditWhileClaimed(): seq<Event> { [StartAudit(1, true), ReadAudit(1, false, false), Record(1, true, false)] }

  lemma ClaimWhileListedRuns()
    ensures Exec(Step, Init(Account, 2), ClaimWhileListed()) == State(Account, Pending, NoRecord, 0, [Claimed, Auditing])
  {
    var es, s0 := ClaimWhileListed(), Init(Account, 2);
    var s1 := Step(s0, es[0]);
    var s2 := Step(s1, es[1]);
    var s3 := Step(s2, es[2]);
    Run4(Step, s0, es);
  }

  lemma AuditWhileClaimedRuns()
    ensures Exec(Step, State(Account, Pending, NoRecord, 0, [Claimed, Auditing]), AuditWhileClaimed())
         == State(Account, OutcomeUnknown, Settled(Unknown), 0, [Claimed, Idle])
  {
    var es, s0 := AuditWhileClaimed(), State(Account, Pending, NoRecord, 0, [Claimed, Auditing]);
    var s1 := Step(s0, es[0]);
    var s2 := Step(s1, es[1]);
    Run3(Step, s0, es);
  }
}
