/** Account Slack deliveries through an n8n receiver that is idempotent on the event id.

    A queued event is posted; anything else is looked up, and a lookup that answers "missing"
    requeues the row. The receiver turns any number of posts of one event into one effect. */
module SlackDrain {
  import opened Machines

  datatype Status = Queued | Pending | Delivered | Failed | OutcomeUnknown

  /** A status the receiver reports for an event it holds; there is no "queued" among them. */
  datatype Report = RPending | RDelivered | RFailed | ROutcomeUnknown

  datatype Pc =
    | Idle
    | Listed(seen: Status)
    | Posting
    | Reported(report: Option<Report>)   // None is the lookup's "missing"
    | Closing                            // a post without an answer, to be closed as outcome_unknown

  /** `effects` are what Slack shows, `repeats` the posts that reached a receiver already holding
      the event. */
  datatype State = State(row: Status, held: bool, effects: nat, repeats: nat, pcs: seq<Pc>)

  datatype Event =
    | List(w: nat)
    | Claim(w: nat)
    | Post(w: nat, reaches: bool, answer: Option<Report>)
    | Lookup(w: nat, answer: Option<Report>)
    | Settle(w: nat)
    | Crash(w: nat, reaches: bool)

  function LocalStatus(r: Report): Status {
    match r
    case RPending => Pending
    case RDelivered => Delivered
    case RFailed => Failed
    case ROutcomeUnknown => OutcomeUnknown
  }

  function Completed(row: Status, to: Status): Status { if row == Delivered then Delivered else to }

  function Requeued(row: Status): Status { if row == Pending || row == OutcomeUnknown then Queued else row }

  function Init(n: nat): State { State(Queued, false, 0, 0, seq(n, i => Idle)) }

  datatype View = View(row: Status, held: bool, effects: nat, repeats: nat, pc: Pc)

  function Step(s: State, e: Event): State {
    if e.w < |s.pcs| then
      var v := Act(View(s.row, s.held, s.effects, s.repeats, s.pcs[e.w]), e);
      State(v.row, v.held, v.effects, v.repeats, s.pcs[e.w := v.pc])
    else s
  }

  /** The receiver's side of a post that arrives. */
  function Arrive(v: View): View {
    if v.held then v.(repeats := v.repeats + 1) else v.(held := true, effects := v.effects + 1)
  }

  function Act(v: View, e: Event): View {
    match e
    case List(_) =>
      if v.pc == Idle && (v.row == Queued || v.row == Pending || v.row == OutcomeUnknown) then v.(pc := Listed(v.row)) else v
    case Claim(_) =>
      if v.pc != Listed(Queued) then v
      else if v.row == Queued then v.(row := Pending, pc := Posting) else v.(pc := Idle)
    case Post(_, reaches, answer) =>
      if v.pc != Posting || (answer.Some? && !reaches) then v
      else (if reaches then Arrive(v) else v).(pc := if answer.Some? then Reported(answer) else Closing)
    case Lookup(_, answer) =>
      if v.pc.Listed? && v.pc.seen != Queued && v.held == answer.Some? then v.(pc := Reported(answer)) else v
    case Settle(_) =>
      if v.pc == Closing then v.(row := Completed(v.row, OutcomeUnknown), pc := Idle)
      else if !v.pc.Reported? then v
      else if v.pc.report.Some? then v.(row := Completed(v.row, LocalStatus(v.pc.report.value)), pc := Idle)
      else v.(row := Requeued(v.row), pc := Idle)
    case Crash(_, reaches) =>
      (if reaches && v.pc == Posting then Arrive(v) else v).(pc := Idle)
  }

  // ----- safety for any number of pollers -----

  function One(b: bool): nat { if b then 1 else 0 }

  predicate InFlight(pc: Pc) { pc == Posting }

  ghost predicate PcSafe(held: bool, pc: Pc) { pc.Reported? && pc.report.Some? ==> held }

  ghost predicate Inv(s: State) {
    && s.effects == One(s.held)
    && (s.row == Delivered ==> s.held)
    && forall i :: 0 <= i < |s.pcs| ==> PcSafe(s.held, s.pcs[i])
  }

  lemma StepInv(s: State, e: Event)
    requires Inv(s)
    ensures Inv(Step(s, e)) && (s.held ==> Step(s, e).held)
  {
  }

  /** However often "missing" requeues an event, Slack shows it at most once, and the local row says
      delivered only if the receiver holds it. */
  lemma AtMostOneEffect(n: nat, es: seq<Event>)
    ensures var s := Exec(Step, Init(n), es); s.effects <= 1 && (s.row == Delivered ==> s.held && s.effects == 1)
  {
    forall t: State, e: Event | Inv(t) ensures Inv(Step(t, e)) { StepInv(t, e); }
    Invariant(Step, Inv, Init(n), es);
  }

  // ----- when the receiver is asked twice -----

  /** A stale "missing" puts the row back although the event arrived or is on its way. */
  ghost predicate Hasty(s: State, e: Event) {
    e.Settle? && e.w < |s.pcs| && s.pcs[e.w] == Reported(None) && Requeued(s.row) != s.row
    && (s.held || Count(InFlight, s.pcs) > 0)
  }

  /** Nothing was posted twice, and the event is in one place only. */
  ghost predicate Single(s: State) {
    s.repeats == 0 && One(s.held) + One(s.row == Queued) + Count(InFlight, s.pcs) <= 1
  }

  lemma ActSingle(v: View, e: Event, others: nat)
    requires v.repeats == 0 && One(v.held) + One(v.row == Queued) + others + One(InFlight(v.pc)) <= 1
    requires e.Settle? && v.pc == Reported(None) && Requeued(v.row) != v.row ==> !v.held && others == 0
    ensures var u := Act(v, e); u.repeats == 0 && One(u.held) + One(u.row == Queued) + others + One(InFlight(u.pc)) <= 1
  {
  }

  lemma StepSingle(s: State, e: Event)
    requires Single(s) && !Hasty(s, e)
    ensures Single(Step(s, e))
  {
    if e.w < |s.pcs| {
      CountUpdate(InFlight, s.pcs, e.w, Idle);
      var v := View(s.row, s.held, s.effects, s.repeats, s.pcs[e.w]);
      CountUpdate(InFlight, s.pcs, e.w, Act(v, e).pc);
      ActSingle(v, e, Count(InFlight, s.pcs[e.w := Idle]));
    }
  }

  /** A run without such a requeue asks the receiver once, however many pollers there are. */
  lemma RepeatsNeedHaste(n: nat, es: seq<Event>)
    requires Along(Step, (s, e) => !Hasty(s, e), Init(n), es)
    ensures Single(Exec(Step, Init(n), es))
  {
    var ok := (s, e) => !Hasty(s, e);
    forall t: State, e: Event | Single(t) && ok(t, e) ensures Single(Step(t, e)) { StepSingle(t, e); }
    CountZero(InFlight, Init(n).pcs);
    InvariantAlong(Step, Single, ok, Init(n), es);
  }

  ghost predicate Alone(s: State) {
    |s.pcs| <= 1 && Single(s) && (|s.pcs| == 1 && s.pcs[0] == Reported(None) ==> !s.held)
  }

  lemma AloneStep(s: State, e: Event)
    requires Alone(s)
    ensures Alone(Step(s, e))
  {
    if e.w == 0 && |s.pcs| == 1 {
      if s.pcs[0] == Reported(None) { CountZero(InFlight, s.pcs); }
      StepSingle(s, e);
    }
  }

  /** A single poller is never hasty, and two may be: the event is posted again after it arrived, in
      some run, exactly when there are two pollers or more. */
  lemma NeverRepeatsExactly(n: nat)
    ensures (forall es :: Exec(Step, Init(n), es).repeats == 0) <==> n <= 1
  {
    if n <= 1 {
      CountZero(InFlight, Init(n).pcs);
      forall t: State, e: Event | Alone(t) ensures Alone(Step(t, e)) { AloneStep(t, e); }
      forall es ensures Exec(Step, Init(n), es).repeats == 0 {
        Invariant(Step, Alone, Init(n), es);
      }
    } else {
      var es := PostedTwice(n);
      assert Exec(Step, Init(n), es).repeats == 1;
    }
  }

  /** The stale "missing" puts the row back, and the second poller posts it again. */
  lemma PostedTwice(n: nat) returns (es: seq<Event>)
    requires n >= 2
    ensures Exec(Step, Init(n), es).repeats == 1
  {
    var fs, s := StaleMissing(n);
    var gs := [Settle(1), List(1), Claim(1), Crash(1, true)];
    var s1 := Step(s, gs[0]);
    assert s1.row == Queued && s1.held && s1.pcs[1] == Idle;
    var s2 := Step(s1, gs[1]);
    var s3 := Step(s2, gs[2]);
    assert s3.pcs[1] == Posting && s3.held;
    Run4(Step, s, gs);
    Concat(Step, Init(n), fs, gs);
    es := fs + gs;
  }

  /** The first poller claims, the second looks up and hears "missing", the post arrives. */
  lemma StaleMissing(n: nat) returns (es: seq<Event>, s: State)
    requires n >= 2
    ensures Exec(Step, Init(n), es) == s && |s.pcs| == n
    ensures s.row == Pending && s.held && s.repeats == 0 && s.pcs[1] == Reported(None)
  {
    es := [List(0), Claim(0), List(1), Lookup(1, None), Crash(0, true)];
    var s0 := Init(n);
    var s1 := Step(s0, es[0]);
    var s2 := Step(s1, es[1]);
    var s3 := Step(s2, es[2]);
    var s4 := Step(s3, es[3]);
    s := Step(s4, es[4]);
    assert s2.pcs[0] == Posting && s3.pcs[1] == Listed(Pending) && s4.pcs[1] == Reported(None);
    Run5(Step, s0, es);
  }

  // ----- the drain loop -----

  /** What the outside answers for one event during a drain. `raises`: the call ends in an exception
      that the loop does not catch. */
  datatype Answer = Answer(raises: bool, reaches: bool, posted: Option<Report>, lookupFails: bool, looked: Report)

  predicate Arrives(a: Answer) { a.reaches || (a.posted.Some? && !a.raises) }

  /** One listed event, handled by a poller nobody interferes with. */
  function Drained(row: Status, held: bool, a: Answer): seq<Event> {
    if row == Queued then
      if a.raises then [List(0), Claim(0), Crash(0, a.reaches)]
      else [List(0), Claim(0), Post(0, Arrives(a), a.posted), Settle(0)]
    else if row == Pending || row == OutcomeUnknown then
      if a.raises || a.lookupFails then [List(0), Crash(0, false)]
      else [List(0), Lookup(0, if held then Some(a.looked) else None), Settle(0)]
    else []
  }

  function Rest(row: Status, held: bool): View { View(row, held, One(held), 0, Idle) }

  /** The machine's steps for one listed event, on what the poller sees. */
  function Turn(row: Status, held: bool, a: Answer): View {
    var listed := Act(Rest(row, held), List(0));
    if row == Queued then
      var claimed := Act(listed, Claim(0));
      if a.raises then Act(claimed, Crash(0, a.reaches))
      else Act(Act(claimed, Post(0, Arrives(a), a.posted)), Settle(0))
    else if row == Pending || row == OutcomeUnknown then
      if a.raises || a.lookupFails then Act(listed, Crash(0, false))
      else Act(Act(listed, Lookup(0, if held then Some(a.looked) else None)), Settle(0))
    else Rest(row, held)
  }

  function Lone(v: View): State { State(v.row, v.held, v.effects, v.repeats, [v.pc]) }

  lemma LoneMove(v: View, e: Event)
    requires e.w == 0
    ensures Step(Lone(v), e) == Lone(Act(v, e))
  {
  }

  /** One event's turn is a run of the machine with a single poller. */
  lemma TurnIsARun(row: Status, held: bool, a: Answer)
    ensures Exec(Step, Lone(Rest(row, held)), Drained(row, held, a)) == Lone(Turn(row, held, a))
  {
    var es, v0 := Drained(row, held, a), Rest(row, held);
    if es != [] {
      var v1 := Act(v0, es[0]);
      var v2 := Act(v1, es[1]);
      LoneMove(v0, es[0]);
      LoneMove(v1, es[1]);
      if |es| == 2 {
        Run2(Step, Lone(v0), es);
      } else if |es| == 3 {
        LoneMove(v2, es[2]);
        Run3(Step, Lone(v0), es);
      } else {
        LoneMove(v2, es[2]);
        LoneMove(Act(v2, es[2]), es[3]);
        Run4(Step, Lone(v0), es);
      }
    }
  }

  /** The row and the receiver after a turn, without the steps in between. */
  function TurnEnd(row: Status, held: bool, a: Answer): (Status, bool) {
    if row == Queued then
      (if a.raises then Pending else if a.posted.Some? then LocalStatus(a.posted.value) else OutcomeUnknown,
       held || Arrives(a))
    else if row == Pending || row == OutcomeUnknown then
      (if a.raises || a.lookupFails then row else if held then LocalStatus(a.looked) else Queued, held)
    else (row, held)
  }

  lemma TurnEnds(row: Status, held: bool, a: Answer)
    ensures (Turn(row, held, a).row, Turn(row, held, a).held) == TurnEnd(row, held, a)
  {
  }

  /** What a turn's end is about: the local status is the one the receiver reported, a missing event is
      queued again, no answer to a post is an unknown outcome, and only a post of a queued event that
      arrives changes what the receiver holds. */
  lemma TurnEndsAsReported(row: Status, held: bool, a: Answer)
    ensures var end := TurnEnd(row, held, a).0;
            var report := if row == Queued then a.posted else if held then Some(a.looked) else None;
            && (TurnEnd(row, held, a).1 <==> held || (row == Queued && (a.reaches || (a.posted.Some? && !a.raises))))
            && (row == Delivered || row == Failed ==> end == row)
            && (row == Queued && a.raises ==> end == Pending)
            && (row == Queued && !a.raises && a.posted.None? ==> end == OutcomeUnknown)
            && (row == Pending || row == OutcomeUnknown ==>
                  (a.raises || a.lookupFails ==> end == row) && (!a.raises && !a.lookupFails && !held ==> end == Queued))
            && (row != Delivered && row != Failed && !a.raises && (row == Queued || !a.lookupFails) && report.Some? ==>
                  && (end == Delivered <==> report.value == RDelivered) && (end == Failed <==> report.value == RFailed)
                  && (end == OutcomeUnknown <==> report.value == ROutcomeUnknown) && (end == Pending <==> report.value == RPending))
  {
  }

  /** An event's row and whether the receiver holds it, before and after a turn. */
  ghost predicate Took(row: Status, held: bool, a: Answer, after: Status, heldAfter: bool) {
    (after, heldAfter) == TurnEnd(row, held, a)
  }

  /** Whether the error of a turn ends the loop. */
  predicate TurnRaises(row: Status, a: Answer) {
    a.raises && (row == Queued || row == Pending || row == OutcomeUnknown)
  }

  /** The local ledger and the set of events the receiver holds. */
  class Outbox {
    var rows: map<string, Status>
    var held: set<string>

    method DrainOne(id: string, a: Answer) returns (raised: bool)
      requires id in rows
      modifies this
      ensures raised <==> TurnRaises(old(rows[id]), a)
      ensures rows.Keys == old(rows.Keys) && old(held) <= held <= old(held) + {id}
      ensures forall k :: k in rows && k != id ==> rows[k] == old(rows[k])
      ensures Took(old(rows[id]), id in old(held), a, rows[id], id in held)
      ensures raised <==> a.raises && old(rows[id]) != Delivered && old(rows[id]) != Failed
      ensures old(rows[id]) != Delivered && old(rows[id]) != Failed && !a.raises && (old(rows[id]) == Queued || !a.lookupFails) ==>
                && (rows[id] == Delivered <==> if old(rows[id]) == Queued then a.posted == Some(RDelivered) else id in held && a.looked == RDelivered)
                && (rows[id] == Failed <==> if old(rows[id]) == Queued then a.posted == Some(RFailed) else id in held && a.looked == RFailed)
                && (rows[id] == Queued <==> old(rows[id]) != Queued && id !in held)
    {
      var status := rows[id];
      var result: Option<Report>;
      if status == Queued {
        rows := rows[id := Pending];
        if Arrives(a) { held := held + {id}; }
        if a.raises { return true; }
        if a.posted.None? {
          rows := rows[id := Completed(rows[id], OutcomeUnknown)];
          return false;
        }
        result := a.posted;
      } else if status == Pending || status == OutcomeUnknown {
        if a.raises { return true; }
        if a.lookupFails { return false; }
        result := if id in held then Some(a.looked) else None;
      } else {
        return false;
      }
      raised := false;
      if result.None? {
        rows := rows[id := Requeued(rows[id])];
      } else {
        rows := rows[id := Completed(rows[id], LocalStatus(result.value))];
      }
    }

    /** The drain visits each listed event once, up to and including the first whose turn raises; every
        row it visits moves exactly as its own machine does, and all others stay. */
    method Drain(batch: seq<string>, world: map<string, Answer>) returns (handled: nat, raised: bool)
      requires forall k :: 0 <= k < |batch| ==> batch[k] in rows && batch[k] in world
      requires forall j, k :: 0 <= j < k < |batch| ==> batch[j] != batch[k]
      modifies this
      ensures rows.Keys == old(rows.Keys)
      ensures handled <= |batch| && (if raised then handled > 0 else handled == |batch|)
      ensures forall k :: 0 <= k < handled ==>
                (TurnRaises(old(rows[batch[k]]), world[batch[k]]) <==> raised && k == handled - 1)
      ensures forall id :: id in rows && id !in batch[..handled] ==> rows[id] == old(rows[id]) && (id in held <==> id in old(held))
      ensures forall k :: 0 <= k < handled ==>
                Took(old(rows[batch[k]]), batch[k] in old(held), world[batch[k]], rows[batch[k]], batch[k] in held)
    {
      handled, raised := 0, false;
      while handled < |batch| && !raised
        invariant 0 <= handled <= |batch| && (raised ==> handled > 0)
        invariant rows.Keys == old(rows.Keys)
        invariant forall k :: 0 <= k < handled ==>
                    (TurnRaises(old(rows[batch[k]]), world[batch[k]]) <==> raised && k == handled - 1)
        invariant forall k :: 0 <= k < handled ==>
                    Took(old(rows[batch[k]]), batch[k] in old(held), world[batch[k]], rows[batch[k]], batch[k] in held)
        invariant forall id :: id in rows && id !in batch[..handled] ==> rows[id] == old(rows[id]) && (id in held <==> id in old(held))
        decreases |batch| - handled
      {
        var id := batch[handled];
        assert id !in batch[..handled];
        raised := DrainOne(id, world[id]);
        assert batch[..handled + 1] == batch[..handled] + [id];
        handled := handled + 1;
      }
    }
  }
}
