/** One pass of a worker over the account reply jobs: a batch is claimed, then each claimed job is
    prepared or published, with the exception handler behind it. Each row follows the machine of
    `ReplyJobs`; other parts of the system may change a row between its claim and its end. */
module ReplyPass {
  import opened Machines
  import J = ReplyJobs

  datatype Row = Row(job: J.Job, messages: nat)

  /** What happens to a row behind the claimant's back; `seen` says whether its handler noticed. */
  datatype Other = Nothing | CancelledByOther | TakenByHermes(seen: bool)

  /** How the handler ends. */
  datatype End = Settles(to: J.Stage) | Publishes(humanReview: bool) | Raises

  datatype Fate = Fate(other: Other, end: End)

  function ClaimedRow(r: Row, now: nat): Row {
    r.(job := r.job.(stage := if r.job.stage == J.Queued then J.Preparing else J.Publishing,
                     claimedAt := Some(now), attempt := r.job.attempt + 1))
  }

  function TokenOf(r: Row, now: nat): J.Token { J.Token(r.job.stage, now, r.job.attempt) }

  function Disturbed(r: Row, other: Other): Row {
    match other
    case Nothing => r
    case CancelledByOther => if r.job.stage == J.Preparing then r.(job := r.job.(stage := J.Cancelled)) else r
    case TakenByHermes(_) => r.(job := r.job.(compat := true))
  }

  /** The claimant's last write as an action of the machine. */
  function LastAction(fate: Fate): J.Action {
    var seen := fate.other.TakenByHermes? && fate.other.seen;
    match fate.end
    case Settles(to) => J.Update(to, seen)
    case Publishes(humanReview) => J.Publish(humanReview, seen)
    case Raises => J.Fail(true)
  }

  /** A refused update declines and the handler returns; a refused publication raises, and the
      exception handler follows. It reads the row again and so notices everything; behind a
      publication that went through it has nothing to do. */
  function Finished(r: Row, now: nat, token: J.Token, fate: Fate): Row {
    var v := J.Act(J.View(r.job, now, r.messages, false, J.Working(token)), LastAction(fate));
    var u := if fate.end.Publishes? then J.Act(v, J.Fail(true)) else v;
    Row(u.job, u.messages)
  }

  /** A row after its turn in the pass. */
  function AfterTurn(r: Row, now: nat, fate: Fate): Row {
    var claimed := ClaimedRow(r, now);
    Finished(Disturbed(claimed, fate.other), now, TokenOf(claimed, now), fate)
  }

  predicate Eligible(r: Row, from: J.Stage, due: bool, dueOnly: bool) {
    r.job.stage == from && !r.job.compat && (dueOnly ==> due)
  }

  function BatchSize(limit: int): nat { if limit < 1 then 1 else limit }

  /** The rows a claim takes among the first `n`; rows stand in claim order. */
  function Batch(rows: seq<Row>, from: J.Stage, due: seq<bool>, dueOnly: bool, limit: int, n: nat): seq<nat>
    requires n <= |rows| == |due|
  {
    if n == 0 then []
    else
      var front := Batch(rows, from, due, dueOnly, limit, n - 1);
      if |front| < BatchSize(limit) && Eligible(rows[n - 1], from, due[n - 1], dueOnly) then front + [n - 1] else front
  }

  /** Waiting in this stage, not taken over, and due where that is asked: on the row itself. */
  ghost predicate Waits(r: Row, from: J.Stage, due: bool, dueOnly: bool) {
    r.job.stage == from && !r.job.compat && (!dueOnly || due)
  }

  /** A batch takes waiting rows in their order, up to the limit, and passes over none of them. */
  ghost predicate Takes(rows: seq<Row>, from: J.Stage, due: seq<bool>, dueOnly: bool, max: nat, b: seq<nat>, n: nat)
    requires n <= |rows| == |due|
  {
    && |b| <= max && InOrder(b, n)
    && (forall k :: 0 <= k < |b| ==> b[k] < n && Waits(rows[b[k]], from, due[b[k]], dueOnly))
    && (forall i :: 0 <= i < n && Waits(rows[i], from, due[i], dueOnly) && i !in b ==>
          |b| == max && forall k :: 0 <= k < |b| ==> b[k] < i)
  }

  lemma {:induction false} BatchFacts(rows: seq<Row>, from: J.Stage, due: seq<bool>, dueOnly: bool, limit: int, n: nat)
    requires n <= |rows| == |due|
    ensures Takes(rows, from, due, dueOnly, if limit < 1 then 1 else limit, Batch(rows, from, due, dueOnly, limit, n), n)
  {
    if n > 0 {
      BatchFacts(rows, from, due, dueOnly, limit, n - 1);
      BatchGrows(rows, from, due, dueOnly, if limit < 1 then 1 else limit, Batch(rows, from, due, dueOnly, limit, n - 1), n);
    }
  }

  lemma BatchGrows(rows: seq<Row>, from: J.Stage, due: seq<bool>, dueOnly: bool, max: nat, front: seq<nat>, n: nat)
    requires 0 < n <= |rows| == |due| && Takes(rows, from, due, dueOnly, max, front, n - 1)
    ensures Takes(rows, from, due, dueOnly, max,
                  if |front| < max && Waits(rows[n - 1], from, due[n - 1], dueOnly) then front + [n - 1] else front, n)
  {
    if |front| < max && Waits(rows[n - 1], from, due[n - 1], dueOnly) {
      TakesLast(rows, from, due, dueOnly, max, front, n);
    } else {
      assert InOrder(front, n);
    }
  }

  lemma TakesLast(rows: seq<Row>, from: J.Stage, due: seq<bool>, dueOnly: bool, max: nat, front: seq<nat>, n: nat)
    requires 0 < n <= |rows| == |due| && Takes(rows, from, due, dueOnly, max, front, n - 1)
    requires |front| < max && Waits(rows[n - 1], from, due[n - 1], dueOnly)
    ensures Takes(rows, from, due, dueOnly, max, front + [n - 1], n)
  {
    var b := front + [n - 1];
    assert InOrder(b, n) by {
      forall k | 0 <= k < |front| ensures b[k] == front[k] < n - 1 {}
    }
    forall k | 0 <= k < |b| ensures Waits(rows[b[k]], from, due[b[k]], dueOnly) {
      if k < |front| { assert b[k] == front[k]; }
    }
    forall i | 0 <= i < n && Waits(rows[i], from, due[i], dueOnly) ensures i in b {
      if i == n - 1 { assert b[|front|] == i; } else { assert i in front; }
    }
  }

  predicate InOrder(b: seq<nat>, n: nat) {
    (forall k :: 0 <= k < |b| ==> b[k] < n) && forall j, k :: 0 <= j < k < |b| ==> b[j] < b[k]
  }

  /** What a claimed row's turn starts from. */
  lemma ClaimedTurn(r: Row, from: J.Stage, now: nat, fate: Fate)
    requires r.job.stage == from && (from == J.Queued || from == J.Scheduled) && Possible(from, fate)
    ensures var claimed := ClaimedRow(r, now);
            var token := TokenOf(claimed, now);
            && token.claimedAt == now && token.stage == (if from == J.Queued then J.Preparing else J.Publishing)
            && (fate.end.Publishes? ==> token.stage == J.Publishing)
            && (fate.end.Settles? ==> J.Allowed(token.stage, fate.end.to, fate.other.TakenByHermes?))
            && Finished(Disturbed(claimed, fate.other), now, token, fate) == AfterTurn(r, now, fate)
  {
  }

  class JobTable {
    var rows: seq<Row>

    constructor (rows: seq<Row>)
      ensures this.rows == rows
    {
      this.rows := rows;
    }

    /** The batch claim: up to `limit` waiting jobs, at least one, due ones only if asked. */
    method ClaimJobs(from: J.Stage, due: seq<bool>, dueOnly: bool, limit: int, now: nat) returns (claimed: seq<nat>)
      requires |due| == |rows| && (from == J.Queued || from == J.Scheduled)
      modifies this
      ensures claimed == Batch(old(rows), from, due, dueOnly, limit, |due|)
      ensures |rows| == |old(rows)|
      ensures forall i :: 0 <= i < |rows| ==> rows[i] == if i in claimed then ClaimedRow(old(rows)[i], now) else old(rows)[i]
      ensures Takes(old(rows), from, due, dueOnly, if limit < 1 then 1 else limit, claimed, |due|)
      // what a claim writes
      ensures forall i :: 0 <= i < |rows| && i in claimed ==>
                var r := old(rows)[i];
                rows[i] == Row(J.Job(if from == J.Queued then J.Preparing else J.Publishing, Some(now), r.job.attempt + 1, false), r.messages)
    {
      BatchFacts(rows, from, due, dueOnly, limit, |due|);
      claimed := [];
      var max := if limit < 1 then 1 else limit;
      for i := 0 to |due|
        invariant rows == old(rows) && claimed == Batch(rows, from, due, dueOnly, limit, i)
      {
        if |claimed| < max && Eligible(rows[i], from, due[i], dueOnly) {
          claimed := claimed + [i];
        }
      }
      rows := seq(|rows|, i requires 0 <= i < |rows| reads this => if i in claimed then ClaimedRow(rows[i], now) else rows[i]);
    }

    /** The update that compares status, claim time and attempt count, and refuses to drop a takeover
        it did not see. */
    method UpdateClaimed(i: nat, token: J.Token, to: J.Stage, seen: bool) returns (ok: bool)
      requires i < |rows|
      modifies this
      ensures ok == (J.Matches(old(rows)[i].job, token) && (old(rows)[i].job.compat ==> seen))
      ensures rows == if ok then old(rows)[i := old(rows)[i].(job := old(rows)[i].job.(stage := to))] else old(rows)
    {
      var job := rows[i].job;
      ok := J.Matches(job, token) && (job.compat ==> seen);
      if ok {
        rows := rows[i := rows[i].(job := job.(stage := to))];
      }
    }

    /** Publication is one transaction: the fence, the message under the job's id, the status. A
        refusal raises and leaves the row alone. */
    method Publish(i: nat, token: J.Token, humanReview: bool, seen: bool) returns (ok: bool)
      requires i < |rows| && token.stage == J.Publishing
      modifies this
      ensures ok == (J.Matches(old(rows)[i].job, token) && (old(rows)[i].job.compat ==> seen))
      ensures !ok ==> rows == old(rows)
      ensures ok ==> rows == old(rows)[i := Row(
                old(rows)[i].job.(stage := if humanReview then J.ManualAttention else J.Published),
                if humanReview || old(rows)[i].messages > 0 then old(rows)[i].messages else 1)]
    {
      ok := UpdateClaimed(i, token, if humanReview then J.ManualAttention else J.Published, seen);
      if ok && !humanReview && rows[i].messages == 0 {
        rows := rows[i := rows[i].(messages := 1)];
      }
    }

    /** The exception handler: read again, check the claim, retry or fail. */
    method HandleException(i: nat, token: J.Token, retry: J.Stage)
      requires i < |rows| && (token.stage == J.Preparing || token.stage == J.Publishing)
      requires retry == if token.stage == J.Preparing then J.Queued else J.Scheduled
      modifies this
      ensures rows == old(rows)[i := Finished(old(rows)[i], token.claimedAt, token, Fate(Nothing, Raises))]
    {
      var current := rows[i].job;
      if !J.Matches(current, token) {
        return;
      }
      var failed := if current.attempt < J.MAX_ATTEMPTS then retry else J.Failed;
      var ok := UpdateClaimed(i, token, failed, true);
    }

    /** One claimed job's turn. */
    method ProcessOne(i: nat, token: J.Token, retry: J.Stage, fate: Fate)
      requires i < |rows| && (token.stage == J.Preparing || token.stage == J.Publishing)
      requires retry == if token.stage == J.Preparing then J.Queued else J.Scheduled
      requires fate.end.Publishes? ==> token.stage == J.Publishing
      requires fate.end.Settles? ==> J.Allowed(token.stage, fate.end.to, fate.other.TakenByHermes?)
      modifies this
      ensures rows == old(rows)[i := Finished(Disturbed(old(rows)[i], fate.other), token.claimedAt, token, fate)]
    {
      rows := rows[i := Disturbed(rows[i], fate.other)];
      var seen := fate.other.TakenByHermes? && fate.other.seen;
      match fate.end
      case Raises => HandleException(i, token, retry);
      case Publishes(humanReview) =>
        var ok := Publish(i, token, humanReview, seen);
        if !ok {
          HandleException(i, token, retry);
        }
      case Settles(to) =>
        var ok := UpdateClaimed(i, token, to, seen);
    }

    /** The turns of a batch that was just claimed. */
    method ProcessAll(ghost before: seq<Row>, claimed: seq<nat>, from: J.Stage, now: nat, fates: seq<Fate>)
      requires |before| == |rows| == |fates| && (from == J.Queued || from == J.Scheduled) && InOrder(claimed, |rows|)
      requires forall k :: 0 <= k < |claimed| ==> before[claimed[k]].job.stage == from && rows[claimed[k]] == ClaimedRow(before[claimed[k]], now)
      requires forall i :: 0 <= i < |fates| ==> Possible(from, fates[i])
      modifies this
      ensures |rows| == |before|
      ensures forall i :: 0 <= i < |rows| ==> rows[i] == if i in claimed then AfterTurn(before[i], now, fates[i]) else old(rows)[i]
    {
      ghost var mid := rows;
      for k := 0 to |claimed|
        invariant |rows| == |before|
        invariant forall i :: 0 <= i < |rows| ==> rows[i] == if i in claimed[..k] then AfterTurn(before[i], now, fates[i]) else mid[i]
      {
        var i := claimed[k];
        assert claimed[..k + 1] == claimed[..k] + [i];
        assert i !in claimed[..k];
        ClaimedTurn(before[i], from, now, fates[i]);
        ProcessOne(i, TokenOf(rows[i], now), from, fates[i]);
      }
      assert claimed[..|claimed|] == claimed;
    }

    /** The whole pass. */
    method Pass(from: J.Stage, due: seq<bool>, dueOnly: bool, limit: int, now: nat, fates: seq<Fate>)
      requires |due| == |fates| == |rows| && (from == J.Queued || from == J.Scheduled)
      requires forall i :: 0 <= i < |fates| ==> Possible(from, fates[i])
      modifies this
      ensures |rows| == |old(rows)|
      ensures forall i :: 0 <= i < |rows| ==>
                rows[i] == if i in Batch(old(rows), from, due, dueOnly, limit, |due|)
                           then AfterTurn(old(rows)[i], now, fates[i]) else old(rows)[i]
      // a row that is not due, of another stage or taken over is left alone
      ensures forall i :: 0 <= i < |rows| && !Waits(old(rows)[i], from, due[i], dueOnly) ==> rows[i] == old(rows)[i]
    {
      ghost var before := rows;
      var claimed := ClaimJobs(from, due, dueOnly, limit, now);
      ProcessAll(before, claimed, from, now, fates);
    }
  }

  /** The ends a handler has for jobs of this stage. */
  predicate Possible(from: J.Stage, fate: Fate) {
    var work := if from == J.Queued then J.Preparing else J.Publishing;
    && (fate.end.Publishes? ==> work == J.Publishing)
    && (fate.end.Settles? ==> fate.end.to != J.Publishing && J.Allowed(work, fate.end.to, fate.other.TakenByHermes?))
  }

  /** No job stays behind in work: a claimed job is still being prepared or published after the pass
      exactly when Hermes took it over unnoticed and the handler ended with an update, which declines
      where a publication and a failure raise. */
  lemma ReleasedExactly(r: Row, from: J.Stage, now: nat, fate: Fate)
    requires r.job.stage == from && !r.job.compat && (from == J.Queued || from == J.Scheduled) && Possible(from, fate)
    ensures J.InWork(AfterTurn(r, now, fate).job.stage) <==> fate.other == TakenByHermes(false) && fate.end.Settles?
  {
  }

  /** An undisturbed job whose handler raises goes back where it was claimed from, or fails with its
      fourth attempt or later; one whose handler publishes has one message, new or reused. */
  lemma UndisturbedTurn(r: Row, from: J.Stage, now: nat, fate: Fate)
    requires r.job.stage == from && !r.job.compat && (from == J.Queued || from == J.Scheduled) && Possible(from, fate)
    requires fate.other == Nothing
    ensures var u := AfterTurn(r, now, fate);
            && u.job.attempt == r.job.attempt + 1
            && (fate.end.Raises? ==> u.messages == r.messages
                                     && u.job.stage == if r.job.attempt + 1 < J.MAX_ATTEMPTS then from else J.Failed)
            && (fate.end == Publishes(false) ==> u.job.stage == J.Published && u.messages >= 1 && (r.messages >= 1 ==> u.messages == r.messages))
            && (fate.end.Settles? ==> u.job.stage == fate.end.to && u.messages == r.messages)
  {
  }

  lemma ClaimStep(s: J.State, w: nat, now: nat)
    requires w < |s.pcs| && s.pcs[w] == J.Idle && !s.strict && now >= s.clock && J.Waiting(s.job.stage) && !s.job.compat
    ensures var u, r := J.Step(s, J.Worker(w, J.Claim(now))), ClaimedRow(Row(s.job, s.messages), now);
            Row(u.job, u.messages) == r && u.clock == now && !u.strict
            && u.pcs == s.pcs[w := J.Working(TokenOf(r, now))]
  {
  }

  /** The claimant's end as events of the job machine. */
  function LastEvents(w: nat, fate: Fate): seq<J.Event> {
    [J.Worker(w, LastAction(fate))] + if fate.end.Publishes? then [J.Worker(w, J.Fail(true))] else []
  }

  function Seen(s: J.State, w: nat): J.View
    requires w < |s.pcs|
  {
    J.View(s.job, s.clock, s.messages, s.strict, s.pcs[w])
  }

  lemma Move(s: J.State, w: nat, a: J.Action)
    requires w < |s.pcs|
    ensures var u := J.Step(s, J.Worker(w, a)); w < |u.pcs| && Seen(u, w) == J.Act(Seen(s, w), a)
  {
  }

  lemma LastSteps(s: J.State, w: nat, token: J.Token, fate: Fate)
    requires w < |s.pcs| && s.pcs[w] == J.Working(token) && !s.strict
    ensures var u := Exec(J.Step, s, LastEvents(w, fate));
            Row(u.job, u.messages) == Finished(Row(s.job, s.messages), s.clock, token, fate)
  {
    var a := LastAction(fate);
    Move(s, w, a);
    if fate.end.Publishes? {
      Move(J.Step(s, J.Worker(w, a)), w, J.Fail(true));
      Run2(J.Step, s, LastEvents(w, fate));
    } else {
      Run1(J.Step, s, LastEvents(w, fate));
    }
  }

  /** The other part of the system as events of the job machine. */
  function OtherEvents(other: Other): seq<J.Event> {
    match other
    case Nothing => []
    case CancelledByOther => [J.CancelPending]
    case TakenByHermes(_) => [J.SetCompat]
  }

  lemma OtherSteps(s: J.State, other: Other)
    requires J.InWork(s.job.stage)
    ensures var u := Exec(J.Step, s, OtherEvents(other));
            Row(u.job, u.messages) == Disturbed(Row(s.job, s.messages), other)
            && u.pcs == s.pcs && u.clock == s.clock && u.strict == s.strict
  {
    if other != Nothing { Run1(J.Step, s, OtherEvents(other)); }
  }

  /** A turn is a run of the job machine for the worker that takes it. */
  lemma TurnIsARun(s: J.State, w: nat, now: nat, fate: Fate, from: J.Stage)
    requires w < |s.pcs| && s.pcs[w] == J.Idle && !s.strict && now >= s.clock
    requires s.job.stage == from && !s.job.compat && (from == J.Queued || from == J.Scheduled)
    ensures var u := Exec(J.Step, s, [J.Worker(w, J.Claim(now))] + (OtherEvents(fate.other) + LastEvents(w, fate)));
            Row(u.job, u.messages) == AfterTurn(Row(s.job, s.messages), now, fate)
  {
    var claim, other, last := J.Worker(w, J.Claim(now)), OtherEvents(fate.other), LastEvents(w, fate);
    var s1 := J.Step(s, claim);
    First(J.Step, s, claim, other + last);
    Concat(J.Step, s1, other, last);
    ClaimStep(s, w, now);
    OtherSteps(s1, fate.other);
    LastSteps(Exec(J.Step, s1, other), w, TokenOf(ClaimedRow(Row(s.job, s.messages), now), now), fate);
  }
}
