/** The drain over the comment ledger: Hermes and engineer-approved replies, the account replies of
    `AccountDelivery`, and the loop that hands each listed row to its own delivery. Every handled row
    moves as its own ledger machine says, however stale the listing is; the loop has no handler, so an
    error that leaves a delivery ends the drain. */
module CommentDrain {
  import opened Machines
  import opened ZendeskLedger
  import opened AccountDelivery

  /** What revisions, ownership and ticket status amount to before the claim. */
  datatype Guard = Pass | Defer | Stop(to: Status)

  /** `attachable`: the draft's attachments could be prepared; `late`: the follow-up behind a closed row
      raises. */
  datatype Approval = Approval(guard: Guard, attachable: bool, lands: bool, reply: Reply, found: bool, late: bool)

  function Arrives(a: Approval): bool { a.reply == Ok || a.lands }

  function WriteMoves(src: Source, a: Approval): seq<Event> {
    if src == Hermes && !a.attachable then [ReleaseStop(0, Failed)] + []
    else [Begin(0)] + ([Write(0, Arrives(a), a.reply)] + if a.reply == Broke then [] else [Complete(0)] + [])
  }

  /** The events of one delivery of a row listed as `seen` that stands at `row`. */
  function ApprovedRun(src: Source, seen: Status, row: Status, posts: nat, a: Approval): seq<Event> {
    if seen != Queued then
      [ReadAudit(0, a.found && posts > 0, true)] + if a.found && posts > 0 then [Complete(0)] + [] else []
    else
      match a.guard
      case Stop(to) => [GuardStop(0, to)] + []
      case Defer => [Crash(0, false)] + []
      case Pass => [Claim(0)] + if row == Queued then WriteMoves(src, a) else []
  }

  /** The delivery ends in a follow-up: the round of a delivered reply, or the event of a stopped or
      refused one. */
  predicate Announces(src: Source, seen: Status, row: Status, posts: nat, a: Approval) {
    if seen != Queued then a.found && posts > 0
    else
      match a.guard
      case Stop(to) => src == Engineer || to == Cancelled
      case Defer => false
      case Pass => row == Queued && (src == Engineer || a.attachable) && (a.reply == Ok || (src == Engineer && a.reply == Refused))
  }

  /** Whether an error leaves the delivery: its write's, if that is no Zendesk answer, or its follow-up's. */
  predicate DeliveryRaises(src: Source, seen: Status, row: Status, posts: nat, a: Approval) {
    || (seen == Queued && a.guard == Pass && row == Queued && WriteRaises(src, a))
    || (a.late && Announces(src, seen, row, posts, a))
  }

  /** After the claim: attachments, the public write, and what its answer closes the row as; `raised`
      is an error of the write that is not a Zendesk answer, which nothing here catches. */
  method WriteApproved(row: CommentRow, a: Approval) returns (raised: bool)
    requires row.src != Account
    modifies row
    ensures row.At(Idle) == Play(old(row.At(Claimed)), WriteMoves(row.src, a))
    ensures raised <==> WriteRaises(row.src, a)
    ensures row.idem == old(row.idem)
    ensures row.posts == old(row.posts) + if (row.src == Engineer || a.attachable) && (a.reply == Ok || a.lands) then 1 else 0
    ensures old(row.status) == Pending ==>
              row.status == if row.src == Hermes && !a.attachable then Failed
                            else match a.reply
                                 case Ok => Delivered
                                 case Ambiguous => OutcomeUnknown
                                 case Refused => Failed
                                 case Broke => Pending
  {
    ghost var v := row.At(Claimed);
    if row.src == Hermes && !a.attachable {
      PlayFirst(v, ReleaseStop(0, Failed), []);
      row.Complete(Failed);
      return false;
    }
    ghost var last := if a.reply == Broke then [] else [Complete(0)] + [];
    PlayFirst(v, Begin(0), [Write(0, Arrives(a), a.reply)] + last);
    PlayFirst(v.(pc := Sending), Write(0, Arrives(a), a.reply), last);
    if Arrives(a) {
      row.posts := row.posts + 1;
    }
    if a.reply == Broke {
      return true;
    }
    var to := if a.reply == Ok then Delivered else if a.reply == Ambiguous then OutcomeUnknown else Failed;
    PlayFirst(row.At(Completing(to)), Complete(0), []);
    row.Complete(to);
    return false;
  }

  predicate WriteRaises(src: Source, a: Approval) { (src == Engineer || a.attachable) && a.reply == Broke }

  /** The read-only branch for a row that may have been written: it closes only what the audit shows. */
  method AuditApproved(row: CommentRow, seen: Status, a: Approval) returns (found: bool)
    requires row.src != Account && seen != Queued
    modifies row
    ensures found <==> a.found && old(row.posts) > 0
    ensures row.idem == old(row.idem) && row.posts == old(row.posts)
    ensures row.status == if found then Delivered else old(row.status)
    ensures row.At(Idle) == Play(old(row.At(Listed(seen))), old(ApprovedRun(row.src, seen, row.status, row.posts, a)))
  {
    found := a.found && row.posts > 0;
    PlayFirst(row.At(Listed(seen)), ReadAudit(0, found, true), if found then [Complete(0)] + [] else []);
    if found {
      PlayFirst(row.At(Completing(Delivered)), Complete(0), []);
      row.Complete(Delivered);
    }
  }

  /** One Hermes or engineer delivery from a listing. */
  method DeliverApproved(row: CommentRow, seen: Status, a: Approval) returns (raised: bool)
    requires row.src != Account && (a.guard.Stop? ==> CanStop(row.src, a.guard.to))
    modifies row
    ensures row.At(Idle) == Play(old(row.At(Listed(seen))), old(ApprovedRun(row.src, seen, row.status, row.posts, a)))
    ensures raised <==> old(DeliveryRaises(row.src, seen, row.status, row.posts, a))
    ensures row.idem == old(row.idem)
    // a comment is added exactly by the claimant of a queued row that no guard stopped, if its write lands
    ensures row.posts == old(row.posts) +
              if seen == Queued && a.guard == Pass && old(row.status) == Queued
                 && (row.src == Engineer || a.attachable) && (a.reply == Ok || a.lands) then 1 else 0
    ensures seen != Queued ==> row.status == if a.found && row.posts > 0 then Delivered else old(row.status)
    ensures seen == Queued && a.guard == Defer ==> row.status == old(row.status)
    ensures seen == Queued && a.guard.Stop? ==> row.status == if old(row.status) == Delivered then Delivered else a.guard.to
    ensures seen == Queued && a.guard == Pass ==>
              row.status == if old(row.status) != Queued then old(row.status)
                            else if row.src == Hermes && !a.attachable then Failed
                            else match a.reply
                                 case Ok => Delivered
                                 case Ambiguous => OutcomeUnknown
                                 case Refused => Failed
                                 case Broke => Pending
  {
    raised := false;
    if seen != Queued {
      var found := AuditApproved(row, seen, a);
      return found && a.late;
    }
    ghost var es := ApprovedRun(row.src, seen, row.status, row.posts, a);
    PlayFirst(row.At(Listed(seen)), es[0], es[1..]);
    assert es == [es[0]] + es[1..];
    match a.guard {
      case Stop(to) =>
        row.Complete(to);
        raised := (row.src == Engineer || to == Cancelled) && a.late;
      case Defer =>
      case Pass =>
        var won, found := row.Claim();
        if won {
          assert es[1..] == WriteMoves(row.src, a);
          raised := WriteApproved(row, a);
          if (row.src == Engineer || a.attachable) && (a.reply == Ok || (row.src == Engineer && a.reply == Refused)) {
            raised := a.late;
          }
        } else {
          assert es[1..] == [];
        }
    }
  }

  // ----- the drain -----

  /** Everything the world does to one listed row; `readable` is false when a read before the first
      write raises. */
  datatype Turn = Turn(seen: Status, readable: bool, message: bool, account: World, approval: Approval)

  function TurnRun(src: Source, row: Status, idem: Idem, posts: nat, t: Turn): seq<Event> {
    if !t.readable then [Crash(0, false)] + []
    else if src != Account then ApprovedRun(src, t.seen, row, posts, t.approval)
    else if !t.message then [MissingMessage(0)] + []
    else AttemptRun(row, idem, posts, t.account)
  }

  /** Whether the error of a turn leaves the loop's body. */
  predicate TurnRaises(src: Source, row: Status, idem: Idem, posts: nat, t: Turn) {
    || !t.readable
    || (src != Account && DeliveryRaises(src, t.seen, row, posts, t.approval))
    || (src == Account && t.message && t.account.late && FollowsUp(row, idem, t.account))
  }

  /** Whose errors end the loop: a read before the first write, the public write where its error is no Zendesk
      answer, and the follow-up behind a closed row. */
  lemma TurnRaisesExactly(src: Source, row: Status, idem: Idem, posts: nat, t: Turn)
    ensures var a := t.approval;
            var written := t.seen == Queued && a.guard == Pass && row == Queued && (src == Engineer || a.attachable);
            TurnRaises(src, row, idem, posts, t) <==>
              || !t.readable
              || (src != Account && written && a.reply == Broke)
              || (src != Account && a.late
                  && ((t.seen != Queued && a.found && posts > 0)
                      || (t.seen == Queued && a.guard.Stop? && (src == Engineer || a.guard.to == Cancelled))
                      || (written && (a.reply == Ok || (src == Engineer && a.reply == Refused)))))
              || (src == Account && t.message && t.account.late && t.account.deliverable && row == Queued
                  && (t.account.ownership.ticket == Terminal
                      || (t.account.ownership == Ownership(Actionable, false, true) && t.account.targetOk
                          && if idem == NoRecord then t.account.reply == Ok && !t.account.persist.raised else idem == Settled(Added))))
  {
  }

  /** A turn adds a comment: the row is queued and its source's checks allow it, and the write lands. */
  ghost predicate Publishes(src: Source, row: Status, idem: Idem, t: Turn) {
    t.readable && row == Queued &&
    if src == Account then
      t.message && t.account.deliverable && t.account.ownership == Ownership(Actionable, false, true) && t.account.targetOk
      && idem == NoRecord && (t.account.reply == Ok || t.account.lands)
    else
      t.seen == Queued && t.approval.guard == Pass && (src == Engineer || t.approval.attachable)
      && (t.approval.reply == Ok || t.approval.lands)
  }

  /** The loop's body. */
  method DrainOne(row: CommentRow, t: Turn) returns (raised: bool)
    requires row.src != Account && t.approval.guard.Stop? ==> CanStop(row.src, t.approval.guard.to)
    modifies row
    ensures row.At(Idle) == Play(old(row.At(Listed(t.seen))), old(TurnRun(row.src, row.status, row.idem, row.posts, t)))
    ensures raised <==> old(TurnRaises(row.src, row.status, row.idem, row.posts, t))
    ensures row.posts == old(row.posts) + if old(Publishes(row.src, row.status, row.idem, t)) then 1 else 0
    ensures !t.readable ==> row.At(Idle) == old(row.At(Idle))
    ensures t.readable && row.src == Account && !t.message ==>
              row.status == (if t.seen == Queued && old(row.status) != Delivered then Failed else old(row.status)) && row.idem == old(row.idem)
    ensures (t.readable && row.src == Account && t.message && t.account.deliverable && t.account.ownership.ticket == Terminal
             && old(row.status) == Queued) ==> row.status == Cancelled
    ensures t.readable && row.src != Account && t.seen == Queued && t.approval.guard.Stop? && old(row.status) != Delivered ==>
              row.status == t.approval.guard.to
  {
    raised := false;
    if !t.readable {
      PlayFirst(row.At(Listed(t.seen)), Crash(0, false), []);
      return true;
    }
    if row.src == Engineer || row.src == Hermes {
      raised := DeliverApproved(row, t.seen, t.approval);
    } else if !t.message {
      PlayFirst(row.At(Listed(t.seen)), MissingMessage(0), []);
      if t.seen == Queued {
        row.Complete(Failed);
      }
    } else {
      raised := DeliverAccountReply(row, t.seen, t.account);
    }
  }

  /** A row before and after its turn: it ends where its own machine leaves it, with one comment more exactly
      if the turn publishes. */
  ghost predicate Took(before: View, t: Turn, after: View) {
    && after == Play(before.(pc := Listed(t.seen)), TurnRun(before.src, before.row, before.idem, before.posts, t))
    && after.posts == before.posts + if Publishes(before.src, before.row, before.idem, t) then 1 else 0
  }

  /** The whole drain handles the listed rows up to and including the first whose turn raises: each of
      these takes its own turn, and every later row stays as it was. */
  method Drain(rows: seq<CommentRow>, turns: seq<Turn>) returns (handled: nat, raised: bool)
    requires |turns| == |rows| && forall j, k :: 0 <= j < k < |rows| ==> rows[j] != rows[k]
    requires forall k :: 0 <= k < |rows| && rows[k].src != Account && turns[k].approval.guard.Stop? ==>
               CanStop(rows[k].src, turns[k].approval.guard.to)
    modifies rows
    ensures handled <= |rows| && (if raised then handled > 0 else handled == |rows|)
    ensures forall k :: 0 <= k < handled ==>
              (old(TurnRaises(rows[k].src, rows[k].status, rows[k].idem, rows[k].posts, turns[k])) <==> raised && k == handled - 1)
    ensures forall k :: 0 <= k < handled ==> Took(old(rows[k].At(Idle)), turns[k], rows[k].At(Idle))
    ensures forall k :: handled <= k < |rows| ==> rows[k].At(Idle) == old(rows[k].At(Idle))
  {
    raised := false;
    handled := 0;
    while handled < |rows| && !raised
      invariant 0 <= handled <= |rows| && (raised ==> handled > 0)
      invariant forall k :: 0 <= k < handled ==>
                  (old(TurnRaises(rows[k].src, rows[k].status, rows[k].idem, rows[k].posts, turns[k])) <==> raised && k == handled - 1)
      invariant forall k :: 0 <= k < handled ==> Took(old(rows[k].At(Idle)), turns[k], rows[k].At(Idle))
      invariant forall k :: handled <= k < |rows| ==> rows[k].At(Idle) == old(rows[k].At(Idle))
      decreases |rows| - handled
    {
      raised := DrainOne(rows[handled], turns[handled]);
      handled := handled + 1;
    }
  }

  /** A turn is a run of the row's ledger machine by one worker. */
  lemma TurnIsARun(v: View, t: Turn)
    ensures var es := TurnRun(v.src, v.row, v.idem, v.posts, t); Exec(Step, Solo(v), es) == Solo(Play(v, es))
  {
    var es := TurnRun(v.src, v.row, v.idem, v.posts, t);
    if v.src == Account && t.message && t.readable {
      AttemptIsARun(v, t.account);
    } else {
      assert ByOne(es);
      PlayIsARun(v, es);
    }
  }

  /** The row after one turn of one drain, and after any number of them. */
  function AfterTurn(v: View, t: Turn): View {
    Play(v.(pc := Listed(t.seen)), TurnRun(v.src, v.row, v.idem, v.posts, t)).(pc := Idle)
  }

  function AfterTurns(v: View, ts: seq<Turn>): View {
    if ts == [] then v else AfterTurn(AfterTurns(v, ts[..|ts| - 1]), ts[|ts| - 1])
  }

  lemma SoloInv(v: View, pc: Pc)
    requires Inv(Solo(v)) && (pc == Idle || (v.pc == Idle && pc.Listed?))
    ensures Inv(Solo(v.(pc := pc)))
  {
    CountUpdate(Holder, [v.pc], 0, pc);
    assert [v.pc][0 := pc] == [pc];
  }

  /** However many drains handle a row, one after the other, with whatever listings, answers, lost
      replies and audits: it gets at most one public comment, and delivered means exactly one. */
  lemma {:induction false} DrainsPostOnce(src: Source, ts: seq<Turn>)
    ensures var v := AfterTurns(View(src, Queued, NoRecord, 0, Idle), ts);
            v.pc == Idle && Inv(Solo(v)) && v.posts <= 1 && (v.row == Delivered ==> v.posts == 1)
    decreases |ts|
  {
    var start := View(src, Queued, NoRecord, 0, Idle);
    if ts == [] {
      InitInv(src, 1);
      assert Init(src, 1) == Solo(start);
    } else {
      var t, v := ts[|ts| - 1], AfterTurns(start, ts[..|ts| - 1]);
      DrainsPostOnce(src, ts[..|ts| - 1]);
      SoloInv(v, Listed(t.seen));
      var listed := v.(pc := Listed(t.seen));
      TurnIsARun(listed, t);
      RunInv(Solo(listed), TurnRun(v.src, v.row, v.idem, v.posts, t));
      SoloInv(Play(listed, TurnRun(v.src, v.row, v.idem, v.posts, t)), Idle);
    }
  }
}
