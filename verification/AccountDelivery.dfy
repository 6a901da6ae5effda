/** The account worker's delivery of one published reply, as it runs against the ledger row: claim,
    guard, write, persist, and the read-only reconciliation. Each call is proved to be one run of
    the ledger machine, so every theorem about the machine covers it. */
module AccountDelivery {
  import opened Machines
  import opened ZendeskLedger

  datatype TicketClass = Actionable | Terminal | Unconfirmed

  /** The ownership read that precedes the public write. */
  datatype Ownership = Ownership(ticket: TicketClass, policyBlocked: bool, confirmed: bool)

  /** A persisting call: it raised or not, and if it raised it may have committed all the same. */
  datatype Persist = Persist(raised: bool, committedAnyway: bool)

  datatype Audit = Audit(targetOk: bool, found: bool, solveVerified: bool, persist: Persist)

  /** `deliverable`: the case, its profile, its automation and its external ids allow a delivery at all.
      `late`: the follow-up behind a closed row raises. */
  datatype World = World(deliverable: bool, ownership: Ownership, targetOk: bool, lands: bool, reply: Reply,
                         persist: Persist, audit: Audit, late: bool)

  /** The row, its idempotency record, and the comments Zendesk shows for it. */
  class CommentRow {
    const src: Source
    var status: Status
    var idem: Idem
    var posts: nat

    constructor (src: Source)
      ensures this.src == src && status == Queued && idem == NoRecord && posts == 0
    {
      this.src := src;
      status, idem, posts := Queued, NoRecord, 0;
    }

    ghost function At(pc: Pc): View
      reads this
    {
      View(src, status, idem, posts, pc)
    }

    method Claim() returns (won: bool, seen: Status)
      modifies this
      ensures won <==> old(status) == Queued
      ensures status == Claimable(old(status)) == seen
      ensures idem == old(idem) && posts == old(posts)
    {
      won := status == Queued;
      if won { status := Pending; }
      seen := status;
    }

    method Complete(to: Status)
      modifies this
      ensures status == Completed(old(status), to)
      ensures idem == old(idem) && posts == old(posts)
    {
      if status != Delivered { status := to; }
    }

    method Requeue()
      modifies this
      ensures status == Requeued(old(status))
      ensures idem == old(idem) && posts == old(posts)
    {
      if status == Pending { status := Queued; }
    }

    method BeginIdempotent() returns (created: bool)
      modifies this
      ensures created <==> old(idem) == NoRecord
      ensures idem == if old(idem) == NoRecord then Processing else old(idem)
      ensures status == old(status) && posts == old(posts)
    {
      created := idem == NoRecord;
      if created { idem := Processing; }
    }

    method PersistResult(r: Outcome, p: Persist) returns (raised: bool)
      requires idem != NoRecord
      modifies this
      ensures raised == p.raised && posts == old(posts)
      ensures if p.raised && !p.committedAnyway then status == old(status) && idem == old(idem)
              else idem == Resettled(old(idem), r) && status == Completed(old(status), StatusFor(r))
    {
      raised := p.raised;
      if !p.raised || p.committedAnyway {
        if idem != Settled(Added) { idem := Settled(r); }
        if status != Delivered { status := StatusFor(r); }
      }
    }
  }

  // ----- the events one undisturbed call stands for -----

  /** A persisting call that took effect. */
  predicate Stored(p: Persist) { !p.raised || p.committedAnyway }

  /** What a read-only reconciliation closes an open row as: delivered takes a comment that is there, found
      with its solve, and a persisted finding. */
  function AuditedAs(posts: nat, a: Audit): Status {
    if !a.targetOk then Failed
    else if a.found && posts > 0 && a.solveVerified && Stored(a.persist) then Delivered
    else OutcomeUnknown
  }

  function Lands(w: World): bool { w.reply == Ok || w.lands }

  function PersistEvent(p: Persist): Event { Record(0, !p.raised || p.committedAnyway, p.raised) }

  function ReconcileRun(idem: Idem, posts: nat, a: Audit): seq<Event> {
    if !a.targetOk then [StartAudit(0, false)] + ([Complete(0)] + [])
    else if idem == Settled(Added) then [StartAudit(0, true)] + []
    else
      [StartAudit(0, true)] + ([ReadAudit(0, a.found && posts > 0, a.solveVerified)] + ([PersistEvent(a.persist)]
      + if a.persist.raised then [Complete(0)] + [] else []))
  }

  /** Persisting `r`, and reading back when that leaves the outcome unknown. */
  function SettleRun(idem: Idem, posts: nat, r: Outcome, w: World): seq<Event> {
    var kept := if w.persist.raised && !w.persist.committedAnyway then idem else Resettled(idem, r);
    [PersistEvent(w.persist)]
    + if w.persist.raised || r == Unknown then ReconcileRun(kept, posts, w.audit) else []
  }

  function SendRun(posts: nat, w: World): seq<Event> {
    var after := posts + if Lands(w) then 1 else 0;
    [Write(0, Lands(w), w.reply)]
    + match w.reply
      case Ok => SettleRun(Processing, after, Added, w)
      case Ambiguous => SettleRun(Processing, after, Unknown, w)
      case Refused => SettleRun(Processing, after, Rejected, w)
      case Broke => [Complete(0)] + []
  }

  function WriteRun(idem: Idem, posts: nat, w: World): seq<Event> {
    [Begin(0)]
    + if idem == NoRecord then SendRun(posts, w)
      else if idem.Settled? && idem.outcome != Added then SettleRun(idem, posts, idem.outcome, w)
      else []
  }

  function ClaimedRun(idem: Idem, posts: nat, w: World): seq<Event> {
    if w.ownership.ticket == Terminal then [ReleaseStop(0, Cancelled)] + []
    else if w.ownership.policyBlocked then [ReleaseStop(0, Failed)] + []
    else if !w.ownership.confirmed || w.ownership.ticket == Unconfirmed then [Undo(0)] + []
    else if !w.targetOk then [ReleaseStop(0, Failed)] + []
    else WriteRun(idem, posts, w)
  }

  /** The whole attempt by a worker that knows of the row. */
  function AttemptRun(status: Status, idem: Idem, posts: nat, w: World): seq<Event> {
    if !w.deliverable then [Crash(0, false)] + []
    else [Claim(0)] + if status == Queued then ClaimedRun(idem, posts, w)
                      else if Open(status) then ReconcileRun(idem, posts, w.audit) else []
  }

  /** The write call comes back with an added comment: its own, or the one its record already holds. */
  predicate Adds(idem: Idem, w: World) { if idem == NoRecord then w.reply == Ok && !w.persist.raised else idem == Settled(Added) }

  /** The attempt ends in a follow-up: the event of a cancelled reply, or the hand-over behind an added one. */
  predicate FollowsUp(status: Status, idem: Idem, w: World) {
    w.deliverable && status == Queued && (w.ownership.ticket == Terminal || (Clear(w) && Adds(idem, w)))
  }

  // ----- the code -----

  method Reconcile(row: CommentRow, a: Audit)
    requires row.src == Account
    modifies row
    ensures row.At(Idle) == Play(old(row.At(Auditing)), old(ReconcileRun(row.idem, row.posts, a)))
    ensures row.posts == old(row.posts)
    ensures row.status == if old(row.status) == Delivered || (a.targetOk && old(row.idem) == Settled(Added)) then old(row.status)
                          else AuditedAs(row.posts, a)
  {
    ghost var v0 := row.At(Auditing);
    if !a.targetOk {
      PlayFirst(v0, StartAudit(0, false), [Complete(0)] + []);
      PlayFirst(row.At(Completing(Failed)), Complete(0), []);
      row.Complete(Failed);
      return;
    }
    if row.idem == Settled(Added) {
      PlayFirst(v0, StartAudit(0, true), []);
      return;
    }
    ReadBack(row, a);
  }

  /** The read-only part of a reconciliation, up to persisting what it found. */
  lemma AuditPlays(v: View, seen: bool, verified: bool, rest: seq<Event>)
    requires v.src == Account && v.pc == Auditing && v.idem != Settled(Added) && (seen ==> v.posts > 0)
    ensures Play(v, [StartAudit(0, true)] + ([ReadAudit(0, seen, verified)] + rest)) ==
              Play(v.(idem := if v.idem == NoRecord then Processing else v.idem,
                      pc := Recording(if seen && verified then Added else Unknown, true)), rest)
  {
    PlayFirst(v, StartAudit(0, true), [ReadAudit(0, seen, verified)] + rest);
    PlayFirst(Act(v, StartAudit(0, true)), ReadAudit(0, seen, verified), rest);
  }

  method ReadBack(row: CommentRow, a: Audit)
    requires row.src == Account
    requires row.idem != Settled(Added) && a.targetOk
    modifies row
    ensures row.At(Idle) == Play(old(row.At(Auditing)), old(ReconcileRun(row.idem, row.posts, a)))
    ensures row.posts == old(row.posts)
    ensures row.status == if old(row.status) == Delivered then Delivered else AuditedAs(row.posts, a)
  {
    var seen := a.found && row.posts > 0;
    var r := if seen && a.solveVerified then Added else Unknown;
    ghost var last := if a.persist.raised then [Complete(0)] + [] else [];
    AuditPlays(row.At(Auditing), seen, a.solveVerified, [PersistEvent(a.persist)] + last);
    var created := row.BeginIdempotent();
    PersistFound(row, r, a.persist);
  }

  method PersistFound(row: CommentRow, r: Outcome, p: Persist)
    requires row.src == Account
    requires row.idem != NoRecord
    modifies row
    ensures row.At(Idle) == Play(old(row.At(Recording(r, true))), [PersistEvent(p)] + if p.raised then [Complete(0)] + [] else [])
    ensures row.posts == old(row.posts)
    ensures row.status == if old(row.status) == Delivered || (r == Added && Stored(p)) then Delivered
                          else if r == Rejected && !p.raised then Failed else OutcomeUnknown
  {
    PlayFirst(row.At(Recording(r, true)), PersistEvent(p), if p.raised then [Complete(0)] + [] else []);
    var raised := row.PersistResult(r, p);
    if raised {
      PlayFirst(row.At(Completing(OutcomeUnknown)), Complete(0), []);
      row.Complete(OutcomeUnknown);
    }
  }

  method Settle(row: CommentRow, r: Outcome, w: World)
    requires row.src == Account
    requires row.idem != NoRecord
    modifies row
    ensures row.At(Idle) == Play(old(row.At(Recording(r, false))), old(SettleRun(row.idem, row.posts, r, w)))
    ensures row.posts == old(row.posts)
    ensures old(row.status) == Pending && old(row.idem) != Settled(Added) ==>
              row.status == if r == Added && Stored(w.persist) then Delivered
                            else if w.persist.raised || r == Unknown then AuditedAs(row.posts, w.audit) else Failed
  {
    ghost var v0, kept := row.At(Recording(r, false)),
                          if w.persist.raised && !w.persist.committedAnyway then row.idem else Resettled(row.idem, r);
    PlayFirst(v0, PersistEvent(w.persist), if w.persist.raised || r == Unknown then ReconcileRun(kept, row.posts, w.audit) else []);
    var raised := row.PersistResult(r, w.persist);
    if raised || r == Unknown {
      Reconcile(row, w.audit);
    }
  }

  /** The public write itself, by the worker whose record opened the idempotency fence. */
  method SendComment(row: CommentRow, w: World)
    requires row.src == Account
    requires row.idem == Processing
    modifies row
    ensures row.At(Idle) == Play(old(row.At(Sending)), old(SendRun(row.posts, w)))
    ensures row.posts == old(row.posts) + if w.reply == Ok || w.lands then 1 else 0
    ensures old(row.status) == Pending ==>
              row.status == if w.reply == Broke then Failed
                            else if w.reply == Ok && Stored(w.persist) then Delivered
                            else if w.reply == Ambiguous || w.persist.raised then AuditedAs(row.posts, w.audit) else Failed
  {
    ghost var v0, es := row.At(Sending), SendRun(row.posts, w);
    row.posts := row.posts + if Lands(w) then 1 else 0;
    PlayFirst(v0, Write(0, Lands(w), w.reply), es[1..]);
    assert es == [Write(0, Lands(w), w.reply)] + es[1..];
    if w.reply == Broke {
      PlayFirst(row.At(Completing(Failed)), Complete(0), []);
      row.Complete(Failed);
      return;
    }
    var r := if w.reply == Ok then Added else if w.reply == Ambiguous then Unknown else Rejected;
    assert es[1..] == SettleRun(Processing, row.posts, r, w);
    Settle(row, r, w);
  }

  method WriteComment(row: CommentRow, w: World) returns (added: bool)
    requires row.src == Account
    modifies row
    ensures added <==> old(Adds(row.idem, w))
    ensures row.posts == old(row.posts) + if old(row.idem) == NoRecord && (w.reply == Ok || w.lands) then 1 else 0
    ensures old(row.status) == Pending ==>
              row.status == match old(row.idem)
                            case NoRecord =>
                              if w.reply == Broke then Failed
                              else if w.reply == Ok && Stored(w.persist) then Delivered
                              else if w.reply == Ambiguous || w.persist.raised then AuditedAs(row.posts, w.audit) else Failed
                            case Processing => Pending
                            case Settled(r) =>
                              if r == Added then Pending
                              else if r == Unknown || w.persist.raised then AuditedAs(row.posts, w.audit) else Failed
    ensures row.At(Idle) == Play(old(row.At(Claimed)), old(WriteRun(row.idem, row.posts, w)))
  {
    ghost var v0, es := row.At(Claimed), WriteRun(row.idem, row.posts, w);
    PlayFirst(v0, Begin(0), es[1..]);
    assert es == [Begin(0)] + es[1..];
    var record := row.idem;
    var created := row.BeginIdempotent();
    if created {
      assert es[1..] == SendRun(row.posts, w);
      SendComment(row, w);
      added := w.reply == Ok && !w.persist.raised;
    } else if record.Settled? && record.outcome != Added {
      assert es[1..] == SettleRun(record, row.posts, record.outcome, w);
      Settle(row, record.outcome, w);
      added := false;
    } else {
      assert es[1..] == [];
      added := record == Settled(Added);
    }
  }

  /** Everything read before the write allows it: the ticket is open, nobody else owns it, and the reply
      still has its target. */
  predicate Clear(w: World) {
    w.ownership.ticket == Actionable && !w.ownership.policyBlocked && w.ownership.confirmed && w.targetOk
  }

  /** Where a claimed row ends, on row, record and comments alone. */
  ghost predicate Ended(pending: bool, idem: Idem, posts: nat, w: World, status: Status, after: nat) {
    && after == posts + (if Clear(w) && idem == NoRecord && (w.reply == Ok || w.lands) then 1 else 0)
    && (pending ==>
          && (status == Cancelled <==> w.ownership.ticket == Terminal)
          && (status == Queued <==> w.ownership.ticket != Terminal && !w.ownership.policyBlocked
                                    && (w.ownership.ticket == Unconfirmed || !w.ownership.confirmed))
          && (status == Pending <==> Clear(w) && (idem == Processing || idem == Settled(Added)))
          && (status == Delivered <==> Clear(w) && Delivers(idem, after, w))
          && (status == OutcomeUnknown <==> Clear(w) && Audits(idem, w) && AuditedAs(after, w.audit) == OutcomeUnknown))
  }

  /** A read-only reconciliation follows the write, or the record of an earlier one. */
  ghost predicate Audits(idem: Idem, w: World) {
    match idem
    case NoRecord => w.reply != Broke && !(w.reply == Ok && Stored(w.persist)) && (w.reply == Ambiguous || w.persist.raised)
    case Processing => false
    case Settled(r) => r != Added && (r == Unknown || w.persist.raised)
  }

  ghost predicate Delivers(idem: Idem, after: nat, w: World) {
    (idem == NoRecord && w.reply == Ok && Stored(w.persist)) || (Audits(idem, w) && AuditedAs(after, w.audit) == Delivered)
  }

  /** What the claimant does between its claim and the write, and whether a follow-up comes behind it. */
  method GuardAndWrite(row: CommentRow, w: World) returns (follow: bool)
    requires row.src == Account && w.deliverable
    modifies row
    ensures follow <==> old(FollowsUp(Queued, row.idem, w))
    ensures Ended(old(row.status) == Pending, old(row.idem), old(row.posts), w, row.status, row.posts)
    ensures !Clear(w) ==> row.idem == old(row.idem)
    ensures row.At(Idle) == Play(old(row.At(Claimed)), old(ClaimedRun(row.idem, row.posts, w)))
  {
    ghost var v0, es := row.At(Claimed), ClaimedRun(row.idem, row.posts, w);
    follow := w.ownership.ticket == Terminal;
    if w.ownership.ticket == Terminal {
      row.Complete(Cancelled);
    } else if w.ownership.policyBlocked {
      row.Complete(Failed);
    } else if !w.ownership.confirmed {
      row.Requeue();
    } else if w.ownership.ticket == Unconfirmed {
      row.Requeue();
    } else if !w.targetOk {
      row.Complete(Failed);
    } else {
      follow := WriteComment(row, w);
      return;
    }
    PlayFirst(v0, es[0], []);
    assert es == [es[0]] + [];
  }

  /** One delivery attempt by a worker that listed the row as `seen`, which may be long ago. Whatever
      the world does, it takes the row exactly where the ledger machine says this worker's events
      take it; and it raises exactly when its follow-up does. */
  method DeliverAccountReply(row: CommentRow, ghost seen: Status, w: World) returns (raised: bool)
    requires row.src == Account
    modifies row
    ensures row.At(Idle) == Play(old(row.At(Listed(seen))), old(AttemptRun(row.status, row.idem, row.posts, w)))
    ensures raised <==> w.late && old(FollowsUp(row.status, row.idem, w))
    ensures raised <==> w.late && w.deliverable && old(row.status) == Queued
                        && (w.ownership.ticket == Terminal
                            || (Clear(w) && if old(row.idem) == NoRecord then w.reply == Ok && !w.persist.raised else old(row.idem) == Settled(Added)))
    ensures old(row.status) == Queued && w.deliverable ==> Ended(true, old(row.idem), old(row.posts), w, row.status, row.posts)
    // a comment is added exactly when everything allows it, no record stands in the way and the write lands
    ensures row.posts == old(row.posts) +
              if old(row.status) == Queued && w.deliverable && w.ownership == Ownership(Actionable, false, true) && w.targetOk
                 && old(row.idem) == NoRecord && (w.reply == Ok || w.lands) then 1 else 0
    // a closed ticket cancels the row and nothing else happens
    ensures old(row.status) == Queued && w.deliverable && w.ownership.ticket == Terminal ==>
              row.status == Cancelled && row.idem == old(row.idem) && row.posts == old(row.posts)
    ensures old(row.status) == Queued && w.deliverable && !Clear(w) ==> row.idem == old(row.idem)
    ensures !w.deliverable || !Open(old(row.status)) ==> row.At(Idle) == old(row.At(Idle))
    ensures w.deliverable && (old(row.status) == Pending || old(row.status) == OutcomeUnknown) ==>
              row.status == if w.audit.targetOk && old(row.idem) == Settled(Added) then old(row.status) else AuditedAs(row.posts, w.audit)
  {
    if !w.deliverable {
      PlayFirst(row.At(Listed(seen)), Crash(0, false), []);
      return false;
    }
    ghost var rest := AttemptRun(row.status, row.idem, row.posts, w)[1..];
    assert AttemptRun(row.status, row.idem, row.posts, w) == [Claim(0)] + rest;
    PlayFirst(row.At(Listed(seen)), Claim(0), rest);
    raised := false;
    var won, found := row.Claim();
    if won {
      var follow := GuardAndWrite(row, w);
      raised := follow && w.late;
    } else if found == Pending || found == OutcomeUnknown {
      Reconcile(row, w.audit);
    }
  }

  predicate ByOne(es: seq<Event>) { forall i :: 0 <= i < |es| ==> es[i].w == 0 }

  lemma ReconcileByOne(idem: Idem, posts: nat, a: Audit)
    ensures ByOne(ReconcileRun(idem, posts, a))
  {
  }

  lemma SettleByOne(idem: Idem, posts: nat, r: Outcome, w: World)
    ensures ByOne(SettleRun(idem, posts, r, w))
  {
    ReconcileByOne(if w.persist.raised && !w.persist.committedAnyway then idem else Resettled(idem, r), posts, w.audit);
  }

  lemma WriteByOne(idem: Idem, posts: nat, w: World)
    ensures ByOne(WriteRun(idem, posts, w))
  {
    var after := posts + if Lands(w) then 1 else 0;
    var r := if w.reply == Ok then Added else if w.reply == Ambiguous then Unknown else Rejected;
    SettleByOne(Processing, after, r, w);
    assert ByOne(SendRun(posts, w));
    if idem.Settled? { SettleByOne(idem, posts, idem.outcome, w); }
  }

  /** An attempt is a run of the ledger machine by one worker. */
  lemma AttemptIsARun(v: View, w: World)
    ensures var es := AttemptRun(v.row, v.idem, v.posts, w); Exec(Step, Solo(v), es) == Solo(Play(v, es))
  {
    WriteByOne(v.idem, v.posts, w);
    ReconcileByOne(v.idem, v.posts, w.audit);
    assert ByOne(ClaimedRun(v.idem, v.posts, w));
    assert ByOne(AttemptRun(v.row, v.idem, v.posts, w));
    PlayIsARun(v, AttemptRun(v.row, v.idem, v.posts, w));
  }
}
