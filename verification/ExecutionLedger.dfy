/** Executions of a case request: one record per request id, a ledger of the Zendesk operations it
    made, and the reconciliation of operations whose outcome is unknown. */
module ExecutionLedger {
  import opened Machines

  datatype Operation = TakeOwnership | Comment | SetStatus | Foreign(name: string)

  datatype ItemStatus = ItemPending | ItemCompleted | ItemUnknown

  /** `evidence` stands for what a delivery or a read-back adds: comment id, ticket status, assignee. */
  datatype Item = Item(operation: Operation, status: ItemStatus, attempt: nat, ticket: string, evidence: Option<string>)

  datatype Status = Pending | Prepared | Completed | HumanReview | Failed | Unknown

  datatype Record = Record(status: Status, ledger: seq<Item>, visible: bool, reconciled: bool)

  // ----- the side effects and the ledger they leave -----

  datatype Fx =
    | FxDone(done: seq<(Operation, string)>)
    | FxError(done: seq<(Operation, string)>, unknown: bool)
    | FxRaised

  datatype Ownership = Assigned(evidence: string) | Refused | Raised

  /** What the three Zendesk calls return; a `None` is an exception. The exceptions of comment and status
      are turned into the adapter's error, that of the ownership call is not. */
  datatype Zendesk = Zendesk(configured: bool, ownership: Ownership, comment: Option<string>, status: Option<string>)

  /** The calls in their order, stopping at the first that fails. */
  function SideEffects(z: Zendesk): Fx {
    if !z.configured then FxError([], false)
    else if z.ownership == Raised then FxRaised
    else if z.ownership == Refused then FxError([], false)
    else
      var d1 := [(TakeOwnership, z.ownership.evidence)];
      if z.comment.None? then FxError(d1, true)
      else
        var d2 := d1 + [(Comment, z.comment.value)];
        if z.status.None? then FxError(d2, true) else FxDone(d2 + [(SetStatus, z.status.value)])
  }

  function PendingLedger(ticket: string): seq<Item> {
    [Item(TakeOwnership, ItemPending, 0, ticket, None), Item(Comment, ItemPending, 0, ticket, None),
     Item(SetStatus, ItemPending, 0, ticket, None)]
  }

  /** The last thing said about an operation. */
  function Observed(done: seq<(Operation, string)>, op: Operation): Option<string> {
    if done == [] then None
    else if done[|done| - 1].0 == op then Some(done[|done| - 1].1)
    else Observed(done[..|done| - 1], op)
  }

  function MergeItem(item: Item, done: seq<(Operation, string)>, unknown: bool): Item {
    var seen := Observed(done, item.operation);
    var again := item.(attempt := item.attempt + 1);
    if seen.Some? then again.(status := ItemCompleted, evidence := seen)
    else if unknown then again.(status := ItemUnknown) else again
  }

  function Merge(pending: seq<Item>, done: seq<(Operation, string)>, unknown: bool): seq<Item> {
    seq(|pending|, i requires 0 <= i < |pending| => MergeItem(pending[i], done, unknown))
  }

  /** The last of these is about the operation. */
  ghost predicate IsLast(done: seq<(Operation, string)>, k: int, op: Operation) {
    0 <= k < |done| && done[k].0 == op && forall j :: k < j < |done| ==> done[j].0 != op
  }

  lemma {:induction false} ObservedLast(done: seq<(Operation, string)>, op: Operation)
    ensures match Observed(done, op)
            case None => forall k :: 0 <= k < |done| ==> done[k].0 != op
            case Some(evidence) => exists k :: IsLast(done, k, op) && done[k].1 == evidence
    decreases |done|
  {
    if done != [] {
      var n := |done| - 1;
      ObservedLast(done[..n], op);
      if done[n].0 == op {
        assert IsLast(done, n, op);
      } else if Observed(done[..n], op).Some? {
        var k :| IsLast(done[..n], k, op) && done[..n][k].1 == Observed(done[..n], op).value;
        assert IsLast(done, k, op);
      }
    }
  }

  method MergeLedger(pending: seq<Item>, done: seq<(Operation, string)>, unknown: bool) returns (merged: seq<Item>)
    ensures merged == Merge(pending, done, unknown)
    ensures |merged| == |pending|
    ensures forall i :: 0 <= i < |pending| ==>
              && merged[i].operation == pending[i].operation && merged[i].ticket == pending[i].ticket
              && merged[i].attempt == pending[i].attempt + 1
              && if exists k :: 0 <= k < |done| && done[k].0 == pending[i].operation
                 then merged[i].status == ItemCompleted
                      && exists k :: IsLast(done, k, pending[i].operation) && merged[i].evidence == Some(done[k].1)
                 else merged[i].evidence == pending[i].evidence
                      && merged[i].status == if unknown then ItemUnknown else pending[i].status
  {
    forall i | 0 <= i < |pending| { ObservedLast(done, pending[i].operation); }
    merged := [];
    for i := 0 to |pending|
      invariant |merged| == i && forall k :: 0 <= k < i ==> merged[k] == MergeItem(pending[k], done, unknown)
    {
      merged := merged + [MergeItem(pending[i], done, unknown)];
    }
  }

  // ----- reconciliation -----

  datatype Readback = Confirmed(evidence: string) | NotConfirmed | Broken

  predicate Knows(ledger: seq<Item>, op: Operation) {
    exists i :: 0 <= i < |ledger| && ledger[i].operation == op
  }

  predicate IsUnknown(ledger: seq<Item>, op: Operation) {
    exists i :: 0 <= i < |ledger| && ledger[i].operation == op && ledger[i].status == ItemUnknown
  }

  /** The last unknown item of an operation: what its read-back looks at. */
  function UnknownItem(ledger: seq<Item>, op: Operation): (r: Option<Item>)
    ensures r.Some? <==> IsUnknown(ledger, op)
  {
    if ledger == [] then None
    else
      var n := |ledger| - 1;
      assert ledger == ledger[..n] + [ledger[n]];
      if ledger[n].operation == op && ledger[n].status == ItemUnknown then Some(ledger[n])
      else UnknownItem(ledger[..n], op)
  }

  /** What a caller has to have in place for a reconciliation to go through. */
  ghost predicate Reconcilable(r: Record, ops: set<Operation>, read: Item -> Readback) {
    && ops != {} && r.status == Unknown
    && (forall op :: op in ops ==> Knows(r.ledger, op))
    && r.ledger != []
    && (forall op :: IsUnknown(r.ledger, op) ==> op in ops)
    && r.visible
    && (exists i :: 0 <= i < |r.ledger| && r.ledger[i].ticket != "")
    && (forall op :: IsUnknown(r.ledger, op) ==> CanConfirm(r.ledger, op, read))
  }

  /** An operation the ledger does not have, an unknown one that is not asked about, no visibility, or no ticket. */
  ghost predicate Refusable(r: Record, ops: set<Operation>) {
    || (exists op :: op in ops && forall i :: 0 <= i < |r.ledger| ==> r.ledger[i].operation != op)
    || (exists i :: 0 <= i < |r.ledger| && r.ledger[i].status == ItemUnknown && r.ledger[i].operation !in ops)
    || !r.visible
    || (forall i :: 0 <= i < |r.ledger| ==> r.ledger[i].ticket == "")
  }

  ghost predicate LastUnknown(ledger: seq<Item>, i: int) {
    && 0 <= i < |ledger| && ledger[i].status == ItemUnknown
    && forall j :: i < j < |ledger| ==> ledger[j].operation != ledger[i].operation || ledger[j].status != ItemUnknown
  }

  lemma {:induction false} UnknownItemIsLast(ledger: seq<Item>, op: Operation) returns (i: nat)
    requires IsUnknown(ledger, op)
    ensures LastUnknown(ledger, i) && ledger[i].operation == op && UnknownItem(ledger, op) == Some(ledger[i])
    decreases |ledger|
  {
    var n := |ledger| - 1;
    i := n;
    if !(ledger[n].operation == op && ledger[n].status == ItemUnknown) {
      assert ledger == ledger[..n] + [ledger[n]];
      i := UnknownItemIsLast(ledger[..n], op);
      assert ledger[..n][i] == ledger[i];
    }
  }

  /** The condition on the record itself: an unknown outcome, every operation asked about in the ledger, every
      unknown one asked about, a visibility, a ticket, and a confirming read-back of the last unknown item of
      each operation, which is one of the three. */
  lemma ReconcilableExactly(r: Record, ops: set<Operation>, read: Item -> Readback)
    ensures Reconcilable(r, ops, read) <==>
              && ops != {} && r.status == Unknown && r.visible
              && (forall op :: op in ops ==> exists i :: 0 <= i < |r.ledger| && r.ledger[i].operation == op)
              && (forall i :: 0 <= i < |r.ledger| && r.ledger[i].status == ItemUnknown ==> r.ledger[i].operation in ops)
              && (exists i :: 0 <= i < |r.ledger| && r.ledger[i].ticket != "")
              && (forall i :: LastUnknown(r.ledger, i) ==> !r.ledger[i].operation.Foreign? && read(r.ledger[i]).Confirmed?)
  {
    forall i | LastUnknown(r.ledger, i)
      ensures IsUnknown(r.ledger, r.ledger[i].operation) && UnknownItem(r.ledger, r.ledger[i].operation) == Some(r.ledger[i])
    {
      assert IsUnknown(r.ledger, r.ledger[i].operation);
      var j := UnknownItemIsLast(r.ledger, r.ledger[i].operation);
      assert i == j;
    }
    forall op | IsUnknown(r.ledger, op)
      ensures exists i :: LastUnknown(r.ledger, i) && r.ledger[i].operation == op && UnknownItem(r.ledger, op) == Some(r.ledger[i])
    {
      var i := UnknownItemIsLast(r.ledger, op);
    }
  }

  function ReconciledItem(ledger: seq<Item>, item: Item, read: Item -> Readback): Item {
    var unknown := UnknownItem(ledger, item.operation);
    if unknown.Some? && read(unknown.value).Confirmed? then
      item.(status := ItemCompleted, evidence := Some(read(unknown.value).evidence))
    else item
  }

  function Reconciled(r: Record, read: Item -> Readback): Record {
    Record(Completed, seq(|r.ledger|, i requires 0 <= i < |r.ledger| => ReconciledItem(r.ledger, r.ledger[i], read)),
           r.visible, true)
  }

  /** A reconciliation that goes through keeps the ledger's length and order, leaves no operation
      unknown, changes only items of operations that were unknown, and closes the record. */
  lemma ReconciledLedger(r: Record, ops: set<Operation>, read: Item -> Readback)
    requires Reconcilable(r, ops, read)
    ensures var u := Reconciled(r, read);
            && u.status == Completed && |u.ledger| == |r.ledger|
            && (forall i :: 0 <= i < |u.ledger| ==>
                  u.ledger[i].operation == r.ledger[i].operation && u.ledger[i].ticket == r.ledger[i].ticket
                  && u.ledger[i].status != ItemUnknown)
            && (forall i :: 0 <= i < |u.ledger| ==>
                  if IsUnknown(r.ledger, r.ledger[i].operation) then u.ledger[i].status == ItemCompleted
                  else u.ledger[i] == r.ledger[i])
            && !Reconcilable(u, ops, read)
  {
    var u := Reconciled(r, read);
    forall i | 0 <= i < |u.ledger|
      ensures u.ledger[i].status != ItemUnknown
      ensures if IsUnknown(r.ledger, r.ledger[i].operation) then u.ledger[i].status == ItemCompleted else u.ledger[i] == r.ledger[i]
    {
      assert r.ledger[i].status == ItemUnknown ==> IsUnknown(r.ledger, r.ledger[i].operation);
    }
  }

  lemma {:induction false} NotObserved(done: seq<(Operation, string)>, op: Operation)
    requires forall i :: 0 <= i < |done| ==> done[i].0 != op
    ensures Observed(done, op).None?
    decreases |done|
  {
    if done != [] { NotObserved(done[..|done| - 1], op); }
  }

  /** The record an execution leaves whose outcome is unknown. */
  function UnknownRecord(z: Zendesk, ticket: string): Record
    requires SideEffects(z).FxError?
  {
    Record(Unknown, Merge(PendingLedger(ticket), SideEffects(z).done, true), true, false)
  }

  /** Merging the outcome of an execution whose later calls are unknown leaves nothing pending. */
  lemma UnknownLedger(ticket: string, done: seq<(Operation, string)>)
    requires forall i :: 0 <= i < |done| ==> done[i].0 != SetStatus
    ensures var ledger := Merge(PendingLedger(ticket), done, true);
            && |ledger| == 3 && ledger[2].operation == SetStatus && ledger[2].status == ItemUnknown
            && forall i :: 0 <= i < 3 ==> ledger[i].operation == PendingLedger(ticket)[i].operation && ledger[i].ticket == ticket
                                          && ledger[i].attempt == 1 && ledger[i].status != ItemPending
  {
    NotObserved(done, SetStatus);
  }

  /** Reconciling a ledger without pending items completes it. */
  lemma ReconciledCompletes(r: Record, ops: set<Operation>, read: Item -> Readback, i: nat)
    requires Reconcilable(r, ops, read) && i < |r.ledger| && r.ledger[i].status != ItemPending
    ensures var u := Reconciled(r, read).ledger[i];
            u.status == ItemCompleted && u.attempt == r.ledger[i].attempt && u.operation == r.ledger[i].operation
  {
    ReconciledLedger(r, ops, read);
  }

  /** Every operation completed, each with one attempt. */
  ghost predicate AllDone(ledger: seq<Item>, pending: seq<Item>) {
    |ledger| == |pending| && forall i :: 0 <= i < |ledger| ==>
      ledger[i].status == ItemCompleted && ledger[i].attempt == 1 && ledger[i].operation == pending[i].operation
  }

  lemma AllReconciled(r: Record, ops: set<Operation>, read: Item -> Readback, pending: seq<Item>)
    requires Reconcilable(r, ops, read) && |r.ledger| == |pending|
    requires forall i :: 0 <= i < |pending| ==>
               r.ledger[i].operation == pending[i].operation && r.ledger[i].attempt == 1 && r.ledger[i].status != ItemPending
    ensures AllDone(Reconciled(r, read).ledger, pending)
  {
    var u := Reconciled(r, read).ledger;
    forall i | 0 <= i < |u|
      ensures u[i].status == ItemCompleted && u[i].attempt == 1 && u[i].operation == pending[i].operation
    {
      ReconciledCompletes(r, ops, read, i);
    }
  }

  /** Round trip: whatever an execution with an unknown outcome got done, reading back the rest
      completes every operation of its ledger, each counted as one attempt. */
  lemma UnknownExecutionIsRepaired(z: Zendesk, ticket: string, ops: set<Operation>, read: Item -> Readback)
    requires ticket != "" && SideEffects(z).FxError? && SideEffects(z).unknown
    requires forall op :: op in ops <==> IsUnknown(UnknownRecord(z, ticket).ledger, op)
    requires forall op :: op in ops ==> read(UnknownItem(UnknownRecord(z, ticket).ledger, op).value).Confirmed?
    ensures Reconcilable(UnknownRecord(z, ticket), ops, read)
    ensures AllDone(Reconciled(UnknownRecord(z, ticket), read).ledger, PendingLedger(ticket))
  {
    var r := UnknownRecord(z, ticket);
    UnknownLedger(ticket, SideEffects(z).done);
    assert SetStatus in ops by { assert IsUnknown(r.ledger, SetStatus); }
    assert r.ledger[0].ticket != "";
    assert Reconcilable(r, ops, read) by {
      forall op | op in ops ensures Knows(r.ledger, op) && CanConfirm(r.ledger, op, read) { assert IsUnknown(r.ledger, op); }
    }
    AllReconciled(r, ops, read, PendingLedger(ticket));
  }

  datatype Reply = Done(record: Record) | NotFound | Conflict | Invalid | BadGateway | Crashed | Replayed(record: Record)

  // ----- at most one execution per request -----

  datatype Pc = Idle | Routing(request: string) | Executing(request: string) | Saving(request: string)

  datatype Action =
    | Start(request: string)
    | Settle(record: Record)       // saved without side effects: route error, human review, prepared
    | SavePending(ledger: seq<Item>)
    | Execute
    | Save(record: Record)
    | Reconcile(request: string, record: Record)
    | Reset
    | Crash

  datatype Event = Worker(w: nat, a: Action)

  /** `effects` is history: how often the side effects of a request were started since the last reset. */
  datatype State = State(records: map<string, Record>, effects: map<string, nat>, pcs: seq<Pc>)

  function Init(n: nat): State { State(map[], map[], seq(n, i => Idle)) }

  function Times(effects: map<string, nat>, r: string): nat { if r in effects then effects[r] else 0 }

  /** What the handler saves without side effects, and behind them. */
  predicate Settles(r: Record) { r.status == Failed || r.status == Prepared || r.status == HumanReview }
  predicate Reports(r: Record) { r.status == Completed || r.status == Failed || r.status == Unknown }

  function Act(records: map<string, Record>, effects: map<string, nat>, pc: Pc, a: Action): (map<string, Record>, map<string, nat>, Pc) {
    match a
    case Start(request) => (records, effects, if pc == Idle && request !in records then Routing(request) else pc)
    case Settle(record) => if pc.Routing? && Settles(record) then (records[pc.request := record], effects, Idle) else (records, effects, pc)
    case SavePending(ledger) =>
      if pc.Routing? then (records[pc.request := Record(Pending, ledger, true, false)], effects, Executing(pc.request))
      else (records, effects, pc)
    case Execute =>
      if pc.Executing? then (records, effects[pc.request := Times(effects, pc.request) + 1], Saving(pc.request))
      else (records, effects, pc)
    case Save(record) => if pc.Saving? && Reports(record) then (records[pc.request := record], effects, Idle) else (records, effects, pc)
    case Reconcile(request, record) =>
      if pc == Idle && request in records && records[request].status == Unknown && record.status == Completed then (records[request := record], effects, pc)
      else (records, effects, pc)
    case Reset => if pc == Idle then (map[], map[], pc) else (records, effects, pc)
    case Crash => (records, effects, Idle)
  }

  function Step(s: State, e: Event): State {
    if e.w < |s.pcs| then
      var (records, effects, pc) := Act(s.records, s.effects, s.pcs[e.w], e.a);
      State(records, effects, s.pcs[e.w := pc])
    else s
  }

  ghost predicate Once(s: State) { forall r :: Times(s.effects, r) <= 1 }

  ghost predicate Inv(s: State) {
    && |s.pcs| <= 1
    && (forall r :: r in s.effects ==> s.effects[r] <= 1 && (s.effects[r] == 1 ==> r in s.records))
    && (|s.pcs| == 1 && s.pcs[0].Routing? ==> s.pcs[0].request !in s.records)
    && (|s.pcs| == 1 && s.pcs[0].Executing? ==> s.pcs[0].request in s.records && Times(s.effects, s.pcs[0].request) == 0)
    && (|s.pcs| == 1 && s.pcs[0].Saving? ==> s.pcs[0].request in s.records)
  }

  lemma StepInv(s: State, e: Event)
    requires Inv(s)
    ensures Inv(Step(s, e))
  {
    if e.w < |s.pcs| {
      var (records, effects, pc) := Act(s.records, s.effects, s.pcs[e.w], e.a);
      assert s.pcs[e.w := pc] == [pc];
    }
  }

  /** Two handlers of the same request both find no record, and both execute. */
  lemma TwoHandlersExecuteTwice(n: nat, r: string) returns (es: seq<Event>)
    requires n >= 2
    ensures Times(Exec(Step, Init(n), es).effects, r) == 2
  {
    es := [Worker(0, Start(r)), Worker(1, Start(r)), Worker(0, SavePending([])), Worker(0, Execute),
           Worker(1, SavePending([])), Worker(1, Execute)];
    var s0 := Init(n);
    var s1 := Step(s0, es[0]);
    var s2 := Step(s1, es[1]);
    assert s2 == s0.(pcs := s0.pcs[0 := Routing(r)][1 := Routing(r)]);
    var s3 := Step(s2, es[2]);
    var s4 := Step(s3, es[3]);
    assert Times(s4.effects, r) == 1 && s4.pcs[1] == Routing(r);
    var s5 := Step(s4, es[4]);
    Run6(Step, s0, es);
  }

  lemma {:induction false} NoHandler(es: seq<Event>)
    ensures Exec(Step, Init(0), es) == Init(0)
    decreases |es|
  {
    if es != [] { NoHandler(es[..|es| - 1]); }
  }

  /** Between resets the side effects of a request run at most once in every run, crashes and reruns
      included, exactly when requests are handled one at a time. */
  lemma OncePerRequestExactly(n: nat)
    ensures (forall es :: Once(Exec(Step, Init(n), es))) <==> n <= 1
  {
    if n <= 1 {
      forall es ensures Once(Exec(Step, Init(n), es)) {
        forall s: State, e: Event | Inv(s) ensures Inv(Step(s, e)) { StepInv(s, e); }
        Invariant(Step, Inv, Init(n), es);
      }
    } else {
      var es := TwoHandlersExecuteTwice(n, "r");
      assert !Once(Exec(Step, Init(n), es));
    }
  }

  // ----- the handlers -----

  /** What the route service answered: an error, or whether the plan is prepared or for a human. */
  datatype Route = RouteError | ForHuman | NotPrepared | Eligible

  /** The record a new execution ends with. */
  function Outcome(route: Route, writes: bool, ticket: string, z: Zendesk): Record {
    if route == RouteError then Record(Failed, [], true, false)
    else if !writes then Record(Prepared, [], true, false)
    else if route == ForHuman then Record(HumanReview, [], true, false)
    else if route == NotPrepared then Record(Failed, [], true, false)
    else
      match SideEffects(z)
      case FxDone(done) => Record(Completed, Merge(PendingLedger(ticket), done, false), true, false)
      case FxError(done, unknown) =>
        Record(if unknown then Unknown else Failed, Merge(PendingLedger(ticket), done, unknown), true, false)
      case FxRaised => Record(Pending, PendingLedger(ticket), true, false)
  }

  predicate Executes(route: Route, writes: bool) { writes && route == Eligible }

  /** The events of one handled request. */
  function Handling(w: nat, request: string, route: Route, writes: bool, ticket: string, z: Zendesk): seq<Event> {
    if Executes(route, writes) then
      [Worker(w, Start(request)), Worker(w, SavePending(PendingLedger(ticket))), Worker(w, Execute),
       Worker(w, if SideEffects(z).FxRaised? then Crash else Save(Outcome(route, writes, ticket, z)))]
    else [Worker(w, Start(request)), Worker(w, Settle(Outcome(route, writes, ticket, z)))]
  }

  class Runtime {
    var records: map<string, Record>
    var effects: map<string, nat>

    constructor ()
      ensures records == map[] && effects == map[]
    {
      records, effects := map[], map[];
    }

    /** The Zendesk adapter. */
    method ExecuteSideEffects(request: string, z: Zendesk) returns (fx: Fx)
      modifies this`effects
      ensures fx == SideEffects(z) && effects == old(effects)[request := Times(old(effects), request) + 1]
    {
      effects := effects[request := Times(effects, request) + 1];
      if !z.configured {
        return FxError([], false);
      }
      if z.ownership == Raised {
        return FxRaised;
      }
      if z.ownership == Refused {
        return FxError([], false);
      }
      var done := [(TakeOwnership, z.ownership.evidence)];
      if z.comment.None? {
        return FxError(done, true);
      }
      done := done + [(Comment, z.comment.value)];
      if z.status.None? {
        return FxError(done, true);
      }
      return FxDone(done + [(SetStatus, z.status.value)]);
    }

    method RunExecution(request: string, valid: bool, route: Route, writes: bool, ticket: string, z: Zendesk) returns (reply: Reply)
      modifies this
      ensures var isNew := valid && request !in old(records);
              && records == (if isNew then old(records)[request := Outcome(route, writes, ticket, z)] else old(records))
              && effects == (if isNew && Executes(route, writes)
                             then old(effects)[request := Times(old(effects), request) + 1] else old(effects))
      ensures !valid ==> reply == Invalid
      ensures valid && request in old(records) ==>
                var r := old(records)[request];
                reply == if r.status == Completed || r.status == Prepared || r.status == HumanReview then Replayed(r) else Conflict
      ensures valid && request !in old(records) ==>
                var r := Outcome(route, writes, ticket, z);
                reply == if r.status == Failed || r.status == Unknown then BadGateway
                         else if r.status == Pending then Crashed else Done(r)
    {
      if !valid {
        return Invalid;
      }
      if request in records {
        var existing := records[request];
        if existing.status == Completed || existing.status == Prepared || existing.status == HumanReview {
          return Replayed(existing);
        }
        return Conflict;
      }
      if route == RouteError {
        records := records[request := Record(Failed, [], true, false)];
        return BadGateway;
      }
      var record := Record(Prepared, [], true, false);
      if writes && route != Eligible {
        record := record.(status := if route == ForHuman then HumanReview else Failed);
        records := records[request := record];
        return if route == ForHuman then Done(record) else BadGateway;
      } else if writes {
        var ledger := PendingLedger(ticket);
        records := records[request := Record(Pending, ledger, true, false)];
        var fx := ExecuteSideEffects(request, z);
        if fx.FxRaised? {
          return Crashed;
        }
        var unknown := fx.FxError? && fx.unknown;
        var merged := MergeLedger(ledger, fx.done, unknown);
        if fx.FxError? {
          records := records[request := Record(if unknown then Unknown else Failed, merged, true, false)];
          return BadGateway;
        }
        record := Record(Completed, merged, true, false);
      }
      records := records[request := record];
      return Done(record);
    }

    method ReconcileExecution(request: string, ops: set<Operation>, read: Item -> Readback) returns (reply: Reply)
      modifies this`records
      ensures var r := if request in old(records) then Some(old(records)[request]) else None;
              if r.Some? && Reconcilable(r.value, ops, read)
              then records == old(records)[request := Reconciled(r.value, read)] && reply == Done(records[request])
              else records == old(records) && !reply.Done?
      // the refusals, in their order
      ensures ops == {} ==> reply == Invalid
      ensures ops != {} && request !in old(records) ==> reply == NotFound
      ensures ops != {} && request in old(records) && old(records)[request].status != Unknown ==> reply == Conflict
      ensures (ops != {} && request in old(records) && old(records)[request].status == Unknown && Refusable(old(records)[request], ops)) ==>
                reply == Invalid
      ensures reply.Done? ==> old(records)[request].status == Unknown && !Refusable(old(records)[request], ops)
    {
      if ops == {} {
        return Invalid;
      }
      if request !in records {
        return NotFound;
      }
      var record := records[request];
      if record.status != Unknown {
        return Conflict;
      }
      var ledger := record.ledger;
      if exists op :: op in ops && !Knows(ledger, op) {
        return Invalid;
      }
      var unknown := UnknownOperations(ledger);
      if ledger == [] || exists k :: 0 <= k < |unknown| && unknown[k] !in ops {
        return Invalid;
      }
      if !record.visible {
        return Invalid;
      }
      if !exists i :: 0 <= i < |ledger| && ledger[i].ticket != "" {
        return Invalid;
      }
      assert !Refusable(record, ops) by {
        forall op | op in ops ensures Knows(ledger, op) {}
        forall i | 0 <= i < |ledger| && ledger[i].status == ItemUnknown ensures ledger[i].operation in ops {
          assert IsUnknown(ledger, ledger[i].operation);
        }
      }
      var verified, failure := ReadBack(ledger, unknown, read);
      if failure.Some? {
        return failure.value;
      }
      var updated := ApplyReadbacks(ledger, verified, read);
      assert updated == Reconciled(record, read).ledger;
      record := Record(Completed, updated, record.visible, true);
      records := records[request := record];
      return Done(record);
    }

    method ResetCase(allowed: bool) returns (deleted: nat)
      modifies this
      ensures if allowed then records == map[] && effects == map[] && deleted == |old(records)|
              else records == old(records) && effects == old(effects)
    {
      if !allowed {
        return 0;
      }
      deleted := |records|;
      records, effects := map[], map[];
    }
  }

  /** The operations with an unknown item. */
  method UnknownOperations(ledger: seq<Item>) returns (ops: seq<Operation>)
    ensures forall op :: op in ops <==> IsUnknown(ledger, op)
  {
    ops := [];
    for i := 0 to |ledger|
      invariant forall op :: op in ops <==> exists j :: 0 <= j < i && ledger[j].operation == op && ledger[j].status == ItemUnknown
    {
      if ledger[i].status == ItemUnknown && ledger[i].operation !in ops {
        ops := ops + [ledger[i].operation];
      }
    }
  }

  /** Reads back every unknown operation, up to the first that is not confirmed. */
  method ReadBack(ledger: seq<Item>, unknown: seq<Operation>, read: Item -> Readback)
    returns (verified: map<Operation, string>, failure: Option<Reply>)
    requires forall op :: op in unknown <==> IsUnknown(ledger, op)
    ensures failure.None? ==> Evidence(ledger, verified, read) && forall op :: IsUnknown(ledger, op) ==> op in verified
    ensures failure.Some? ==> !failure.value.Done? && exists op :: IsUnknown(ledger, op) && !CanConfirm(ledger, op, read)
  {
    verified := map[];
    for k := 0 to |unknown|
      invariant Evidence(ledger, verified, read)
      invariant forall j :: 0 <= j < k ==> unknown[j] in verified
    {
      var op := unknown[k];
      assert IsUnknown(ledger, op);
      var seen := if op.Foreign? then NotConfirmed else read(UnknownItem(ledger, op).value);
      if seen.NotConfirmed? {
        assert !CanConfirm(ledger, op, read);
        return verified, Some(Conflict);
      } else if seen.Broken? {
        assert !CanConfirm(ledger, op, read);
        return verified, Some(BadGateway);
      }
      verified := verified[op := seen.evidence];
    }
    return verified, None;
  }

  predicate CanConfirm(ledger: seq<Item>, op: Operation, read: Item -> Readback)
    requires IsUnknown(ledger, op)
  {
    !op.Foreign? && read(UnknownItem(ledger, op).value).Confirmed?
  }

  ghost predicate Evidence(ledger: seq<Item>, verified: map<Operation, string>, read: Item -> Readback) {
    forall op :: op in verified ==>
      IsUnknown(ledger, op) && CanConfirm(ledger, op, read) && read(UnknownItem(ledger, op).value).evidence == verified[op]
  }

  method ApplyReadbacks(ledger: seq<Item>, verified: map<Operation, string>, read: Item -> Readback) returns (updated: seq<Item>)
    requires Evidence(ledger, verified, read) && forall op :: IsUnknown(ledger, op) ==> op in verified
    ensures |updated| == |ledger| && forall j :: 0 <= j < |ledger| ==> updated[j] == ReconciledItem(ledger, ledger[j], read)
  {
    updated := [];
    for i := 0 to |ledger|
      invariant |updated| == i && forall j :: 0 <= j < i ==> updated[j] == ReconciledItem(ledger, ledger[j], read)
    {
      var item := ledger[i];
      if item.operation in verified {
        item := item.(status := ItemCompleted, evidence := Some(verified[item.operation]));
      }
      updated := updated + [item];
    }
  }

  /** A handled request is a run of the machine. */
  lemma HandlingIsARun(s: State, w: nat, request: string, route: Route, writes: bool, ticket: string, z: Zendesk)
    requires w < |s.pcs| && s.pcs[w] == Idle && request !in s.records
    ensures var u := Exec(Step, s, Handling(w, request, route, writes, ticket, z));
            && u.records == s.records[request := Outcome(route, writes, ticket, z)]
            && u.effects == (if Executes(route, writes) then s.effects[request := Times(s.effects, request) + 1] else s.effects)
            && u.pcs == s.pcs
  {
    var record := Outcome(route, writes, ticket, z);
    if Executes(route, writes) {
      var last := if SideEffects(z).FxRaised? then Crash else Save(record);
      ExecutingRun(s, w, request, PendingLedger(ticket), record, last);
    } else {
      var es := [Worker(w, Start(request)), Worker(w, Settle(record))];
      var s1 := s.(pcs := s.pcs[w := Routing(request)]);
      Run2(Step, s, es);
    }
  }

  lemma ExecutingRun(s: State, w: nat, request: string, ledger: seq<Item>, record: Record, last: Action)
    requires w < |s.pcs| && s.pcs[w] == Idle && request !in s.records
    requires (last == Save(record) && Reports(record)) || (last == Crash && record == Record(Pending, ledger, true, false))
    ensures var es := [Worker(w, Start(request)), Worker(w, SavePending(ledger)), Worker(w, Execute), Worker(w, last)];
            Exec(Step, s, es) ==
              State(s.records[request := record], s.effects[request := Times(s.effects, request) + 1], s.pcs)
  {
    var es := [Worker(w, Start(request)), Worker(w, SavePending(ledger)), Worker(w, Execute), Worker(w, last)];
    var s1 := s.(pcs := s.pcs[w := Routing(request)]);
    var s2 := State(s.records[request := Record(Pending, ledger, true, false)], s.effects, s.pcs[w := Executing(request)]);
    var s3 := State(s2.records, s.effects[request := Times(s.effects, request) + 1], s.pcs[w := Saving(request)]);
    assert s1.pcs[w := Executing(request)] == s2.pcs && s2.pcs[w := Saving(request)] == s3.pcs && s3.pcs[w := Idle] == s.pcs;
    var s4 := State(s.records[request := record], s3.effects, s.pcs);
    assert s2.records[request := record] == s4.records;
    assert Step(s, es[0]) == s1;
    assert Step(s1, es[1]) == s2;
    assert Step(s2, es[2]) == s3;
    assert Step(s3, es[3]) == s4;
    Run4(Step, s, es);
  }

  /** Which status a handled request gets, and what its ledger says of the three operations: completed for
      each call that came back, unknown for the rest behind a failed comment or status call, pending
      where nothing was tried or nothing was said. */
  lemma OutcomeExactly(route: Route, writes: bool, ticket: string, z: Zendesk)
    ensures var r := Outcome(route, writes, ticket, z);
            var tried := route == Eligible && writes;
            && (r.status == Prepared <==> route != RouteError && !writes)
            && (r.status == HumanReview <==> writes && route == ForHuman)
            && (r.status == Failed <==> route == RouteError || (writes && (route == NotPrepared || (tried && (!z.configured || z.ownership == Refused)))))
            && (r.status == Completed <==> tried && z.configured && z.ownership.Assigned? && z.comment.Some? && z.status.Some?)
            && (r.status == Unknown <==> tried && z.configured && z.ownership.Assigned? && (z.comment.None? || z.status.None?))
            && (!tried ==> r.ledger == [])
            && (r.status == Pending ==> r.ledger == PendingLedger(ticket))
            && (tried && r.status != Pending ==>
                  var own := z.configured && z.ownership.Assigned?;
                  r.ledger == [
                    Item(TakeOwnership, if own then ItemCompleted else ItemPending, 1, ticket, if own then Some(z.ownership.evidence) else None),
                    Item(Comment, if !own then ItemPending else if z.comment.Some? then ItemCompleted else ItemUnknown, 1, ticket,
                         if own then z.comment else None),
                    Item(SetStatus, if !own then ItemPending else if z.comment.Some? && z.status.Some? then ItemCompleted else ItemUnknown, 1, ticket,
                         if own && z.comment.Some? then z.status else None)])
            && r.visible && !r.reconciled
  {
    if route == Eligible && writes && z.configured && z.ownership.Assigned? {
      var d1 := [(TakeOwnership, z.ownership.evidence)];
      Observed1([], d1[0]);
      assert [] + [d1[0]] == d1;
      if z.comment.None? {
        MergeThree(ticket, d1, true);
      } else {
        var d2 := d1 + [(Comment, z.comment.value)];
        Observed1(d1, (Comment, z.comment.value));
        if z.status.None? {
          MergeThree(ticket, d2, true);
        } else {
          Observed1(d2, (SetStatus, z.status.value));
          MergeThree(ticket, d2 + [(SetStatus, z.status.value)], false);
        }
      }
    } else {
      MergeThree(ticket, [], false);
    }
  }

  lemma MergeThree(ticket: string, done: seq<(Operation, string)>, unknown: bool)
    ensures var p := PendingLedger(ticket);
            Merge(p, done, unknown) == [MergeItem(p[0], done, unknown), MergeItem(p[1], done, unknown), MergeItem(p[2], done, unknown)]
  {
  }

  lemma Observed1(done: seq<(Operation, string)>, last: (Operation, string))
    ensures forall op :: Observed(done + [last], op) == if op == last.0 then Some(last.1) else Observed(done, op)
  {
    assert (done + [last])[..|done|] == done;
  }

  /** A handled request is left pending exactly when the ownership call of a configured adapter raises. */
  lemma LeftPendingExactly(route: Route, writes: bool, ticket: string, z: Zendesk)
    ensures Outcome(route, writes, ticket, z).status == Pending <==> Executes(route, writes) && z.configured && z.ownership == Raised
  {
    assert SideEffects(z).FxRaised? <==> z.configured && z.ownership == Raised;
  }

  // ----- a record that stays pending -----

  predicate IsPending(records: map<string, Record>, request: string) { request in records && records[request].status == Pending }

  /** A worker at work on the request. */
  predicate On(pc: Pc, request: string) { pc == Routing(request) || pc == Executing(request) || pc == Saving(request) }

  ghost predicate Attended(s: State, request: string) { exists i :: 0 <= i < |s.pcs| && On(s.pcs[i], request) }

  ghost predicate Abandoned(s: State, request: string) { IsPending(s.records, request) && !Attended(s, request) }

  /** The last worker on a pending request dies: a crash, or an exception nothing catches. */
  ghost predicate Abandons(s: State, e: Event, request: string) {
    && IsPending(s.records, request) && e.a == Crash && e.w < |s.pcs| && On(s.pcs[e.w], request)
    && forall i :: 0 <= i < |s.pcs| && i != e.w ==> !On(s.pcs[i], request)
  }

  lemma ActOn(s: State, pc: Pc, a: Action, request: string)
    ensures var (records, _, q) := Act(s.records, s.effects, pc, a);
            && (IsPending(records, request) && !IsPending(s.records, request) ==> On(q, request))
            && (On(pc, request) && a != Crash ==> On(q, request) || !IsPending(records, request))
            && (IsPending(s.records, request) && On(q, request) ==> On(pc, request))
  {
  }

  /** Step by step, from any state in which it is not: a record becomes abandoned exactly by that. */
  lemma AbandonedExactly(s: State, e: Event, request: string)
    requires !Abandoned(s, request)
    ensures Abandoned(Step(s, e), request) <==> Abandons(s, e, request)
  {
    var u := Step(s, e);
    if e.w < |s.pcs| {
      ActOn(s, s.pcs[e.w], e.a, request);
      assert u.pcs[e.w] == Act(s.records, s.effects, s.pcs[e.w], e.a).2;
      if IsPending(s.records, request) {
        var i :| 0 <= i < |s.pcs| && On(s.pcs[i], request);
        if j :| 0 <= j < |s.pcs| && j != e.w && On(s.pcs[j], request) {
          assert On(u.pcs[j], request);
        } else {
          assert i == e.w;
        }
      }
    }
  }

  /** Events none of which is this action. */
  ghost predicate Without(a: Action, es: seq<Event>) { forall k :: 0 <= k < |es| ==> es[k].a != a }

  lemma AbandonedStep(s: State, e: Event, request: string)
    requires Abandoned(s, request) && e.a != Reset
    ensures var u := Step(s, e); Abandoned(u, request) && u.records[request] == s.records[request]
  {
    var u := Step(s, e);
    if e.w < |s.pcs| {
      ActOn(s, s.pcs[e.w], e.a, request);
      assert !On(s.pcs[e.w], request);
      assert forall i :: 0 <= i < |u.pcs| && i != e.w ==> u.pcs[i] == s.pcs[i];
    }
  }

  /** An abandoned record stays as it is in every continuation without a reset: it answers a conflict and
      cannot be reconciled. */
  lemma {:induction false} PendingForever(s: State, es: seq<Event>, request: string)
    requires Abandoned(s, request) && Without(Reset, es)
    ensures var u := Exec(Step, s, es); Abandoned(u, request) && u.records[request] == s.records[request]
    decreases |es|
  {
    if es != [] {
      assert es[|es| - 1].a != Reset;
      PendingForever(s, es[..|es| - 1], request);
      AbandonedStep(Exec(Step, s, es[..|es| - 1]), es[|es| - 1], request);
    }
  }

  ghost predicate SettledAfter(s: State, es: seq<Event>, request: string) {
    Without(Reset, es) && !IsPending(Exec(Step, s, es).records, request)
  }

  /** From any state: a pending record can still be settled without a reset if and only if a worker is on
      its request. */
  lemma SettleableExactly(s: State, request: string)
    requires IsPending(s.records, request)
    ensures (exists es :: SettledAfter(s, es, request)) <==> Attended(s, request)
  {
    if Attended(s, request) {
      var w :| 0 <= w < |s.pcs| && On(s.pcs[w], request);
      var es := Finish(s, w, request);
    } else {
      forall es | Without(Reset, es) ensures !SettledAfter(s, es, request) { PendingForever(s, es, request); }
    }
  }

  /** The worker on it saves its outcome. */
  lemma Finish(s: State, w: nat, request: string) returns (es: seq<Event>)
    requires w < |s.pcs| && On(s.pcs[w], request)
    ensures SettledAfter(s, es, request)
  {
    var failed := Record(Failed, [], true, false);
    if s.pcs[w].Routing? {
      es := [Worker(w, Settle(failed))];
      Run1(Step, s, es);
    } else if s.pcs[w].Saving? {
      es := [Worker(w, Save(failed))];
      Run1(Step, s, es);
    } else {
      es := [Worker(w, Execute), Worker(w, Save(failed))];
      Run2(Step, s, es);
    }
  }

  ghost predicate AbandonedAfter(n: nat, es: seq<Event>, request: string) { Abandoned(Exec(Step, Init(n), es), request) }

  /** No run leaves a record abandoned if and only if nobody handles requests or no handler dies. */
  lemma NoneAbandonedExactly(n: nat, crashes: bool, request: string)
    ensures (forall es :: (crashes || Without(Crash, es)) ==> !AbandonedAfter(n, es, request)) <==> n == 0 || !crashes
  {
    if n == 0 {
      forall es ensures !AbandonedAfter(n, es, request) { NoHandler(es); }
    } else if !crashes {
      forall es | Without(Crash, es) ensures !AbandonedAfter(n, es, request) { NoneWithoutCrash(n, es, request); }
    } else {
      var es := [Worker(0, Start(request)), Worker(0, SavePending([])), Worker(0, Crash)];
      var s0 := Init(n);
      var s1 := s0.(pcs := s0.pcs[0 := Routing(request)]);
      var s2 := State(map[request := Record(Pending, [], true, false)], map[], s0.pcs[0 := Executing(request)]);
      assert Step(s0, es[0]) == s1;
      assert Step(s1, es[1]) == s2;
      assert !Abandoned(s2, request) by { assert On(s2.pcs[0], request); }
      AbandonedExactly(s2, es[2], request);
      Run3(Step, s0, es);
      assert AbandonedAfter(n, es, request);
    }
  }

  lemma {:induction false} NoneWithoutCrash(n: nat, es: seq<Event>, request: string)
    requires Without(Crash, es)
    ensures !AbandonedAfter(n, es, request)
    decreases |es|
  {
    if es != [] {
      assert es[|es| - 1].a != Crash;
      NoneWithoutCrash(n, es[..|es| - 1], request);
      AbandonedExactly(Exec(Step, Init(n), es[..|es| - 1]), es[|es| - 1], request);
    }
  }
}
