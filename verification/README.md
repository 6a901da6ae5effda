# SupportPortal worker protocols

A model of the crash-prone, at-least-once protocols behind SupportPortal's support automation, and of
the smaller algorithms around them. Every protocol is a state machine whose step is total: an event
that is not enabled leaves the state alone, so "for every run" is "for every sequence of events"
(`Machines`). Workers, crashes, redeliveries, lost answers and stale reads are events, and where the
source works step by step, a class with the source's operations is proved to move exactly as the
machine says.

- `ZendeskLedger`, `AccountDelivery`, `CommentDrain`: the comment ledger of account replies, Hermes
  replies and engineer-approved replies, and the drain over it. A row carries one right to post, and
  it is conserved.
- `SlackDrain`: account Slack events, posted to a receiver that is idempotent on the event id.
- `ReplyJobs`, `ReplyPass`: account reply jobs with the claim token (status, claim time, attempt), and
  one worker pass over the job table.
- `RelayDispatch`, `RelayResults`, `RelayApply`: enablement requests dispatched to AgentRelay under a
  key, and their results recorded, acknowledged, applied, re-driven and expired. `RelayResults` composes the reply-job
  machine and the comment ledger, so its uniqueness theorem reaches from the relay message to the
  public comment.
- `ExpirySweep`, `DeferredScan`: the rotating window over dispatched requests, and the fixed one over
  deferred results.
- `TicketQuery`, `StartupRecovery`: answers to customer messages from a task queue, and the recovery of
  interrupted ones.
- `ReplySegment`: what part of an internal mail is newly written, and whether it says "done".
- `EcsWorker`: claims, leases and announced external effects of the automation worker.
- `ExecutionLedger`: one execution per request, its delivery ledger and its reconciliation.
- `SchemaArchiver`: moving the legacy tables to the archive schema with a manifest.
- `FeatureList`: the validator and the parser of the feature list, side by side.
- `TicketContext`: the sorted and cut comment context.

Some promises do not hold on every run. Each is stated with the exact condition under which it does:

- An acknowledged relay result is durable exactly when its outcome is in the vocabulary, and an invalid
  payload for an expired request is never acknowledged (`RelayResults.AckedMeansDurableExactly`,
  `ConsumptionAcks`).
- A waiting winner stays within reach of the deferred scan exactly with a single worker and no invalid
  payload (`WinnerListedExactly`): otherwise the expiry sweep, between its read of "no result" and the
  close, or the failure chain closes its request, and then it waits for ever (`ApplicableExactly`,
  `HiddenForever`). A failing result whose worker dies between its mark and the close strands its request
  (`MarkedMeansClosedExactly`, `UnattendedExactly`, `StrandedForever`).
- A cancelled row hides no published comment exactly outside Hermes or with one worker; a failed row, only
  with one worker, no account row and refusals that never land (`ZendeskLedger`, two `Exactly` lemmas). A
  read-only audit between claim and write makes the reply unsendable (`SendableExactly` says when a reply
  can still be sent).
- The claim fence names one worker exactly with one worker, without re-saves or with strictly later
  clocks; the closed-ticket cancellation, which is not fenced, is dead exactly without re-saves
  (`ReplyJobs`, three `Exactly` lemmas).
- A pass leaves a claimed job in work exactly when Hermes took it over unnoticed and its handler ended
  with an update (`ReplyPass.ReleasedExactly`).
- An event is posted to the Slack receiver once exactly with one poller (`SlackDrain.NeverRepeatsExactly`),
  and a request gets one relay task exactly when the server honours its key
  (`RelayDispatch.OneTaskEachExactly`).
- An error that a handler raises again ends the comment drain and the Slack drain: later rows wait for
  the next one (`CommentDrain.Drain`, `SlackDrain.Outbox.Drain`).
- The comment beside the sweep cursor promises ceil(N/page) cycles; that holds exactly when the last
  page is short (`ExpirySweep.CeilSufficesExactly`). The code is followed.
- A request that stays is checked again by the sweep exactly when fewer than a page of requests arrive per
  cycle at the end, or none where an earlier creation time can put them in front of others
  (`ExpirySweep.RecheckedExactly`). A deferred result is tried again exactly when fewer than the limit of
  older ones never go through (`DeferredScan.TriedExactly`).
- One answer per customer message holds exactly for one consumer whose answers are recognisable and
  whose saves never report an error after landing (`TicketQuery.OneAnswerExactly`); which messages can
  still be answered, and which step makes one look answered, is exact too (`AnswerableExactly`,
  `PassedOverExactly`).
- Startup recovery sees 200 queue entries, and a recovered task whose text contains repeated blanks is
  dropped as stale (`QueuedBehindTheWindow`, `RecoveredTaskFindsItsMessage`).
- Side effects run once per request exactly when requests are handled one at a time
  (`ExecutionLedger.OncePerRequestExactly`); a record stays
  pending for ever exactly when the last worker on its request dies, by a crash or by
  an exception of the ownership call (`AbandonedExactly`, `SettleableExactly`, `LeftPendingExactly`).
- Identity columns' sequences move without a manifest row (`SchemaArchiver.EverySequenceRecordedExactly`).

## Model

| member | source | states |
|---|---|---|
| ZendeskLedger.ActConserves | backend/worker.py:1567-1881 | one worker step on a row keeps posts + holders + one if queued at no more than one, for all three sources |
| ZendeskLedger.AtMostOnePost | backend/worker.py:2068-2120 | over any run of any number of workers, crashes, requeues and audits, at most one public comment per row; delivered means exactly one |
| ZendeskLedger.NeverResent | backend/worker.py:3676-3712 | once a comment is out, no continuation of the run posts again and nobody holds the right to |
| ZendeskLedger.CancelledMeansUnpublishedExactly | backend/worker.py:2588-3017 | a cancelled row never hides a published comment, in any run, if and only if the row is not a Hermes row or at most one worker handles it |
| ZendeskLedger.FailedMeansUnpublishedExactly | backend/worker.py:1775-1832 | a failed row never hides a published comment, in any run, if and only if there is no worker, or one, the row is no account row and a refused write never lands |
| ZendeskLedger.BlockedNeverPosts | backend/worker.py:1567-1881 | with an idempotency record and nobody writing, or with the right to post gone, no continuation posts |
| ZendeskLedger.SendableExactly | backend/worker.py:1567-1881 | an account reply can still reach the customer if and only if it already did, is being written, or is unclaimed or held without an idempotency record |
| ZendeskLedger.AuditBeforeWriteLosesTheReply | backend/worker.py:3676-3712 | a read-only audit between claim and write settles the record, after which no run sends the claimed reply |
| ZendeskLedger.PlayIsARun | backend/worker.py:1567-1881 | the events of one undisturbed worker, folded over what it sees, are a run of the machine |
| AccountDelivery.CommentRow.Claim | backend/repositories/ticket_repository.py:8975-9099 | the claim is a compare-and-set from queued and reports the status it leaves |
| AccountDelivery.CommentRow.Complete | backend/repositories/ticket_repository.py:9101-9152 | completion never takes a delivered row back |
| AccountDelivery.CommentRow.PersistResult | backend/worker.py:1775-1861 | a raised persist may have committed; a committed one settles the record and the row together |
| AccountDelivery.Reconcile | backend/worker.py:3676-3712 | the read-only reconciliation moves row and record as the machine's audit events do, whatever persisting does |
| AccountDelivery.SendComment | backend/worker.py:1775-1881 | the public write with all its answers, and the read-back after an unclear one, is that run of the machine |
| AccountDelivery.DeliverAccountReply | backend/worker.py:1567-1881 | one whole delivery attempt is the machine's run; on row, record and comments alone: it adds a comment exactly when the case is deliverable, the ticket open, nobody else owns it, the target is there, no record stands in the way and the write lands; the row ends cancelled exactly for a closed ticket, back in the queue exactly when the state cannot be confirmed, delivered exactly when the comment is shown to be there; and it raises exactly when the follow-up does |
| AccountDelivery.AttemptIsARun | backend/worker.py:1567-1881 | that run is a run of the ledger machine by one worker, so every ledger theorem covers the method |
| CommentDrain.WriteApproved | backend/worker.py:2903-2987 | after the claim: prepared attachments, the public write, the status its answer closes the row with, whether a comment was added, and which answers are raised again |
| CommentDrain.AuditApproved | backend/worker.py:2989-3017 | a row that may have been written is only read, and closed only as delivered when the audit shows the comment |
| CommentDrain.DeliverApproved | backend/worker.py:2588-3129 | one Hermes or engineer delivery is the machine's run; a comment is added exactly by the claimant of a queued row no guard stopped, if its write lands; a deferring guard changes nothing, a stopping one closes the row and writes nothing; it raises exactly when its write or its follow-up does |
| CommentDrain.Drain | backend/worker.py:2068-2120 | the loop handles the listed rows of all three sources up to and including the first whose turn raises: each ends where its own machine leaves it, with one comment more exactly if its checks allow it and its write lands, and every later one is untouched |
| CommentDrain.TurnRaisesExactly | backend/worker.py:2068-2120 | which errors end the loop, for all three sources |
| CommentDrain.TurnIsARun | backend/worker.py:2068-2120 | each turn is a run of the row's ledger machine |
| CommentDrain.DrainsPostOnce | backend/worker.py:2068-2120 | however many drains handle a row with whatever listings and answers, it gets at most one public comment, and delivered means exactly one |
| SlackDrain.AtMostOneEffect | backend/worker.py:3132-3205 | over any run of any number of pollers Slack shows an event at most once, and delivered means the receiver holds it |
| SlackDrain.RepeatsNeedHaste | backend/worker.py:3132-3205 | a run in which no stale "missing" puts the row back while the event is held or in flight asks the receiver once |
| SlackDrain.NeverRepeatsExactly | backend/worker.py:3132-3205 | no event that arrived is posted again, in any run, if and only if there is at most one poller |
| SlackDrain.TurnIsARun | backend/worker.py:3132-3205 | one listed event's handling is a run of the machine with a single poller |
| SlackDrain.TurnEnds | backend/worker.py:3132-3205 | where that run leaves row and receiver, for every status and every answer |
| SlackDrain.TurnEndsAsReported | backend/worker.py:3132-3205 | a turn ends with the status the receiver reported, missing events queued again, unanswered posts unknown, and only an arriving post of a queued event changes what the receiver holds |
| SlackDrain.Outbox.Drain | backend/worker.py:3132-3205 | the drain loop takes every listed event through its own turn, up to and including the first that raises past its handlers, and leaves all other rows alone |
| ReplyJobs.WritesAreFenced | backend/worker.py:983-1016 | every worker write but the closed-ticket cancellation needs the current token, or claims a waiting job |
| ReplyJobs.OthersDo | backend/repositories/ticket_repository.py:19528-19552 | cancelling pending replies cancels a waiting or preparing job and no publishing one; Hermes parks a job without moving it |
| ReplyJobs.StaleStaysStale | backend/worker.py:983-1003 | a token that is not current never becomes current again, whoever claims, cancels, retries, publishes or crashes |
| ReplyJobs.OneCurrentClaimant | backend/worker.py:1465-1469 | a job's message exists at most once over all re-saves and whatever the clocks read |
| ReplyJobs.OneCurrentClaimantExactly | backend/worker.py:983-1003 | at most one worker holds the current token, in every run, if and only if there is at most one worker, no re-save, or every claim reads a later clock |
| ReplyJobs.AtMostFiveClaims | backend/worker.py:4095-4156 | without re-saves a job is claimed at most five times, at most four for preparing, with at most eleven status changes |
| ReplyJobs.FinalIsAbsorbing | backend/worker.py:1036-1046 | published, cancelled, failed and handed to a human stay so in every continuation |
| ReplyJobs.UnfencedWriteIsDeadExactly | backend/worker.py:1674-1687 | no worker ever reaches the unfenced closed-ticket cancellation if and only if rows are not saved again or nobody works |
| ReplyJobs.ClosedTicketClobbersExactly | backend/worker.py:1674-1687 | that cancellation never takes a job from under another worker's current claim, strict clocks or not, if and only if there is at most one worker or no re-save |
| ReplyPass.JobTable.ClaimJobs | backend/repositories/ticket_repository.py:19552-19592 | the claim takes the first rows of the stage that are not taken over, and are due where that is asked, up to the limit of at least one, writes stage, time and attempt, and changes nothing else |
| ReplyPass.BatchFacts | backend/repositories/ticket_repository.py:19552-19592 | the batch is in order, within the limit, all waiting and due as asked, and passes over no such row |
| ReplyPass.JobTable.UpdateClaimed | backend/repositories/ticket_repository.py:18881-18930 | the update goes through exactly with the current token and no unseen takeover |
| ReplyPass.JobTable.HandleException | backend/worker.py:4120-4156 | the exception handler moves the row as the machine's retry does, and leaves a lost claim alone |
| ReplyPass.JobTable.Publish | backend/repositories/ticket_repository.py:19178-19260 | the publication goes through exactly with the current token and no unseen takeover, storing status and message together; a refusal changes nothing |
| ReplyPass.JobTable.Pass | backend/worker.py:4095-4156 | after a pass each claimed row is where its own turn takes it, refused publications retried or failed by the exception handler; every other row is unchanged, among them each that is not due, of another stage or taken over |
| ReplyPass.ReleasedExactly | backend/worker.py:4115-4156 | a claimed job stays in work after its turn if and only if Hermes took it over unnoticed and the handler ended with an update, which declines where a publication raises |
| ReplyPass.UndisturbedTurn | backend/worker.py:4141-4156 | a raising handler sends its job back where it came from before the fourth attempt and fails it from then on; a publishing one leaves one message, new or reused |
| ReplyPass.TurnIsARun | backend/worker.py:4095-4156 | a turn is a run of the job machine, with the other parts' changes in between |
| RelayDispatch.AtMostOneTask | backend/worker.py:5442-5556 | with an idempotent server every request has at most one remote task over lease expiry, lost answers, crashes and any number of workers; a stored task id is that task's, and no two requests share one |
| RelayDispatch.KeyIsInjective | backend/repositories/enablement_relay_repository.py:88-93 | the idempotency key determines the request |
| RelayDispatch.OneTaskEachExactly | backend/worker.py:5559-5632 | every request has one task in every run if and only if the server honours the key, or there is no worker or no request: against one that ignores it a single worker is enough |
| RelayDispatch.Relay.ClaimDispatch | backend/repositories/enablement_relay_repository.py:866-911 | the lease is taken exactly on a pending request, an expired lease or the own token, and runs 120 seconds |
| RelayDispatch.Relay.DispatchRequest | backend/worker.py:5442-5632 | without the lease nothing happens; the server hears of the request exactly when its ticket is open and the call arrives; it ends dispatched exactly when in addition the answer came, closed exactly for a closed ticket or a refusal, and leased otherwise |
| RelayDispatch.Relay.Drain | backend/worker.py:5559-5632 | the drain dispatches each listed request in turn, or closes it when the mode was switched or the transport is not configured; other requests stay |
| RelayDispatch.DrainKeeps | backend/worker.py:5559-5632 | from any reachable state a drain keeps one task per key and every stored task id the request's own; one that is not ready makes no task and leaves no listed request open |
| RelayResults.AtMostOneCompletionMessage | backend/worker.py:5811-5915 | whatever crashes fall between record, ack, cancel, save, close and mark, and however often the result is re-driven, the completion job id has at most one customer message and Zendesk shows it at most once |
| RelayResults.AppliedOnlyAfterSave | backend/worker.py:5918-6044 | an enabled result that passed its gates is marked applied only after its job is saved |
| RelayResults.AckedMeansDurableExactly | backend/worker.py:6442-6573 | every acknowledgement of every run is durable if and only if no payload names an outcome outside the vocabulary, or nobody works |
| RelayResults.UnlistedExactly | backend/worker.py:6613-6655 | from any reachable state a step takes a waiting result off the deferred list exactly when the sweep or the failure chain closes its request, or the success plan does with its job saved |
| RelayResults.KeptUnlessDisturbed | backend/worker.py:6442-6573 | in runs without such an outside close a waiting winner is listed, or its job is saved and its request completed |
| RelayResults.WinnerListedExactly | backend/worker.py:6336-6573 | that holds in every run if and only if there is a single worker and no invalid payload on the same task, or nobody works |
| RelayResults.ApplicableExactly | backend/worker.py:6613-6655 | from any reachable state some continuation applies a waiting result if and only if a worker has it in hand or the deferred scan lists it for one |
| RelayResults.HiddenForever | backend/worker.py:6696-6771 | a result waiting behind a closed request with nobody holding it stays unlisted and unapplied, with no job saved, in every continuation |
| RelayResults.ConsumptionAcks | backend/worker.py:6336-6573 | one undisturbed consumption acknowledges durably exactly when the outcome is known or the request was durable, and not at all exactly for an invalid payload of an expired request |
| RelayResults.ConsumptionIsARun | backend/worker.py:6442-6573 | consuming an event, closed to one step of the shared state, is a run of the machine |
| RelayResults.DurableForever | backend/repositories/enablement_relay_repository.py:1021-1166 | a durable request stays durable in every continuation |
| RelayResults.UnattendedExactly | backend/worker.py:5971-6185 | from any reachable state a step leaves a marked open request without anybody to close it exactly when it is the crash of the last worker between mark and close |
| RelayResults.MarkedMeansClosedExactly | backend/worker.py:5971-6185 | no run leaves a marked request open with nobody to close it if and only if workers do not crash, or there are none |
| RelayResults.SweepRaceHidesAWinner | backend/worker.py:6696-6771 | with two workers or more, a run in which the sweep closes a request behind its acknowledged winner, which is then hidden |
| RelayResults.CutStrandsARequest | backend/worker.py:6147-6185 | with any workers, a run that ends with a marked result and an open request nobody works on |
| RelayResults.StrandedForever | backend/worker.py:6613-6655 | nothing but an invalid payload on the same task ever closes such a request |
| DeferredScan.Deferrals.Recheck | backend/worker.py:6613-6655 | one cycle tries the oldest pending results up to the limit; exactly those that go through leave |
| DeferredScan.TriedExactly | backend/repositories/enablement_relay_repository.py:1094-1122 | a waiting result is tried in some cycle if and only if fewer than the limit of those before it never go through, whatever arrives behind it |
| RelayApply.ChosenFits | backend/worker.py:5918-6185 | every plan the branches choose is one the machine allows for that outcome |
| RelayApply.Store.RecordResult | backend/repositories/enablement_relay_repository.py:1021-1092 | the first known outcome is stored, and wins exactly when the request was still dispatched |
| RelayApply.Store.HandleInvalid | backend/worker.py:6336-6439 | an invalid payload fails an open request first and is acknowledged durably, except behind an expired request |
| RelayApply.Store.Consume | backend/worker.py:6442-6573 | consuming an event is the machine's consumption: what it records, and that it hands on exactly an acknowledged first known result of a dispatched request |
| RelayApply.Store.ApplyResult | backend/worker.py:5918-6185 | on the stored state: behind a closed ticket every outcome is superseded and its request cancelled; the completion job is saved exactly for an approved enabled result with a prepared reply and no ticket or an open one; nothing is written exactly in the deferring cases; and how each other outcome ends |
| RelayApply.PlanIsARun | backend/worker.py:5918-6185 | those writes, one event each, are a run of the machine |
| ExpirySweep.Sweep.Scan | backend/worker.py:6669-6686 | one cycle checks the page at the cursor and moves the cursor one page, or to the start after a short page; a failed listing moves nothing |
| ExpirySweep.CursorAtBoundary | backend/worker.py:6683-6686 | over a fixed list the cursor is always at a page boundary no further than the last |
| ExpirySweep.EveryRowOnce | backend/worker.py:6669-6686 | from any reachable cursor floor(N/page)+1 consecutive cycles check every row exactly once |
| ExpirySweep.CeilSufficesExactly | backend/worker.py:6680-6686 | every row is checked within ceil(N/page) cycles if and only if the last page is short or the list empty |
| ExpirySweep.StayingIsChecked | backend/worker.py:6669-6686 | while requests only leave, one that stays is checked again after any cycle |
| ExpirySweep.RecheckedExactly | backend/worker.py:6669-6686 | over all histories in which rows keep their order while some leave and at most a arrive per cycle, every request that stays is checked again after any cycle if and only if a is less than the page where arrivals join the end, or zero where they may join in front of others |
| ExpirySweep.ArrivalsStarve | backend/worker.py:6669-6686 | for every page, a history with a page of arrivals per cycle at the end that never checks one request again |
| ExpirySweep.OvertakersStarve | backend/repositories/enablement_relay_repository.py:960-984 | for every page, a history with one arrival every other cycle at the front that never checks one request again |
| TicketQuery.FindLatestCustomer | backend/worker.py:7824-7849 | the backward scan finds exactly the latest customer message, if its text is the task's and its time within a second |
| TicketQuery.FindExistingResponse | backend/worker.py:8054-8075 | the scan finds the last recognisable answer behind that message, exactly when there is one |
| TicketQuery.OneAnswerExactly | backend/worker.py:8336-8597 | at most one saved answer per customer message in every run if and only if there is one consumer, every answer is recognisable and no landed save reports an error |
| TicketQuery.DeliveryChangesExactly | backend/worker.py:8411-8597 | an undisturbed delivery changes the ticket exactly when its message is the latest, unanswered, the answer not blank and the save lands; it then appends one answer |
| TicketQuery.AnswerableExactly | backend/worker.py:8336-8597 | from any state a customer message can still get an answer of its own if and only if it has one, a worker is saving one, or it is the latest, not blank and has no recognisable answer behind it |
| TicketQuery.PassedOverExactly | backend/worker.py:8411-8597 | step by step, an unanswered message becomes passed over exactly when a recognisable message for another one lands while nobody saves its answer, or its last worker gives up behind one |
| TicketQuery.OvertakersAreLate | backend/worker.py:8411-8431 | in every reachable state the worker that overtakes the latest customer message checked an earlier one |
| TicketQuery.NewerMessageIsPassedOver | backend/worker.py:8411-8597 | with one consumer, a run in which a second message, arriving between check and save, is passed over |
| TicketQuery.PassedOverForever | backend/worker.py:8419-8431 | such a message is answered in no continuation |
| TicketQuery.Ticket.Persist | backend/worker.py:7806-7821 | the retry loop stops at the first attempt that is stored or refused, saves one answer per attempt that landed, and raises unless one was stored |
| TicketQuery.Ticket.Process | backend/worker.py:8336-8597 | processing a task changes nothing when cancelled, stale or answered, and otherwise saves what the retry loop saves |
| TicketQuery.TriesAreARun | backend/worker.py:7806-7821 | the retry loop's attempts are a run of the protocol |
| TicketQuery.TaskRuns | backend/worker.py:8307-8333 | a task runs at most max+1 times, exactly that often when every earlier run is requeued after a storage error |
| TicketQuery.TaskBackoff | backend/worker.py:8314-8319 | its total backoff is a number of base delays, at most max(max+1)/2, exactly that when every retry is used |
| TicketQuery.TaskStops | backend/worker.py:8307-8333 | a task that sleeps behind its first k runs waits 1 + ... + k base delays, whether the last requeue works or not, and runs once more exactly if it does |
| StartupRecovery.Check | backend/worker.py:8200-8247 | the chain of checks accepts exactly a stale question the snapshot does not show |
| StartupRecovery.TaskQueue.PendingKeys | backend/worker.py:8174-8183 | the snapshot is the keyed questions among what the queues list |
| StartupRecovery.ShownExactly | backend/services/task_queue.py:164-184 | the list shows exactly what stands among the first 200 entries of a readable queue |
| StartupRecovery.Recover | backend/worker.py:8186-8304 | the pass appends exactly the recovered tasks and counts them |
| StartupRecovery.RecoversExactly | backend/worker.py:8186-8304 | a key is enqueued if and only if some ticket's stale question has it, the snapshot does not show it and the queue takes it |
| StartupRecovery.StaleExactly | backend/worker.py:8200-8247 | on the ticket itself: a question is stale exactly when the ticket is open, the latest customer message is not blank, old enough and unanswered, its newest processing event old enough, and no listed event completes it |
| StartupRecovery.EnqueuesStaleExactly | backend/worker.py:8186-8304 | a pass enqueues a question if and only if it is stale in that sense, not shown and taken |
| StartupRecovery.RecoversOnce | backend/worker.py:8302-8303 | each key once, and none the snapshot shows |
| StartupRecovery.AddsNothingExactly | backend/worker.py:8224-8303 | a pass adds nothing if and only if the snapshot shows every stale question the queue takes |
| StartupRecovery.SecondPassAddsNothing | backend/worker.py:8186-8304 | a second pass with nothing dequeued adds nothing when it can read the queues and the questions' own fits the snapshot, recovery events included |
| StartupRecovery.QueuedBehindTheWindow | backend/services/task_queue.py:164-184 | a question queued behind the first 200 entries is enqueued again |
| StartupRecovery.RecoveredTaskFindsItsMessage | backend/worker.py:8215-8253 | the recovered task finds its message exactly when collapsing blanks changed nothing |
| ReplySegment.LookAhead | backend/worker.py:3981-3995 | the header lookahead finds three different labels as specified |
| ReplySegment.UnquotedSegment | backend/worker.py:3958-4001 | the two nested scans keep exactly the specified lines |
| ReplySegment.KeptExactly | backend/worker.py:3971-4001 | kept are the lines before the first marker, header block or inline header, and of the last what stands before it |
| ReplySegment.HeaderBlockMeans | backend/worker.py:3981-3995 | a header block is a header line from which header and blank lines alone carry three different labels |
| ReplySegment.HistoryIsIgnoredExactly | backend/worker.py:3958-4001 | replacing everything after a prefix never changes the kept lines if and only if the scan and all its lookaheads settle inside the prefix |
| ReplySegment.MarkerSettles | backend/worker.py:3971-3995 | a quoting line, message marker or wrote-line settles it whatever stands before: no lookahead crosses one |
| ReplySegment.HeaderRunSettles | backend/worker.py:3981-3995 | so does a run of three different header labels with blank lines |
| ReplySegment.LoneHeaderIsOpen | backend/worker.py:3981-3999 | a lone From header does not: two continuations cut it differently |
| ReplySegment.ExplicitlyConfirms | backend/worker.py:3920-3945 | the clause loop is true exactly when the last clause that says anything affirms |
| ReplySegment.Judge | backend/worker.py:7338-7370 | segment, emptiness check and verdict composed as specified |
| ReplySegment.VerdictSays | backend/worker.py:7338-7370 | without kept text the verdict is quoted-only; with text it is completed exactly when some clause affirms and no later one says anything |
| ReplySegment.HistoryCannotFlipTheVerdict | backend/worker.py:3920-4001 | behind a marker or header run every continuation gets the same verdict, and the classifier the same text |
| EcsWorker.OneActingClaimExactly | backend/automation_ecs_worker.py:470-585 | over crashes and leases that run out under a working claimant, external effects happen under at most one claim if and only if processors announce before they act |
| EcsWorker.WhatAClosedJobSays | backend/services/automation_ecs_store.py:955-1340 | in every run a job is closed at most once; completed means no announcement or a confirmed row; failed without unknown means no row and no effect; a row in progress means the announcer died or works |
| EcsWorker.BeforeExternal | backend/automation_ecs_worker.py:482-500 | the closure raises exactly when the claim is lost, and then writes nothing; the first announcement under a held claim marks the job and opens its delivery row, a later one does nothing |
| EcsWorker.RunProcessor | backend/automation_ecs_worker.py:502-508 | the processor's calls up to the first that raises: all of them under a held claim, none behind an announcement under a lost one |
| EcsWorker.HandleFailure | backend/automation_ecs_worker.py:565-585 | the exception handler records unknown only after an announcement and closes the job if it still holds it |
| EcsWorker.ProcessClaimed | backend/automation_ecs_worker.py:470-585 | one claim from the first call to the end: with the claim lost a processor that announces first changes nothing at all; with it held the job is closed once as the ending says |
| EcsWorker.ProcessingIsARun | backend/automation_ecs_worker.py:470-585 | that is a run of the machine, of the one with discipline if the processor announces first |
| EcsWorker.ProcessingKeepsOneClaim | backend/automation_ecs_worker.py:470-585 | wherever other claimants, leases and crashes left the job, processing it with a processor that announces first leaves the effects under at most one claim |
| EcsWorker.StatusSays | backend/automation_ecs_worker.py:63-90 | which reports are unknown and which are for a human |
| EcsWorker.OneClaimLeaves | backend/automation_ecs_worker.py:470-585 | with the claim held: no effect precedes its delivery row if and only if the processor announces first; one terminal action; an exception is unknown exactly when announced; the row ends confirmed with a completion or unknown, never in progress |
| EcsWorker.ReportDecidesTheRow | backend/automation_ecs_worker.py:63-90 | with the claim held and announced, the row ends unknown exactly when the report says so, the same on both processing paths |
| ExecutionLedger.MergeLedger | backend/services/automation_delivery_ledger.py:63-79 | every item counts one more attempt; it is completed with the last evidence exactly when its operation was done, and else unknown or as it was |
| ExecutionLedger.ReconciledLedger | backend/automation_runtime.py:355-370 | a reconciliation that goes through keeps length, order and operations, leaves nothing unknown, changes only operations that were unknown, and cannot be repeated |
| ExecutionLedger.UnknownExecutionIsRepaired | backend/automation_runtime.py:193-212 | round trip: reading back what an execution left unknown completes every operation of its ledger |
| ExecutionLedger.OncePerRequestExactly | backend/automation_runtime.py:113-236 | between resets side effects run at most once per request in every run, reruns and crashes included, if and only if requests are handled one at a time |
| ExecutionLedger.OutcomeExactly | backend/automation_runtime.py:142-236 | when a handled request ends prepared, for a human, failed, completed or unknown, and what its ledger says of each of the three operations |
| ExecutionLedger.Runtime.ExecuteSideEffects | backend/services/automation_side_effects.py:27-121 | the three calls in order, what the error says about those made, and the ownership exception that is no such error |
| ExecutionLedger.LeftPendingExactly | backend/automation_runtime.py:160-212 | a handled request leaves its record pending if and only if it executes side effects, the adapter is configured and the ownership call raises |
| ExecutionLedger.AbandonedExactly | backend/automation_runtime.py:113-236 | from any state a step leaves a pending record with nobody on it exactly when it is the death of the last worker on its request |
| ExecutionLedger.SettleableExactly | backend/automation_runtime.py:113-236 | from any state some continuation without a reset settles a pending record if and only if a worker is on its request |
| ExecutionLedger.NoneAbandonedExactly | backend/automation_runtime.py:113-236 | no run abandons a record if and only if no handler dies or there is none |
| ExecutionLedger.PendingForever | backend/automation_runtime.py:129-132 | an abandoned record stays as it is in every continuation without a reset |
| ExecutionLedger.Runtime.RunExecution | backend/automation_runtime.py:113-236 | the handler's record, reply and number of side-effect runs for every route, replay and conflict |
| ExecutionLedger.Runtime.ReconcileExecution | backend/automation_runtime.py:312-370 | it goes through if and only if the record can be reconciled; each refusal has its answer, and any refusal or failed read-back changes nothing |
| ExecutionLedger.ReconcilableExactly | backend/automation_runtime.py:312-355 | on the record itself: unknown, visible, with a ticket, every operation asked about known, every unknown one asked about and confirmed |
| ExecutionLedger.Runtime.ResetCase | backend/automation_runtime.py:372-377 | reset deletes everything, or nothing where it is not allowed |
| ExecutionLedger.HandlingIsARun | backend/automation_runtime.py:113-236 | a handled request is a run of the machine |
| SchemaArchiver.Plan | backend/archive_legacy_public_tables.py:148-192 | the planning loop succeeds exactly when all names are free, and lists the tables present and the sequences they own |
| SchemaArchiver.MoveTables | backend/archive_legacy_public_tables.py:209-247 | altering the tables one by one succeeds exactly when nothing collides, and equals moving them from where everything was |
| SchemaArchiver.RecordSequences | backend/archive_legacy_public_tables.py:249-294 | every planned sequence has already moved with its table: the explicit move and the disappearance error are dead |
| SchemaArchiver.Database.Archive | backend/archive_legacy_public_tables.py:123-298 | a run goes through exactly under the stated condition; a committed one leaves the moved catalog and the rows, a dry or failed one leaves everything |
| SchemaArchiver.ArchiveConserves | backend/archive_legacy_public_tables.py:207-296 | a committed run keeps every relation with name, kind and owner and overwrites none; it moves exactly the legacy tables and what belongs to them, and no legacy name stays behind |
| SchemaArchiver.SecondRunMovesNothing | backend/archive_legacy_public_tables.py:123-298 | a second executed run goes through, moves nothing and records nothing |
| SchemaArchiver.OneRowEach | backend/archive_legacy_public_tables.py:209-294 | exactly one manifest row per legacy table present and per owned sequence, and no other |
| SchemaArchiver.EverySequenceRecordedExactly | backend/archive_legacy_public_tables.py:58-80 | every moved sequence has a row if and only if none belongs to an identity column |
| FeatureList.ParseFeatureList | scripts/generate_project_overview.py:67-81 | the parser's loop computes the specified sections |
| FeatureList.CheckLines | scripts/verify_feature_list.py:35-70 | the validator's loop computes the specified order, statuses, counts and errors |
| FeatureList.ValidateFeatureList | scripts/verify_feature_list.py:20-92 | the whole validator, missing and empty files included |
| FeatureList.TablesSay | scripts/verify_feature_list.py:35-70 | the validator's tables are the headings, status headings and item counts of the text |
| FeatureList.AcceptedExactly | scripts/verify_feature_list.py:20-92 | a list is accepted if and only if it has the title, exactly the five sections in order with no status heading outside them, and in each the two statuses in order with an item under each |
| FeatureList.ReadersAgree | scripts/verify_feature_list.py:35-70 | on any text the parser's titles are the validator's order, and the count of an expected heading is the number of items the parser files under it |
| FeatureList.ParserSays | scripts/generate_project_overview.py:67-81 | the parser files as completed and planned exactly the items that stand under the one and the other status |
| FeatureList.ValidatorImpliesParser | scripts/generate_project_overview.py:67-81 | an accepted list is parsed into exactly the five sections in order, each with as many completed and planned items as counted, and some of each |
| TicketContext.BuildContext | backend/automation_ecs_route_worker.py:81-106 | sorting, cutting behind the trigger and collecting, with both errors, as specified |
| TicketContext.ContextExactly | backend/automation_ecs_route_worker.py:81-106 | one entry for each public comment with a text, at or before the trigger, whose side is known; a conflict exactly when one of these has it |
| TicketContext.TriggerMissingExactly | backend/automation_ecs_route_worker.py:88-92 | the trigger is missing exactly when no comment has its id |
| TicketContext.PublicMessages | backend/services/automation_context.py:39-59 | the last pass keeps the specified messages with their ids and sides |
| TicketContext.PublishedExactly | backend/services/automation_context.py:39-59 | published are exactly the sent messages of customers and assistants with a text that nothing keeps private, each under its first name |
| TicketContext.RoutedContext | backend/automation_ecs_route_worker.py:81-107 | the whole context of an event, with a comment snapshot or without |
| TicketContext.NothingIsLost | backend/services/automation_context.py:39-59 | that pass keeps every collected comment in order with its own id, side, time and text |
| TicketContext.SideIsEvidence | backend/automation_ecs_route_worker.py:35-51 | the side agrees with all the evidence of role and flag; no evidence, no side; a conflict is exactly two pieces that disagree |
| TicketContext.RolesSay | backend/automation_ecs_route_worker.py:35-51 | which role names and flags give which side, and which conflict |
| TicketContext.SortSorts | backend/automation_ecs_route_worker.py:87 | with unique ids the sort is strictly by time, then id, and keeps exactly the comments |
| TicketContext.LexMeans | backend/automation_ecs_route_worker.py:87 | ids of one time stand in the order of a dictionary |
| TicketContext.SortedIsUnique | backend/automation_ecs_route_worker.py:87 | a sorted sequence is determined by its elements |
| TicketContext.OnlyThePastMatters | backend/automation_ecs_route_worker.py:81-107 | two snapshots that agree on the trigger and what precedes it give the same result, errors included |
| TicketContext.LaterCommentsDoNotMatter | backend/automation_ecs_route_worker.py:88-93 | adding comments after the trigger changes nothing, not even by an identity conflict |
| TicketContext.OrderDoesNotMatter | backend/automation_ecs_route_worker.py:81-107 | every permutation of the snapshot gives the same result |

## Left out

- SlackDrain.AtMostOneEffect: a post that arrives after its sender gave up waiting is an arrival at the time of the crash event, not later.
- ReplyJobs.AtMostFiveClaims: for rows that are not saved again; jobs Hermes parks go back to the queue by design and are excluded by the claim.
- ReplyPass.ReleasedExactly: a handler ends by settling, publishing or raising; returning early after it lost its claim is the fence that refuses its last write.
- CommentDrain.Drain: an exception between a row's first write and its last, other than the public write's own, is the crash of that delivery, which the theorems over runs cover and this method does not.
- SlackDrain.Outbox.Drain: the same for the repository's own exceptions.
- CommentDrain.DeliverApproved: revisions, ownership and ticket status are one guard decision per delivery, and attachments one answer.
- RelayDispatch.Relay.Drain: the release of gated requests after the public reply is an event of the machine, and the incident a closed request records is left out.
- RelayResults.ApplicableExactly: one request at a time, so the deferred scan's limit is `DeferredScan`'s, and relay task closing is not part of the state.
- ExpirySweep.RecheckedExactly: every listing succeeds; a cycle whose listing fails moves no cursor while requests go on arriving.
- DeferredScan.TriedExactly: a result goes through always or never, nothing but the scan takes results away, and no error but the relay's own ends a cycle early.
- StartupRecovery.SecondPassAddsNothing: both passes use the same worker start time.
- TicketQuery.OneAnswerExactly: messages are appended in the order they are stored; timestamps that do not parse are treated as absent.
- EcsWorker.ProcessClaimed: native status notifications and agent turns are left out; renewal of the lease by the heartbeat thread is an event that may simply not happen.
- FeatureList.ValidatorImpliesParser: the removal of surrounding blanks is an arbitrary function, the same one for both readers.
- ReplySegment.HistoryIsIgnoredExactly: regular expressions are arbitrary classifiers; what is assumed of them is that a marker line is neither blank nor a header and a header is not blank.
- SchemaArchiver.Database.Archive: the summary it prints, row estimates, the manifest's own index and the types behind relations.
- The three pipeline spellings of reply statuses are one stage each, and the storage is the Postgres one where the in-memory twin differs.
- Persona rendering, routing, classification, sentiment and retrieval are arbitrary results or exceptions of the handlers.
- HTTP, SQL, Redis, Slack, Zendesk and mail transport, authentication, environment parsing and logging: only the atomic contract each protocol needs is kept.
- The relay listener's backoff, dashboards, the RAG API, the websocket gateway and the remaining scripts: they would add only easy members.
