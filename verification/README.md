# Verified models of the outreach backend

The backend protects sending reputation and runs cold-email sequences. Its difficult parts are long-lived
state: a worker that pushes held leads, a sequencer whose dispatcher, queue workers and operators write the same
rows, account lockout and token lineage, one-off migrations that claim to be safe to re-run, and append-only logs
that later code searches. This project models that logic in Dafny and proves what each operation keeps over whole
runs. Every database call is one atomic step on a finite map or set, a transaction is one step, an error that the
code swallows is a nondeterministic outcome of the step, and time is a non-decreasing integer.

Code that changes rows is a class whose methods are proved against a step function; the lemmas are about that
function and its runs. Code that only computes is functions and lemmas. `dafny verify dfyconfig.toml` checks it all.

| file | models |
|---|---|
| `HeldLeads.dfy`, `ProcessorLock.dfy` | the held-lead worker and the lock around its cycle |
| `Sequence.dfy` | which step the branching engine delivers |
| `Dispatch.dfy` | one campaign: launch, pause, the dispatcher's tick step by step, queue workers, step replacement, lost-mailbox resolutions |
| `DispatchSends.dfy`, `DispatchProgress.dfy` | how often a step leaves, and how the current step relates to the records |
| `LostMailbox.dfy`, `Ticks.dfy`, `LostTicks.dfy` | lost mailboxes: the resolutions, whole ticks, and what ticks make of a loss |
| `Delivery.dfy` | what each write means for its lead: when it is looked at next, if ever |
| `CampaignHandlers.dfy` | the handlers, the dispatcher and the worker, writing the rows |
| `Auth.dfy`, `AuthPasswords.dfy` | login lockout, reset and verification links, session refresh; which password logs in |
| `HtmlPatterns.dfy`, `HtmlReading.dfy` | the regular expressions of the blank-line rewrite, character by character |
| `BlankLines.dfy`, `BlankLinesContent.dfy`, `BlankLinesMended.dfy`, `BlankLinesSettled.dfy`, `BlankLinesExamples.dfy`, `BlankLinesMigration.dfy` | its three passes, when a second run changes nothing, and the table they rewrite |
| `LeadStats.dfy` | the lead-stats backfill |
| `RateLimit.dfy` | the AI generation limiter |
| `DeletionLog.dfy` | account deletion over the audit log and its worker |
| `Admission.dfy`, `CustomVariables.dfy`, `BulkImport.dfy` | leads entering campaigns and the contact table |
| `Slugs.dfy`, `Workspaces.dfy`, `ProviderStats.dfy` | organization slugs, agency workspaces, provider roll-up |
| `Prelude.dfy` | shared vocabulary |

## Where the code does not do what its own text says

Each is proved, with the exact condition under which the text is right where there is one.

- `SendEvent`'s unique key is called the guarantee of at-most-once delivery whichever writers interleave
  (prisma/schema.prisma:1586-1588, src/services/sendQueueService.ts:1615-1619). The key is consulted after the email
  has left. In every run a step is delivered at most once exactly when each of its sends found neither a record nor an
  unrecorded copy: `DispatchSends.RunOnceIff`; `OverlapSendsTwice` is a run that fails it, and workers that do not
  overlap with reliable commits meet it: `SerialSends`.
- The queue worker's comments say that the gate re-checks the lead's status before sending
  (src/services/sendQueueService.ts:1622-1633); the gate (src/services/executionGateService.ts:613-822) never reads it.
  Hence recorded steps can be ahead of `current_step`: `DispatchProgress.StepBelowIff` and `RunBelowIff` give the
  exact condition, `InactiveLeadIsOvertaken` and `LeftoverOvertakesRestart` the failures.
- The dispatcher's claim is meant never to resurrect a lead that replied between the query and the claim
  (src/services/sendQueueService.ts:1257-1260). The claim does not, but the email is queued and sent nevertheless:
  `LostMailbox.ListedReplierIsQueued`; who has left and is in no running tick gets only leftovers:
  `LostMailbox.LeaversGetOnlyLeftovers`.
- A lost mailbox's leads are said to resume on continue or restart (src/controllers/campaignController2.ts:1047-1061).
  They are due exactly when the campaign is live: `LostMailbox.ResumesIff`, `LostTicks.ResumesAtNextTick`. When they
  were its last active leads, the tick that noticed the loss completed it, and nothing resumes until it is launched
  again: `LostTicks.LossCompletesIff`, `LostCampaignNeedsLaunch`. Without another eligible mailbox the loss is not
  noticed at all: `LostTicks.LostIsNoticedIff`.
- The blank-line migration says it is idempotent (scripts/migrate_preserve_blank_lines.ts:10); it is exactly on the
  inputs of `BlankLinesSettled.IdempotentIff`. Three families on which it is not: two breaks at the end of a paragraph,
  a close inside that the second expression steps over, and a stray close behind (`BlankLinesExamples`).
- The backfill says two runs give the same state (scripts/backfill_lead_stats_from_sequencer.ts:45-48). It reads the
  rows of one email in no stated order, so that holds in every order exactly under `LeadStats.SettledInAnyOrderIff`.
  Its header (27-28) also says that leads without evidence keep their counters; they do exactly when the counters
  already are what the event tables hold: `LeadStats.NoEvidenceKeptIff`, with `SendsAreZeroed` where they do not.
- The deletion worker says it writes `deletion_executed` on success (src/workers/accountDeletionWorker.ts:44-48). An
  audit row's organization cascades (prisma/schema.prisma:1107), so it writes it exactly when the erasure returned, the
  organization was not deleted and the insert went through; that row then shields the organization:
  `DeletionLog.ExecutedIff`, `FailedErasureIsNotRetried`.
- A workspace's owner is said to delete it with everything in it (src/controllers/agencyController.ts:547-549). The
  account's key on its owner is restrictive (prisma/migrations/20260506031525_add_account_workspace_membership_invite/migration.sql:88),
  so that fails whenever an account owner is active there, the owner who has just switched into it included:
  `Workspaces.DeletionTakesUsersIff`, `OwnWorkspaceStays`.
- The slug helper says dashes are collapsed and trimmed (src/utils/slug.ts:9-14); it slices after trimming:
  `Slugs.CutIsSlugIff`, `CutSlugFails`. An edited slug keeps runs of dashes: `Slugs.EditedIsSlugIff`, `EditedSlugFails`.
- `collectCustomVariables` is meant to keep every non-standard column (src/controllers/campaignController2.ts:21-28);
  `key in out` also finds inherited names: `CustomVariables.ConstructorColumnIsLost`.

## Model

| member | source | states |
|---|---|---|
| HeldLeads.Worker.VisitLead | src/processor.ts:74-178 | what a visit leaves of the row, fault by fault; it throws exactly when the gate is asked and throws, or the activation of an allowed lead does; a refusal changes nothing; no other lead is touched |
| HeldLeads.Worker.PushLead | src/processor.ts:130-172 | the inner try: success clears the counter, failure or throw bumps it and reverts, each write with its own swallowed fault |
| HeldLeads.Worker.FetchBatch | src/processor.ts:61-70 | the batch is distinct waiting leads of the organization, min(50, waiting) of them |
| HeldLeads.Worker.Cycle | src/processor.ts:47-178 | a cycle visits different leads that were waiting when it began, min(50, waiting) per organization unless a throw ends it, and none ends it when no gate call and no activation throws |
| HeldLeads.VisitsAreLocal | src/processor.ts:74-178 | visits to different leads do not affect one another's row, counter or enrolment |
| HeldLeads.CycleMeans | src/processor.ts:47-178 | a cycle leaves of every visited lead exactly what that lead's own calls decide, and every other lead as it was |
| HeldLeads.RefusedWaitsOn | src/processor.ts:174-177 | a refused lead is still waiting after the cycle, with its counter and enrolment |
| HeldLeads.StrandedIff | src/processor.ts:109-172 | a visited lead ends held, blocked, active and enrolled, or stranded; stranded exactly when push and revert both fail |
| HeldLeads.CallsBounded | src/processor.ts:34-172 | over every run with every fault, at most one enrolment success per lead and at most cap calls, plus one cap per counter reset while waiting and one per lost count or read |
| HeldLeads.CounterIsFailures | src/utils/redis.ts:194-243 | the counter equals the failures since it was last cleared, unless a count was lost, and never exceeds them |
| HeldLeads.OnlyRevertsStrand | src/processor.ts:145-172 | over every run, a lead nobody else writes is held or blocked with no success, or active with exactly one success or one failed revert |
| HeldLeads.CycleLowers | src/processor.ts:47-160 | a cycle without faults lowers the summed remaining attempts by at least the leads it visits, and visits none only when none waits |
| HeldLeads.CyclesDrain | src/processor.ts:47-160 | as many such cycles as that sum leave no waiting lead |
| HeldLeads.CapIsReached | src/processor.ts:80-101 | the bound is tight: a lead that always fails is pushed exactly cap times, then blocked |
| ProcessorLock.ExclusiveIff | src/processor.ts:26-41 | in every run of any number of instances, at most one cycle body runs at a time exactly when nobody tries to start while a body is past the lock's lifetime |
| ProcessorLock.TimelyCyclesExclude | src/processor.ts:183-189 | cycles that end before the 60 s lifetime never overlap |
| ProcessorLock.OverrunFreesTheNextBody | src/utils/redis.ts:123-133 | release by key alone: one overrun lets two bodies overlap that are both within their own 60 s |
| ProcessorLock.CrashKeepsKey | src/processor.ts:34-41 | a crash ends the body and keeps its key, under which nobody starts before it expires; a finish frees it at once |
| ProcessorLock.LeftoverKeyExpires | src/utils/redis.ts:105-118 | a key left by a crash or failed release blocks nobody beyond its lifetime |
| Sequence.ResolveDeliverableStep | src/services/sendQueueService.ts:423-443 | the loop computes the ten-visit walk |
| Sequence.ConditionsMean | src/services/sendQueueService.ts:391-412 | reply, open and click conditions come in complementary pairs and read the fields they name |
| Sequence.WalkIff | src/services/sendQueueService.ts:410-443 | a step is returned exactly when fewer hops than the allowance, each from a failing step to its branch, reach it and its condition holds |
| Sequence.TenStepsNeedNoMore | src/services/sendQueueService.ts:419-443 | with at most ten step numbers the cap never changes the answer, loops included |
| Sequence.EleventhStepIsLost | src/services/sendQueueService.ts:419-443 | the cap is tight: an eleventh step behind ten failing ones is never delivered |
| Sequence.ForwardOnly | src/services/sendQueueService.ts:423-443 | if branches only go forward the delivered step is never before the due one |
| Delivery.SendMoves | src/services/sendQueueService.ts:1594-1689 | a recorded send moves an active lead to the step and finishes it after the last, otherwise makes it due again; any other lead and every other row is as it was, and an unrecorded send writes no row |
| Delivery.CheckMoves | src/services/sendQueueService.ts:1440-1550 | each answer of the guards: what it makes of the lead, and that the email goes on exactly when allowed and not delivered |
| Delivery.LastEmailIsFinal | src/services/sendQueueService.ts:1634-1644 | after its last email a lead is never due again in any run, no tick composes another for it, and only what was under way can still leave |
| Delivery.InterruptIsFinal | src/workers/imapReplyWorker.ts:226-238 | so does a reply, a hard bounce, an unsubscription or a pause, unless an operator's decision on its mailbox is open |
| Delivery.SuppressionIsFinal | src/services/sendQueueService.ts:755-763 | so does an address the tick finds suppressed |
| Delivery.OutIsForGood | src/services/sendQueueService.ts:714-731 | a lead that is not active, not lost with its mailbox and in no running tick is out for every run |
| Delivery.FollowUpIsDueIff | src/services/sendQueueService.ts:1637-1643 | after a step that was not the last, an active lead is due exactly from its follow-up time |
| Delivery.DeferredIsDueIff | src/services/sendQueueService.ts:1494-1503 | after a deferral, exactly from the deferred time |
| Delivery.ClaimedIsDueIff | src/services/sendQueueService.ts:1259-1266 | after a claim, exactly from the claimed time; exactly the composed email is queued |
| Delivery.BusyIsDueIff | src/services/sendQueueService.ts:1044-1053 | a busy sticky mailbox postpones exactly its lead, to the retry time |
| Delivery.NewLeadsAreDueIff | src/controllers/campaignController2.ts:974-984 | a launch, or a tick's seeding, makes a new lead due at once |
| Delivery.OldLeadsStay | src/controllers/campaignController2.ts:974-984 | neither touches any other lead |
| Delivery.TickReads | src/services/sendQueueService.ts:714-731 | a tick holds exactly the due leads of its query, as they were, and the steps of the campaign |
| Delivery.MailboxAtHand | src/services/sendQueueService.ts:1083-1185 | with a mailbox at hand: finished without a deliverable step, paused when it renders blank, otherwise composed with the row untouched |
| Delivery.LossPausesIff | src/services/sendQueueService.ts:1017-1043 | a vanished mailbox pauses exactly the leads active on it, once a tick |
| Delivery.NoMailboxWaits | src/services/sendQueueService.ts:1054-1060 | a new lead without a mailbox stays listed and stored as it was |
| Delivery.BindingIsWritten | src/services/sendQueueService.ts:1224-1236 | a binding is written to its lead only, and changes nothing but the mailbox |
| Delivery.DecisionsMean | src/controllers/campaignController2.ts:1080-1107 | continue, restart and stop: status, step, mailbox and when the lead is due |
| Delivery.Writers | src/services/sendQueueService.ts:560-1320 | which steps write the phase, the steps, the queue, the records and the tick; an email once queued stays queued |
| Delivery.FinishClosesIff | src/services/sendQueueService.ts:1305-1313 | a tick ends exactly when it has looked for due leads and queued all it composed, and completes the campaign exactly when no lead is active |
| Delivery.PhasesMove | src/controllers/campaignController2.ts:945-1170 | pause, resume, launch and replacement, each exactly when |
| DispatchSends.RunAccounts | src/services/sendQueueService.ts:1606-1689 | in every run the copies of a step that left are, in number, those whose transaction failed, those whose record a restart or a purge deleted, and the record that stands |
| DispatchSends.SendsAreBounded | src/services/sendQueueService.ts:1519-1689 | in every interleaving of launch, pause, replacement, tick steps, checks, sends, resolutions, interrupts and purges, step k of a lead leaves at most 1 + restarts + purges + failed commits times |
| DispatchSends.StepOnceIff | src/services/sendQueueService.ts:1519-1640 | at-most-once survives a step exactly when that step is no send of k while k has a record or an unrecorded copy |
| DispatchSends.RunOnceIff | prisma/schema.prisma:1586-1594 | over every run: a step is delivered at most once throughout exactly when every send of it was so guarded |
| DispatchSends.SerialSends | src/services/sendQueueService.ts:1519-1640 | workers that never hold the same email, with reliable commits, guard every send: at most 1 + restarts + purges |
| DispatchSends.OverlapSendsTwice | prisma/schema.prisma:1586-1594 | two workers that check before either commits send the step twice, with no record deleted |
| DispatchProgress.StepBelowIff | src/services/sendQueueService.ts:1519-1644 | "no recorded step is above current_step" survives a step exactly when the worker's write moves forward (stated on the state before) |
| DispatchProgress.RunBelowIff | src/controllers/campaignController2.ts:945-1109 | over a whole run, it holds in every state exactly when every step was forward |
| DispatchProgress.LaterKeysAreFree | src/services/sendQueueService.ts:1528-1531 | then the next step's key, and every later one, is free |
| DispatchProgress.TimelyRunsStayBelow | src/services/sendQueueService.ts:1519-1644 | in every run whose emails are processed while their lead is active and behind them, every later key is free throughout |
| DispatchProgress.NewCampaignStaysBelow | src/services/sendQueueService.ts:1519-1644 | a new campaign starts that way |
| DispatchProgress.ComposedKeyIsFree | src/services/sendQueueService.ts:1090-1200 | with forward branches, what a tick composes is a later step than it read, of the steps it loaded, whose condition holds and whose key is free unless a worker has meanwhile got that far; isLastStep is right for those steps |
| DispatchProgress.NobodyIsForgotten | src/services/sendQueueService.ts:700-731 | in every run an active lead has a due time or is at step 0, and after a tick's seeding every one has a time |
| DispatchProgress.ClaimPreventsRequeue | src/services/sendQueueService.ts:1243-1271 | once an email is queued, no ticks that look before the claimed time queue another for that lead, whoever else writes, until a worker reaches it or a resolution |
| DispatchProgress.InactiveLeadIsOvertaken | src/services/sendQueueService.ts:1622-1644 | an email queued for a lead that is no longer active is sent and recorded, and the lead stays behind its record |
| DispatchProgress.LeftoverOvertakesRestart | src/controllers/campaignController2.ts:1093-1107 | after a restart a leftover email takes the lead past every step before it |
| LostMailbox.ResolutionFrame | src/controllers/campaignController2.ts:1074-1107 | a resolution changes exactly the leads paused as lost on that mailbox, leaves none, and deletes exactly their records, only on restart |
| LostMailbox.ResolvingTwice | src/controllers/campaignController2.ts:1080-1107 | any second resolution of the same mailbox changes nothing |
| LostMailbox.ResolutionsKeepBelow | src/controllers/campaignController2.ts:1087-1107 | all three keep recorded steps at or below the current one; continue keeps step and records |
| LostMailbox.BannerCounts | src/controllers/campaignController2.ts:1021-1041 | a mailbox is listed exactly when a resolution would find leads of it, with their number |
| LostMailbox.ResolvedLeavesBanner | src/controllers/campaignController2.ts:1021-1041 | resolving removes exactly that mailbox's line from the listing |
| LostMailbox.LostAreAlwaysBound | src/services/sendQueueService.ts:1026-1035 | in every run each lead paused as lost has a mailbox, so some resolution applies to it |
| LostMailbox.OnlyAResolutionActivates | src/controllers/campaignController2.ts:1086-1104 | a lead becomes active exactly by a continue or restart of the mailbox it was lost on |
| LostMailbox.ActiveWasResolved | src/controllers/campaignController2.ts:1086-1104 | over every run, an inactive lead that ends up active was continued or restarted by the operator |
| LostMailbox.LeaversStayIff | src/services/sendQueueService.ts:1100-1180 | a replied, bounced or unsubscribed lead stays so exactly until a worker blocks an email of it, or a tick that read it before it left completes or pauses it: those writes do not look at the status they overwrite |
| LostMailbox.LeaversGetOnlyLeftovers | src/services/sendQueueService.ts:1348-1689 | in every run from a state in which no tick still has it to handle, until a worker's block: a lead that left stays out, nothing more is composed for it, and only emails composed, queued or in flight before still leave |
| LostMailbox.ListedReplierIsQueued | src/services/sendQueueService.ts:1243-1297 | while a tick still has it to handle, a lead that replies is queued all the same: the claim misses it, the email does not |
| LostMailbox.ReplierIsRestarted | src/services/sendQueueService.ts:1504-1512 | so a lead that replied while its mailbox was lost can be restarted and mailed again |
| LostMailbox.DoneIsIdleIff | src/services/sendQueueService.ts:1305-1313 | a completed campaign has no active lead, kept by every step except a continue or restart in it |
| LostMailbox.DoneQueuesNothing | src/controllers/campaignController2.ts:1151-1170 | no run without a launch queues anything for a completed campaign: resuming applies to paused ones only |
| LostMailbox.ResumesIff | src/controllers/campaignController2.ts:1086-1104 | a continued or restarted lead is due exactly when its campaign is live |
| Ticks.TickQueues | src/services/sendQueueService.ts:700-1320 | a due lead without a mailbox, handled with one at hand, ends the tick bound, claimed and queued for the step its row and the steps decide, whatever happens to the other leads |
| Ticks.TickDrains | src/services/sendQueueService.ts:1240-1300 | every email a tick composes is queued before it ends |
| LostTicks.ResumesAtNextTick | src/controllers/campaignController2.ts:1047-1061 | resolved leads are queued by the next tick that handles them exactly when the campaign is live; otherwise that tick changes nothing |
| LostTicks.LostIsNoticedIff | src/services/sendQueueService.ts:891-902 | a tick that has a lead of a vanished mailbox to handle pauses it as lost exactly when some mailbox is eligible |
| LostTicks.LossCompletesIff | src/services/sendQueueService.ts:1305-1313 | when all active leads were on the vanished mailbox, that tick completes the campaign exactly when some mailbox is eligible |
| LostTicks.LostCampaignNeedsLaunch | src/services/sendQueueService.ts:1305-1313 | so, with another mailbox eligible, leads continued after the last mailbox in use is lost are not queued by any run without a launch, and are due after one |
| CampaignHandlers.Campaign.LaunchCampaign | src/controllers/campaignController2.ts:945-984 | refused when active, without steps or without accounts; otherwise every active lead at step 0 is due |
| CampaignHandlers.Campaign.DispatchLead | src/services/sendQueueService.ts:1006-1200 | one due lead, decided on the row and steps the tick read and written by id: sticky mailbox, lost mailbox, delivered step, blank guard, composed email |
| CampaignHandlers.Campaign.RunTick | src/services/sendQueueService.ts:700-1320 | a tick is loading, seeding, the query, suppression, and if due leads and an eligible mailbox are left the leads in order up to the stop, the bindings, the claims with the queue, and completion when none is active |
| CampaignHandlers.Campaign.EnqueueLead | src/services/sendQueueService.ts:1243-1297 | the claim is guarded by the status, the queue is not |
| CampaignHandlers.Campaign.CloseTick | src/services/sendQueueService.ts:1305-1313 | completes a campaign without active leads, whatever its status has become meanwhile |
| CampaignHandlers.Campaign.CheckEmail | src/services/sendQueueService.ts:1440-1550 | the worker's guards before sending and the row each leaves; go exactly when allowed and not yet delivered |
| CampaignHandlers.Campaign.SendEmail | src/services/sendQueueService.ts:1594-1689 | the email leaves, then the transaction records it and moves its lead, finishing it after the last step, whole or not at all |
| CampaignHandlers.Campaign.ResolveLostMailbox | src/controllers/campaignController2.ts:1062-1115 | the operator's decision; the count is the leads it applied to, and the mailbox is off the listing |
| Auth.LockoutBound | src/controllers/authController.ts:157-206 | without a login or reset in between, failed comparisons within ms milliseconds number at most max(1, 10 - earlier failures) + floor(ms / 900000) |
| Auth.LockoutBoundMet | src/controllers/authController.ts:157-206 | the bound is met on the schedule that waits out each lock |
| Auth.LinksAreWellUsed | src/controllers/authController.ts:627-761 | in every run from registration on each use of a link was of the user's latest, unused and unexpired one, and the link columns agree with that history |
| Auth.TokensWorkOnce | src/controllers/authController.ts:735-761 | no reset or verification token is accepted twice |
| Auth.RunKeepsLineage | src/controllers/authController.ts:486-560 | every run keeps how sessions stand to the user's last password change, through refreshes and floored iat |
| Auth.SurvivorIff | src/controllers/authController.ts:525-532 | a session signed before the change is still accepted exactly when signed in that very millisecond and it is a whole second |
| Auth.OldSessionsDie | src/controllers/authController.ts:525-532 | whatever descends by refresh from an earlier session is refused unless the chain passes such a survivor |
| Auth.ChangeEndsSessions | src/controllers/authController.ts:525-538 | in every run nothing refreshed from a session older than the change is accepted, barring that millisecond |
| Auth.FreshSessionRefusedIff | src/controllers/authController.ts:525-532 | a new session after the change is refused exactly within the change's own, not whole, second |
| AuthPasswords.LatestChosenLogsIn | src/controllers/authController.ts:131-233 | in every run the password that logs in is that of the latest accepted registration, reset or change; it does exactly when the account is not locked and verified or a client's |
| AuthPasswords.PasswordIsLatestChosen | src/controllers/authController.ts:751-761 | the stored password is the one read off the requests |
| AuthPasswords.OnlySubjectChanges | src/controllers/authController.ts:38-841 | no request touches another user's row, or takes back a session |
| AuthPasswords.LoginAnswersIff | src/controllers/authController.ts:131-233 | each answer of a login exactly when |
| AuthPasswords.LoginWrites | src/controllers/authController.ts:157-206 | a wrong password counts and locks from the tenth, a success clears and signs in, nothing else writes |
| AuthPasswords.ResetSwitches | src/controllers/authController.ts:748-761 | after a reset the new password signs a verified account in at any time and any other is wrong; nobody else changes |
| AuthPasswords.ChangeSwitches | src/controllers/userController.ts:172-182 | after a change the new password is the one compared; lock, counter and links stay |
| AuthPasswords.ChangeAcceptedIff | src/controllers/userController.ts:150-170 | a change is accepted exactly from a live session with the current password |
| AuthPasswords.LinkOpensAccount | src/controllers/authController.ts:328-376 | a registered account asks for verification until its link is used, which works for exactly a day and signs in |
| AuthPasswords.MailedLinkWorksIff | src/controllers/authController.ts:627-670 | who is mailed a link, and that it works for exactly an hour, or a day |
| AuthPasswords.SessionLastsIff | src/controllers/authController.ts:486-538 | a session lasts three days to the second, and not past a password change in a later second |
| Auth.Handlers.Register | src/controllers/authController.ts:260-470 | refused for a registered address; otherwise an unverified account with its first verification link |
| Auth.Handlers.Login | src/controllers/authController.ts:131-233 | login answers and writes as the step says |
| Auth.Handlers.ClientLogin | src/controllers/authController.ts:38-98 | the client login, without verification gate |
| Auth.Handlers.ResetPassword | src/controllers/authController.ts:732-775 | finds the token's owner, refuses expired links, stores the new password, clears link and lock, and touches nobody else |
| Auth.Handlers.ChangePassword | src/controllers/userController.ts:125-182 | from a live session and with the current password only; stores the new one and touches nobody else |
| Auth.Handlers.VerifyEmail | src/controllers/authController.ts:804-841 | consumes the link, verifies and signs in |
| Auth.Handlers.RefreshToken | src/controllers/authController.ts:486-538 | refuses expired and outdated sessions, otherwise signs a child of the presented one |
| HtmlReading.TagsAre | scripts/migrate_preserve_blank_lines.ts:47-52 | the opening tag, the closing tag and the lookahead, letter by letter |
| HtmlReading.BreakIff | scripts/migrate_preserve_blank_lines.ts:47-52 | a break is exactly `<br`, spaces, an optional slash and `>` |
| HtmlReading.SpaceIs | scripts/migrate_preserve_blank_lines.ts:47-52 | the white space and line terminators, and the characters the dot stops at |
| HtmlReading.WordIs | scripts/migrate_preserve_blank_lines.ts:47-52 | the word characters of `\b` |
| HtmlReading.TagRestIff | scripts/migrate_preserve_blank_lines.ts:47-52 | what follows the letter of an opening tag: a boundary, then anything up to the first `>` |
| HtmlReading.BlankFound | scripts/migrate_preserve_blank_lines.ts:46-49 | however the first expression can match at the head, the model matches there and as much |
| HtmlReading.BlankShape | scripts/migrate_preserve_blank_lines.ts:46-49 | and where the model matches, the parts of the first expression are there |
| HtmlReading.TrailingFound | scripts/migrate_preserve_blank_lines.ts:51-54 | however the second expression can match, its `\S` being the `<` of a tag included, the model matches, and in the first way the lazy quantifiers try |
| HtmlReading.TrailingShape | scripts/migrate_preserve_blank_lines.ts:51-54 | and where the model matches, the expression does, with those groups |
| HtmlReading.ReplacementIs | scripts/migrate_preserve_blank_lines.ts:51-54 | the replacement keeps attributes and content and drops the break with its spaces |
| BlankLines.FillLeavesNoBlank | scripts/migrate_preserve_blank_lines.ts:46-49 | after the pass no empty paragraph is left, none formed by joining either |
| BlankLines.SplitBreaks | scripts/migrate_preserve_blank_lines.ts:51-54 | each split costs exactly one break |
| BlankLines.FixedIff | scripts/migrate_preserve_blank_lines.ts:42-62 | without empty paragraphs, a fixed point exactly when no paragraph has a trailing break; otherwise breaks drop |
| BlankLines.Converges | scripts/migrate_preserve_blank_lines.ts:42-62 | for every input a fixed point after at most one application more than there are breaks |
| BlankLinesSettled.IdempotentIff | scripts/migrate_preserve_blank_lines.ts:10 | a second application changes nothing exactly when, in the text the first pass leaves, every paragraph the second pass splits is settled and not followed by a stray close |
| BlankLinesMended.MendedQuietIff | scripts/migrate_preserve_blank_lines.ts:51-59 | settled means that after the third pass no match is left in what the second left of the paragraph: it ends in no further break, or is blank enough |
| BlankLinesMended.VisibleEmptyIff | scripts/migrate_preserve_blank_lines.ts:51-59 | the visible empty paragraph the second pass adds is matched again exactly when a stray close follows |
| BlankLinesContent.LeftMatchesIff | scripts/migrate_preserve_blank_lines.ts:51-54 | what is left of a split paragraph matches again exactly when it ends in a break with ink, or an inner tag, before it |
| BlankLinesExamples.TwoBreaksChange | scripts/migrate_preserve_blank_lines.ts:51-54 | a paragraph of any text that ends in two breaks changes again |
| BlankLinesExamples.StepOverChange | scripts/migrate_preserve_blank_lines.ts:51-54 | so does one with a close inside that the match steps over |
| BlankLinesExamples.StrayCloseChange | scripts/migrate_preserve_blank_lines.ts:51-54 | and one with a stray close behind it |
| BlankLinesExamples.SecondRunChanges | scripts/migrate_preserve_blank_lines.ts:10 | the unconditional claim fails on `<p>x<br><br></p>`, `<p>a</p>b<br><br></p>` and `<p>x<br></p>b<br></p>` |
| BlankLinesMigration.BodyTable.Migrate | scripts/migrate_preserve_blank_lines.ts:74-141 | rewrites every row unless dry; changed counts exactly the rows that differ, changed + unchanged = scanned |
| BlankLinesMigration.RerunChanges | scripts/migrate_preserve_blank_lines.ts:10 | a re-run changes exactly the rows whose text, after the first pass, holds a paragraph that is not settled or has a stray close behind |
| LeadStats.RowAdds | scripts/backfill_lead_stats_from_sequencer.ts:132-152 | one more campaign row, wherever it is read, adds its opens to the opens, its clicks to the clicks and its bounce, and nothing else |
| LeadStats.EventAdds | scripts/backfill_lead_stats_from_sequencer.ts:125-152 | one more send, reply or bounce event counts once where it belongs; no evidence counts nothing |
| LeadStats.DiffIsExact | scripts/backfill_lead_stats_from_sequencer.ts:229-250 | the reported fields are exactly those that differ |
| LeadStats.RunReflects | scripts/backfill_lead_stats_from_sequencer.ts:387-411 | a live run leaves every written lead with the counters of its evidence, active exactly when it was held with a running campaign |
| LeadStats.LastActivityIsLatest | scripts/backfill_lead_stats_from_sequencer.ts:182-214 | last_activity_at is the latest of the old value and every recorded date, so never moves back |
| LeadStats.AssignedIsLatest | scripts/backfill_lead_stats_from_sequencer.ts:168-180 | the assigned campaign's row maximises last sent, or created when nothing was sent |
| LeadStats.SortHead | scripts/backfill_lead_stats_from_sequencer.ts:174-179 | the head of the stable descending sort is the first row with the latest time |
| LeadStats.SortSorts | scripts/backfill_lead_stats_from_sequencer.ts:174-178 | the sort permutes and orders |
| LeadStats.NoChangeIff | scripts/backfill_lead_stats_from_sequencer.ts:229-250 | no change is reported exactly when writing would leave the row as it is |
| LeadStats.SecondRun | scripts/backfill_lead_stats_from_sequencer.ts:112-251 | recomputed after the update nothing is reported, except the status alone when the transition failed |
| LeadStats.RereadSettlesIff | scripts/backfill_lead_stats_from_sequencer.ts:151-180 | over rows re-read in another order, nothing is reported exactly when the same campaign comes out on top |
| LeadStats.SettledInAnyOrderIff | scripts/backfill_lead_stats_from_sequencer.ts:45-48 | that is so in every order exactly when all latest rows belong to one campaign |
| LeadStats.NoEvidenceKeptIff | scripts/backfill_lead_stats_from_sequencer.ts:27-28 | a lead without campaign row and send keeps status and campaign, and its counters exactly when they already are what the event tables hold |
| LeadStats.SendsAreZeroed | scripts/backfill_lead_stats_from_sequencer.ts:27-28 | a lead with five counted sends and no evidence loses them |
| LeadStats.Backfill.Reconcile | scripts/backfill_lead_stats_from_sequencer.ts:314-416 | live, every changed row is written with the counters of its evidence and no other; applied, transitioned and failed count exactly the leads written, activated and not written; dry writes nothing |
| LeadStats.TransitionsGoForward | scripts/backfill_lead_stats_from_sequencer.ts:253-300 | nothing goes back to held, and blocked and completed are final |
| LeadStats.NextRunChanges | scripts/backfill_lead_stats_from_sequencer.ts:387-411 | the next run changes exactly the leads whose update or transition failed |
| LeadStats.OneRunSettles | scripts/backfill_lead_stats_from_sequencer.ts:45-48 | with every write going through, one live run leaves nothing for the next |
| RateLimit.SlotIsLastWindow | src/controllers/aiGenerateController.ts:30-45 | in every run the slot is exactly the last window, counts its at most 15 grants, and windows open more than 60 s apart |
| RateLimit.AtMost29 | src/controllers/aiGenerateController.ts:27-45 | no closed 60 000 ms interval holds more than 29 grants of one organization |
| RateLimit.TwentyNineIsReached | src/controllers/aiGenerateController.ts:33-45 | 29 is reached |
| RateLimit.OrgsAreIndependent | src/controllers/aiGenerateController.ts:31-45 | an organization's slot and grants are those of the run without everybody else's calls |
| RateLimit.WaitingIsEnoughIff | src/controllers/aiGenerateController.ts:41-42 | waiting exactly the Retry-After header is enough except when a positive whole number of seconds was left |
| RateLimit.Limiter.CheckRateLimit | src/controllers/aiGenerateController.ts:33-45 | a refusal changes nothing and finds the window full; other organizations' slots stay |
| RateLimit.Limiter.SpendBudget | src/controllers/aiGenerateController.ts:212-222 | a sequence spends one call a step and stops at the first refusal, which leaves the window full and what was granted spent |
| DeletionLog.RunKeepsOneRequest | src/controllers/dataRightsController.ts:177-213 | in every run at most one request row per organization and user |
| DeletionLog.PendingIff | src/controllers/dataRightsController.ts:279-312 | one step begins pending exactly by a first request and ends it exactly by a strictly later cancellation with its token |
| DeletionLog.PendingHistory | src/controllers/dataRightsController.ts:177-363 | over every run: pending exactly when the first request of the run was not followed by a strictly later cancellation with its own token |
| DeletionLog.NeverPendingAgain | src/controllers/dataRightsController.ts:177-196 | after that no request makes it pending again: each is answered as already made |
| DeletionLog.AcceptedCancelWorksIff | src/controllers/dataRightsController.ts:336-363 | an accepted cancellation fails to take effect exactly in the request's own millisecond |
| DeletionLog.SubscriptionRequestIsFinal | src/controllers/billingController.ts:247-277 | a request made by cancelling the subscription has no token and cannot be cancelled by any run |
| DeletionLog.ErasedOnlyIfOverdue | src/workers/accountDeletionWorker.ts:76-110 | a cycle deletes an organization only for a request thirty days old without strictly later cancellation |
| DeletionLog.SweepLeavesNoneElapsed | src/workers/accountDeletionWorker.ts:76-165 | when its writes succeed, a cycle leaves nothing overdue, and elapsed cancelled requests are gone and can be made again |
| DeletionLog.ExecutedIff | src/workers/accountDeletionWorker.ts:142-185 | `deletion_executed` is written exactly when the erasure returned, the organization was not deleted and the insert went through; a deleted organization has no audit rows |
| DeletionLog.SweepTouches | src/workers/accountDeletionWorker.ts:82-185 | handling a request touches its own organization only, and there its own row and one new one unless the organization goes |
| DeletionLog.FailedErasureIsNotRetried | src/workers/accountDeletionWorker.ts:112-126 | after such a row no cycle deletes the organization for that user's requests |
| DeletionLog.AuditLog.RequestAccountDeletion | src/controllers/dataRightsController.ts:166-230 | already_requested whenever a request row exists, pending or not; otherwise pending |
| DeletionLog.AuditLog.GetDeletionStatus | src/controllers/dataRightsController.ts:270-316 | pending as defined by the log, with its execution time |
| DeletionLog.AuditLog.CancelAccountDeletion | src/controllers/dataRightsController.ts:322-366 | 404, 403 or 200; what a 200 does to pending |
| DeletionLog.AuditLog.RunOnce | src/workers/accountDeletionWorker.ts:49-191 | a cycle is the sweep over its snapshot, whatever throws; it counts as executed what it recorded and as errors every other request it tried |
| Admission.CreatedRows | src/controllers/campaignController2.ts:398-511 | on creation the rows are exactly the usable, unsuppressed, not red emails as written; paused exactly when yellow |
| Admission.RowsAreAddedIff | src/controllers/campaignController2.ts:475-521 | as many rows as accepted leads exactly when none was submitted twice |
| Admission.UpdatedRows | src/controllers/campaignController2.ts:759-866 | after an update: old rows less removed, plus the normal form of each admissible lead, graded by its first spelling |
| Admission.CreatedOneEachIff | src/controllers/campaignController2.ts:467-485 | creation gives one row per mailbox exactly when no mailbox was submitted in two admissible spellings |
| Admission.UpdatedOneEachIff | src/controllers/campaignController2.ts:838-862 | an update keeps that exactly when no kept row of an added mailbox is in another spelling |
| Admission.UpdateAdmitsRepliers | src/controllers/campaignController2.ts:410-425 | suppression by reply applies on creation only |
| Admission.CampaignLeads.CreateLeads | src/controllers/campaignController2.ts:301-521 | dropped, skipped, blocked and added count the submitted leads that are unusable, suppressed, red and accepted, each on its own; the import record repeats them; total_leads is at most added, and equal exactly when no admitted email repeats |
| Admission.CampaignLeads.UpdateLeads | src/controllers/campaignController2.ts:702-873 | added and blocked count the accepted and the red leads; total_leads = rows after any lead change; total_submitted = added + blocked exactly when no rule suppressed anything |
| CustomVariables.CollectCustomVariables | src/controllers/campaignController2.ts:38-60 | the two loops compute the fold |
| CustomVariables.KeepableIff | src/controllers/campaignController2.ts:38-53 | what is worth keeping: nested values that are there, and scalar columns not used by the application |
| CustomVariables.NothingLostIff | src/controllers/campaignController2.ts:35-60 | at most 50 keys, values at most 20 000 long, and nothing keepable is lost exactly when there are at most 50 |
| CustomVariables.CutMeans | src/controllers/campaignController2.ts:43-53 | a value is cut at 20 000 characters and only there |
| CustomVariables.NestedWins | src/controllers/campaignController2.ts:40-46 | no flat column replaces a nested value |
| CustomVariables.FlatIsFirst | src/controllers/campaignController2.ts:48-56 | a flat variable is the first eligible column of its name, never standard or underscored |
| CustomVariables.NestedIsLast | src/controllers/campaignController2.ts:41-46 | a nested variable is the last entry of its name, while there is room |
| CustomVariables.ConstructorColumnIsLost | src/controllers/campaignController2.ts:55 | a flat column named constructor is kept exactly when nested |
| BulkImport.Contacts.BulkCreateContacts | src/controllers/contactController.ts:598-712 | every contact counts as created, updated or rejected by its own health and the row it meets; duplicates = updated, created = new rows, and every email's row is its own fold |
| BulkImport.CreatorIsKept | src/controllers/contactController.ts:660-702 | a created row keeps persona, source and grade of the one contact that created it |
| BulkImport.LastWriterWins | src/controllers/contactController.ts:680-699 | contact fields are those of the last contact that wrote; an existing row keeps all else |
| BulkImport.SecondImportCreatesNothing | src/controllers/contactController.ts:640-702 | importing again creates nothing and keeps persona and source |
| Slugs.AlnumIs | src/utils/slug.ts:9-14 | the characters a slug keeps |
| Slugs.SlugifiersAgree | src/controllers/googleAuthController.ts:97-101 | both slugifiers give the alphanumeric runs joined by dashes |
| Slugs.Idempotent | src/utils/slug.ts:23-27 | slugging a slug changes nothing |
| Slugs.FixedIff | src/utils/slug.ts:9-14 | the result is a well-formed slug, and the fixed points are exactly those |
| Slugs.CutIsSlugIff | src/utils/slug.ts:23-27 | the sliced base is well formed exactly when it is not cut just after a dash |
| Slugs.CutSlugFails | src/utils/slug.ts:23-27 | a name whose slice ends in a dash |
| Slugs.SignupSlug | src/controllers/googleAuthController.ts:103-108 | the unbounded search ends within one try more than there are slugs, at the first free candidate |
| Slugs.UniqueSlug | src/controllers/agencyController.ts:266-284 | the first free of fifty; taken exactly when all fifty and the stamped name are |
| Slugs.EditedIsSlugIff | src/controllers/agencyController.ts:511-512 | an edited slug keeps the words, and is well formed, and then the one the name would get, exactly when between any two words stand one dash or characters other than dashes |
| Slugs.EditedSlugFails | src/controllers/agencyController.ts:511-512 | `a--b` stays `a--b` |
| Workspaces.ListedIffAdmitted | src/controllers/agencyController.ts:75-90 | the list is exactly what the access check admits, in all three regimes |
| Workspaces.RunKeepsInside | src/controllers/agencyController.ts:313-350 | no run of switches, creations and deletions leaves a user active outside their list |
| Workspaces.ClientsStayLocked | src/controllers/agencyController.ts:550-580 | a client locked to one workspace is never unlocked |
| Workspaces.DeletionTakesUsersIff | src/controllers/agencyController.ts:575-580 | a deletion removes exactly the users active in the workspace, and is refused, changing nothing, exactly when one of them owns an account or is named by another restricting key |
| Workspaces.DeletionUnlocks | src/controllers/agencyController.ts:575-580 | whoever stays is as before, except that clients locked to the deleted workspace no longer are |
| Workspaces.NamedUsersKeep | prisma/schema.prisma:34-36 | a restricting row keeps the workspace of the user it names until it is gone |
| Workspaces.OwnersStay | prisma/migrations/20260506031525_add_account_workspace_membership_invite/migration.sql:88 | no run removes the owner of an account |
| Workspaces.OwnWorkspaceStays | prisma/migrations/20260506031525_add_account_workspace_membership_invite/migration.sql:88 | an owner cannot delete a workspace they have switched into |
| Workspaces.CreatedIsListedIff | src/controllers/agencyController.ts:382-445 | a created workspace is no seed and is on its creator's list exactly when they are not locked to one |
| Workspaces.SeedsStay | src/controllers/agencyController.ts:423-434 | no run changes an account's seed workspaces |
| Workspaces.Tables.SwitchWorkspace | src/controllers/agencyController.ts:299-345 | succeeds exactly for listed workspaces, and then the user is active there |
| Workspaces.Tables.DeleteWorkspace | src/controllers/agencyController.ts:550-584 | succeeds exactly for an owner's admitted workspace that is no seed and in which no account owner is active; 500 for the last |
| Workspaces.FleetBounceRate | src/controllers/agencyController.ts:632-639 | rate times sends is the bounces of sending workspaces |
| Workspaces.CountedIff | src/controllers/agencyController.ts:176 | those are all bounces exactly when no silent workspace has any |
| ProviderStats.RollUp | src/controllers/analyticsController.ts:668-692 | each bucket totals exactly its provider's mailboxes, and the buckets together total all mailboxes |
| ProviderStats.BucketBounds | src/controllers/analyticsController.ts:680-712 | healthy + in recovery + paused = mailboxes, and the average score is a score |
| ProviderStats.RateIsBetween | src/controllers/analyticsController.ts:694-707 | the bucket's bounce rate lies between those of its best and worst sending mailbox when silent ones are clean |
| ProviderStats.DeliveredIff | src/controllers/analyticsController.ts:641-695 | a bucket delivers at most the sum of its mailboxes, and as much exactly when excess bounces and deliveries do not meet |
| ProviderStats.BucketCounts | src/controllers/analyticsController.ts:680-690 | every mailbox counts under its own standing: paused by phase or status, recovering, or healthy |
| ProviderStats.AverageIsRounded | src/controllers/analyticsController.ts:709-712 | the average score is the sum over the count, rounded half up |
| ProviderStats.PointsPerPercent | src/controllers/analyticsController.ts:629-634 | six points a percent of replies up to ten, 0.4 a percent not bounced, ten for warm-up, thirty off in recovery |
| ProviderStats.ScoreIsRounded | src/controllers/analyticsController.ts:634-636 | the score is the points rounded half up, within 0 and 100 |
| ProviderStats.ScoreIsMonotone | src/controllers/analyticsController.ts:629-636 | the score stays in 0..100 and never drops for more replies, fewer bounces, warm-up or health |

## Left out

- Held leads: a process that dies mid-visit; another writer between a batch read and the visit; an activation that is written and still throws. Audit writes swallow their own errors (src/services/auditLogService.ts:45-64), so they cannot strand a lead. The in-memory counter used while Redis is down is one counter with the Redis one.
- Dispatch: adding and removing leads, out-of-office holds, daily limits and the choice of the best mailbox (a parameter); ticks do not overlap (the dispatch lock; `ProcessorLock` says when such a lock holds); the claim of an email and its queueing are one step, and so are counting the active leads and completing the campaign; emails are claimed one by one, not mailbox by mailbox; content rendering, threading and subject inheritance beyond "renders blank".
- CampaignHandlers.Campaign.RunTick: a tick that nobody interrupts and that throws nowhere; in `Dispatch` its steps interleave with everything else, and `Quit` ends it anywhere.
- Queue mechanics (priorities, retries, stalled jobs): an email once queued may be processed any number of times; the retention purge (src/services/complianceService.ts:151-161) is a step that deletes any set of records.
- Auth: password and token hashing are taken as injective, signatures as unforgeable, and requests as served one after another; Google sign-up, consent records, the work-address rule of registration and the length rule for passwords are not modelled.
- Blank lines: a null body (the code returns the empty string and writes it) and characters outside the listed space and line-terminator sets.
- LeadStats: the evidence does not change between reading and writing; SQL text matching of emails is part of the evidence.
- RateLimit.Limiter.SpendBudget: the requested number is the number of clock readings; a fractional or unreadable number is not modelled.
- DeletionLog: erasing the leads' personal data (src/services/piiErasureService.ts:191-252) is the step that may fail to delete the organization; confirmation emails.
- Admission: reading and storing suppression rules is the set of suppressed addresses; the later, best-effort writes to contact leads, and assignToCampaign (adding stored contacts to a campaign).
- BulkImport: field trimming and the persona fallback are part of a contact's profile.
- Slugs: `toLowerCase` is applied before the model starts.
- ProviderStats: rounding of rates to two decimals; the two final sorts of mailboxes and buckets; the aggregation of daily rows into a mailbox's totals.
- Workspaces: a row that names a user with a restricting key counts as doing so also when the same deletion would remove that row.
- Concurrent requests on one user, campaign or account row: the handlers are not atomic, and only the processor lock and the queue workers are modelled concurrently.
- Modules that are thin wrappers (CRM and import controllers, OAuth, tier tables, wiring).
