/** What each write of the worker, of a tick and of an interrupt means for the lead: when it is looked at next, if ever. */
module Delivery {
  import opened Prelude
  import opened Sequence
  import opened Dispatch
  import opened LostMailbox

  // ---- who writes what ---------------------------------------------------------------

  predicate OfDispatcher(op: Op) {
    op.Begin? || op.Pick? || op.Suppress? || op.Due? || op.Bind? || op.Enqueue? || op.Finish? || op.Quit?
  }

  /** Each part of a campaign is written by these steps only; nobody ever takes an email out of the queue. */
  lemma {:induction false} Writers(s: State, op: Op)
    ensures var t := Apply(s, op);
            && t.accounts == s.accounts && s.jobs <= t.jobs
            && (t.steps != s.steps ==> op.ReplaceSteps? && t.steps == op.to && s.phase != Done && s.phase != Archived)
            && (t.phase != s.phase ==> op.Launch? || op.Pause? || op.Resume? || op.Finish?)
            && (t.jobs != s.jobs ==> op.Enqueue?)
            && (t.flying != s.flying ==> op.Check? || op.Send?)
            && (t.events != s.events ==> op.Send? || op.Purge? || (op.Resolve? && op.action == RestartNewMailbox))
            && (t.tick != s.tick ==> OfDispatcher(op))
  {
    hide SeedAll, LoseAll, ResolveAll, Advance, Interrupted, Judge, Binding, Claim, AllQueued, AnyActive, AffectedIds, EventsOf;
  }

  /** Pausing is for live campaigns, resuming for paused ones, launching for any that is not live and is complete. */
  lemma {:induction false} PhasesMove(s: State, now: nat)
    ensures Apply(s, Pause).phase == if s.phase == Live then Halted else s.phase
    ensures Apply(s, Resume).phase == if s.phase == Halted then Live else s.phase
    ensures Apply(s, Launch(now)).phase == if s.steps != [] && s.accounts > 0 then Live else s.phase
    ensures forall to :: Apply(s, ReplaceSteps(to)).steps == if s.phase == Done || s.phase == Archived then s.steps else to
  {
  }

  /**
   * A tick comes to its end exactly when it has looked for due leads and has queued every email it composed; that
   * completes the campaign exactly when no lead is active, and writes no lead and no email.
   */
  lemma {:induction false} FinishClosesIff(s: State)
    ensures var t := Apply(s, Finish);
            && t.leads == s.leads && t.jobs == s.jobs
            && (t.tick != s.tick <==> s.tick.Some? && s.tick.value.picked && forall id :: !Pending(s, id))
            && (t.tick != s.tick ==> t.tick == None)
            && (t.phase != s.phase <==>
                  t.tick != s.tick && s.phase != Done && forall id :: id in s.leads ==> s.leads[id].status != Active)
            && (t.phase != s.phase ==> t.phase == Done)
  {
    if s.tick.Some? {
      var slots := s.tick.value.slots;
      assert forall id :: id in slots ==> (slots[id].Found? <==> !Pending(s, id));
    }
  }

  // ---- one email ---------------------------------------------------------------------

  /**
   * The row m of a lead whose step was found delivered or has just been recorded, from its row l before: an active lead
   * is at that step, finished if it was the last and due again otherwise; any other lead is as it was.
   */
  predicate Moved(l: Lead, m: Lead, job: Job, again: nat) {
    if l.status != Active then m == l
    else
      && m.step == job.step && m.account == l.account && m.reason == l.reason
      && (if job.last then m.status == Completed && m.due == None else m.status == Active && m.due == Some(again))
  }

  /** Only the lead's row differs. */
  predicate OnlyRow(was: map<nat, Lead>, now: map<nat, Lead>, id: nat) {
    now.Keys == was.Keys && forall i :: i in was && i != id ==> now[i] == was[i]
  }

  /** The worker's transaction: either the step is recorded and the lead moved, or neither; the email is out of its hands. */
  lemma {:induction false} SendMoves(s: State, job: Job, outcome: Outcome, again: nat)
    requires job in s.flying && job.lead in s.leads
    ensures var t := Apply(s, Send(job, outcome, again));
            var written := outcome == Recorded && job.Id() !in s.events;
            && OnlyRow(s.leads, t.leads, job.lead) && t.flying == s.flying - multiset{job} && t.jobs == s.jobs
            && (if written then Moved(s.leads[job.lead], t.leads[job.lead], job, again)
                else t.leads[job.lead] == s.leads[job.lead])
            && (forall k :: k in t.events <==> k in s.events || (written && k == job.Id()))
            && t.phase == s.phase && t.tick == s.tick && t.steps == s.steps
  {
  }

  /** Before it sends: what each answer of the guards makes of the lead, and when the email goes on. */
  lemma {:induction false} CheckMoves(s: State, job: Job, gate: Gate, again: nat)
    requires job in s.jobs && job.lead in s.leads
    ensures var t := Apply(s, Check(job, gate, again));
            var l, m := s.leads[job.lead], t.leads[job.lead];
            && OnlyRow(s.leads, t.leads, job.lead) && t.events == s.events && t.jobs == s.jobs
            && m.account == l.account && t.phase == s.phase && t.tick == s.tick
            && (t.flying != s.flying <==> gate == Allow && job.Id() !in s.events)
            && (t.flying != s.flying ==> t.flying == s.flying + multiset{job} && m == l)
            && (gate == Allow && job.Id() in s.events ==> Moved(l, m, job, again))
            && (gate == Abort ==> m == l)
            && (gate.Defer? ==> m.due == Some(gate.until) && m.status == l.status)
            && (gate == Block || gate == Blank ==> m.status == Paused && m.due == None)
            && (gate == Blank ==> m.reason == BlankContent) && (gate == Block || gate.Defer? ==> m.reason == l.reason)
            && (gate != Allow ==> m.step == l.step)
  {
    var t := Apply(s, Check(job, gate, again));
    if gate == Allow && job.Id() !in s.events { assert t.flying[job] == s.flying[job] + 1; }
  }

  // ---- when the lead is looked at next --------------------------------------------------

  /** After a recorded email that was not the last, an active lead is due exactly from its follow-up time on. */
  lemma {:induction false} FollowUpIsDueIff(s: State, job: Job, again: nat, now: nat)
    requires job in s.flying && job.lead in s.leads && job.Id() !in s.events && s.leads[job.lead].status == Active
    ensures IsDue(Apply(s, Send(job, Recorded, again)), job.lead, now) <==>
            s.phase == Live && !job.last && again <= now
  {
    SendMoves(s, job, Recorded, again);
  }

  /** After a deferral, exactly from the deferred time on. */
  lemma {:induction false} DeferredIsDueIff(s: State, job: Job, until: nat, again: nat, now: nat)
    requires job in s.jobs && job.lead in s.leads
    ensures IsDue(Apply(s, Check(job, Defer(until), again)), job.lead, now) <==>
            s.phase == Live && s.leads[job.lead].status == Active && until <= now
  {
    CheckMoves(s, job, Defer(until), again);
  }

  /** A busy sticky mailbox postpones exactly its lead, and exactly to the retry time. */
  lemma {:induction false} BusyIsDueIff(s: State, id: nat, retry: nat, sig: Signals, blank: bool, now: nat)
    requires Listed(s, id) && id in s.leads && s.tick.value.slots[id].row.account.Some?
    ensures var t := Apply(s, Due(id, Busy(retry), sig, blank));
            && OnlyRow(s.leads, t.leads, id) && !Listed(t, id) && !Pending(t, id) && t.jobs == s.jobs
            && t.tick.Some? && t.tick.value.binds == s.tick.value.binds
            && t.leads[id] == s.leads[id].(due := Some(retry))
            && (IsDue(t, id, now) <==> s.phase == Live && s.leads[id].status == Active && retry <= now)
  {
  }

  /** Once claimed, an active lead is due exactly from the claimed time on; the email is queued in any case. */
  lemma {:induction false} ClaimedIsDueIff(s: State, id: nat, claim: nat, now: nat)
    requires Pending(s, id) && id in s.leads
    ensures var t := Apply(s, Enqueue(id, claim));
            var e := s.tick.value.slots[id];
            && OnlyRow(s.leads, t.leads, id) && !Pending(t, id)
            && (forall j :: j in t.jobs <==> j in s.jobs || (j.lead == id && j.step == e.step && j.last == e.last))
            && (IsDue(t, id, now) <==> s.phase == Live && s.leads[id].status == Active && claim <= now)
  {
  }

  /** A launch, and the opening of a tick, make every new lead due at once and leave every other as it was. */
  lemma {:induction false} NewLeadsAreDueIff(s: State, id: nat, now: nat, later: nat)
    requires id in s.leads
    requires s.leads[id].status == Active && s.leads[id].step == 0 && s.leads[id].due == None
    ensures var t := Apply(s, Launch(now));
            t.phase == Live && s.phase != Live ==> (IsDue(t, id, later) <==> now <= later)
    ensures s.phase == Live && s.tick.None? ==>
              (IsDue(Apply(Apply(s, Begin), Seed(now)), id, later) <==> now <= later)
  {
  }

  lemma {:induction false} OldLeadsStay(s: State, id: nat, now: nat)
    requires id in s.leads
    requires s.leads[id].status != Active || s.leads[id].step != 0 || s.leads[id].due != None
    ensures var t := Apply(s, Launch(now)); id in t.leads && t.leads[id] == s.leads[id]
    ensures var t := Apply(s, Seed(now)); id in t.leads && t.leads[id] == s.leads[id]
  {
  }

  // ---- what a tick reads and decides ------------------------------------------------------

  /** The query finds exactly the due leads among those it may return, as they are, and the plan is the loaded steps. */
  lemma {:induction false} TickReads(s: State, now: nat, ids: set<nat>, id: nat)
    requires s.phase == Live && s.tick.None? && id in s.leads
    ensures var o := Apply(Apply(s, Begin), Seed(now));
            var t := Apply(o, Pick(ids, now));
            && t.tick.Some? && t.tick.value.plan == s.steps && t.tick.value.binds == map[] && t.leads == o.leads
            && !Pending(t, id) && (Listed(t, id) <==> id in ids && IsDue(o, id, now))
            && (Listed(t, id) ==> t.tick.value.slots[id].row == o.leads[id])
  {
  }

  /**
   * A lead with a mailbox at hand is decided on the row and the steps the tick read: finished if no step can be
   * delivered, paused if the step renders blank, otherwise left as it is with the step composed; a first mailbox is
   * kept for the end of the tick.
   */
  lemma {:induction false} MailboxAtHand(s: State, id: nat, box: nat, sig: Signals, blank: bool)
    requires Listed(s, id) && id in s.leads
    ensures var row := s.tick.value.slots[id].row;
            var st := Deliver(s.tick.value.plan, row.step + 1, sig);
            var t := Apply(s, Due(id, Ready(box), sig, blank));
            && OnlyRow(s.leads, t.leads, id) && t.jobs == s.jobs && t.tick.Some? && !Listed(t, id)
            && t.leads[id].step == s.leads[id].step && t.leads[id].account == s.leads[id].account
            && (st.None? ==> t.leads[id].status == Completed && t.leads[id].due == None)
            && (st.Some? && blank ==>
                  t.leads[id].status == Paused && t.leads[id].reason == BlankContent && t.leads[id].due == None)
            && (st.Some? && !blank ==> t.leads == s.leads && t.tick.value.slots[id].step == st.value.number)
            && (Pending(t, id) <==> st.Some? && !blank)
            && t.tick.value.binds == if row.account.None? then s.tick.value.binds[id := box] else s.tick.value.binds
  {
    hide Deliver, AnyHigher;
  }

  /** Without a mailbox for a new lead nothing happens: it stays in the list, and in the table, as it was. */
  lemma {:induction false} NoMailboxWaits(s: State, id: nat, mail: Mail, sig: Signals, blank: bool)
    requires Listed(s, id) && s.tick.value.slots[id].row.account.None? && !mail.Ready?
    ensures Apply(s, Due(id, mail, sig, blank)) == s
  {
  }

  /** A vanished mailbox pauses exactly the leads that are active on it, once a tick, and sends nobody anything. */
  lemma {:induction false} LossPausesIff(s: State, id: nat, lost: nat, sig: Signals, blank: bool, other: nat)
    requires Listed(s, id) && id in s.leads && s.tick.value.slots[id].row.account == Some(lost) && other in s.leads
    ensures var t := Apply(s, Due(id, Gone, sig, blank));
            && t.leads.Keys == s.leads.Keys && t.jobs == s.jobs && !Listed(t, id) && !Pending(t, id)
            && t.tick.Some? && t.tick.value.lost == s.tick.value.lost + {lost}
            && var l, m := s.leads[other], t.leads[other];
               && (m != l <==> lost !in s.tick.value.lost && l.status == Active && l.account == Some(lost))
               && (m != l ==> m == l.(status := Paused, reason := MailboxLost, due := None))
  {
  }

  /** The sticky mailbox is written to its lead and to no other, and changes nothing else about it. */
  lemma {:induction false} BindingIsWritten(s: State, id: nat)
    requires s.tick.Some? && id in s.tick.value.binds && id in s.leads
    ensures var t := Apply(s, Bind(id));
            && OnlyRow(s.leads, t.leads, id) && t.tick.Some? && t.tick.value.slots == s.tick.value.slots
            && t.leads[id] == s.leads[id].(account := Some(s.tick.value.binds[id])) && t.jobs == s.jobs
  {
  }

  /** The three decisions: continue where it stopped, start over, or stop there; and when the lead is due. */
  lemma {:induction false} DecisionsMean(s: State, id: nat, lost: nat, action: Action, t: nat, now: nat)
    requires id in s.leads && Affected(s.leads[id], lost)
    ensures var e := Apply(s, Resolve(lost, action, t));
            && id in e.leads && e.leads[id].reason == NoReason
            && (action == StopAtCurrentStep ==>
                  e.leads[id].status == Completed && e.leads[id].due == None && e.leads[id].step == s.leads[id].step)
            && (action != StopAtCurrentStep ==>
                  e.leads[id].status == Active && e.leads[id].account == None
                  && e.leads[id].step == (if action == RestartNewMailbox then 0 else s.leads[id].step)
                  && (IsDue(e, id, now) <==> s.phase == Live && t <= now))
  {
  }

  // ---- leads nobody looks at any more -----------------------------------------------------

  /** Not active, not waiting for an operator's decision on a mailbox, and in no running tick. */
  predicate Out(s: State, id: nat) {
    id in s.leads && s.leads[id].status != Active && s.leads[id].reason != MailboxLost && !Listed(s, id)
  }

  lemma {:induction false} StaysOut(s: State, op: Op, id: nat)
    requires Out(s, id)
    ensures Out(Apply(s, op), id) && Leftovers(Apply(s, op), id) <= Leftovers(s, id)
  {
    hide Apply, After, Listed, Leftovers;
    LeaverIsNotListed(s, op, id);
    LeaverQueuesNothing(s, op, id);
    LeftoversShrink(s, Apply(s, op), id);
    OnlyAResolutionActivates(s, op, id);
    OnlyActiveIsLost(s, op, id);
  }

  lemma {:induction false} OnlyActiveIsLost(s: State, op: Op, id: nat)
    requires id in s.leads && s.leads[id].status != Active && s.leads[id].reason != MailboxLost
    ensures id in Apply(s, op).leads && Apply(s, op).leads[id].reason != MailboxLost
  {
    hide PickStep, FinishStep, AffectedIds, EventsOf, DueStep, CheckStep, SendStep;
    if NoRowWritten(op) {
      RowsUntouched(s, op);
    } else if op.Due? {
      DueKeepsUnlost(s, op, id);
    } else if op.Check? || op.Send? {
      WorkerKeepsUnlost(s, op, id);
    }
  }

  lemma {:induction false} WorkerKeepsUnlost(s: State, op: Op, id: nat)
    requires (op.Check? || op.Send?) && id in s.leads && s.leads[id].reason != MailboxLost
    ensures id in Apply(s, op).leads && Apply(s, op).leads[id].reason != MailboxLost
  {
  }

  lemma {:induction false} DueKeepsUnlost(s: State, op: Op, id: nat)
    requires op.Due? && id in s.leads && s.leads[id].status != Active && s.leads[id].reason != MailboxLost
    ensures id in Apply(s, op).leads && Apply(s, op).leads[id].reason != MailboxLost
  {
    hide Judge, Binding;
  }

  /** In every run: a lead that is out is never due again, nothing more is composed for it, and no resolution reaches it. */
  lemma {:induction false} OutIsForGood(s: State, ops: seq<Op>, id: nat)
    requires Out(s, id)
    ensures var e := Run(s, ops);
            && Out(e, id) && (forall now :: !IsDue(e, id, now)) && Leftovers(e, id) <= Leftovers(s, id)
            && forall lost :: !Affected(e.leads[id], lost)
    decreases |ops|
  {
    hide Apply, Leftovers, Out;
    if ops == [] {
      OutIsNotDue(s, id);
    } else {
      StaysOut(s, ops[0], id);
      OutIsForGood(Apply(s, ops[0]), ops[1..], id);
    }
  }

  lemma {:induction false} OutIsNotDue(s: State, id: nat)
    requires Out(s, id)
    ensures id in s.leads && (forall now :: !IsDue(s, id, now)) && forall lost :: !Affected(s.leads[id], lost)
  {
  }

  /** An active lead carries no pause reason, in every run of a new campaign. */
  lemma {:induction false} ActiveIsUnmarked(s: State, ops: seq<Op>, id: nat)
    requires id in s.leads && (s.leads[id].status == Active ==> s.leads[id].reason == NoReason)
    ensures var e := Run(s, ops); id in e.leads && (e.leads[id].status == Active ==> e.leads[id].reason == NoReason)
    decreases |ops|
  {
    hide Apply;
    if ops != [] {
      StaysUnmarked(s, ops[0], id);
      ActiveIsUnmarked(Apply(s, ops[0]), ops[1..], id);
    }
  }

  lemma {:induction false} StaysUnmarked(s: State, op: Op, id: nat)
    requires id in s.leads && (s.leads[id].status == Active ==> s.leads[id].reason == NoReason)
    ensures var t := Apply(s, op); id in t.leads && (t.leads[id].status == Active ==> t.leads[id].reason == NoReason)
  {
    hide PickStep, FinishStep, AffectedIds, EventsOf, DueStep, CheckStep, SendStep;
    if NoRowWritten(op) {
      RowsUntouched(s, op);
    } else if op.Due? {
      DueStaysUnmarked(s, op, id);
    } else if op.Check? || op.Send? {
      WorkerStaysUnmarked(s, op, id);
    }
  }

  lemma {:induction false} WorkerStaysUnmarked(s: State, op: Op, id: nat)
    requires op.Check? || op.Send?
    requires id in s.leads && (s.leads[id].status == Active ==> s.leads[id].reason == NoReason)
    ensures var t := Apply(s, op); id in t.leads && (t.leads[id].status == Active ==> t.leads[id].reason == NoReason)
  {
  }

  lemma {:induction false} DueStaysUnmarked(s: State, op: Op, id: nat)
    requires op.Due? && id in s.leads && (s.leads[id].status == Active ==> s.leads[id].reason == NoReason)
    ensures var t := Apply(s, op); id in t.leads && (t.leads[id].status == Active ==> t.leads[id].reason == NoReason)
  {
    hide Judge, Binding;
  }

  /**
   * The last email of an active lead finishes it: in every run afterwards it is never due, no tick composes another for
   * it, and only emails composed, queued or in flight before can still leave.
   */
  lemma {:induction false} LastEmailIsFinal(s: State, job: Job, again: nat, ops: seq<Op>)
    requires job in s.flying && job.last && job.lead in s.leads && job.Id() !in s.events && !Listed(s, job.lead)
    requires s.leads[job.lead].status == Active && s.leads[job.lead].reason == NoReason
    ensures var t := Apply(s, Send(job, Recorded, again));
            var e := Run(t, ops);
            && job.lead in t.leads && t.leads[job.lead].status == Completed && t.leads[job.lead].due == None
            && job.lead in e.leads && e.leads[job.lead].status != Active && (forall now :: !IsDue(e, job.lead, now))
            && Leftovers(e, job.lead) <= Leftovers(s, job.lead)
  {
    hide Apply, Leftovers;
    var t := Apply(s, Send(job, Recorded, again));
    SendMoves(s, job, Recorded, again);
    OutIsForGood(t, ops, job.lead);
    FlyingShrinks(s, job, again);
  }

  lemma {:induction false} FlyingShrinks(s: State, job: Job, again: nat)
    ensures Leftovers(Apply(s, Send(job, Recorded, again)), job.lead) <= Leftovers(s, job.lead)
  {
    hide Advance;
  }

  /**
   * So does any interrupt of a lead that is not waiting for a decision on its mailbox: a reply, a hard bounce, an
   * unsubscription or a pause by the reply rules. Only a lead that was through its sequence stays completed on a reply.
   */
  lemma {:induction false} InterruptIsFinal(s: State, id: nat, signal: Signal, ops: seq<Op>)
    requires id in s.leads && s.leads[id].reason != MailboxLost && !Listed(s, id)
    ensures var l := s.leads[id];
            var t := Apply(s, Interrupt(id, signal));
            var e := Run(t, ops);
            && OnlyRow(s.leads, t.leads, id) && t.events == s.events && t.jobs == s.jobs && t.flying == s.flying
            && t.leads[id].step == l.step && t.leads[id].account == l.account && t.leads[id].reason == l.reason
            && (signal == Reply ==> t.leads[id].status == if l.status == Completed then Completed else Replied)
            && (signal == HardBounce ==> t.leads[id].status == Bounced)
            && (signal == Unsubscribe ==> t.leads[id].status == Unsubscribed)
            && (signal == PauseLead ==>
                  t.leads[id].status == if l.status == Active || l.status == Completed then Paused else l.status)
            && (signal == Reply || signal == HardBounce || (signal == PauseLead && l.status == Active) ==>
                  t.leads[id].due == None)
            && id in e.leads && (forall now :: !IsDue(e, id, now)) && Leftovers(e, id) <= Leftovers(s, id)
  {
    hide Leftovers;
    var t := Apply(s, Interrupt(id, signal));
    InterruptKeepsLeftovers(s, id, signal);
    OutIsForGood(t, ops, id);
  }

  lemma {:induction false} InterruptKeepsLeftovers(s: State, id: nat, signal: Signal)
    ensures Leftovers(Apply(s, Interrupt(id, signal)), id) == Leftovers(s, id)
  {
    hide Interrupted;
  }

  /** An address that the tick finds suppressed is out for good as well. */
  lemma {:induction false} SuppressionIsFinal(s: State, id: nat, ops: seq<Op>)
    requires Listed(s, id) && id in s.leads && s.leads[id].reason != MailboxLost
    ensures var t := Apply(s, Suppress(id));
            var e := Run(t, ops);
            && OnlyRow(s.leads, t.leads, id) && t.leads[id].status == Unsubscribed && t.leads[id].due == None
            && id in e.leads && (forall now :: !IsDue(e, id, now)) && Leftovers(e, id) <= Leftovers(t, id)
  {
    hide Leftovers;
    OutIsForGood(Apply(s, Suppress(id)), ops, id);
  }
}
