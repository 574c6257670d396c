/**
 * src/controllers/campaignController2.ts: leads stranded by a mailbox that is gone, the operator's three
 * resolutions, and what only they can do to a lead.
 */
module LostMailbox {
  import opened Prelude
  import opened Sequence
  import opened Dispatch
  import opened DispatchProgress

  /** The lead rows after a step, when the lead exists before it. */
  function After(s: State, op: Op, id: nat): (l: Lead)
    requires id in s.leads
    ensures id in Apply(s, op).leads && l == Apply(s, op).leads[id]
  {
    hide *;
    RowsStay(s, op);
    Apply(s, op).leads[id]
  }

  lemma {:induction false} RowsStay(s: State, op: Op)
    ensures Apply(s, op).leads.Keys == s.leads.Keys
  {
    hide SeedOne, LoseOne, ResolveOne, Advance, Interrupted, Judge, Binding, Claim, AllQueued, AnyActive;
  }

  /** The steps that write no lead row. */
  predicate NoRowWritten(op: Op) {
    op.Pause? || op.Resume? || op.ReplaceSteps? || op.Begin? || op.Pick? || op.Finish? || op.Quit? || op.Purge?
  }

  lemma {:induction false} RowsUntouched(s: State, op: Op)
    requires NoRowWritten(op)
    ensures Apply(s, op).leads == s.leads
  {
    hide AllQueued, AnyActive;
  }

  // ---- what a resolution does --------------------------------------------------------

  /** A resolution touches exactly the leads paused as lost on that mailbox, and their records only on a restart. */
  lemma {:induction false} ResolutionFrame(s: State, lost: nat, action: Action, now: nat)
    ensures var e := Apply(s, Resolve(lost, action, now));
            && e.leads.Keys == s.leads.Keys && e.jobs == s.jobs && e.flying == s.flying && e.phase == s.phase
            && AffectedIds(e.leads, lost) == {}
            && (forall id :: id in s.leads ==> (e.leads[id] != s.leads[id] <==> Affected(s.leads[id], lost)))
            && (forall k :: k in s.events ==> 
                  (k !in e.events <==>
                   action == RestartNewMailbox && k.lead in s.leads && Affected(s.leads[k.lead], lost)))
            && e.events <= s.events
  {
  }

  /** Asking again changes nothing. */
  lemma {:induction false} ResolvingTwice(s: State, lost: nat, first: Action, second: Action, t: nat, u: nat)
    ensures var e := Apply(s, Resolve(lost, first, t)); Apply(e, Resolve(lost, second, u)) == e
  {
    var e := Apply(s, Resolve(lost, first, t));
    ResolutionFrame(s, lost, first, t);
    assert ResolveAll(e.leads, lost, second, u) == e.leads;
    assert EventsOf(e.events, {}) == {};
    assert e.events - {} == e.events;
    assert e.ledger.restarts + Each({}) == e.ledger.restarts;
  }

  /** Continuing keeps the step and every record, so a lead that was behind no record of its own still is not. */
  lemma {:induction false} ResolutionsKeepBelow(s: State, lost: nat, action: Action, now: nat)
    requires Below(s)
    ensures Below(Apply(s, Resolve(lost, action, now)))
    ensures action == ContinueNewMailbox ==>
              var e := Apply(s, Resolve(lost, action, now));
              e.events == s.events && forall id :: id in s.leads ==> id in e.leads && e.leads[id].step == s.leads[id].step
  {
    StepBelowIff(s, Resolve(lost, action, now));
    RowsStay(s, Resolve(lost, action, now));
  }

  /** The banner: every account with leads paused as lost, and how many. */
  function LostIds(leads: map<nat, Lead>, account: Option<nat>): set<nat> {
    set id | id in leads && leads[id].status == Paused && leads[id].reason == MailboxLost && leads[id].account == account
  }

  function LostAccounts(leads: map<nat, Lead>): set<Option<nat>> {
    set id | id in leads && leads[id].status == Paused && leads[id].reason == MailboxLost :: leads[id].account
  }

  function Groups(leads: map<nat, Lead>): map<Option<nat>, nat> {
    map a | a in LostAccounts(leads) :: |LostIds(leads, a)|
  }

  /** A mailbox has a line exactly when a resolution would find leads of it, and the line says how many. */
  lemma {:induction false} BannerCounts(leads: map<nat, Lead>, lost: nat)
    ensures Some(lost) in Groups(leads) <==> AffectedIds(leads, lost) != {}
    ensures Some(lost) in Groups(leads) ==> Groups(leads)[Some(lost)] == |AffectedIds(leads, lost)|
  {
    assert LostIds(leads, Some(lost)) == AffectedIds(leads, lost);
    if id :| id in AffectedIds(leads, lost) { assert leads[id].account in LostAccounts(leads); }
    if Some(lost) in LostAccounts(leads) {
      var id :| id in leads && leads[id].status == Paused && leads[id].reason == MailboxLost &&
                leads[id].account == Some(lost);
      assert id in AffectedIds(leads, lost);
    }
  }

  /** Resolving one mailbox removes its line from the banner and leaves the others as they were. */
  lemma {:induction false} ResolvedLeavesBanner(s: State, lost: nat, action: Action, now: nat)
    ensures Groups(Apply(s, Resolve(lost, action, now)).leads) == Groups(s.leads) - {Some(lost)}
  {
    var e := Apply(s, Resolve(lost, action, now));
    ResolutionFrame(s, lost, action, now);
    forall a ensures a != Some(lost) ==> LostIds(e.leads, a) == LostIds(s.leads, a) {
    }
    assert LostAccounts(e.leads) == LostAccounts(s.leads) - {Some(lost)} by {
      forall a | a in LostAccounts(s.leads) && a != Some(lost) ensures a in LostAccounts(e.leads) {
        var id :| id in s.leads && s.leads[id].status == Paused && s.leads[id].reason == MailboxLost &&
                  s.leads[id].account == a;
        assert e.leads[id] == s.leads[id];
      }
      forall a | a in LostAccounts(e.leads) ensures a in LostAccounts(s.leads) && a != Some(lost) {
        var id :| id in e.leads && e.leads[id].status == Paused && e.leads[id].reason == MailboxLost &&
                  e.leads[id].account == a;
        assert id in s.leads && e.leads[id] == s.leads[id];
      }
    }
  }

  /** Every lead paused as lost has a mailbox, so some line of the banner can resolve it. */
  predicate LostAreBound(s: State) {
    forall id :: id in s.leads && s.leads[id].reason == MailboxLost ==> s.leads[id].account.Some?
  }

  lemma {:induction false} LostStayBound(s: State, op: Op)
    requires LostAreBound(s)
    ensures LostAreBound(Apply(s, op))
  {
    hide Apply, After;
    RowsStay(s, op);
    forall id | id in s.leads && After(s, op, id).reason == MailboxLost ensures After(s, op, id).account.Some? {
      LostStaysBound(s, op, id);
    }
  }

  /** In every run of a new campaign. */
  lemma {:induction false} LostAreAlwaysBound(s: State, ops: seq<Op>)
    requires LostAreBound(s)
    ensures LostAreBound(Run(s, ops))
    ensures forall id :: id in Run(s, ops).leads && Run(s, ops).leads[id].status == Paused &&
                         Run(s, ops).leads[id].reason == MailboxLost ==>
                         exists lost :: Affected(Run(s, ops).leads[id], lost)
    decreases |ops|
  {
    if ops == [] {
      forall id | id in s.leads && s.leads[id].status == Paused && s.leads[id].reason == MailboxLost
        ensures exists lost :: Affected(s.leads[id], lost)
      {
        assert Affected(s.leads[id], s.leads[id].account.value);
      }
    } else {
      LostStayBound(s, ops[0]);
      LostAreAlwaysBound(Apply(s, ops[0]), ops[1..]);
    }
  }

  lemma {:induction false} LostStaysBound(s: State, op: Op, id: nat)
    requires id in s.leads && (s.leads[id].reason == MailboxLost ==> s.leads[id].account.Some?)
    ensures After(s, op, id).reason == MailboxLost ==> After(s, op, id).account.Some?
  {
    hide PickStep, FinishStep, AffectedIds, EventsOf, DueStep;
    if NoRowWritten(op) { RowsUntouched(s, op); } else if op.Due? { LosingIsBound(s, op, id); }
  }

  lemma {:induction false} LosingIsBound(s: State, op: Op, id: nat)
    requires op.Due? && id in s.leads && (s.leads[id].reason == MailboxLost ==> s.leads[id].account.Some?)
    ensures var t := Apply(s, op); id in t.leads && (t.leads[id].reason == MailboxLost ==> t.leads[id].account.Some?)
  {
    hide Judge, Binding;
  }

  // ---- who can make a lead active ------------------------------------------------------

  /** No step but a continue or restart of its mailbox makes a lead active. */
  lemma {:induction false} OnlyAResolutionActivates(s: State, op: Op, id: nat)
    requires id in s.leads && s.leads[id].status != Active
    ensures After(s, op, id).status == Active <==>
            op.Resolve? && op.action != StopAtCurrentStep && Affected(s.leads[id], op.lost)
  {
    hide PickStep, FinishStep, Judge, Binding, AffectedIds, EventsOf;
    if NoRowWritten(op) { RowsUntouched(s, op); }
  }

  /** Over whole runs: an inactive lead that ends up active was continued or restarted by the operator. */
  lemma {:induction false} ActiveWasResolved(s: State, ops: seq<Op>, id: nat) returns (i: nat)
    requires id in s.leads && s.leads[id].status != Active
    requires id in Run(s, ops).leads && Run(s, ops).leads[id].status == Active
    ensures i < |ops| && ops[i].Resolve? && ops[i].action != StopAtCurrentStep
    decreases |ops|
  {
    hide Apply, After;
    var t := Apply(s, ops[0]);
    OnlyAResolutionActivates(s, ops[0], id);
    if After(s, ops[0], id).status == Active {
      i := 0;
    } else {
      i := ActiveWasResolved(t, ops[1..], id);
      i := i + 1;
    }
  }

  predicate HasLeft(l: Lead) { l.status == Replied || l.status == Bounced || l.status == Unsubscribed }

  /**
   * The writes that do not look at the status they overwrite and can end it: the pause by a worker that blocks an
   * email, and a tick that completes or pauses a lead it read before the lead left.
   */
  predicate Overwrites(s: State, op: Op, id: nat) {
    match op
    case Check(job, gate, _) => job in s.jobs && job.lead == id && (gate == Block || gate == Blank)
    case Due(lead, mail, sig, blank) =>
      lead == id && Listed(s, id) && var t := s.tick.value;
      var v := Judge(t.plan, t.slots[id].row, mail, sig, blank); v == End || v == Empty
    case _ => false
  }

  /** A lead that replied, bounced or unsubscribed stays so exactly until one of those writes. */
  lemma {:induction false} LeaversStayIff(s: State, op: Op, id: nat)
    requires id in s.leads && HasLeft(s.leads[id])
    ensures HasLeft(After(s, op, id)) <==> !Overwrites(s, op, id)
  {
    hide DueStep, CheckStep, SeedAll, LoseAll, ResolveAll, Advance, Claim, Judge, Binding, AllQueued, AnyActive, AffectedIds, EventsOf;
    match op {
      case Due(lead, mail, sig, blank) => LeaverInTick(s, lead, mail, sig, blank, id);
      case Check(job, gate, again) => LeaverChecked(s, job, gate, again, id);
      case _ => LeaverElsewhere(s, op, id);
    }
  }

  lemma {:induction false} LeaverInTick(s: State, lead: nat, mail: Mail, sig: Signals, blank: bool, id: nat)
    requires id in s.leads && HasLeft(s.leads[id])
    ensures var t := DueStep(s, lead, mail, sig, blank);
            id in t.leads && (HasLeft(t.leads[id]) <==> !Overwrites(s, Due(lead, mail, sig, blank), id))
  {
    hide Judge, Binding;
  }

  lemma {:induction false} LeaverElsewhere(s: State, op: Op, id: nat)
    requires id in s.leads && HasLeft(s.leads[id]) && !op.Due? && !op.Check?
    ensures id in Apply(s, op).leads && HasLeft(Apply(s, op).leads[id]) && !Overwrites(s, op, id)
  {
    hide DueStep, CheckStep, SendStep, PickStep, FinishStep, Judge, AffectedIds, EventsOf;
    if NoRowWritten(op) {
      RowsUntouched(s, op);
    } else if op.Send? {
      LeaverSent(s, op.job, op.outcome, op.again, id);
    }
  }

  lemma {:induction false} LeaverSent(s: State, job: Job, outcome: Outcome, again: nat, id: nat)
    requires id in s.leads && HasLeft(s.leads[id])
    ensures var t := SendStep(s, job, outcome, again); id in t.leads && HasLeft(t.leads[id])
  {
    hide Advance;
    AdvanceKeepsLeavers(s.leads[id]);
  }

  lemma {:induction false} LeaverChecked(s: State, job: Job, gate: Gate, again: nat, id: nat)
    requires id in s.leads && HasLeft(s.leads[id])
    ensures var t := CheckStep(s, job, gate, again);
            id in t.leads && (HasLeft(t.leads[id]) <==> !Overwrites(s, Check(job, gate, again), id))
  {
  }

  lemma {:induction false} AdvanceKeepsLeavers(l: Lead)
    requires HasLeft(l)
    ensures forall job, again :: Advance(l, job, again) == l
  {
  }

  predicate Unpauses(op: Op, id: nat) { op.Check? && op.job.lead == id && (op.gate == Block || op.gate == Blank) }

  /** The emails of a lead that are composed, queued or in flight. */
  function Leftovers(s: State, id: nat): set<Key> {
    (set j | j in s.jobs && j.lead == id :: j.Id()) + (set j | j in s.flying && j.lead == id :: j.Id()) +
    if Pending(s, id) then {Key(id, s.tick.value.slots[id].step)} else {}
  }

  lemma {:induction false} LeaverStep(s: State, op: Op, id: nat, k: Key)
    requires id in s.leads && HasLeft(s.leads[id]) && !Listed(s, id) && !Unpauses(op, id) && k.lead == id
    ensures id in Apply(s, op).leads && HasLeft(Apply(s, op).leads[id]) && !Listed(Apply(s, op), id)
    ensures Leftovers(Apply(s, op), id) <= Leftovers(s, id)
    ensures Apply(s, op).ledger.sent[k] > s.ledger.sent[k] ==> k in Leftovers(s, id)
  {
    LeaversStayIff(s, op, id);
    LeaverIsNotListed(s, op, id);
    LeaverQueuesNothing(s, op, id);
    LeaverSends(s, op, id, k);
    LeftoversShrink(s, Apply(s, op), id);
    hide Apply, Judge, Leftovers;
  }

  lemma {:induction false} LeaverIsNotListed(s: State, op: Op, id: nat)
    requires id in s.leads && s.leads[id].status != Active && !Listed(s, id)
    ensures !Listed(Apply(s, op), id)
    ensures Pending(Apply(s, op), id) ==>
              Pending(s, id) && Apply(s, op).tick.value.slots[id] == s.tick.value.slots[id]
  {
    hide SeedAll, LoseAll, ResolveAll, Advance, Interrupted, Judge, Binding, Claim, AllQueued, AnyActive;
  }

  /** For a lead that is not active and not in the tick's list, only its composed email can still be queued. */
  lemma {:induction false} LeaverQueuesNothing(s: State, op: Op, id: nat)
    requires id in s.leads && s.leads[id].status != Active && !Listed(s, id)
    ensures forall j :: j in Apply(s, op).jobs && j.lead == id ==>
              j in s.jobs || (Pending(s, id) && j.step == s.tick.value.slots[id].step)
    ensures forall j :: j in Apply(s, op).flying && j.lead == id ==> j in s.flying || j in s.jobs
  {
    hide SeedAll, LoseAll, ResolveAll, Advance, Interrupted, Judge, Binding, Claim, AllQueued, AnyActive;
  }

  lemma {:induction false} LeaverSends(s: State, op: Op, id: nat, k: Key)
    requires k.lead == id
    ensures Apply(s, op).ledger.sent[k] > s.ledger.sent[k] ==> k in Leftovers(s, id)
  {
    hide SeedAll, LoseAll, ResolveAll, Advance, Interrupted, Judge, Binding, Claim, AllQueued, AnyActive;
    if op.Send? && op.job in s.flying { assert op.job.lead == id ==> op.job.Id() in Leftovers(s, id); }
  }

  lemma {:induction false} LeftoversShrink(s: State, t: State, id: nat)
    requires forall j :: j in t.jobs && j.lead == id ==>
               j in s.jobs || (Pending(s, id) && j.step == s.tick.value.slots[id].step)
    requires forall j :: j in t.flying && j.lead == id ==> j in s.flying || j in s.jobs
    requires Pending(t, id) ==> Pending(s, id) && t.tick.value.slots[id] == s.tick.value.slots[id]
    ensures Leftovers(t, id) <= Leftovers(s, id)
  {
  }

  /**
   * In every run after a lead has replied, bounced or unsubscribed while no running tick had it still to handle, until
   * a worker blocks one of its emails: it stays so, nothing more is composed for it, and what still leaves are the
   * emails that were composed, queued or in flight before.
   */
  lemma {:induction false} LeaversGetOnlyLeftovers(s: State, ops: seq<Op>, id: nat, k: Key)
    requires id in s.leads && HasLeft(s.leads[id]) && !Listed(s, id) && k.lead == id
    requires forall o :: o in ops ==> !Unpauses(o, id)
    ensures var e := Run(s, ops);
            && id in e.leads && HasLeft(e.leads[id]) && Leftovers(e, id) <= Leftovers(s, id)
            && (e.ledger.sent[k] > s.ledger.sent[k] ==> k in Leftovers(s, id))
    decreases |ops|
  {
    hide Apply, Leftovers, Listed, HasLeft, Unpauses;
    if ops != [] {
      assert ops[0] in ops && forall o :: o in ops[1..] ==> o in ops;
      LeaverStep(s, ops[0], id, k);
      LeaversGetOnlyLeftovers(Apply(s, ops[0]), ops[1..], id, k);
    }
  }

  /** While a tick still has the lead to handle that is false: it queues the email of a lead that has just replied. */
  lemma {:induction false} ListedReplierIsQueued(s: State, id: nat, mail: Mail, sig: Signals, blank: bool, claim: nat)
    requires Listed(s, id) && id in s.leads && s.leads[id].status == Active
    requires Judge(s.tick.value.plan, s.tick.value.slots[id].row, mail, sig, blank).Email?
    ensures var v := Judge(s.tick.value.plan, s.tick.value.slots[id].row, mail, sig, blank);
            var a := Apply(s, Interrupt(id, Reply));
            var e := Apply(Apply(a, Due(id, mail, sig, blank)), Enqueue(id, claim));
            && a.leads[id].status == Replied && e.leads == a.leads && Job(id, v.step, v.last) in e.jobs
  {
    hide Judge, Binding;
    var a := Apply(s, Interrupt(id, Reply));
    assert a.leads[id := a.leads[id]] == a.leads;
  }

  /**
   * So a lead that replied while its mailbox was lost can be mailed again: a blocked leftover email turns it back
   * into a lead paused as lost, and the operator's restart then starts its sequence over.
   */
  lemma {:induction false} ReplierIsRestarted(s: State, job: Job, lost: nat, now: nat, again: nat)
    requires job in s.jobs && job.lead in s.leads && Affected(s.leads[job.lead], lost)
    ensures var a := Apply(s, Interrupt(job.lead, Reply));
            var b := Apply(a, Check(job, Block, again));
            var c := Apply(b, Resolve(lost, RestartNewMailbox, now));
            && HasLeft(After(s, Interrupt(job.lead, Reply), job.lead))
            && job.lead in c.leads && c.leads[job.lead].status == Active && c.leads[job.lead].step == 0
            && (s.phase == Live ==> IsDue(c, job.lead, now))
  {
  }

  // ---- a finished campaign ------------------------------------------------------------

  /** A campaign that was marked completed has no active lead. */
  predicate DoneIsIdle(s: State) { s.phase == Done ==> !AnyActive(s.leads) }

  /** That is kept by every step except a resolution, other than a stop, of some lead of a completed campaign. */
  lemma {:induction false} DoneIsIdleIff(s: State, op: Op)
    requires DoneIsIdle(s)
    ensures DoneIsIdle(Apply(s, op)) <==>
            !(s.phase == Done && op.Resolve? && op.action != StopAtCurrentStep && AffectedIds(s.leads, op.lost) != {})
  {
    hide Apply;
    var t := Apply(s, op);
    RowsStay(s, op);
    DonePhase(s, op);
    if s.phase == Done {
      forall id | id in s.leads
        ensures t.leads[id].status == Active <==>
                op.Resolve? && op.action != StopAtCurrentStep && id in AffectedIds(s.leads, op.lost)
      {
        assert s.leads[id].status != Active;
        OnlyAResolutionActivates(s, op, id);
      }
      if op.Resolve? && op.action != StopAtCurrentStep && AffectedIds(s.leads, op.lost) != {} {
        var id :| id in AffectedIds(s.leads, op.lost);
        assert t.leads[id].status == Active;
        assert AnyActive(t.leads);
      } else {
        assert !AnyActive(t.leads);
      }
    }
  }

  /** Only the end of a tick completes a campaign, and only a launch reopens it. */
  lemma {:induction false} DonePhase(s: State, op: Op)
    ensures s.phase != Done && Apply(s, op).phase == Done ==>
              op == Finish && Apply(s, op).leads == s.leads && !AnyActive(s.leads)
    ensures s.phase == Done && Apply(s, op).phase != Done ==> op.Launch?
    ensures op.Launch? ==> Apply(s, op) == s || Apply(s, op).phase == Live
    ensures op.Resolve? ==> Apply(s, op).phase == s.phase
  {
    hide SeedAll, LoseAll, ResolveAll, Advance, Interrupted, Judge, Binding, Claim, AllQueued, AnyActive, AffectedIds, EventsOf;
  }

  /** Until the campaign is launched again, nothing is queued: a resumed lead of a completed campaign waits. */
  lemma {:induction false} DoneQueuesNothing(s: State, ops: seq<Op>)
    requires s.phase == Done && s.tick.None? && forall o :: o in ops ==> !o.Launch?
    ensures Run(s, ops).phase == Done && Run(s, ops).tick.None? && Run(s, ops).jobs == s.jobs
    decreases |ops|
  {
    hide Apply;
    if ops != [] {
      assert ops[0] in ops;
      DoneStepQueuesNothing(s, ops[0]);
      assert forall o :: o in ops[1..] ==> o in ops;
      DoneQueuesNothing(Apply(s, ops[0]), ops[1..]);
    }
  }

  lemma {:induction false} NotListedNotDue(s: State, op: Op)
    requires s.tick.None?
    ensures op.Due? ==> DueStep(s, op.lead, op.mail, op.sig, op.blank) == s
  {
  }

  lemma {:induction false} DoneStepQueuesNothing(s: State, op: Op)
    requires s.phase == Done && s.tick.None? && !op.Launch?
    ensures Apply(s, op).phase == Done && Apply(s, op).tick.None? && Apply(s, op).jobs == s.jobs
  {
    hide SeedAll, DueStep, ResolveAll, Advance, Interrupted, AffectedIds, EventsOf;
    NotListedNotDue(s, op);
  }

  /** A continued or restarted lead is due exactly when its campaign is live. */
  lemma {:induction false} ResumesIff(s: State, id: nat, lost: nat, action: Action, t: nat, now: nat)
    requires id in s.leads && Affected(s.leads[id], lost) && action != StopAtCurrentStep && t <= now
    ensures IsDue(Apply(s, Resolve(lost, action, t)), id, now) <==> s.phase == Live
  {
  }
}
