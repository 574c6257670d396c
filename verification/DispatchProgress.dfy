/** How the last step sent relates to the SendEvents of a lead, and what a queued email can still do to it. */
module DispatchProgress {
  import opened Prelude
  import opened Sequence
  import opened Dispatch

  predicate NoneAbove(s: State, lead: nat, n: int) { forall k :: k in s.events && k.lead == lead ==> k.step <= n }

  /** No recorded step of a lead is later than its current step. */
  predicate Below(s: State) { forall id :: id in s.leads ==> NoneAbove(s, id, s.leads[id].step) }

  /** Under Below the next step's key is free, and so is every later one. */
  lemma {:induction false} LaterKeysAreFree(s: State, lead: nat, n: int)
    requires Below(s) && lead in s.leads && n > s.leads[lead].step
    ensures Key(lead, n) !in s.events
  {
    assert NoneAbove(s, lead, s.leads[lead].step);
  }

  /**
   * What a worker would have to know: moving the lead to the email's step does not move it back below a recorded
   * one, and recording a step for a lead that is no longer active does not record one it has not reached.
   */
  predicate Forward(s: State, op: Op) {
    match op
    case Check(job, gate, _) =>
      (gate == Allow && job in s.jobs && job.lead in s.leads && job.Id() in s.events &&
       s.leads[job.lead].status == Active) ==> NoneAbove(s, job.lead, job.step)
    case Send(job, outcome, _) =>
      (outcome == Recorded && job in s.flying && job.lead in s.leads && job.Id() !in s.events) ==>
        if s.leads[job.lead].status == Active then NoneAbove(s, job.lead, job.step)
        else job.step <= s.leads[job.lead].step
    case _ => true
  }

  /** Same steps or zero with no rows left, and no new rows. */
  lemma {:induction false} BelowWithLess(s: State, t: State)
    requires Below(s) && t.events <= s.events && t.leads.Keys == s.leads.Keys
    requires forall id :: id in t.leads && t.leads[id].step != s.leads[id].step ==>
                            forall k :: k in t.events ==> k.lead != id
    ensures Below(t)
  {
    forall id | id in t.leads ensures NoneAbove(t, id, t.leads[id].step) {
      assert NoneAbove(s, id, s.leads[id].step);
    }
  }

  lemma {:induction false} CheckBelowIff(s: State, job: Job, gate: Gate, again: nat)
    requires Below(s)
    ensures Below(CheckStep(s, job, gate, again)) <==> Forward(s, Check(job, gate, again))
  {
    var t := CheckStep(s, job, gate, again);
    if job in s.jobs && job.lead in s.leads && gate == Allow && job.Id() in s.events &&
       s.leads[job.lead].status == Active {
      assert t.leads[job.lead].step == job.step && t.events == s.events;
      MovesBelowIff(s, t, job.lead);
      assert NoneAbove(t, job.lead, job.step) <==> NoneAbove(s, job.lead, job.step);
    } else {
      BelowWithLess(s, t);
    }
  }

  /** When one lead changes, only that lead is in question. */
  lemma {:induction false} MovesBelowIff(s: State, t: State, lead: nat)
    requires Below(s) && lead in t.leads && t.leads.Keys == s.leads.Keys
    requires forall id :: id in t.leads && id != lead ==> t.leads[id].step == s.leads[id].step
    requires forall k :: k in t.events && k.lead != lead ==> k in s.events
    ensures Below(t) <==> NoneAbove(t, lead, t.leads[lead].step)
  {
    forall id | id in t.leads && id != lead ensures NoneAbove(t, id, t.leads[id].step) {
      assert NoneAbove(s, id, s.leads[id].step);
    }
  }

  lemma {:induction false} SendBelowIff(s: State, job: Job, outcome: Outcome, again: nat)
    requires Below(s)
    ensures Below(SendStep(s, job, outcome, again)) <==> Forward(s, Send(job, outcome, again))
  {
    var t := SendStep(s, job, outcome, again);
    if job in s.flying && job.lead in s.leads && outcome == Recorded && job.Id() !in s.events {
      MovesBelowIff(s, t, job.lead);
      assert NoneAbove(s, job.lead, s.leads[job.lead].step);
      assert job.Id() in t.events;
      assert forall k :: k in t.events <==> k in s.events || k == job.Id();
    } else {
      BelowWithLess(s, t);
    }
  }

  /** A step keeps Below exactly when it is Forward. */
  lemma {:induction false} StepBelowIff(s: State, op: Op)
    requires Below(s)
    ensures Below(Apply(s, op)) <==> Forward(s, op)
  {
    hide Judge, Below, AllQueued, AnyActive, DueStep;
    match op {
      case Check(job, gate, again) => CheckBelowIff(s, job, gate, again);
      case Send(job, outcome, again) => SendBelowIff(s, job, outcome, again);
      case Due(id, mail, sig, blank) =>
        DueKeepsSteps(s, id, mail, sig, blank);
        BelowWithLess(s, Apply(s, op));
      case _ => BelowWithLess(s, Apply(s, op));
    }
  }

  lemma {:induction false} DueKeepsSteps(s: State, id: nat, mail: Mail, sig: Signals, blank: bool)
    ensures var t := DueStep(s, id, mail, sig, blank);
            && t.events == s.events && t.leads.Keys == s.leads.Keys
            && forall i :: i in t.leads ==> t.leads[i].step == s.leads[i].step
  {
    hide Judge;
  }

  predicate AlwaysBelow(s: State, ops: seq<Op>)
    decreases |ops|
  {
    Below(s) && (ops == [] || AlwaysBelow(Apply(s, ops[0]), ops[1..]))
  }

  predicate AlwaysForward(s: State, ops: seq<Op>)
    decreases |ops|
  {
    ops == [] || (Forward(s, ops[0]) && AlwaysForward(Apply(s, ops[0]), ops[1..]))
  }

  /** Over a whole run: every state has its next keys free exactly when every step was Forward. */
  lemma {:induction false} RunBelowIff(s: State, ops: seq<Op>)
    requires Below(s)
    ensures AlwaysBelow(s, ops) <==> AlwaysForward(s, ops)
    decreases |ops|
  {
    if ops != [] {
      StepBelowIff(s, ops[0]);
      if Below(Apply(s, ops[0])) { RunBelowIff(Apply(s, ops[0]), ops[1..]); }
    }
  }

  // ---- what makes a step Forward ---------------------------------------------------

  /** The worker reaches the email while its lead is active and has not got that far. */
  predicate Timely(s: State, op: Op) {
    match op
    case Check(job, _, _) => job in s.jobs && job.lead in s.leads ==>
      s.leads[job.lead].status == Active && s.leads[job.lead].step < job.step
    case Send(job, _, _) => job in s.flying && job.lead in s.leads ==>
      s.leads[job.lead].status == Active && s.leads[job.lead].step < job.step
    case _ => true
  }

  lemma {:induction false} TimelyIsForward(s: State, op: Op)
    requires Below(s) && Timely(s, op)
    ensures Forward(s, op)
  {
    if op.Check? || op.Send? {
      var lead := op.job.lead;
      if lead in s.leads { assert NoneAbove(s, lead, s.leads[lead].step); }
    }
  }

  predicate AlwaysTimely(s: State, ops: seq<Op>)
    decreases |ops|
  {
    ops == [] || (Timely(s, ops[0]) && AlwaysTimely(Apply(s, ops[0]), ops[1..]))
  }

  /** So in every run whose workers are timely, every later step's key is free throughout. */
  lemma {:induction false} TimelyRunsStayBelow(s: State, ops: seq<Op>)
    requires Below(s) && AlwaysTimely(s, ops)
    ensures AlwaysBelow(s, ops) && Below(Run(s, ops))
    ensures forall id, n :: id in Run(s, ops).leads && n > Run(s, ops).leads[id].step ==> Key(id, n) !in Run(s, ops).events
    decreases |ops|
  {
    if ops == [] {
      forall id, n | id in s.leads && n > s.leads[id].step ensures Key(id, n) !in s.events {
        LaterKeysAreFree(s, id, n);
      }
    } else {
      TimelyIsForward(s, ops[0]);
      StepBelowIff(s, ops[0]);
      TimelyRunsStayBelow(Apply(s, ops[0]), ops[1..]);
    }
  }

  /** A new campaign starts so, whatever its leads and steps. */
  lemma {:induction false} NewCampaignStaysBelow(s: State, ops: seq<Op>)
    requires Fresh(s) && AlwaysTimely(s, ops)
    ensures AlwaysBelow(s, ops)
    ensures forall id, n :: id in Run(s, ops).leads && n > Run(s, ops).leads[id].step ==> Key(id, n) !in Run(s, ops).events
  {
    TimelyRunsStayBelow(s, ops);
  }

  /**
   * With branches that only go forward, a tick composes an email for a later step than the one it read, of the steps
   * it loaded, and nobody has recorded that step unless a worker has meanwhile taken the lead at least as far.
   */
  lemma {:induction false} ComposedKeyIsFree(s: State, op: Op)
    requires Below(s) && op.Due? && Listed(s, op.lead) && op.lead in s.leads && BranchesForward(s.tick.value.plan)
    requires Pending(Apply(s, op), op.lead)
    ensures var plan, row := s.tick.value.plan, s.tick.value.slots[op.lead].row;
            var e := Apply(s, op).tick.value.slots[op.lead];
            && e.step > row.step
            && (s.leads[op.lead].step < e.step ==> Key(op.lead, e.step) !in s.events)
            && (exists st :: st in plan && st.number == e.step && Matches(st.condition, op.sig))
            && (e.last <==> forall st :: st in plan ==> st.number <= e.step)
  {
    hide Below, Deliver;
    var plan, row := s.tick.value.plan, s.tick.value.slots[op.lead].row;
    var st := Delivered(plan, row.step + 1, op.sig);
    if s.leads[op.lead].step < st.number { LaterKeysAreFree(s, op.lead, st.number); }
  }

  lemma {:induction false} Delivered(plan: seq<Step>, start: int, sig: Signals) returns (st: Step)
    requires BranchesForward(plan) && Deliver(plan, start, sig).Some?
    ensures st == Deliver(plan, start, sig).value && st in plan && st.number >= start && Matches(st.condition, sig)
  {
    st := Deliver(plan, start, sig).value;
    ForwardOnly(plan, start, sig, HOPS);
    WalkIff(plan, start, sig, HOPS, st);
  }

  // ---- scheduling ------------------------------------------------------------------

  /** An active lead has a time to be looked at, or is at step 0, where launch and ticks give it one. */
  predicate Scheduled(s: State) {
    forall id :: id in s.leads && s.leads[id].status == Active ==> s.leads[id].due.Some? || s.leads[id].step == 0
  }

  lemma {:induction false} StepKeepsScheduled(s: State, op: Op)
    requires Scheduled(s)
    ensures Scheduled(Apply(s, op))
  {
    hide DueStep, Judge, Binding, AllQueued, AnyActive, AffectedIds, EventsOf;
    if op.Due? { DueKeepsScheduled(s, op.lead, op.mail, op.sig, op.blank); }
  }

  lemma {:induction false} DueKeepsScheduled(s: State, id: nat, mail: Mail, sig: Signals, blank: bool)
    requires Scheduled(s)
    ensures Scheduled(DueStep(s, id, mail, sig, blank))
  {
    hide Judge, Binding;
  }

  /** No run leaves an active lead without a next look: after the seeding of a tick every one of them has a time. */
  lemma {:induction false} NobodyIsForgotten(s: State, ops: seq<Op>, now: nat)
    requires Scheduled(s)
    ensures Scheduled(Run(s, ops))
    ensures var r := Run(s, ops);
            var e := Apply(Apply(r, Begin), Seed(now));
            r.phase == Live && r.tick.None? ==>
              forall id :: id in e.leads && e.leads[id].status == Active ==> e.leads[id].due.Some?
    decreases |ops|
  {
    if ops != [] {
      StepKeepsScheduled(s, ops[0]);
      NobodyIsForgotten(Apply(s, ops[0]), ops[1..], now);
    }
  }

  /** Anything but a worker reaching an email of that lead, a resolution, or a later query for due leads. */
  predicate KeepsClaim(op: Op, id: nat, t: nat) {
    match op
    case Pick(_, now) => now < t
    case Check(job, _, _) => job.lead != id
    case Send(job, _, _) => job.lead != id
    case Resolve(_, _, _) => false
    case _ => true
  }

  predicate Claimed(s: State, id: nat, t: nat) {
    && id in s.leads && (s.leads[id].status == Active ==> s.leads[id].due == Some(t))
    && (s.tick.Some? ==> id !in s.tick.value.slots)
  }

  lemma {:induction false} StepKeepsClaim(s: State, op: Op, id: nat, t: nat)
    requires Claimed(s, id, t) && KeepsClaim(op, id, t)
    ensures Claimed(Apply(s, op), id, t)
    ensures forall j :: j in Apply(s, op).jobs && j.lead == id ==> j in s.jobs
  {
    hide Judge, AnyActive, AllQueued;
  }

  /**
   * Once an email of a lead is queued, no ticks that look before the claimed time queue another for that lead, whoever
   * else writes in between, until a worker reaches the email or the operator resolves a lost mailbox.
   */
  lemma {:induction false} ClaimPreventsRequeue(s: State, id: nat, claim: nat, ops: seq<Op>)
    requires Pending(s, id) && id in s.leads
    requires forall o :: o in ops ==> KeepsClaim(o, id, claim)
    ensures var t := Apply(s, Enqueue(id, claim));
            forall j :: j in Run(t, ops).jobs && j.lead == id ==> j in t.jobs
  {
    ClaimHolds(Apply(s, Enqueue(id, claim)), ops, id, claim);
  }

  lemma {:induction false} ClaimHolds(s: State, ops: seq<Op>, id: nat, t: nat)
    requires Claimed(s, id, t) && forall o :: o in ops ==> KeepsClaim(o, id, t)
    ensures forall j :: j in Run(s, ops).jobs && j.lead == id ==> j in s.jobs
    decreases |ops|
  {
    hide Apply, Claimed, KeepsClaim;
    if ops != [] {
      assert ops[0] in ops && forall o :: o in ops[1..] ==> o in ops;
      StepKeepsClaim(s, ops[0], id, t);
      ClaimHolds(Apply(s, ops[0]), ops[1..], id, t);
    }
  }

  // ---- how it fails ----------------------------------------------------------------

  /**
   * The worker never looks at the lead's status: an email queued for a lead that has since been paused, has replied
   * or was restarted still leaves, is recorded, and the lead stays behind its own record.
   */
  lemma {:induction false} InactiveLeadIsOvertaken(s: State, job: Job, again: nat)
    requires job in s.jobs && job.lead in s.leads && s.leads[job.lead].status != Active
    requires job.Id() !in s.events && s.leads[job.lead].step < job.step
    ensures var e := Run(s, [Check(job, Allow, again), Send(job, Recorded, again)]);
            && e.ledger.sent[job.Id()] == s.ledger.sent[job.Id()] + 1
            && e.leads == s.leads && job.Id() in e.events && !Below(e)
  {
    var ops := [Check(job, Allow, again), Send(job, Recorded, again)];
    var t := Apply(s, ops[0]);
    var e := Apply(t, ops[1]);
    RunTwo(s, ops[0], ops[1]);
    assert e.leads == s.leads;
    assert !NoneAbove(e, job.lead, e.leads[job.lead].step);
  }

  /**
   * A restart does not recall queued emails: one left over for a later step is sent, and takes the restarted lead
   * past every step before it.
   */
  lemma {:induction false} LeftoverOvertakesRestart(s: State, lost: nat, job: Job, now: nat, again: nat)
    requires job in s.jobs && !job.last && job !in s.flying
    requires job.lead in s.leads && Affected(s.leads[job.lead], lost)
    ensures var r := Apply(s, Resolve(lost, RestartNewMailbox, now));
            var e := Run(r, [Check(job, Allow, again), Send(job, Recorded, again)]);
            && job.lead in r.leads && r.leads[job.lead].step == 0
            && (forall k :: k in r.events ==> k.lead != job.lead)
            && job.lead in e.leads && e.leads[job.lead].status == Active && e.leads[job.lead].step == job.step
            && forall k :: k in e.events && k.lead == job.lead ==> k == job.Id()
  {
    var r := Apply(s, Resolve(lost, RestartNewMailbox, now));
    var c, d := Check(job, Allow, again), Send(job, Recorded, again);
    assert job.Id() !in r.events;
    RunTwo(r, c, d);
  }
}
