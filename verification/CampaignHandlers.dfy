/** The handlers and the dispatcher as they write the campaign's rows, each proved to take the steps of Dispatch. */
module CampaignHandlers {
  import opened Prelude
  import opened Sequence
  import opened Dispatch
  import opened LostMailbox
  import opened Ticks
  import opened Delivery

  /** The leads that a tick finds due and not suppressed. */
  function DueLeft(s: State, now: nat, ids: set<nat>, gone: seq<nat>): set<nat> {
    set id | id in s.leads && id in ids && id !in gone && DueRow(SeedOne(s.leads[id], now), now)
  }

  lemma {:induction false} RunGrows(s: State, ops: seq<Op>, op: Op)
    ensures Run(s, ops + [op]) == Apply(Run(s, ops), op)
  {
    hide Apply;
    RunAppends(s, ops, [op]);
    RunOne(Run(s, ops), op);
  }

  lemma {:induction false} RunOfNone(s: State)
    ensures Run(s, []) == s
  {
  }

  lemma {:induction false} OneMoreDue(s: State, answers: seq<Answer>, n: nat)
    requires n < |answers|
    ensures var a := answers[n];
            Run(s, Dues(answers[..n + 1])) == DueStep(Run(s, Dues(answers[..n])), a.id, a.mail, a.sig, a.blank)
  {
    hide Run, DueStep;
    assert Dues(answers[..n + 1]) == Dues(answers[..n]) + [DueOf(answers[n])];
    RunGrows(s, Dues(answers[..n]), DueOf(answers[n]));
  }

  lemma {:induction false} OneMoreBind(s: State, answers: seq<Answer>, n: nat)
    requires n < |answers|
    ensures Run(s, Binds(answers[..n + 1])) == BindStep(Run(s, Binds(answers[..n])), answers[n].id)
  {
    hide Run, BindStep;
    assert Binds(answers[..n + 1]) == Binds(answers[..n]) + [Bind(answers[n].id)];
    RunGrows(s, Binds(answers[..n]), Bind(answers[n].id));
  }

  lemma {:induction false} OneMoreEnqueue(s: State, answers: seq<Answer>, n: nat)
    requires n < |answers|
    ensures Run(s, Enqueues(answers[..n + 1])) ==
            EnqueueStep(Run(s, Enqueues(answers[..n])), answers[n].id, answers[n].claim)
  {
    hide Run, EnqueueStep;
    var op := Enqueue(answers[n].id, answers[n].claim);
    assert Enqueues(answers[..n + 1]) == Enqueues(answers[..n]) + [op];
    RunGrows(s, Enqueues(answers[..n]), op);
  }

  lemma {:induction false} OneMoreGone(s: State, gone: seq<nat>, n: nat)
    requires n < |gone|
    ensures Run(s, Suppresses(gone[..n + 1])) == SuppressStep(Run(s, Suppresses(gone[..n])), gone[n])
  {
    hide Run, SuppressStep;
    assert Suppresses(gone[..n + 1]) == Suppresses(gone[..n]) + [Suppress(gone[n])];
    RunGrows(s, Suppresses(gone[..n]), Suppress(gone[n]));
  }

  lemma {:induction false} FullTick(s: State, now: nat, ids: set<nat>, gone: seq<nat>, answers: seq<Answer>)
    ensures Run(s, TickOps(now, true, ids, gone, answers)) ==
            FinishStep(Run(Run(Run(Run(s, Opening(now, ids, gone)), Dues(answers)), Binds(answers)), Enqueues(answers)))
  {
    hide Run, Opening, Handling;
    RunAppends(s, Opening(now, ids, gone), Handling(answers));
    HandlingIs(Run(s, Opening(now, ids, gone)), answers);
  }

  lemma {:induction false} ShortTick(s: State, now: nat, ids: set<nat>, gone: seq<nat>, answers: seq<Answer>)
    ensures Run(s, TickOps(now, false, ids, gone, answers)) == Run(s, Opening(now, ids, gone)).(tick := None)
  {
    hide Opening;
    RunAppends(s, Opening(now, ids, gone), [Quit]);
    RunOne(Run(s, Opening(now, ids, gone)), Quit);
  }

  lemma {:induction false} NothingToRestart(s: State, lost: nat, now: nat)
    requires AffectedIds(s.leads, lost) == {}
    ensures Apply(s, Resolve(lost, RestartNewMailbox, now)) == s
  {
    forall id | id in s.leads ensures !Affected(s.leads[id], lost) {
      assert id !in AffectedIds(s.leads, lost);
    }
    assert ResolveAll(s.leads, lost, RestartNewMailbox, now) == s.leads;
    assert EventsOf(s.events, {}) == {};
    assert s.events - {} == s.events;
    assert s.ledger.erased + multiset({}) == s.ledger.erased && s.ledger.restarts + Each({}) == s.ledger.restarts;
  }

  lemma {:induction false} LosingKeepsKeys(leads: map<nat, Lead>, account: nat)
    ensures LoseAll(leads, account).Keys == leads.Keys
  {
  }

  class Campaign {
    var phase: Phase
    var accounts: nat
    var steps: seq<Step>
    var leads: map<nat, Lead>
    var events: set<Key>
    var jobs: set<Job>
    var flying: multiset<Job>
    var tick: Option<Dispatch.Tick>
    var ledger: Ledger

    ghost function View(): State
      reads this
    {
      State(phase, accounts, steps, leads, events, jobs, flying, tick, ledger)
    }

    method LaunchCampaign(now: nat) returns (ok: bool)
      modifies this`phase, this`leads
      ensures View() == Apply(old(View()), Launch(now))
      ensures ok <==> old(phase) != Live && steps != [] && accounts > 0
      ensures ok ==> phase == Live && forall id :: id in leads && leads[id].status == Active ==>
                                                leads[id].step != 0 || leads[id].due.Some?
    {
      if phase == Live { return false; }
      if |steps| == 0 { return false; }
      if accounts == 0 { return false; }
      phase := Live;
      leads := SeedAll(leads, now);
      ok := true;
    }

    method PauseCampaign() returns (ok: bool)
      modifies this`phase
      ensures View() == Apply(old(View()), Pause)
      ensures ok <==> old(phase) == Live
    {
      ok := phase == Live;
      if ok { phase := Halted; }
    }

    method ResumeCampaign() returns (ok: bool)
      modifies this`phase
      ensures View() == Apply(old(View()), Resume)
      ensures ok <==> old(phase) == Halted
    {
      ok := phase == Halted;
      if ok { phase := Live; }
    }

    /** updateCampaign's replacement of the whole step list. */
    method ReplaceSequence(to: seq<Step>) returns (ok: bool)
      modifies this`steps
      ensures View() == Apply(old(View()), ReplaceSteps(to))
      ensures ok <==> phase != Done && phase != Archived
    {
      if phase == Done || phase == Archived { return false; }
      steps := to;
      ok := true;
    }

    /** One due lead. stop: every mailbox is at capacity, so the rest of the list waits for the next tick. */
    method DispatchLead(answer: Answer) returns (stop: bool)
      requires tick.Some? && tick.value.slots.Keys <= leads.Keys
      modifies this`leads, this`tick
      ensures View() == DueStep(old(View()), answer.id, answer.mail, answer.sig, answer.blank)
      ensures tick.Some? && leads.Keys == old(leads).Keys && tick.value.slots.Keys <= leads.Keys
      ensures stop ==> View() == old(View()) && !answer.mail.Ready?
    {
      hide Deliver, AnyHigher, LoseAll;
      stop := false;
      var id, t := answer.id, tick.value;
      if id !in t.slots || t.slots[id].Composed? { return; }
      var row := t.slots[id].row;
      var rest := Drop(t, id);
      match row.account {
        case Some(sticky) =>
          match answer.mail {
            case Ready(_) =>
            case Gone =>
              LosingKeepsKeys(leads, sticky);
              if sticky !in t.lost { leads := LoseAll(leads, sticky); }
              tick := Some(rest.(lost := t.lost + {sticky}));
              return;
            case Busy(retry) =>
              leads := leads[id := leads[id].(due := Some(retry))];
              tick := Some(rest);
              return;
          }
        case None =>
          if !answer.mail.Ready? { return true; }
          rest := rest.(binds := rest.binds[id := answer.mail.id]);
      }
      var verdict := Compose(row, t.plan, answer);
      match verdict {
        case End => leads := leads[id := leads[id].(status := Completed, due := None)];
        case Empty => leads := leads[id := leads[id].(status := Paused, reason := BlankContent, due := None)];
        case Email(step, last) => rest := rest.(slots := t.slots[id := Composed(step, last)]);
      }
      tick := Some(rest);
    }

    /** The lead has a mailbox: which step it gets, and whether that step renders blank. */
    static method Compose(row: Lead, plan: seq<Step>, answer: Answer) returns (v: Verdict)
      requires answer.mail.Ready?
      ensures v == Judge(plan, row, answer.mail, answer.sig, answer.blank)
      ensures v.End? || v.Empty? || v.Email?
    {
      hide Find, Walk, AnyHigher;
      var step := ResolveDeliverableStep(row.step + 1, plan, answer.sig);
      if step.None? { return End; }
      if answer.blank { return Empty; }
      var higher := HasHigher(plan, step.value.number);
      v := Email(step.value.number, !higher);
    }

    /** The sticky mailbox is written by id, whatever has become of the row. */
    method BindLead(id: nat)
      requires tick.Some?
      modifies this`leads, this`tick
      ensures View() == BindStep(old(View()), id)
      ensures tick.Some? && leads.Keys == old(leads).Keys && tick.value.slots == old(tick).value.slots
    {
      if id in tick.value.binds && id in leads {
        leads := leads[id := leads[id].(account := Some(tick.value.binds[id]))];
        tick := Some(tick.value.(binds := tick.value.binds - {id}));
      }
    }

    /** One email of a batch: the guarded claim, then the queue. */
    method EnqueueLead(id: nat, until: nat)
      requires tick.Some?
      modifies this`leads, this`jobs, this`tick
      ensures View() == EnqueueStep(old(View()), id, until)
      ensures tick.Some? && leads.Keys == old(leads).Keys
    {
      var slots := tick.value.slots;
      if id in slots && slots[id].Composed? && id in leads {
        if leads[id].status == Active { leads := leads[id := leads[id].(due := Some(until))]; }
        assert leads == old(leads)[id := Dispatch.Claim(old(leads)[id], until)];
        jobs := jobs + {Job(id, slots[id].step, slots[id].last)};
        tick := Some(Drop(tick.value, id));
      }
    }

    static method HasHigher(steps: seq<Step>, n: int) returns (b: bool)
      ensures b <==> AnyHigher(steps, n)
    {
      for i := 0 to |steps|
        invariant forall k :: 0 <= k < i ==> steps[k].number <= n
      {
        if steps[i].number > n { return true; }
      }
      return false;
    }

    /** The campaign with its steps is loaded, new leads are seeded, and the due ones are read. */
    method LoadDue(now: nat, ids: set<nat>)
      requires phase == Live && tick.None?
      modifies this`leads, this`tick
      ensures View() == Apply(Apply(Apply(old(View()), Begin), Seed(now)), Pick(ids, now))
      ensures tick.Some? && leads.Keys == old(leads).Keys
      ensures tick.value.slots.Keys == DueLeft(old(View()), now, ids, [])
      ensures forall id :: id in tick.value.slots ==> tick.value.slots[id].Found?
    {
      hide SeedOne, DueRow;
      tick := Some(Dispatch.Tick(steps, false, map[], map[], {}));
      leads := SeedAll(leads, now);
      tick := Some(tick.value.(picked := true, slots := map id | id in leads && id in ids && DueRow(leads[id], now) ::
                                                          Found(leads[id])));
    }

    method SuppressLead(id: nat)
      requires tick.Some? && tick.value.slots.Keys <= leads.Keys
      requires forall i :: i in tick.value.slots ==> tick.value.slots[i].Found?
      modifies this`leads, this`tick
      ensures View() == SuppressStep(old(View()), id)
      ensures tick.Some? && leads.Keys == old(leads).Keys && tick.value.slots == old(tick).value.slots - {id}
    {
      if id in tick.value.slots {
        leads := leads[id := leads[id].(status := Unsubscribed, due := None)];
        tick := Some(Drop(tick.value, id));
      }
    }

    /** The tick up to its decision whether to go on: the due leads without the suppressed addresses. */
    method OpenTick(now: nat, ids: set<nat>, gone: seq<nat>)
      requires phase == Live && tick.None?
      modifies this`leads, this`tick
      ensures View() == Run(old(View()), Opening(now, ids, gone))
      ensures tick.Some? && tick.value.slots.Keys == DueLeft(old(View()), now, ids, gone) <= leads.Keys
    {
      hide Run, Apply, SuppressStep, DueRow, SeedOne;
      ghost var s := View();
      LoadDue(now, ids);
      OpeningIs(s, now, ids, gone);
      ghost var p := View();
      RunOfNone(p);
      assert Suppresses(gone[..0]) == [] && gone[..0] == [];
      for i := 0 to |gone|
        invariant View() == Run(p, Suppresses(gone[..i]))
        invariant tick.Some? && leads.Keys == s.leads.Keys
        invariant tick.value.slots.Keys == DueLeft(s, now, ids, gone[..i])
        invariant forall id :: id in tick.value.slots ==> tick.value.slots[id].Found?
      {
        OneMoreGone(p, gone, i);
        assert gone[..i + 1] == gone[..i] + [gone[i]];
        SuppressLead(gone[i]);
      }
      assert gone[..|gone|] == gone;
    }

    /**
     * One tick over this campaign. open: address, monthly and daily limits and the sending window allow it; mailboxes:
     * at least one is eligible; ids: what limits and holds let the query return; gone: suppressed addresses; answers:
     * the due leads in dispatch order. looked: it got as far as looking at them.
     */
    method RunTick(now: nat, open: bool, mailboxes: bool, ids: set<nat>, gone: seq<nat>, answers: seq<Answer>)
      returns (looked: bool, handled: nat)
      requires tick.None?
      modifies this`phase, this`leads, this`jobs, this`tick
      ensures old(phase) != Live || !open ==> View() == old(View())
      ensures looked <==> old(phase) == Live && open && mailboxes && DueLeft(old(View()), now, ids, gone) != {}
      ensures handled <= |answers| && (looked && handled < |answers| ==> !answers[handled].mail.Ready?)
      ensures old(phase) == Live && open ==>
                View() == Run(old(View()), TickOps(now, looked, ids, gone, answers[..handled]))
    {
      hide Run, Apply, DueStep, BindStep, EnqueueStep, FinishStep, AllQueued, Opening, Handling, TickOps, DueLeft;
      looked, handled := false, 0;
      if phase != Live || !open { return; }
      ghost var s := View();
      OpenTick(now, ids, gone);
      ghost var q := View();
      if !mailboxes || tick.value.slots.Keys == {} {
        ShortTick(s, now, ids, gone, answers[..handled]);
        tick := None;
        return;
      }
      looked := true;
      RunOfNone(q);
      assert Dues(answers[..0]) == [] && Binds(answers[..0]) == [] && Enqueues(answers[..0]) == [];
      var stop := false;
      while handled < |answers| && !stop
        invariant handled <= |answers| && tick.Some? && tick.value.slots.Keys <= leads.Keys
        invariant View() == Run(q, Dues(answers[..handled]))
        invariant stop ==> handled < |answers| && !answers[handled].mail.Ready?
        decreases |answers| - handled, !stop
      {
        stop := DispatchLead(answers[handled]);
        if !stop {
          OneMoreDue(q, answers, handled);
          handled := handled + 1;
        }
      }
      ghost var r := View();
      RunOfNone(r);
      for i := 0 to handled
        invariant tick.Some? && View() == Run(r, Binds(answers[..i]))
      {
        BindLead(answers[i].id);
        OneMoreBind(r, answers, i);
      }
      ghost var b := View();
      RunOfNone(b);
      for i := 0 to handled
        invariant tick.Some? && View() == Run(b, Enqueues(answers[..i]))
      {
        EnqueueLead(answers[i].id, answers[i].claim);
        OneMoreEnqueue(b, answers, i);
      }
      FullTick(s, now, ids, gone, answers[..handled]);
      OpenedDrains(s, now, ids, gone, answers[..handled]);
      CloseTick();
    }

    /** The end of a tick: a campaign without an active lead is completed, whatever its status has become. */
    method CloseTick()
      requires tick.Some? && AllQueued(tick.value)
      modifies this`phase, this`tick
      ensures View() == FinishStep(old(View()))
    {
      hide AnyActive;
      var busy := SomeActive();
      if !busy { phase := Done; }
      tick := None;
    }

    method SomeActive() returns (b: bool)
      ensures b <==> AnyActive(leads)
    {
      var rest := leads.Keys;
      while rest != {}
        invariant rest <= leads.Keys
        invariant forall id :: id in leads && leads[id].status == Active ==> id in rest
        decreases |rest|
      {
        var id :| id in rest;
        if leads[id].status == Active { return true; }
        rest := rest - {id};
      }
      return false;
    }

    /** A worker reaches an email of its batch: go says that it now sends it. */
    method CheckEmail(job: Job, gate: Gate, again: nat) returns (go: bool)
      requires job in jobs && job.lead in leads
      modifies this`leads, this`flying
      ensures View() == CheckStep(old(View()), job, gate, again)
      ensures go <==> gate == Allow && job.Id() !in events
      ensures OnlyRow(old(leads), leads, job.lead)
      ensures gate == Allow && !go ==> Moved(old(leads)[job.lead], leads[job.lead], job, again)
      ensures gate.Defer? ==> leads[job.lead] == old(leads)[job.lead].(due := Some(gate.until))
      ensures gate == Block || gate == Blank ==> leads[job.lead].status == Paused && leads[job.lead].due == None
      ensures go || gate == Abort ==> leads == old(leads)
    {
      CheckMoves(View(), job, gate, again);
      var lead := leads[job.lead];
      go := false;
      match gate {
        case Abort =>
        case Defer(until) => leads := leads[job.lead := lead.(due := Some(until))];
        case Block => leads := leads[job.lead := lead.(status := Paused, due := None)];
        case Blank => leads := leads[job.lead := lead.(status := Paused, reason := BlankContent, due := None)];
        case Allow =>
          if job.Id() in events {
            leads := leads[job.lead := Advance(lead, job, again)];
          } else {
            flying := flying + multiset{job};
            go := true;
          }
      }
    }

    /** The email is handed to SMTP; if it leaves, the transaction runs, whole or not at all. */
    method SendEmail(job: Job, outcome: Outcome, again: nat) returns (recorded: bool)
      requires job in flying && job.lead in leads
      modifies this`leads, this`events, this`flying, this`ledger
      ensures View() == SendStep(old(View()), job, outcome, again)
      ensures recorded <==> outcome == Recorded && job.Id() !in old(events)
      ensures OnlyRow(old(leads), leads, job.lead)
      ensures recorded ==> job.Id() in events && Moved(old(leads)[job.lead], leads[job.lead], job, again)
      ensures !recorded ==> leads == old(leads) && events == old(events)
    {
      SendMoves(View(), job, outcome, again);
      hide Advance;
      flying := flying - multiset{job};
      recorded := false;
      if outcome == Failed { return; }
      var key := job.Id();
      recorded := outcome == Recorded && key !in events;
      if recorded {
        RecordSend(job, again);
      } else {
        ledger := ledger.(sent := ledger.sent + multiset{key}, unrecorded := ledger.unrecorded + multiset{key});
      }
    }

    /** The transaction: the SendEvent and the guarded advance. */
    method RecordSend(job: Job, again: nat)
      requires job.lead in leads
      modifies this`leads, this`events, this`ledger
      ensures events == old(events) + {job.Id()}
      ensures leads == old(leads)[job.lead := Advance(old(leads)[job.lead], job, again)]
      ensures ledger == old(ledger).(sent := old(ledger).sent + multiset{job.Id()})
    {
      hide Advance;
      events := events + {job.Id()};
      leads := leads[job.lead := Advance(leads[job.lead], job, again)];
      ledger := ledger.(sent := ledger.sent + multiset{job.Id()});
    }

    method ListLostMailboxes() returns (groups: map<Option<nat>, nat>)
      ensures groups == Groups(leads)
      ensures forall lost: nat :: (Some(lost) in groups <==> AffectedIds(leads, lost) != {}) &&
                                  (Some(lost) in groups ==> groups[Some(lost)] == |AffectedIds(leads, lost)|)
    {
      forall lost: nat { BannerCounts(leads, lost); }
      groups := map a | a in LostAccounts(leads) :: |LostIds(leads, a)|;
    }

    /** The operator's decision; resolved is the number of leads it was applied to. */
    method ResolveLostMailbox(lost: nat, action: Action, now: nat) returns (resolved: nat)
      modifies this`leads, this`events, this`ledger
      ensures View() == ResolveStep(old(View()), lost, action, now)
      ensures resolved == |AffectedIds(old(leads), lost)|
      ensures Some(lost) !in Groups(leads)
    {
      hide ResolveAll, EventsOf, AffectedIds, Groups;
      var ids := AffectedIds(leads, lost);
      resolved := |ids|;
      ResolvedLeavesBanner(View(), lost, action, now);
      if ids == {} { NothingToRestart(View(), lost, now); }
      match action {
        case StopAtCurrentStep => leads := ResolveAll(leads, lost, action, now);
        case ContinueNewMailbox => leads := ResolveAll(leads, lost, action, now);
        case RestartNewMailbox =>
          if resolved > 0 {
            var gone := EventsOf(events, ids);
            events := events - gone;
            leads := ResolveAll(leads, lost, action, now);
            ledger := ledger.(erased := ledger.erased + multiset(gone), restarts := ledger.restarts + Each(ids));
          }
      }
    }
  }
}
