/** What whole ticks make of a lost mailbox: when it is noticed, and when its resolved leads are mailed again. */
module LostTicks {
  import opened Prelude
  import opened Dispatch
  import opened Ticks
  import opened LostMailbox

  // ---- resolved leads -----------------------------------------------------------------

  /**
   * A continued or restarted lead that the next tick handles with a mailbox at hand is queued in that tick exactly
   * when the campaign is live; otherwise that tick does nothing at all.
   */
  lemma {:induction false} ResumesAtNextTick(s: State, id: nat, lost: nat, action: Action, t: nat, now: nat, ids: set<nat>,
                                             gone: seq<nat>, answers: seq<Answer>, i: nat)
    requires id in s.leads && Affected(s.leads[id], lost) && action != StopAtCurrentStep && t <= now
    requires s.tick.None? && id in ids && HandledAt(id, gone, answers, i) && answers[i].mail.Ready?
    requires var row := ResolveOne(s.leads[id], lost, action, t);
             Judge(s.steps, row, answers[i].mail, answers[i].sig, answers[i].blank).Email?
    ensures var a := answers[i];
            var r := Apply(s, Resolve(lost, action, t));
            var v := Judge(s.steps, ResolveOne(s.leads[id], lost, action, t), a.mail, a.sig, a.blank);
            var e := Run(r, TickOps(now, true, ids, gone, answers));
            && (s.phase == Live ==>
                  && id in e.leads && e.leads[id].account == Some(a.mail.id) && e.leads[id].due == Some(a.claim)
                  && e.leads[id].status == Active && Job(id, v.step, v.last) in e.jobs)
            && (s.phase != Live ==> e == r)
  {
    hide Run, Judge, TickOps;
    var r := Apply(s, Resolve(lost, action, t));
    ResumesIff(s, id, lost, action, t, now);
    if s.phase == Live {
      TickQueues(r, now, ids, gone, answers, id, i);
    } else {
      OnlyLiveTicks(r, now, true, ids, gone, answers);
    }
  }

  // ---- noticing the loss ---------------------------------------------------------------

  /** A lead of the lost mailbox during the tick that is going to notice: still as read, or already paused as lost. */
  predicate BoundTo(s: State, id: nat, lost: nat, row: Lead) {
    && s.tick.Some? && id in s.leads && s.leads[id].account == Some(lost) && row.account == Some(lost)
    && (s.leads[id].status == Active || Affected(s.leads[id], lost))
    && (lost in s.tick.value.lost ==> Affected(s.leads[id], lost))
    && id in s.tick.value.slots && s.tick.value.slots[id] == Found(row) && id !in s.tick.value.binds
  }

  lemma {:induction false} StaysBoundTo(s: State, op: Op, id: nat, lost: nat, row: Lead)
    requires BoundTo(s, id, lost, row) && Elsewhere(op, id)
    ensures BoundTo(Apply(s, op), id, lost, row)
  {
    hide Judge;
  }

  lemma {:induction false} RunStaysBoundTo(s: State, ops: seq<Op>, id: nat, lost: nat, row: Lead)
    requires BoundTo(s, id, lost, row) && AllElsewhere(ops, id)
    ensures BoundTo(Run(s, ops), id, lost, row)
    decreases |ops|
  {
    hide Apply, BoundTo, Elsewhere;
    if ops != [] {
      StaysBoundTo(s, ops[0], id, lost, row);
      RunStaysBoundTo(Apply(s, ops[0]), ops[1..], id, lost, row);
    }
  }

  /** Its turn in the tick has come: it is paused as lost and the tick is done with it. */
  predicate Noticed(s: State, id: nat, lost: nat) {
    && s.tick.Some? && id in s.leads && Affected(s.leads[id], lost)
    && id !in s.tick.value.slots && id !in s.tick.value.binds
  }

  lemma {:induction false} GoneIsNoticed(s: State, a: Answer, lost: nat, row: Lead)
    requires BoundTo(s, a.id, lost, row) && a.mail == Gone
    ensures Noticed(Apply(s, DueOf(a)), a.id, lost)
  {
  }

  predicate Later(op: Op) { op.Due? || op.Bind? || op.Enqueue? }

  lemma {:induction false} StaysNoticed(s: State, op: Op, id: nat, lost: nat)
    requires Noticed(s, id, lost) && Later(op)
    ensures Noticed(Apply(s, op), id, lost)
  {
    hide Judge;
  }

  lemma {:induction false} RunStaysNoticed(s: State, ops: seq<Op>, id: nat, lost: nat)
    requires Noticed(s, id, lost) && forall k :: 0 <= k < |ops| ==> Later(ops[k])
    ensures Noticed(Run(s, ops), id, lost)
    decreases |ops|
  {
    hide Apply, Noticed, Later;
    if ops != [] {
      StaysNoticed(s, ops[0], id, lost);
      RunStaysNoticed(Apply(s, ops[0]), ops[1..], id, lost);
    }
  }

  lemma {:induction false} DuesNotice(s: State, answers: seq<Answer>, i: nat, id: nat, lost: nat, row: Lead)
    requires HandledAt(id, [], answers, i) && BoundTo(s, id, lost, row) && answers[i].mail == Gone
    ensures Noticed(Run(s, Dues(answers)), id, lost)
  {
    hide Apply, BoundTo, Noticed;
    var ops := Dues(answers);
    HandledElsewhere(id, [], answers, i);
    RunSplit(s, ops, i);
    RunStaysBoundTo(s, ops[..i], id, lost, row);
    GoneIsNoticed(Run(s, ops[..i]), answers[i], lost, row);
    RunStaysNoticed(Apply(Run(s, ops[..i]), ops[i]), ops[i + 1..], id, lost);
  }

  lemma {:induction false} RestKeepsNoticed(s: State, answers: seq<Answer>, id: nat, lost: nat)
    requires Noticed(s, id, lost)
    ensures Noticed(Run(Run(s, Binds(answers)), Enqueues(answers)), id, lost)
  {
    RunStaysNoticed(s, Binds(answers), id, lost);
    RunStaysNoticed(Run(s, Binds(answers)), Enqueues(answers), id, lost);
  }

  lemma {:induction false} FinishKeepsRows(s: State)
    ensures Apply(s, Finish).leads == s.leads
  {
  }

  lemma {:induction false} PickedIsBoundTo(s: State, now: nat, ids: set<nat>, gone: seq<nat>, id: nat, lost: nat)
    requires s.tick.None? && IsDue(s, id, now) && s.leads[id].account == Some(lost) && id in ids && id !in gone
    ensures var q := Run(s, Opening(now, ids, gone));
            BoundTo(q, id, lost, s.leads[id]) && q.leads[id] == s.leads[id]
  {
    hide Run, Apply;
    OpeningIs(s, now, ids, gone);
    PickedIsHeld(s, now, ids, id);
    var p := Apply(Apply(Apply(s, Begin), Seed(now)), Pick(ids, now));
    NothingLostYet(s, now, ids);
    SuppressesLoseNothing(p, gone);
    SuppressesKeep(p, gone, id, s.leads[id], Some(Found(s.leads[id])), None);
  }

  lemma {:induction false} NothingLostYet(s: State, now: nat, ids: set<nat>)
    requires s.phase == Live && s.tick.None?
    ensures var p := Apply(Apply(Apply(s, Begin), Seed(now)), Pick(ids, now)); p.tick.Some? && p.tick.value.lost == {}
  {
  }

  lemma {:induction false} SuppressesLoseNothing(s: State, gone: seq<nat>)
    requires s.tick.Some? && s.tick.value.lost == {}
    ensures var t := Run(s, Suppresses(gone)); t.tick.Some? && t.tick.value.lost == {}
    decreases |gone|
  {
    if gone != [] {
      assert Suppresses(gone)[1..] == Suppresses(gone[1..]);
      SuppressesLoseNothing(Apply(s, Suppress(gone[0])), gone[1..]);
    }
  }

  /**
   * A tick that handles a due lead of a mailbox that is gone pauses it as lost exactly when some other mailbox of the
   * campaign is eligible: without one it stops before it looks, and the lead stays as it was.
   */
  lemma {:induction false} LostIsNoticedIff(s: State, now: nat, mailboxes: bool, ids: set<nat>, gone: seq<nat>,
                                            answers: seq<Answer>, id: nat, lost: nat, i: nat)
    requires s.tick.None? && IsDue(s, id, now) && s.leads[id].account == Some(lost) && id in ids
    requires HandledAt(id, gone, answers, i) && answers[i].mail == Gone
    ensures var e := Run(s, TickOps(now, mailboxes, ids, gone, answers));
            && id in e.leads && (Affected(e.leads[id], lost) <==> mailboxes)
            && (!mailboxes ==> e.leads[id] == s.leads[id] && e.phase == Live)
  {
    hide Run, Apply, BoundTo, Opening, Handling, AllElsewhere, Dues, Binds, Enqueues;
    PickedIsBoundTo(s, now, ids, gone, id, lost);
    var q := Run(s, Opening(now, ids, gone));
    if mailboxes {
      RunAppends(s, Opening(now, ids, gone), Handling(answers));
      HandlingIs(q, answers);
      DuesNotice(q, answers, i, id, lost, s.leads[id]);
      var r := Run(q, Dues(answers));
      RestKeepsNoticed(r, answers, id, lost);
      FinishKeepsRows(Run(Run(r, Binds(answers)), Enqueues(answers)));
    } else {
      RunAppends(s, Opening(now, ids, gone), [Quit]);
      RunOne(q, Quit);
      QuitKeeps(q);
      OpeningStaysLive(s, now, ids, gone);
      IsBound(q, id, lost, s.leads[id]);
    }
  }

  lemma {:induction false} IsBound(s: State, id: nat, lost: nat, row: Lead)
    requires BoundTo(s, id, lost, row)
    ensures id in s.leads
  {
  }

  lemma {:induction false} QuitKeeps(s: State)
    ensures Apply(s, Quit) == s.(tick := None)
  {
  }

  lemma {:induction false} OpeningStaysLive(s: State, now: nat, ids: set<nat>, gone: seq<nat>)
    requires s.phase == Live && s.tick.None?
    ensures Run(s, Opening(now, ids, gone)).phase == Live
  {
    OpeningIs(s, now, ids, gone);
    SuppressesStayLive(Apply(Apply(Apply(s, Begin), Seed(now)), Pick(ids, now)), gone);
  }

  lemma {:induction false} SuppressesStayLive(s: State, gone: seq<nat>)
    requires s.phase == Live
    ensures Run(s, Suppresses(gone)).phase == Live
    decreases |gone|
  {
    if gone != [] {
      assert Suppresses(gone)[1..] == Suppresses(gone[1..]);
      SuppressesStayLive(Apply(s, Suppress(gone[0])), gone[1..]);
    }
  }

  // ---- losing the last mailbox in use ----------------------------------------------------

  /** Every active lead is bound to the mailbox, and none is active once the tick has noticed that it is gone. */
  predicate AllOn(s: State, lost: nat) {
    && (forall id :: id in s.leads && s.leads[id].status == Active ==> s.leads[id].account == Some(lost))
    && (s.tick.Some? && lost in s.tick.value.lost ==> !AnyActive(s.leads))
  }

  lemma {:induction false} StaysAllOn(s: State, op: Op, lost: nat)
    requires AllOn(s, lost) && (op.Suppress? || op.Due?)
    ensures AllOn(Apply(s, op), lost)
  {
    hide Judge, Binding;
  }

  lemma {:induction false} RunStaysAllOn(s: State, ops: seq<Op>, lost: nat)
    requires AllOn(s, lost) && forall k :: 0 <= k < |ops| ==> ops[k].Suppress? || ops[k].Due?
    ensures AllOn(Run(s, ops), lost)
    decreases |ops|
  {
    hide Apply, AllOn;
    if ops != [] {
      StaysAllOn(s, ops[0], lost);
      RunStaysAllOn(Apply(s, ops[0]), ops[1..], lost);
    }
  }

  lemma {:induction false} OpeningIsAllOn(s: State, now: nat, ids: set<nat>, gone: seq<nat>, lost: nat)
    requires s.phase == Live && s.tick.None? && AllOn(s, lost)
    ensures AllOn(Run(s, Opening(now, ids, gone)), lost)
  {
    OpeningIs(s, now, ids, gone);
    NothingLostYet(s, now, ids);
    RunStaysAllOn(Apply(Apply(Apply(s, Begin), Seed(now)), Pick(ids, now)), Suppresses(gone), lost);
  }

  /** When a lead of the lost mailbox is handled, every active lead goes with it. */
  lemma {:induction false} GoneEmpties(s: State, a: Answer, lost: nat, row: Lead)
    requires AllOn(s, lost) && BoundTo(s, a.id, lost, row) && a.mail == Gone
    ensures !AnyActive(Apply(s, DueOf(a)).leads)
  {
  }

  lemma {:induction false} RunStaysIdle(s: State, ops: seq<Op>)
    requires !AnyActive(s.leads) && forall k :: 0 <= k < |ops| ==> !ops[k].Resolve?
    ensures !AnyActive(Run(s, ops).leads)
    decreases |ops|
  {
    hide Apply, After;
    if ops != [] {
      RowsStay(s, ops[0]);
      forall id | id in s.leads ensures Apply(s, ops[0]).leads[id].status != Active {
        OnlyAResolutionActivates(s, ops[0], id);
      }
      RunStaysIdle(Apply(s, ops[0]), ops[1..]);
    }
  }

  lemma {:induction false} DuesEmpty(s: State, answers: seq<Answer>, i: nat, id: nat, lost: nat, row: Lead)
    requires HandledAt(id, [], answers, i) && BoundTo(s, id, lost, row) && answers[i].mail == Gone && AllOn(s, lost)
    ensures !AnyActive(Run(s, Dues(answers)).leads)
  {
    hide Apply, BoundTo, AllOn, AnyActive;
    var ops := Dues(answers);
    HandledElsewhere(id, [], answers, i);
    RunSplit(s, ops, i);
    RunStaysBoundTo(s, ops[..i], id, lost, row);
    RunStaysAllOn(s, ops[..i], lost);
    GoneEmpties(Run(s, ops[..i]), answers[i], lost, row);
    RunStaysIdle(Apply(Run(s, ops[..i]), ops[i]), ops[i + 1..]);
  }

  lemma {:induction false} FinishCompletes(s: State)
    requires s.tick.Some? && AllQueued(s.tick.value) && !AnyActive(s.leads)
    ensures Apply(s, Finish) == s.(tick := None, phase := Done)
  {
  }

  /** The tick that notices the loss of the only mailbox still in use completes the campaign; without one it cannot. */
  lemma {:induction false} LossCompletesIff(s: State, now: nat, mailboxes: bool, ids: set<nat>, gone: seq<nat>,
                                            answers: seq<Answer>, id: nat, lost: nat, i: nat)
    requires s.tick.None? && IsDue(s, id, now) && AllOn(s, lost) && id in ids
    requires HandledAt(id, gone, answers, i) && answers[i].mail == Gone
    ensures var e := Run(s, TickOps(now, mailboxes, ids, gone, answers));
            e.tick.None? && (e.phase == Done <==> mailboxes)
  {
    hide Run, Apply, BoundTo, AllOn, Handling, Opening, AllQueued, AnyActive, AllElsewhere, Dues, Binds, Enqueues;
    var q := Run(s, Opening(now, ids, gone));
    BoundByAll(s, id, lost, now);
    LostIsNoticedIff(s, now, mailboxes, ids, gone, answers, id, lost, i);
    if mailboxes {
      PickedIsBoundTo(s, now, ids, gone, id, lost);
      OpeningIsAllOn(s, now, ids, gone, lost);
      RunAppends(s, Opening(now, ids, gone), Handling(answers));
      HandlingIs(q, answers);
      DuesEmpty(q, answers, i, id, lost, s.leads[id]);
      var r := Run(q, Dues(answers));
      StillIdle(r, answers);
      OpenedDrains(s, now, ids, gone, answers);
      FinishCompletes(Run(Run(r, Binds(answers)), Enqueues(answers)));
    } else {
      RunAppends(s, Opening(now, ids, gone), [Quit]);
      RunOne(q, Quit);
      QuitKeeps(q);
    }
  }

  lemma {:induction false} BoundByAll(s: State, id: nat, lost: nat, now: nat)
    requires IsDue(s, id, now) && AllOn(s, lost)
    ensures s.leads[id].account == Some(lost)
  {
  }

  lemma {:induction false} StillIdle(s: State, answers: seq<Answer>)
    requires !AnyActive(s.leads)
    ensures !AnyActive(Run(Run(s, Binds(answers)), Enqueues(answers)).leads)
  {
    RunStaysIdle(s, Binds(answers));
    RunStaysIdle(Run(s, Binds(answers)), Enqueues(answers));
  }

  /**
   * So when the only mailbox still in use is lost while another is eligible, the operator's continue reactivates the
   * leads of a completed campaign: nothing is queued in any run without a launch, and a launch makes them due.
   */
  lemma {:induction false} LostCampaignNeedsLaunch(s: State, now: nat, ids: set<nat>, gone: seq<nat>,
                                                   answers: seq<Answer>, id: nat, lost: nat, i: nat, t: nat,
                                                   ops: seq<Op>, later: nat)
    requires s.tick.None? && IsDue(s, id, now) && AllOn(s, lost) && id in ids && t <= later
    requires HandledAt(id, gone, answers, i) && answers[i].mail == Gone
    requires forall o :: o in ops ==> !o.Launch?
    ensures var b := Run(s, TickOps(now, true, ids, gone, answers));
            var c := Apply(b, Resolve(lost, ContinueNewMailbox, t));
            && id in c.leads && c.leads[id].status == Active && c.leads[id].due == Some(t)
            && Run(c, ops).phase == Done && Run(c, ops).jobs == b.jobs
            && (c.steps != [] && c.accounts > 0 ==> IsDue(Apply(c, Launch(later)), id, later))
  {
    hide Run, TickOps, AllOn, HandledAt;
    var b := Run(s, TickOps(now, true, ids, gone, answers));
    BoundByAll(s, id, lost, now);
    LostIsNoticedIff(s, now, true, ids, gone, answers, id, lost, i);
    LossCompletesIff(s, now, true, ids, gone, answers, id, lost, i);
    DoneQueuesNothing(Apply(b, Resolve(lost, ContinueNewMailbox, t)), ops);
  }
}
