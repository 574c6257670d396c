/** One whole tick of src/services/sendQueueService.ts over a campaign, as the sequence of its steps. */
module Ticks {
  import opened Prelude
  import opened Sequence
  import opened Dispatch

  /** What the tick finds out about a due lead: its mailbox, what the conditions see, and the claim of its batch. */
  datatype Answer = Answer(id: nat, mail: Mail, sig: Signals, blank: bool, claim: nat)

  function DueOf(a: Answer): Op { Due(a.id, a.mail, a.sig, a.blank) }

  function Dues(answers: seq<Answer>): (ops: seq<Op>)
    ensures |ops| == |answers|
  {
    seq(|answers|, i requires 0 <= i < |answers| => DueOf(answers[i]))
  }

  function Binds(answers: seq<Answer>): (ops: seq<Op>)
    ensures |ops| == |answers|
  {
    seq(|answers|, i requires 0 <= i < |answers| => Bind(answers[i].id))
  }

  function Enqueues(answers: seq<Answer>): (ops: seq<Op>)
    ensures |ops| == |answers|
  {
    seq(|answers|, i requires 0 <= i < |answers| => Enqueue(answers[i].id, answers[i].claim))
  }

  function Suppresses(gone: seq<nat>): (ops: seq<Op>)
    ensures |ops| == |gone|
  {
    seq(|gone|, i requires 0 <= i < |gone| => Suppress(gone[i]))
  }

  function Opening(now: nat, ids: set<nat>, gone: seq<nat>): seq<Op> {
    [Begin, Seed(now), Pick(ids, now)] + Suppresses(gone)
  }

  function Handling(answers: seq<Answer>): seq<Op> { Dues(answers) + Binds(answers) + Enqueues(answers) + [Finish] }

  /**
   * ids: the due leads the query returns; gone: those whose address is suppressed; answers: the leads handled before
   * capacity runs out. Without an eligible mailbox the tick ends before it looks at them.
   */
  function TickOps(now: nat, mailboxes: bool, ids: set<nat>, gone: seq<nat>, answers: seq<Answer>): seq<Op> {
    Opening(now, ids, gone) + if mailboxes then Handling(answers) else [Quit]
  }

  lemma {:induction false} RunSplit(s: State, ops: seq<Op>, i: nat)
    requires i < |ops|
    ensures Run(s, ops) == Run(Apply(Run(s, ops[..i]), ops[i]), ops[i + 1..])
  {
    hide Apply;
    assert ops == ops[..i] + ([ops[i]] + ops[i + 1..]);
    RunAppends(s, ops[..i], [ops[i]] + ops[i + 1..]);
    RunAppends(Run(s, ops[..i]), [ops[i]], ops[i + 1..]);
    RunOne(Run(s, ops[..i]), ops[i]);
  }

  lemma {:induction false} OpeningIs(s: State, now: nat, ids: set<nat>, gone: seq<nat>)
    ensures Run(s, Opening(now, ids, gone)) ==
            Run(Apply(Apply(Apply(s, Begin), Seed(now)), Pick(ids, now)), Suppresses(gone))
  {
    hide Apply;
    RunAppends(s, [Begin, Seed(now), Pick(ids, now)], Suppresses(gone));
    assert [Begin, Seed(now), Pick(ids, now)] == [Begin, Seed(now)] + [Pick(ids, now)];
    RunAppends(s, [Begin, Seed(now)], [Pick(ids, now)]);
    RunTwo(s, Begin, Seed(now));
    RunOne(Apply(Apply(s, Begin), Seed(now)), Pick(ids, now));
  }

  lemma {:induction false} HandlingIs(s: State, answers: seq<Answer>)
    ensures Run(s, Handling(answers)) ==
            Apply(Run(Run(Run(s, Dues(answers)), Binds(answers)), Enqueues(answers)), Finish)
  {
    hide Apply;
    RunAppends(s, Dues(answers) + Binds(answers) + Enqueues(answers), [Finish]);
    RunAppends(s, Dues(answers) + Binds(answers), Enqueues(answers));
    RunAppends(s, Dues(answers), Binds(answers));
    RunOne(Run(s, Dues(answers) + Binds(answers) + Enqueues(answers)), Finish);
  }

  // ---- nothing without a tick ----------------------------------------------------------

  predicate OfTick(op: Op) {
    op.Seed? || op.Pick? || op.Suppress? || op.Due? || op.Bind? || op.Enqueue? || op.Finish? || op.Quit?
  }

  lemma {:induction false} IdleRun(s: State, ops: seq<Op>)
    requires s.tick.None? && s.phase != Live
    requires forall k :: 0 <= k < |ops| ==> OfTick(ops[k]) || ops[k] == Begin
    ensures Run(s, ops) == s
    decreases |ops|
  {
    if ops != [] {
      assert OfTick(ops[0]) || ops[0] == Begin;
      assert Apply(s, ops[0]) == s;
      IdleRun(s, ops[1..]);
    }
  }

  /** A campaign that is not live is not touched by a tick. */
  lemma {:induction false} OnlyLiveTicks(s: State, now: nat, mailboxes: bool, ids: set<nat>, gone: seq<nat>,
                                         answers: seq<Answer>)
    requires s.tick.None? && s.phase != Live
    ensures Run(s, TickOps(now, mailboxes, ids, gone, answers)) == s
  {
    hide Run;
    IdleRun(s, TickOps(now, mailboxes, ids, gone, answers));
  }

  // ---- every composed email is queued ----------------------------------------------------

  function IdsOf(answers: seq<Answer>): set<nat> { set a | a in answers :: a.id }

  /** Composed emails are for these leads only. */
  predicate ComposedFor(s: State, ids: set<nat>) {
    && s.tick.Some? && s.tick.value.picked && s.tick.value.slots.Keys <= s.leads.Keys
    && forall id :: id in s.tick.value.slots && s.tick.value.slots[id].Composed? ==> id in ids
  }

  lemma {:induction false} StepComposes(s: State, op: Op, ids: set<nat>)
    requires ComposedFor(s, ids) && (op.Suppress? || op.Bind? || (op.Due? && op.lead in ids))
    ensures ComposedFor(Apply(s, op), ids)
  {
    hide Judge, Binding, LoseOne;
  }

  lemma {:induction false} RunComposes(s: State, ops: seq<Op>, ids: set<nat>)
    requires ComposedFor(s, ids)
    requires forall k :: 0 <= k < |ops| ==> ops[k].Suppress? || ops[k].Bind? || (ops[k].Due? && ops[k].lead in ids)
    ensures ComposedFor(Run(s, ops), ids)
    decreases |ops|
  {
    hide Apply, ComposedFor;
    if ops != [] {
      StepComposes(s, ops[0], ids);
      RunComposes(Apply(s, ops[0]), ops[1..], ids);
    }
  }

  lemma {:induction false} EnqueueDrains(s: State, id: nat, claim: nat, ids: set<nat>)
    requires ComposedFor(s, {id} + ids)
    ensures ComposedFor(Apply(s, Enqueue(id, claim)), ids)
  {
  }

  lemma {:induction false} EnqueuesDrain(s: State, answers: seq<Answer>)
    requires ComposedFor(s, IdsOf(answers))
    ensures var e := Run(s, Enqueues(answers)); e.tick.Some? && AllQueued(e.tick.value)
    decreases |answers|
  {
    if answers != [] {
      hide Apply, ComposedFor, AllQueued;
      var a := answers[0];
      var ops := Enqueues(answers);
      assert ops[1..] == Enqueues(answers[1..]);
      assert IdsOf(answers) == {a.id} + IdsOf(answers[1..]) by { assert answers == [a] + answers[1..]; }
      EnqueueDrains(s, a.id, a.claim, IdsOf(answers[1..]));
      EnqueuesDrain(Apply(s, ops[0]), answers[1..]);
    }
  }

  /** From the query on, the rest of a tick leaves no composed email behind. */
  lemma {:induction false} TickDrains(s: State, gone: seq<nat>, answers: seq<Answer>)
    requires ComposedFor(s, {})
    ensures var e := Run(Run(Run(Run(s, Suppresses(gone)), Dues(answers)), Binds(answers)), Enqueues(answers));
            e.tick.Some? && AllQueued(e.tick.value)
  {
    hide Run, AllQueued;
    RunComposes(s, Suppresses(gone), {});
    var t := Run(s, Suppresses(gone));
    assert forall k :: 0 <= k < |answers| ==> answers[k] in answers && answers[k].id in IdsOf(answers);
    RunComposes(t, Dues(answers), IdsOf(answers));
    RunComposes(Run(t, Dues(answers)), Binds(answers), IdsOf(answers));
    EnqueuesDrain(Run(Run(t, Dues(answers)), Binds(answers)), answers);
  }

  lemma {:induction false} PickedIsClear(s: State, now: nat, ids: set<nat>)
    requires s.phase == Live && s.tick.None?
    ensures ComposedFor(Apply(Apply(Apply(s, Begin), Seed(now)), Pick(ids, now)), {})
  {
    hide SeedOne;
  }

  lemma {:induction false} OpenedDrains(s: State, now: nat, ids: set<nat>, gone: seq<nat>, answers: seq<Answer>)
    requires s.phase == Live && s.tick.None?
    ensures var e := Run(Run(Run(Run(s, Opening(now, ids, gone)), Dues(answers)), Binds(answers)), Enqueues(answers));
            e.tick.Some? && AllQueued(e.tick.value)
  {
    hide Run, Apply, AllQueued, ComposedFor;
    OpeningIs(s, now, ids, gone);
    PickedIsClear(s, now, ids);
    TickDrains(Apply(Apply(Apply(s, Begin), Seed(now)), Pick(ids, now)), gone, answers);
  }

  // ---- one lead through a tick ------------------------------------------------------------

  /** A step of the tick about another lead. */
  predicate Elsewhere(op: Op, id: nat) { (op.Suppress? || op.Due? || op.Bind? || op.Enqueue?) && op.lead != id }

  predicate AllElsewhere(ops: seq<Op>, id: nat) { forall k :: 0 <= k < |ops| ==> Elsewhere(ops[k], id) }

  /** What the tick and the table hold about one lead. */
  predicate Holds(s: State, id: nat, l: Lead, slot: Option<Slot>, bind: Option<nat>) {
    && s.tick.Some? && id in s.leads && s.leads[id] == l
    && slot == (if id in s.tick.value.slots then Some(s.tick.value.slots[id]) else None)
    && bind == (if id in s.tick.value.binds then Some(s.tick.value.binds[id]) else None)
  }

  /** Another lead's lost mailbox is not this lead's. */
  predicate Unbound(l: Lead, op: Op) { op.Due? && l.status == Active ==> l.account.None? }

  lemma {:induction false} ElsewhereKeeps(s: State, op: Op, id: nat, l: Lead, slot: Option<Slot>, bind: Option<nat>)
    requires Holds(s, id, l, slot, bind) && Elsewhere(op, id) && Unbound(l, op)
    ensures var t := Apply(s, op);
            Holds(t, id, l, slot, bind) && t.tick.value.plan == s.tick.value.plan && t.phase == s.phase && s.jobs <= t.jobs
  {
    hide Judge;
  }

  lemma {:induction false} ElsewhereRun(s: State, ops: seq<Op>, id: nat, l: Lead, slot: Option<Slot>, bind: Option<nat>)
    requires Holds(s, id, l, slot, bind) && AllElsewhere(ops, id) && forall k :: 0 <= k < |ops| ==> Unbound(l, ops[k])
    ensures var t := Run(s, ops);
            Holds(t, id, l, slot, bind) && t.tick.value.plan == s.tick.value.plan && t.phase == s.phase && s.jobs <= t.jobs
    decreases |ops|
  {
    hide Apply, Elsewhere;
    if ops != [] {
      ElsewhereKeeps(s, ops[0], id, l, slot, bind);
      ElsewhereRun(Apply(s, ops[0]), ops[1..], id, l, slot, bind);
    }
  }

  /** The answers handle the lead once, at place i, and its address is not suppressed. */
  predicate HandledAt(id: nat, gone: seq<nat>, answers: seq<Answer>, i: nat) {
    && i < |answers| && answers[i].id == id && id !in gone
    && forall k :: 0 <= k < |answers| && k != i ==> answers[k].id != id
  }

  lemma {:induction false} HandledElsewhere(id: nat, gone: seq<nat>, answers: seq<Answer>, i: nat)
    requires HandledAt(id, gone, answers, i)
    ensures AllElsewhere(Suppresses(gone), id)
    ensures AllElsewhere(Dues(answers)[..i], id) && AllElsewhere(Dues(answers)[i + 1..], id)
    ensures AllElsewhere(Binds(answers)[..i], id) && AllElsewhere(Binds(answers)[i + 1..], id)
    ensures AllElsewhere(Enqueues(answers)[..i], id) && AllElsewhere(Enqueues(answers)[i + 1..], id)
  {
    assert forall k :: 0 <= k < |gone| ==> gone[k] in gone;
  }

  lemma {:induction false} PickedIsHeld(s: State, now: nat, ids: set<nat>, id: nat)
    requires IsDue(s, id, now) && s.tick.None? && id in ids
    ensures var p := Apply(Apply(Apply(s, Begin), Seed(now)), Pick(ids, now));
            && Holds(p, id, s.leads[id], Some(Found(s.leads[id])), None)
            && p.tick.value.plan == s.steps && p.phase == Live && p.jobs == s.jobs
  {
  }

  lemma {:induction false} DuesCompose(s: State, answers: seq<Answer>, i: nat, id: nat, l: Lead)
    requires HandledAt(id, [], answers, i) && Holds(s, id, l, Some(Found(l)), None)
    requires l.account.None? && answers[i].mail.Ready?
    requires Judge(s.tick.value.plan, l, answers[i].mail, answers[i].sig, answers[i].blank).Email?
    ensures var t := Run(s, Dues(answers));
            var v := Judge(s.tick.value.plan, l, answers[i].mail, answers[i].sig, answers[i].blank);
            Holds(t, id, l, Some(Composed(v.step, v.last)), Some(answers[i].mail.id)) && t.phase == s.phase
  {
    hide Judge;
    var ops, a := Dues(answers), answers[i];
    HandledElsewhere(id, [], answers, i);
    RunSplit(s, ops, i);
    ElsewhereRun(s, ops[..i], id, l, Some(Found(l)), None);
    var t := Run(s, ops[..i]);
    var v := Judge(s.tick.value.plan, l, a.mail, a.sig, a.blank);
    DueComposes(t, a, l);
    ElsewhereRun(Apply(t, ops[i]), ops[i + 1..], id, l, Some(Composed(v.step, v.last)), Some(a.mail.id));
  }

  lemma {:induction false} DueComposes(s: State, a: Answer, l: Lead)
    requires Holds(s, a.id, l, Some(Found(l)), None) && l.account.None? && a.mail.Ready?
    requires Judge(s.tick.value.plan, l, a.mail, a.sig, a.blank).Email?
    ensures var t := Apply(s, DueOf(a));
            var v := Judge(s.tick.value.plan, l, a.mail, a.sig, a.blank);
            Holds(t, a.id, l, Some(Composed(v.step, v.last)), Some(a.mail.id)) && t.phase == s.phase
  {
    hide Judge;
  }

  lemma {:induction false} BindsBind(s: State, answers: seq<Answer>, i: nat, id: nat, l: Lead, slot: Slot, box: nat)
    requires HandledAt(id, [], answers, i) && Holds(s, id, l, Some(slot), Some(box))
    ensures var t := Run(s, Binds(answers));
            Holds(t, id, l.(account := Some(box)), Some(slot), None) && t.phase == s.phase
  {
    var ops := Binds(answers);
    HandledElsewhere(id, [], answers, i);
    RunSplit(s, ops, i);
    ElsewhereRun(s, ops[..i], id, l, Some(slot), Some(box));
    ElsewhereRun(Apply(Run(s, ops[..i]), ops[i]), ops[i + 1..], id, l.(account := Some(box)), Some(slot), None);
  }

  lemma {:induction false} EnqueuesQueue(s: State, answers: seq<Answer>, i: nat, id: nat, l: Lead, step: int, last: bool)
    requires HandledAt(id, [], answers, i) && Holds(s, id, l, Some(Composed(step, last)), None)
    ensures var t := Run(s, Enqueues(answers));
            && Holds(t, id, Claim(l, answers[i].claim), None, None) && t.phase == s.phase
            && Job(id, step, last) in t.jobs
  {
    var ops := Enqueues(answers);
    HandledElsewhere(id, [], answers, i);
    RunSplit(s, ops, i);
    ElsewhereRun(s, ops[..i], id, l, Some(Composed(step, last)), None);
    var t := Apply(Run(s, ops[..i]), ops[i]);
    ElsewhereRun(t, ops[i + 1..], id, Claim(l, answers[i].claim), None, None);
  }

  /**
   * A due lead without a mailbox that a tick handles with a mailbox at hand: the tick binds it, claims it and queues
   * the step that its row and the campaign's steps decide, whatever it does to the other leads.
   */
  lemma {:induction false} TickQueues(s: State, now: nat, ids: set<nat>, gone: seq<nat>, answers: seq<Answer>,
                                      id: nat, i: nat)
    requires s.tick.None? && IsDue(s, id, now) && s.leads[id].account.None? && id in ids
    requires HandledAt(id, gone, answers, i) && answers[i].mail.Ready?
    requires Judge(s.steps, s.leads[id], answers[i].mail, answers[i].sig, answers[i].blank).Email?
    ensures var a := answers[i];
            var v := Judge(s.steps, s.leads[id], a.mail, a.sig, a.blank);
            var e := Run(s, TickOps(now, true, ids, gone, answers));
            && id in e.leads && e.leads[id] == s.leads[id].(account := Some(a.mail.id), due := Some(a.claim))
            && Job(id, v.step, v.last) in e.jobs && e.phase == Live && e.tick.None?
  {
    hide Run, Apply, Judge, AllQueued, ComposedFor, OfTick, AllElsewhere, Dues, Binds, Enqueues, Suppresses;
    var l, a := s.leads[id], answers[i];
    var v := Judge(s.steps, l, a.mail, a.sig, a.blank);
    RunAppends(s, Opening(now, ids, gone), Handling(answers));
    OpeningIs(s, now, ids, gone);
    var p := Apply(Apply(Apply(s, Begin), Seed(now)), Pick(ids, now));
    PickedIsHeld(s, now, ids, id);
    PickedIsClear(s, now, ids);
    HandledElsewhere(id, gone, answers, i);
    SuppressesKeep(p, gone, id, l, Some(Found(l)), None);
    var q := Run(p, Suppresses(gone));
    DuesCompose(q, answers, i, id, l);
    var r := Run(q, Dues(answers));
    BindsBind(r, answers, i, id, l, Composed(v.step, v.last), a.mail.id);
    EnqueuesQueue(Run(r, Binds(answers)), answers, i, id, l.(account := Some(a.mail.id)), v.step, v.last);
    TickDrains(p, gone, answers);
    HandlingIs(q, answers);
    FinishKeepsLive(Run(Run(r, Binds(answers)), Enqueues(answers)), id);
  }

  lemma {:induction false} SuppressesKeep(s: State, gone: seq<nat>, id: nat, l: Lead, slot: Option<Slot>,
                                          bind: Option<nat>)
    requires Holds(s, id, l, slot, bind) && id !in gone
    ensures var t := Run(s, Suppresses(gone));
            Holds(t, id, l, slot, bind) && t.tick.value.plan == s.tick.value.plan && t.phase == s.phase
  {
    assert forall k :: 0 <= k < |gone| ==> gone[k] in gone;
    ElsewhereRun(s, Suppresses(gone), id, l, slot, bind);
  }

  lemma {:induction false} FinishKeepsLive(s: State, id: nat)
    requires s.tick.Some? && AllQueued(s.tick.value) && id in s.leads && s.leads[id].status == Active
    ensures Apply(s, Finish) == s.(tick := None)
  {
  }
}
