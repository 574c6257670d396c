/**
 * One campaign of the sequencer: src/services/sendQueueService.ts (tick, queue worker) and the handlers of
 * src/controllers/campaignController2.ts that act on the same rows (launch, step replacement, lost mailboxes).
 */
module Dispatch {
  import opened Prelude
  import opened Sequence

  datatype Status = Active | Paused | Completed | Replied | Bounced | Unsubscribed
  datatype Reason = NoReason | MailboxLost | BlankContent

  /** A CampaignLead row: step is the last step sent, account the sticky mailbox. */
  datatype Lead = Lead(status: Status, reason: Reason, account: Option<nat>, step: int, due: Option<nat>)

  datatype Phase = Draft | Live | Halted | Done | Archived

  /** The identity of a SendEvent: unique on (lead, step). */
  datatype Key = Key(lead: nat, step: int)

  /** One email of a queued batch. */
  datatype Job = Job(lead: nat, step: int, last: bool) {
    function Id(): Key { Key(lead, step) }
  }

  /** A due lead of the running tick: its row as the tick read it, or the email composed from that row. */
  datatype Slot = Found(row: Lead) | Composed(step: int, last: bool)

  /**
   * What a running tick holds in memory: the steps it loaded with the campaign, the due leads, the sticky mailboxes it
   * is going to write and the lost mailboxes it has already handled.
   */
  datatype Tick = Tick(plan: seq<Step>, picked: bool, slots: map<nat, Slot>, binds: map<nat, nat>, lost: set<nat>)

  /**
   * Bookkeeping that no table holds: emails that left, emails whose transaction failed, records a restart deleted,
   * restarts of a lead, records a purge deleted.
   */
  datatype Ledger = Ledger(sent: multiset<Key>, unrecorded: multiset<Key>, erased: multiset<Key>,
                           restarts: multiset<nat>, purged: multiset<Key>)

  /**
   * jobs: every email ever queued (a stalled batch is run again). flying: emails whose worker has passed the
   * already-delivered check and has not yet committed.
   */
  datatype State = State(phase: Phase, accounts: nat, steps: seq<Step>, leads: map<nat, Lead>, events: set<Key>,
                         jobs: set<Job>, flying: multiset<Job>, tick: Option<Tick>, ledger: Ledger)

  /** The mailbox a due lead finds: with capacity, permanently gone, or busy until a retry time. */
  datatype Mail = Ready(id: nat) | Gone | Busy(retry: nat)

  datatype Gate = Allow | Defer(until: nat) | Block | Blank | Abort
  datatype Outcome = Failed | Recorded | CommitFails
  datatype Action = RestartNewMailbox | ContinueNewMailbox | StopAtCurrentStep
  datatype Signal = Reply | HardBounce | Unsubscribe | PauseLead

  datatype Op =
    | Launch(now: nat)
    | Pause
    | Resume
    | ReplaceSteps(to: seq<Step>)
    | Begin
    | Seed(now: nat)
    | Pick(ids: set<nat>, now: nat)
    | Suppress(lead: nat)
    | Due(lead: nat, mail: Mail, sig: Signals, blank: bool)
    | Bind(lead: nat)
    | Enqueue(lead: nat, claim: nat)
    | Finish
    | Quit
    | Check(job: Job, gate: Gate, again: nat)
    | Send(job: Job, outcome: Outcome, again: nat)
    | Resolve(lost: nat, action: Action, now: nat)
    | Interrupt(lead: nat, signal: Signal)
    | Purge(keys: set<Key>)

  // ---- rows --------------------------------------------------------------------

  function SeedOne(l: Lead, now: nat): Lead {
    if l.status == Active && l.step == 0 && l.due == None then l.(due := Some(now)) else l
  }

  function SeedAll(leads: map<nat, Lead>, now: nat): map<nat, Lead> { map id | id in leads :: SeedOne(leads[id], now) }

  function LoseOne(l: Lead, account: nat): Lead {
    if l.status == Active && l.account == Some(account)
    then l.(status := Paused, reason := MailboxLost, due := None) else l
  }

  function LoseAll(leads: map<nat, Lead>, account: nat): map<nat, Lead> {
    map id | id in leads :: LoseOne(leads[id], account)
  }

  /** The guarded advance past a delivered step. */
  function Advance(l: Lead, job: Job, again: nat): Lead {
    if l.status != Active then l
    else l.(step := job.step, status := if job.last then Completed else Active,
            due := if job.last then None else Some(again))
  }

  predicate Affected(l: Lead, lost: nat) { l.status == Paused && l.reason == MailboxLost && l.account == Some(lost) }

  function AffectedIds(leads: map<nat, Lead>, lost: nat): set<nat> { set id | id in leads && Affected(leads[id], lost) }

  function ResolveOne(l: Lead, lost: nat, action: Action, now: nat): Lead {
    if !Affected(l, lost) then l
    else match action
      case StopAtCurrentStep => l.(status := Completed, reason := NoReason, due := None)
      case ContinueNewMailbox => l.(status := Active, reason := NoReason, account := None, due := Some(now))
      case RestartNewMailbox => l.(status := Active, reason := NoReason, account := None, step := 0, due := Some(now))
  }

  function ResolveAll(leads: map<nat, Lead>, lost: nat, action: Action, now: nat): map<nat, Lead> {
    map id | id in leads :: ResolveOne(leads[id], lost, action, now)
  }

  function Interrupted(l: Lead, signal: Signal): Lead {
    match signal
    case Reply => l.(status := if l.status == Completed then Completed else Replied, due := None)
    case HardBounce => l.(status := Bounced, due := None)
    case Unsubscribe => l.(status := Unsubscribed)
    case PauseLead => if l.status == Active || l.status == Completed then l.(status := Paused, due := None) else l
  }

  function EventsOf(events: set<Key>, ids: set<nat>): set<Key> { set k | k in events && k.lead in ids }

  predicate AnyActive(leads: map<nat, Lead>) { exists id :: id in leads && leads[id].status == Active }

  predicate AnyHigher(steps: seq<Step>, n: int) { exists st :: st in steps && st.number > n }

  // ---- one tick --------------------------------------------------------------------

  predicate DueRow(l: Lead, now: nat) { l.status == Active && l.due.Some? && l.due.value <= now }

  predicate IsDue(s: State, id: nat, now: nat) { s.phase == Live && id in s.leads && DueRow(s.leads[id], now) }

  /** The tick holds the lead's row and has not handled it yet. */
  predicate Listed(s: State, id: nat) {
    s.tick.Some? && id in s.tick.value.slots && s.tick.value.slots[id].Found?
  }

  /** The tick has composed the lead's email and has not queued it yet. */
  predicate Pending(s: State, id: nat) {
    s.tick.Some? && id in s.tick.value.slots && s.tick.value.slots[id].Composed?
  }

  function BeginStep(s: State): State {
    if s.phase == Live && s.tick.None? then s.(tick := Some(Tick(s.steps, false, map[], map[], {}))) else s
  }

  function SeedStep(s: State, now: nat): State {
    if s.tick.Some? && !s.tick.value.picked then s.(leads := SeedAll(s.leads, now)) else s
  }

  /** The query for due leads: which of them it returns is up to limits and holds. */
  function PickStep(s: State, ids: set<nat>, now: nat): State {
    if s.tick.None? || s.tick.value.picked then s
    else
      var found := map id | id in s.leads && id in ids && DueRow(s.leads[id], now) :: Found(s.leads[id]);
      s.(tick := Some(s.tick.value.(picked := true, slots := found)))
  }

  function Drop(t: Tick, id: nat): Tick { t.(slots := t.slots - {id}) }

  /** Suppression by address is written to every row the query returned. */
  function SuppressStep(s: State, id: nat): State {
    if !Listed(s, id) || id !in s.leads then s
    else s.(tick := Some(Drop(s.tick.value, id)),
            leads := s.leads[id := s.leads[id].(status := Unsubscribed, due := None)])
  }

  /** What becomes of a due lead. */
  datatype Verdict = Leave | Lose(account: nat) | Wait(retry: nat) | End | Empty | Email(step: int, last: bool)

  /** Decided on the row as the tick read it. */
  function Judge(plan: seq<Step>, row: Lead, mail: Mail, sig: Signals, blank: bool): Verdict {
    if row.account.None? && !mail.Ready? then Leave
    else match mail
      case Gone => Lose(row.account.value)
      case Busy(retry) => Wait(retry)
      case Ready(_) =>
        var st := Deliver(plan, row.step + 1, sig);
        if st.None? then End
        else if blank then Empty
        else Email(st.value.number, !AnyHigher(plan, st.value.number))
  }

  /** A lead without a sticky mailbox gets one; the write waits for the end of the tick. */
  function Binding(t: Tick, id: nat, row: Lead, mail: Mail): map<nat, nat> {
    if row.account.None? && mail.Ready? then t.binds[id := mail.id] else t.binds
  }

  function DueStep(s: State, id: nat, mail: Mail, sig: Signals, blank: bool): State {
    if !Listed(s, id) || id !in s.leads then s
    else
      var t := s.tick.value;
      var row := t.slots[id].row;
      var u := Drop(t, id).(binds := Binding(t, id, row, mail));
      var l := s.leads[id];
      match Judge(t.plan, row, mail, sig, blank)
      case Leave => s
      case Lose(a) =>
        s.(tick := Some(u.(lost := t.lost + {a})), leads := if a in t.lost then s.leads else LoseAll(s.leads, a))
      case Wait(retry) => s.(tick := Some(u), leads := s.leads[id := l.(due := Some(retry))])
      case End => s.(tick := Some(u), leads := s.leads[id := l.(status := Completed, due := None)])
      case Empty =>
        s.(tick := Some(u), leads := s.leads[id := l.(status := Paused, reason := BlankContent, due := None)])
      case Email(step, last) => s.(tick := Some(u.(slots := t.slots[id := Composed(step, last)])))
  }

  function BindStep(s: State, id: nat): State {
    if s.tick.None? || id !in s.tick.value.binds || id !in s.leads then s
    else s.(tick := Some(s.tick.value.(binds := s.tick.value.binds - {id})),
            leads := s.leads[id := s.leads[id].(account := Some(s.tick.value.binds[id]))])
  }

  function Claim(l: Lead, claim: nat): Lead { if l.status == Active then l.(due := Some(claim)) else l }

  /** The claim is guarded by the status; the email is queued whether or not it took. */
  function EnqueueStep(s: State, id: nat, claim: nat): State {
    if !Pending(s, id) || id !in s.leads then s
    else
      var e := s.tick.value.slots[id];
      s.(tick := Some(Drop(s.tick.value, id)), leads := s.leads[id := Claim(s.leads[id], claim)],
         jobs := s.jobs + {Job(id, e.step, e.last)})
  }

  predicate AllQueued(t: Tick) { t.picked && forall id :: id in t.slots ==> t.slots[id].Found? }

  function FinishStep(s: State): State {
    if s.tick.None? || !AllQueued(s.tick.value) then s
    else s.(tick := None, phase := if AnyActive(s.leads) then s.phase else Done)
  }

  // ---- steps -------------------------------------------------------------------------

  /** The worker before it sends: blank guard, protection gate, already-delivered check. */
  function CheckStep(s: State, job: Job, gate: Gate, again: nat): State {
    if job !in s.jobs || job.lead !in s.leads then s
    else
      var l := s.leads[job.lead];
      match gate
      case Abort => s
      case Defer(until) => s.(leads := s.leads[job.lead := l.(due := Some(until))])
      case Block => s.(leads := s.leads[job.lead := l.(status := Paused, due := None)])
      case Blank => s.(leads := s.leads[job.lead := l.(status := Paused, reason := BlankContent, due := None)])
      case Allow =>
        if job.Id() in s.events then s.(leads := s.leads[job.lead := Advance(l, job, again)])
        else s.(flying := s.flying + multiset{job})
  }

  /** The email leaves, then one transaction inserts the SendEvent and advances the lead; the unique key can refuse it. */
  function SendStep(s: State, job: Job, outcome: Outcome, again: nat): State {
    if job !in s.flying || job.lead !in s.leads then s
    else
      var t := s.(flying := s.flying - multiset{job});
      if outcome == Failed then t
      else if outcome == Recorded && job.Id() !in s.events then
        t.(events := s.events + {job.Id()}, leads := s.leads[job.lead := Advance(s.leads[job.lead], job, again)],
           ledger := s.ledger.(sent := s.ledger.sent + multiset{job.Id()}))
      else
        t.(ledger := s.ledger.(sent := s.ledger.sent + multiset{job.Id()},
                               unrecorded := s.ledger.unrecorded + multiset{job.Id()}))
  }

  function Each(ids: set<nat>): multiset<nat> { multiset(ids) }

  function ResolveStep(s: State, lost: nat, action: Action, now: nat): State {
    var ids := AffectedIds(s.leads, lost);
    var t := s.(leads := ResolveAll(s.leads, lost, action, now));
    if action != RestartNewMailbox then t
    else t.(events := s.events - EventsOf(s.events, ids),
            ledger := s.ledger.(erased := s.ledger.erased + multiset(EventsOf(s.events, ids)),
                                restarts := s.ledger.restarts + Each(ids)))
  }

  function Apply(s: State, op: Op): State {
    match op
    case Launch(now) =>
      if s.phase == Live || s.steps == [] || s.accounts == 0 then s
      else s.(phase := Live, leads := SeedAll(s.leads, now))
    case Pause => if s.phase == Live then s.(phase := Halted) else s
    case Resume => if s.phase == Halted then s.(phase := Live) else s
    case ReplaceSteps(to) => if s.phase == Done || s.phase == Archived then s else s.(steps := to)
    case Begin => BeginStep(s)
    case Seed(now) => SeedStep(s, now)
    case Pick(ids, now) => PickStep(s, ids, now)
    case Suppress(id) => SuppressStep(s, id)
    case Due(id, mail, sig, blank) => DueStep(s, id, mail, sig, blank)
    case Bind(id) => BindStep(s, id)
    case Enqueue(id, claim) => EnqueueStep(s, id, claim)
    case Finish => FinishStep(s)
    case Quit => s.(tick := None)
    case Check(job, gate, again) => CheckStep(s, job, gate, again)
    case Send(job, outcome, again) => SendStep(s, job, outcome, again)
    case Resolve(lost, action, now) => ResolveStep(s, lost, action, now)
    case Interrupt(id, signal) =>
      if id in s.leads then s.(leads := s.leads[id := Interrupted(s.leads[id], signal)]) else s
    case Purge(keys) =>
      s.(events := s.events - keys, ledger := s.ledger.(purged := s.ledger.purged + multiset(keys * s.events)))
  }

  function Run(s: State, ops: seq<Op>): State
    decreases |ops|
  {
    if ops == [] then s else Run(Apply(s, ops[0]), ops[1..])
  }

  predicate Fresh(s: State) {
    && s.events == {} && s.jobs == {} && s.flying == multiset{} && s.tick == None
    && s.ledger == Ledger(multiset{}, multiset{}, multiset{}, multiset{}, multiset{})
    && forall id :: id in s.leads ==> s.leads[id].step == 0 && s.leads[id].reason == NoReason
  }

  lemma {:induction false} RunAppends(s: State, ops: seq<Op>, more: seq<Op>)
    ensures Run(s, ops + more) == Run(Run(s, ops), more)
    decreases |ops|
  {
    hide Apply;
    if ops == [] {
      assert ops + more == more;
    } else {
      assert (ops + more)[1..] == ops[1..] + more;
      RunAppends(Apply(s, ops[0]), ops[1..], more);
    }
  }

  lemma {:induction false} RunOne(s: State, op: Op)
    ensures Run(s, [op]) == Apply(s, op)
  {
    hide Apply;
    assert [op][1..] == [];
    assert Run(s, [op]) == Run(Apply(s, op), []);
  }

  lemma {:induction false} RunTwo(s: State, a: Op, b: Op)
    ensures Run(s, [a, b]) == Apply(Apply(s, a), b)
  {
    hide Apply;
    assert [a, b] == [a] + [b];
    RunAppends(s, [a], [b]);
    RunOne(s, a);
    RunOne(Apply(s, a), b);
  }
}
