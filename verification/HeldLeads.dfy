/** src/processor.ts: the worker that pushes held leads into their campaigns. */
module HeldLeads {
  import opened Prelude

  const BATCH: nat := 50

  datatype Status = Held | Active | Paused | Blocked | Completed

  datatype Lead = Lead(org: nat, status: Status, campaign: Option<nat>, healthy: bool, deleted: bool)

  /** The filter of both reads of the worker. */
  predicate Eligible(l: Lead) { l.status == Held && l.campaign.Some? && l.healthy && !l.deleted }

  datatype Gate = Allows | Refuses | GateThrows

  /** The enrolment call: it reports success, or failure, or throws; a failed call may still have written its row. */
  datatype Push = Succeeds | Fails(wrote: bool) | Throws(wrote: bool)

  /** How the calls made for one lead turn out. */
  datatype Calls = Calls(
    readFails: bool,      // getPushRetryCount rejects, and is taken as 0
    blockFails: bool,     // transitionLead to BLOCKED is denied or rejects
    clearFails: bool,     // clearPushRetry rejects
    gate: Gate,           // canExecuteLead
    activateThrows: bool, // lead.update to 'active'
    push: Push,           // enrollLeadInSequencerCampaign
    bumpFails: bool,      // incrementPushRetry rejects without counting
    revertFails: bool)    // lead.update back to 'held'

  datatype World = World(leads: map<nat, Lead>, retries: map<nat, nat>, enrolled: set<nat>)

  function Retries(w: World, id: nat): nat { if id in w.retries then w.retries[id] else 0 }

  function SetStatus(w: World, id: nat, s: Status): World
    requires id in w.leads
  {
    w.(leads := w.leads[id := w.leads[id].(status := s)])
  }

  // ---- one visit -----------------------------------------------------------

  datatype Event =
    | NoCampaign
    | CapReached(blocked: bool, cleared: bool)
    | Refused
    | CycleAborted
    | Enrolled(cleared: bool)
    | PushFailed(wrote: bool, bumped: bool, reverted: bool)

  /** All the worker keeps about one lead. */
  datatype Row = Row(lead: Lead, tries: nat, enrolled: bool)

  function RowOf(w: World, id: nat): Row
    requires id in w.leads
  {
    Row(w.leads[id], Retries(w, id), id in w.enrolled)
  }

  function Visit(cap: nat, r: Row, c: Calls): Event {
    if r.lead.campaign.None? then NoCampaign
    else if (if c.readFails then 0 else r.tries) >= cap then CapReached(!c.blockFails, !c.clearFails)
    else match c.gate
      case GateThrows => CycleAborted
      case Refuses => Refused
      case Allows => if c.activateThrows then CycleAborted else Pushed(c)
  }

  function Pushed(c: Calls): Event {
    match c.push
    case Succeeds => Enrolled(!c.clearFails)
    case Fails(wrote) => PushFailed(wrote, !c.bumpFails, !c.revertFails)
    case Throws(wrote) => PushFailed(wrote, !c.bumpFails, !c.revertFails)
  }

  function Clear(w: World, id: nat): World { w.(retries := w.retries - {id}) }

  function Apply(w: World, id: nat, e: Event): World
    requires id in w.leads
  {
    match e
    case NoCampaign => w
    case Refused => w
    case CycleAborted => w
    case CapReached(blocked, cleared) =>
      var w1 := if blocked then SetStatus(w, id, Blocked) else w;
      if cleared then Clear(w1, id) else w1
    case Enrolled(cleared) =>
      var w1 := SetStatus(w, id, Active);
      var w2 := w1.(enrolled := w1.enrolled + {id});
      if cleared then Clear(w2, id) else w2
    case PushFailed(wrote, bumped, reverted) =>
      var w1 := SetStatus(w, id, if reverted then Held else Active);
      var w2 := if wrote then w1.(enrolled := w1.enrolled + {id}) else w1;
      if bumped then w2.(retries := w2.retries[id := Retries(w, id) + 1]) else w2
  }

  function AfterVisit(cap: nat, w: World, id: nat, c: Calls): World
    requires id in w.leads
  {
    Apply(w, id, Visit(cap, RowOf(w, id), c))
  }

  /** Visits in order; a throw outside the inner try ends the cycle at that lead. */
  function AfterVisits(cap: nat, w: World, ids: seq<nat>, calls: nat -> Calls): (r: World)
    requires forall id :: id in ids ==> id in w.leads
    ensures r.leads.Keys == w.leads.Keys
    decreases |ids|
  {
    if ids == [] then w
    else
      var w1 := AfterVisit(cap, w, ids[0], calls(ids[0]));
      AfterVisits(cap, w1, ids[1..], calls)
  }

  // ---- the worker ------------------------------------------------------------

  predicate Distinct(ids: seq<nat>) { forall i, j :: 0 <= i < j < |ids| ==> ids[i] != ids[j] }

  /** The leads one organization has waiting. */
  function Pending(w: World, org: nat): set<nat> {
    set id | id in w.leads && Eligible(w.leads[id]) && w.leads[id].org == org
  }

  /** Those of the visited leads that belong to the organization. */
  function Share(w: World, ids: seq<nat>, org: nat): set<nat> {
    set id | id in ids && id in w.leads && w.leads[id].org == org
  }

  lemma {:induction false} StatusTwice(w: World, id: nat, a: Status, b: Status)
    requires id in w.leads
    ensures var v := SetStatus(w, id, a);
            SetStatus(v, id, b) == SetStatus(w, id, b) && v.enrolled == w.enrolled && v.retries == w.retries
    ensures SetStatus(w, id, b).retries == w.retries && SetStatus(w, id, b).enrolled == w.enrolled
  {
    var l := w.leads[id].(status := a);
    assert w.leads[id := l][id := l.(status := b)] == w.leads[id := l.(status := b)];
  }

  lemma {:induction false} ActivatedFirst(w: World, id: nat, e: Event)
    requires id in w.leads && (e.Enrolled? || e.PushFailed?)
    ensures Apply(SetStatus(w, id, Active), id, e) == Apply(w, id, e)
  {
    StatusTwice(w, id, Active, if e.PushFailed? && e.reverted then Held else Active);
    hide SetStatus;
  }

  // ---- what visits do, lead by lead ---------------------------------------------

  function ApplyRow(r: Row, e: Event): Row {
    match e
    case CapReached(blocked, cleared) =>
      Row(if blocked then r.lead.(status := Blocked) else r.lead, if cleared then 0 else r.tries, r.enrolled)
    case Enrolled(cleared) =>
      Row(r.lead.(status := Active), if cleared then 0 else r.tries, true)
    case PushFailed(wrote, bumped, reverted) =>
      Row(r.lead.(status := if reverted then Held else Active), if bumped then r.tries + 1 else r.tries,
          r.enrolled || wrote)
    case _ => r
  }

  lemma {:induction false} EventIsLocal(w: World, id: nat, e: Event, other: nat)
    requires id in w.leads && other in w.leads
    ensures Apply(w, id, e).leads.Keys == w.leads.Keys
    ensures RowOf(Apply(w, id, e), other) == if other == id then ApplyRow(RowOf(w, id), e) else RowOf(w, other)
  {
  }

  lemma {:induction false} VisitIsLocal(cap: nat, w: World, id: nat, c: Calls, other: nat)
    requires id in w.leads && other in w.leads
    ensures AfterVisit(cap, w, id, c).leads.Keys == w.leads.Keys
    ensures RowOf(AfterVisit(cap, w, id, c), other)
         == if other == id then ApplyRow(RowOf(w, id), Visit(cap, RowOf(w, id), c)) else RowOf(w, other)
  {
    hide Visit, Apply, ApplyRow;
    EventIsLocal(w, id, Visit(cap, RowOf(w, id), c), other);
  }

  /** Visits to different leads do not touch one another. */
  lemma {:induction false} VisitsAreLocal(cap: nat, w: World, ids: seq<nat>, calls: nat -> Calls, id: nat)
    requires (forall i :: i in ids ==> i in w.leads) && Distinct(ids) && id in w.leads
    ensures RowOf(AfterVisits(cap, w, ids, calls), id)
         == if id in ids then ApplyRow(RowOf(w, id), Visit(cap, RowOf(w, id), calls(id))) else RowOf(w, id)
    decreases |ids|
  {
    if ids != [] {
      VisitIsLocal(cap, w, ids[0], calls(ids[0]), id);
      assert ids == [ids[0]] + ids[1..];
      VisitsAreLocal(cap, AfterVisit(cap, w, ids[0], calls(ids[0])), ids[1..], calls, id);
    }
  }

  lemma {:induction false} VisitsSnoc(cap: nat, w: World, ids: seq<nat>, id: nat, calls: nat -> Calls)
    requires (forall i :: i in ids ==> i in w.leads) && id in w.leads
    ensures AfterVisits(cap, w, ids + [id], calls) == AfterVisit(cap, AfterVisits(cap, w, ids, calls), id, calls(id))
    decreases |ids|
  {
    if ids == [] {
      assert ids + [id] == [id];
    } else {
      assert (ids + [id])[0] == ids[0] && (ids + [id])[1..] == ids[1..] + [id];
      VisitsSnoc(cap, AfterVisit(cap, w, ids[0], calls(ids[0])), ids[1..], id, calls);
    }
  }

  // ---- what a visit means ------------------------------------------------------------

  /** The lead has a campaign and the count that was read is below the cap: the gate is asked. */
  predicate AtGate(cap: nat, r: Row, c: Calls) { r.lead.campaign.Some? && (if c.readFails then 0 else r.tries) < cap }

  /** What is not caught inside the loop: the gate throws, or the activation of an allowed lead does. */
  predicate GivesUp(cap: nat, r: Row, c: Calls) {
    AtGate(cap, r, c) && (c.gate == GateThrows || (c.gate == Allows && c.activateThrows))
  }

  /** All that a visit may leave of a lead's row r, and when: s is the row after it. */
  predicate LeavesRow(cap: nat, r: Row, s: Row, c: Calls) {
    && s.lead == r.lead.(status := s.lead.status)
    && if r.lead.campaign.None? then s == r
       else if !AtGate(cap, r, c) then
         && s.lead.status == (if c.blockFails then r.lead.status else Blocked)
         && s.tries == (if c.clearFails then r.tries else 0) && s.enrolled == r.enrolled
       else if c.gate != Allows || c.activateThrows then s == r
       else if c.push == Succeeds then
         s.lead.status == Active && s.enrolled && s.tries == (if c.clearFails then r.tries else 0)
       else
         && s.lead.status == (if c.revertFails then Active else Held)
         && s.tries == (if c.bumpFails then r.tries else r.tries + 1)
         && (s.enrolled <==> r.enrolled || c.push.wrote)
  }

  lemma {:induction false} VisitMeans(cap: nat, r: Row, c: Calls)
    ensures LeavesRow(cap, r, ApplyRow(r, Visit(cap, r, c)), c)
    ensures Visit(cap, r, c).CycleAborted? <==> GivesUp(cap, r, c)
  {
  }

  /** A cycle leaves of every lead it visits what that lead's own calls decide, and every other lead as it was. */
  lemma {:induction false} CycleMeans(cap: nat, was: World, visits: seq<nat>, now: World, calls: nat -> Calls, id: nat)
    requires Progress(cap, was, visits, now, calls) && id in was.leads
    ensures id in now.leads
    ensures if id in visits then LeavesRow(cap, RowOf(was, id), RowOf(now, id), calls(id))
            else RowOf(now, id) == RowOf(was, id)
  {
    VisitsAreLocal(cap, was, visits, calls, id);
    VisitMeans(cap, RowOf(was, id), calls(id));
  }

  /** A refused lead stays held, waiting, with its counter and enrolment, for the next cycle. */
  lemma {:induction false} RefusedWaitsOn(cap: nat, was: World, visits: seq<nat>, now: World, calls: nat -> Calls, id: nat)
    requires Progress(cap, was, visits, now, calls) && id in visits && id in was.leads
    requires AtGate(cap, RowOf(was, id), calls(id)) && calls(id).gate == Refuses
    ensures id in now.leads && Eligible(now.leads[id]) && RowOf(now, id) == RowOf(was, id)
  {
    CycleMeans(cap, was, visits, now, calls, id);
  }

  /** No call made for the lead throws outside the inner try. */
  predicate Quiet(c: Calls) { c.gate != GateThrows && !(c.gate == Allows && c.activateThrows) }

  lemma {:induction false} QuietGoesOn(cap: nat, w: World, visits: seq<nat>, calls: nat -> Calls)
    requires visits != [] && EndsThrowing(cap, w, visits, calls)
    ensures exists id :: id in visits && id in w.leads && !Quiet(calls(id))
  {
    assert visits[|visits| - 1] in visits;
  }

  /** The visits so far: different leads, all of them waiting when the cycle began, and nothing else done. */
  ghost predicate Progress(cap: nat, was: World, visits: seq<nat>, now: World, calls: nat -> Calls) {
    && Distinct(visits)
    && (forall id :: id in visits ==> id in was.leads && Eligible(was.leads[id]))
    && now == AfterVisits(cap, was, visits, calls)
  }

  /** Of every organization the cycle visits as many waiting leads as fit one batch. */
  ghost predicate Covers(w: World, visits: seq<nat>) {
    forall org: nat :: |Share(w, visits, org)| == Min(50, |Pending(w, org)|)
  }

  ghost predicate EndsThrowing(cap: nat, w: World, visits: seq<nat>, calls: nat -> Calls)
    requires visits != []
  {
    var id := visits[|visits| - 1];
    id in w.leads && GivesUp(cap, RowOf(w, id), calls(id))
  }

  lemma {:induction false} PendingStays(
    cap: nat, was: World, visits: seq<nat>, now: World, calls: nat -> Calls, org: nat)
    requires Progress(cap, was, visits, now, calls) && Share(was, visits, org) == {}
    ensures Pending(now, org) == Pending(was, org)
  {
    forall id | id in was.leads
      ensures now.leads[id].org == was.leads[id].org
      ensures id !in visits ==> now.leads[id] == was.leads[id]
      ensures id in visits ==> id in Share(was, visits, was.leads[id].org)
    {
      VisitsAreLocal(cap, was, visits, calls, id);
    }
  }

  lemma {:induction false} NextVisit(
    cap: nat, was: World, before: seq<nat>, batch: seq<nat>, k: nat, now: World, calls: nat -> Calls, org: nat)
    requires k < |batch| && Distinct(batch) && Progress(cap, was, before + batch[..k], now, calls)
    requires Share(was, before, org) == {} && forall id :: id in batch ==> id in Pending(was, org)
    ensures batch[k] in was.leads && batch[k] in now.leads && RowOf(now, batch[k]) == RowOf(was, batch[k])
    ensures Progress(cap, was, before + batch[..k + 1], AfterVisit(cap, now, batch[k], calls(batch[k])), calls)
  {
    hide AfterVisit, AfterVisits;
    var id := batch[k];
    assert id in batch;
    assert id in before ==> id in Share(was, before, org);
    var visits := before + batch[..k];
    assert visits + [id] == before + batch[..k + 1];
    VisitsSnoc(cap, was, visits, id, calls);
    VisitsAreLocal(cap, was, visits, calls, id);
  }

  lemma {:induction false} BatchShare(w: World, before: seq<nat>, visits: seq<nat>, org: nat)
    requires Distinct(visits) && Share(w, before, org) == {}
    requires forall id :: id in visits ==> id in Pending(w, org)
    ensures |Share(w, before + visits, org)| == |visits|
  {
    forall id | id in before && id in w.leads ensures w.leads[id].org != org {
      assert w.leads[id].org == org ==> id in Share(w, before, org);
    }
    assert Share(w, before + visits, org) == SetOf(visits);
    DistinctSize(visits);
  }

  function SetOf(ids: seq<nat>): set<nat> { set id | id in ids }

  lemma {:induction false} DistinctSize(ids: seq<nat>)
    requires Distinct(ids)
    ensures |SetOf(ids)| == |ids|
  {
    if ids == [] {
      assert SetOf(ids) == {};
    } else {
      var n := |ids| - 1;
      DistinctSize(ids[..n]);
      assert ids == ids[..n] + [ids[n]] && ids[n] !in SetOf(ids[..n]);
      assert SetOf(ids) == SetOf(ids[..n]) + {ids[n]};
    }
  }

  lemma {:induction false} LastThrew(cap: nat, w: World, visits: seq<nat>, calls: nat -> Calls)
    requires visits != [] && visits[|visits| - 1] in w.leads
    requires GivesUp(cap, RowOf(w, visits[|visits| - 1]), calls(visits[|visits| - 1]))
    ensures EndsThrowing(cap, w, visits, calls)
  {
  }

  lemma {:induction false} OtherShares(w: World, before: seq<nat>, more: seq<nat>, org: nat)
    requires forall id :: id in more ==> id in Pending(w, org)
    ensures forall o: nat :: o != org ==> Share(w, before + more, o) == Share(w, before, o)
  {
  }

  class Worker {
    const cap: nat
    var leads: map<nat, Lead>
    var retries: map<nat, nat>
    var enrolled: set<nat>

    ghost function View(): World
      reads this
    {
      World(leads, retries, enrolled)
    }

    constructor (cap: nat, leads: map<nat, Lead>)
      ensures this.cap == cap && View() == World(leads, map[], {})
    {
      this.cap, this.leads, this.retries, this.enrolled := cap, leads, map[], {};
    }

    method VisitLead(id: nat, c: Calls) returns (threw: bool)
      requires id in leads
      modifies this
      ensures View() == AfterVisit(cap, old(View()), id, c)
      ensures threw <==> GivesUp(cap, RowOf(old(View()), id), c)
      ensures LeavesRow(cap, RowOf(old(View()), id), RowOf(View(), id), c) && leads.Keys == old(leads).Keys
      ensures AtGate(cap, RowOf(old(View()), id), c) && c.gate == Refuses ==> View() == old(View()) && !threw
      ensures forall other :: other in leads && other != id ==> RowOf(View(), other) == RowOf(old(View()), other)
    {
      VisitMeans(cap, RowOf(View(), id), c);
      forall other | other in leads { VisitIsLocal(cap, View(), id, c, other); }
      threw := false;
      if leads[id].campaign.None? { return; }
      var prior := 0;
      if !c.readFails && id in retries { prior := retries[id]; }
      if prior >= cap {
        if !c.blockFails { leads := leads[id := leads[id].(status := Blocked)]; }
        if !c.clearFails { retries := retries - {id}; }
        return;
      }
      if c.gate == GateThrows { return true; }
      if c.gate == Refuses { return; }
      if c.activateThrows { return true; }
      leads := leads[id := leads[id].(status := Active)];
      PushLead(id, c);
      ActivatedFirst(old(View()), id, Pushed(c));
    }

    /** The inner try block. */
    method PushLead(id: nat, c: Calls)
      requires id in leads && leads[id].status == Active
      modifies this
      ensures View() == Apply(old(View()), id, Pushed(c))
    {
      if c.push == Succeeds {
        enrolled := enrolled + {id};
        if !c.clearFails { retries := retries - {id}; }
      } else {
        if c.push.wrote { enrolled := enrolled + {id}; }
        if !c.bumpFails {
          var count := if id in retries then retries[id] else 0;
          retries := retries[id := count + 1];
        }
        if !c.revertFails { leads := leads[id := leads[id].(status := Held)]; }
      }
    }

    /** findMany with `take: 50` and no order: some of the waiting leads, as many as fit. */
    method FetchBatch(org: nat) returns (batch: seq<nat>)
      ensures Distinct(batch) && forall id :: id in batch ==> id in Pending(View(), org)
      ensures |batch| == Min(50, |Pending(View(), org)|)
    {
      var rest := set id | id in leads && Eligible(leads[id]) && leads[id].org == org;
      ghost var all := rest;
      batch := [];
      while rest != {} && |batch| < BATCH
        invariant Distinct(batch) && |batch| <= BATCH && rest <= all
        invariant forall id :: id in batch <==> id in all - rest
        invariant |batch| + |rest| == |all|
        decreases |rest|
      {
        var id :| id in rest;
        assert id !in batch;
        batch, rest := batch + [id], rest - {id};
      }
    }

    /** One organization's batch: `visits` grows by the leads visited; `threw` ends the cycle. */
    method RunBatch(org: nat, calls: nat -> Calls, ghost was: World, ghost before: seq<nat>)
      returns (visits: seq<nat>, threw: bool)
      requires Progress(cap, was, before, View(), calls)
      requires Share(was, before, org) == {}
      modifies this
      ensures Progress(cap, was, before + visits, View(), calls)
      ensures forall id :: id in visits ==> id in Pending(was, org)
      ensures !threw ==> |Share(was, before + visits, org)| == Min(50, |Pending(was, org)|)
      ensures threw ==> visits != [] && EndsThrowing(cap, was, visits, calls)
    {
      hide Progress, AfterVisits, AfterVisit, Visit, RowOf, Distinct, Pending, Share, EndsThrowing;
      PendingStays(cap, was, before, View(), calls, org);
      var batch := FetchBatch(org);
      assert before + batch[..0] == before && batch[..|batch|] == batch;
      for k := 0 to |batch|
        invariant Progress(cap, was, before + batch[..k], View(), calls)
      {
        var id := batch[k];
        NextVisit(cap, was, before, batch, k, View(), calls, org);
        threw := VisitLead(id, calls(id));
        if threw {
          visits := batch[..k + 1];
          LastThrew(cap, was, visits, calls);
          return;
        }
      }
      visits, threw := batch, false;
      BatchShare(was, before, visits, org);
    }

    /** The body of the cycle, between acquiring and releasing the lock. */
    method Cycle(calls: nat -> Calls) returns (visits: seq<nat>, threw: bool)
      modifies this
      ensures Progress(cap, old(View()), visits, View(), calls)
      ensures forall id :: id in visits ==>
                && id in old(leads) && old(leads)[id].status == Held && old(leads)[id].campaign.Some?
                && old(leads)[id].healthy && !old(leads)[id].deleted
      ensures !threw ==> Covers(old(View()), visits)
      ensures threw ==> visits != [] && EndsThrowing(cap, old(View()), visits, calls)
      ensures (forall id :: id in old(leads) ==> Quiet(calls(id))) ==> !threw
    {
      ghost var was := View();
      var orgs := set id | id in leads && Eligible(leads[id]) :: leads[id].org;
      visits, threw := [], false;
      while orgs != {}
        invariant Progress(cap, was, visits, View(), calls) && !threw
        invariant forall org :: org in orgs ==> Share(was, visits, org) == {}
        invariant forall org :: org !in orgs ==> |Share(was, visits, org)| == Min(BATCH, |Pending(was, org)|)
        decreases |orgs|
      {
        var org :| org in orgs;
        var more;
        more, threw := RunBatch(org, calls, was, visits);
        OtherShares(was, visits, more, org);
        if threw { QuietGoesOn(cap, was, more, calls); }
        visits, orgs := visits + more, orgs - {org};
        if threw { return; }
      }
    }
  }

  // ---- one visit: what can become of the lead ------------------------------------

  /** Active, but no row in the campaign: no later cycle looks at it again. */
  predicate Stranded(r: Row) { r.lead.status == Active && !r.enrolled }

  /** Only a failed push followed by a failed revert strands a lead. */
  lemma {:induction false} StrandedIff(cap: nat, r: Row, c: Calls)
    requires Eligible(r.lead)
    ensures var after := ApplyRow(r, Visit(cap, r, c));
            && (Stranded(after) <==>
                && !r.enrolled && (c.readFails || r.tries < cap) && cap > 0
                && c.gate == Allows && !c.activateThrows
                && (c.push == Fails(false) || c.push == Throws(false)) && c.revertFails)
            && (after.lead.status == Held || after.lead.status == Blocked
                || (after.lead.status == Active && after.enrolled) || Stranded(after))
  {
  }

  // ---- whole runs, with every fault and other writers ------------------------------

  datatype Step =
    | Visited(id: nat, calls: Calls)
    | Expired(id: nat)                // the counter's 24 h expiry
    | Elsewhere(id: nat, lead: Lead)  // another part of the system writes the lead

  /** The worker visits waiting leads; nobody else moves a lead back to held. */
  predicate Legal(w: World, s: Step) {
    match s
    case Visited(id, _) => id in w.leads && Eligible(w.leads[id])
    case Expired(_) => true
    case Elsewhere(id, lead) => lead.status == Held && id in w.leads ==> w.leads[id].status == Held
  }

  function Next(cap: nat, w: World, s: Step): World
    requires Legal(w, s)
  {
    match s
    case Visited(id, c) => AfterVisit(cap, w, id, c)
    case Expired(id) => Clear(w, id)
    case Elsewhere(id, lead) => w.(leads := w.leads[id := lead])
  }

  /**
   * For one lead: enrolment calls and successes, failures since its counter was last cleared, counts lost,
   * reads taken as 0, counters that fell to 0 while the lead went on waiting, and failed reverts.
   */
  datatype Tally = Tally(calls: nat, wins: nat, since: nat, lost: nat, badReads: nat, resets: nat, stuck: nat)

  function CountVisit(t: Tally, readFails: bool, e: Event): Tally {
    var u := if readFails then t.(badReads := t.badReads + 1) else t;
    match e
    case Enrolled(cleared) =>
      u.(calls := t.calls + 1, wins := t.wins + 1, since := if cleared then 0 else t.since)
    case PushFailed(_, bumped, reverted) =>
      u.(calls := t.calls + 1, since := t.since + 1,
         lost := if bumped then t.lost else t.lost + 1, stuck := if reverted then t.stuck else t.stuck + 1)
    case CapReached(blocked, cleared) =>
      u.(since := if cleared then 0 else t.since,
         resets := if cleared && !blocked then t.resets + 1 else t.resets)
    case _ => u
  }

  function Count(cap: nat, w: World, s: Step, id: nat, t: Tally): Tally
    requires Legal(w, s)
  {
    match s
    case Visited(i, c) => if i == id then CountVisit(t, c.readFails, Visit(cap, RowOf(w, i), c)) else t
    case Expired(i) => if i == id then t.(since := 0, resets := t.resets + 1) else t
    case Elsewhere(_, _) => t
  }

  /** The world and one lead's tally after a run; None when a step is not legal. */
  function Play(cap: nat, w: World, steps: seq<Step>, id: nat): Option<(World, Tally)>
    decreases |steps|
  {
    if steps == [] then Some((w, Tally(0, 0, 0, 0, 0, 0, 0)))
    else
      var n := |steps| - 1;
      match Play(cap, w, steps[..n], id)
      case None => None
      case Some((w1, t1)) =>
        if Legal(w1, steps[n]) then Some((Next(cap, w1, steps[n]), Count(cap, w1, steps[n], id, t1))) else None
  }

  /** What faults may add to a lead's enrolment calls. */
  function Extra(cap: nat, t: Tally): nat { cap * t.resets + t.lost + t.badReads }

  predicate Bounded(cap: nat, w: World, id: nat, t: Tally) {
    && t.calls <= cap + Extra(cap, t) && t.wins <= 1
    && (id !in w.leads ==> t.calls == 0 && t.wins == 0)
    && (id in w.leads && w.leads[id].status == Held ==>
         t.wins == 0 && t.calls <= Min(Retries(w, id), cap) + Extra(cap, t))
  }

  lemma {:induction false} StepKeepsBound(cap: nat, w: World, s: Step, id: nat, t: Tally)
    requires Legal(w, s) && Bounded(cap, w, id, t)
    ensures Bounded(cap, Next(cap, w, s), id, Count(cap, w, s, id, t))
  {
    hide CountVisit, Visit;
    assert cap * (t.resets + 1) == cap * t.resets + cap;
    if s.Visited? && s.id == id { VisitKeepsBound(cap, w, id, s.calls, t); }
  }

  lemma {:induction false} VisitKeepsBound(cap: nat, w: World, id: nat, c: Calls, t: Tally)
    requires id in w.leads && Eligible(w.leads[id]) && Bounded(cap, w, id, t)
    ensures Bounded(cap, AfterVisit(cap, w, id, c), id, CountVisit(t, c.readFails, Visit(cap, RowOf(w, id), c)))
  {
    hide Visit;
    var e := Visit(cap, RowOf(w, id), c);
    AskedBelowCap(cap, RowOf(w, id), c);
    EventKeepsBound(cap, w, id, c.readFails, e, t);
  }

  /** Enrolment is asked for below the cap as read; the counter is given up at the cap. */
  lemma {:induction false} AskedBelowCap(cap: nat, r: Row, c: Calls)
    ensures var e := Visit(cap, r, c);
            && (e.Enrolled? || e.PushFailed? ==> c.readFails || r.tries < cap)
            && (e.CapReached? ==> cap <= if c.readFails then 0 else r.tries)
  {
  }

  lemma {:induction false} EventKeepsBound(cap: nat, w: World, id: nat, readFails: bool, e: Event, t: Tally)
    requires id in w.leads && Eligible(w.leads[id]) && Bounded(cap, w, id, t)
    requires e.Enrolled? || e.PushFailed? ==> readFails || Retries(w, id) < cap
    requires e.CapReached? ==> cap <= if readFails then 0 else Retries(w, id)
    ensures Bounded(cap, Apply(w, id, e), id, CountVisit(t, readFails, e))
  {
    assert cap * (t.resets + 1) == cap * t.resets + cap;
  }

  /**
   * Over every run a lead is enrolled at most once, and the enrolment calls made for it stay within
   * the cap, once more for every counter that was reset while it waited, and one for every lost count or read.
   */
  lemma {:induction false} CallsBounded(cap: nat, w: World, steps: seq<Step>, id: nat)
    requires Play(cap, w, steps, id).Some?
    ensures var (w1, t) := Play(cap, w, steps, id).value; Bounded(cap, w1, id, t)
    decreases |steps|
  {
    if steps != [] {
      var n := |steps| - 1;
      CallsBounded(cap, w, steps[..n], id);
      var (w1, t1) := Play(cap, w, steps[..n], id).value;
      StepKeepsBound(cap, w1, steps[n], id, t1);
    }
  }

  /** The retry counter is the number of failures since it was last cleared, while no count was lost. */
  lemma {:induction false} CounterIsFailures(cap: nat, w: World, steps: seq<Step>, id: nat)
    requires Play(cap, w, steps, id).Some? && Retries(w, id) == 0
    ensures var (w1, t) := Play(cap, w, steps, id).value;
            Retries(w1, id) <= t.since && (t.lost == 0 ==> Retries(w1, id) == t.since)
    decreases |steps|
  {
    if steps != [] {
      var n := |steps| - 1;
      CounterIsFailures(cap, w, steps[..n], id);
      var (w1, t1) := Play(cap, w, steps[..n], id).value;
      StepKeepsCounter(cap, w1, steps[n], id, t1);
    }
  }

  lemma {:induction false} StepKeepsCounter(cap: nat, w: World, s: Step, id: nat, t: Tally)
    requires Legal(w, s)
    requires Retries(w, id) <= t.since && (t.lost == 0 ==> Retries(w, id) == t.since)
    ensures var u := Count(cap, w, s, id, t);
            var r := Retries(Next(cap, w, s), id);
            r <= u.since && (u.lost == 0 ==> r == u.since)
  {
  }

  /** Where a lead nobody else writes can be: waiting, blocked, pushed, or left by a failed revert. */
  predicate Placed(r: Row, t: Tally) {
    match r.lead.status
    case Held => t.wins == 0 && t.stuck == 0
    case Blocked => t.wins == 0 && t.stuck == 0
    case Active => t.wins + t.stuck == 1 && (t.wins == 1 ==> r.enrolled)
    case _ => false
  }

  lemma {:induction false} OnlyRevertsStrand(cap: nat, w: World, steps: seq<Step>, id: nat)
    requires Play(cap, w, steps, id).Some? && id in w.leads && w.leads[id].status == Held
    requires forall s :: s in steps && s.Elsewhere? ==> s.id != id
    ensures var (w1, t) := Play(cap, w, steps, id).value; id in w1.leads && Placed(RowOf(w1, id), t)
    decreases |steps|
  {
    if steps != [] {
      var n := |steps| - 1;
      OnlyRevertsStrand(cap, w, steps[..n], id);
      var (w1, t1) := Play(cap, w, steps[..n], id).value;
      StepKeepsPlace(cap, w1, steps[n], id, t1);
    }
  }

  lemma {:induction false} StepKeepsPlace(cap: nat, w: World, s: Step, id: nat, t: Tally)
    requires Legal(w, s) && id in w.leads && (s.Elsewhere? ==> s.id != id) && Placed(RowOf(w, id), t)
    ensures id in Next(cap, w, s).leads && Placed(RowOf(Next(cap, w, s), id), Count(cap, w, s, id, t))
  {
    if s.Visited? { VisitIsLocal(cap, w, s.id, s.calls, id); }
  }

  // ---- progress -----------------------------------------------------------------------

  /** The gate allows, reads and writes succeed; the push itself may go either way. */
  predicate Reliable(c: Calls) {
    !c.readFails && !c.blockFails && !c.bumpFails && !c.revertFails && !c.activateThrows && c.gate == Allows
  }

  /** How often the worker may still have to look at a lead. */
  function Weight(cap: nat, r: Row): nat {
    if Eligible(r.lead) then cap + 1 - Min(r.tries, cap) else 0
  }

  lemma {:induction false} VisitLowers(cap: nat, r: Row, c: Calls)
    requires Eligible(r.lead) && Reliable(c)
    ensures Weight(cap, ApplyRow(r, Visit(cap, r, c))) < Weight(cap, r)
    ensures !Visit(cap, r, c).CycleAborted?
  {
  }

  ghost function Load(cap: nat, w: World, ids: set<nat>): nat
    requires ids <= w.leads.Keys
  {
    if ids == {} then 0 else var id :| id in ids; Weight(cap, RowOf(w, id)) + Load(cap, w, ids - {id})
  }

  lemma {:induction false} LoadSplit(cap: nat, w: World, ids: set<nat>, id: nat)
    requires ids <= w.leads.Keys && id in ids
    ensures Load(cap, w, ids) == Weight(cap, RowOf(w, id)) + Load(cap, w, ids - {id})
    decreases |ids|
  {
    var k :| k in ids && Load(cap, w, ids) == Weight(cap, RowOf(w, k)) + Load(cap, w, ids - {k});
    if k != id {
      LoadSplit(cap, w, ids - {k}, id);
      LoadSplit(cap, w, ids - {id}, k);
      assert ids - {k} - {id} == ids - {id} - {k};
    }
  }

  lemma {:induction false} LoadDrops(cap: nat, w: World, w1: World, ids: set<nat>, visits: set<nat>)
    requires ids <= w.leads.Keys && ids <= w1.leads.Keys && visits <= ids
    requires forall id :: id in ids ==>
      Weight(cap, RowOf(w1, id)) + (if id in visits then 1 else 0) <= Weight(cap, RowOf(w, id))
    ensures Load(cap, w1, ids) + |visits| <= Load(cap, w, ids)
    decreases |ids|
  {
    if ids != {} {
      var id :| id in ids;
      LoadSplit(cap, w, ids, id);
      LoadSplit(cap, w1, ids, id);
      LoadDrops(cap, w, w1, ids - {id}, visits - {id});
    }
  }

  ghost function Waiting(cap: nat, w: World): nat { Load(cap, w, w.leads.Keys) }

  /** A cycle over waiting leads that meets no fault, as `Worker.Cycle` describes it. */
  ghost predicate GoodCycle(cap: nat, w: World, w1: World, visits: seq<nat>, calls: nat -> Calls) {
    && Progress(cap, w, visits, w1, calls) && Covers(w, visits)
    && forall id :: id in visits ==> Reliable(calls(id))
  }

  /** Each good cycle lowers the load by at least the number of leads it visits. */
  lemma {:induction false} CycleLowers(cap: nat, w: World, w1: World, visits: seq<nat>, calls: nat -> Calls)
    requires GoodCycle(cap, w, w1, visits, calls)
    ensures w1.leads.Keys == w.leads.Keys
    ensures Waiting(cap, w1) + |visits| <= Waiting(cap, w)
    ensures visits == [] ==> forall id :: id in w.leads ==> !Eligible(w.leads[id])
  {
    forall id | id in w.leads
      ensures Weight(cap, RowOf(w1, id)) + (if id in SetOf(visits) then 1 else 0) <= Weight(cap, RowOf(w, id))
    {
      VisitsAreLocal(cap, w, visits, calls, id);
      if id in visits { VisitLowers(cap, RowOf(w, id), calls(id)); }
    }
    DistinctSize(visits);
    LoadDrops(cap, w, w1, w.leads.Keys, SetOf(visits));
    if visits == [] {
      forall id | id in w.leads ensures !Eligible(w.leads[id]) {
        var org := w.leads[id].org;
        assert Share(w, visits, org) == {};
        assert Eligible(w.leads[id]) ==> id in Pending(w, org);
      }
    }
  }

  ghost predicate AnyGoodCycle(cap: nat, w: World, w1: World) {
    exists visits, calls :: GoodCycle(cap, w, w1, visits, calls)
  }

  /** Nobody waits: no held, healthy lead with a campaign that is not deleted. */
  predicate Idle(w: World) {
    forall id :: id in w.leads ==>
      w.leads[id].status != Held || w.leads[id].campaign.None? || !w.leads[id].healthy || w.leads[id].deleted
  }

  /** `worlds` is a run of good cycles. */
  ghost predicate GoodRun(cap: nat, worlds: seq<World>) {
    worlds != [] && forall i :: 0 < i < |worlds| ==> AnyGoodCycle(cap, worlds[i - 1], worlds[i])
  }

  lemma {:induction false} RunTail(cap: nat, worlds: seq<World>)
    requires GoodRun(cap, worlds) && |worlds| > 1
    ensures AnyGoodCycle(cap, worlds[0], worlds[1]) && GoodRun(cap, worlds[1..])
  {
    assert AnyGoodCycle(cap, worlds[1 - 1], worlds[1]);
    var rest := worlds[1..];
    forall i | 0 < i < |rest| ensures AnyGoodCycle(cap, rest[i - 1], rest[i]) {
      assert AnyGoodCycle(cap, worlds[(i + 1) - 1], worlds[i + 1]);
    }
  }

  lemma {:induction false} IdleStays(cap: nat, worlds: seq<World>)
    requires GoodRun(cap, worlds) && Idle(worlds[0])
    ensures Idle(worlds[|worlds| - 1])
    decreases |worlds|
  {
    if |worlds| > 1 {
      RunTail(cap, worlds);
      var visits, calls :| GoodCycle(cap, worlds[0], worlds[1], visits, calls);
      assert visits == [];
      IdleStays(cap, worlds[1..]);
    }
  }

  /** As many good cycles as the load at the start leave no lead waiting. */
  lemma {:induction false} CyclesDrain(cap: nat, worlds: seq<World>)
    requires GoodRun(cap, worlds) && |worlds| > Waiting(cap, worlds[0])
    ensures Idle(worlds[|worlds| - 1])
    decreases |worlds|
  {
    var w := worlds[0];
    if |worlds| == 1 {
      forall id | id in w.leads ensures !Eligible(w.leads[id]) { LoadSplit(cap, w, w.leads.Keys, id); }
    } else {
      RunTail(cap, worlds);
      var visits, calls :| GoodCycle(cap, w, worlds[1], visits, calls);
      CycleLowers(cap, w, worlds[1], visits, calls);
      if visits == [] { IdleStays(cap, worlds); } else { CyclesDrain(cap, worlds[1..]); }
    }
  }

  /** The bound is met: a lead whose pushes keep failing is tried `cap` times, and then blocked. */
  lemma {:induction false} CapIsReached(cap: nat, w: World, id: nat, c: Calls)
    requires id in w.leads && Eligible(w.leads[id]) && Retries(w, id) == 0
    requires Reliable(c) && c.push != Succeeds && !c.clearFails
    ensures var steps := seq(cap + 1, _ => Visited(id, c));
            && Play(cap, w, steps, id).Some?
            && Play(cap, w, steps, id).value.1.calls == cap
            && id in Play(cap, w, steps, id).value.0.leads
            && Play(cap, w, steps, id).value.0.leads[id].status == Blocked
  {
    FailingVisits(cap, w, id, c, cap);
    var steps := seq(cap + 1, _ => Visited(id, c));
    assert steps[..cap] == seq(cap, _ => Visited(id, c));
  }

  lemma {:induction false} FailingVisits(cap: nat, w: World, id: nat, c: Calls, n: nat)
    requires id in w.leads && Eligible(w.leads[id]) && Retries(w, id) == 0 && n <= cap
    requires Reliable(c) && c.push != Succeeds
    ensures var steps := seq(n, _ => Visited(id, c));
            && Play(cap, w, steps, id).Some?
            && var (w1, t) := Play(cap, w, steps, id).value;
               id in w1.leads && Eligible(w1.leads[id]) && Retries(w1, id) == n && t.calls == n
  {
    if n > 0 {
      FailingVisits(cap, w, id, c, n - 1);
      var steps := seq(n, _ => Visited(id, c));
      assert steps[..n - 1] == seq(n - 1, _ => Visited(id, c));
    }
  }
}
