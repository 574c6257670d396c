/** How often an email leaves: the account of every copy, and when a step is delivered at most once. */
module DispatchSends {
  import opened Dispatch

  function Present(s: State, k: Key): nat { if k in s.events then 1 else 0 }

  /**
   * Every copy of k that left is in one place: its transaction failed, a restart or a purge deleted its record, or it
   * is the record that stands. A restart of the lead deletes at most one record of k.
   */
  predicate Accounted(s: State, k: Key) {
    && s.ledger.sent[k] == s.ledger.unrecorded[k] + s.ledger.erased[k] + s.ledger.purged[k] + Present(s, k)
    && s.ledger.erased[k] <= s.ledger.restarts[k.lead]
  }

  lemma {:induction false} StepAccounts(s: State, op: Op, k: Key)
    requires Accounted(s, k)
    ensures Accounted(Apply(s, op), k)
  {
    hide SeedAll, LoseAll, ResolveAll, Affected, Advance, DueStep, PickStep, FinishStep, Claim, Interrupted;
    match op {
      case Resolve(lost, action, now) =>
        var ids := AffectedIds(s.leads, lost);
        var gone := EventsOf(s.events, ids);
        assert Each(ids)[k.lead] == if k.lead in ids then 1 else 0;
        assert multiset(gone)[k] == if k in gone then 1 else 0;
      case Purge(keys) =>
        assert multiset(keys * s.events)[k] == if k in keys * s.events then 1 else 0;
      case Send(_, _, _) =>
      case _ => KeepsRecords(s, op);
    }
  }

  lemma {:induction false} KeepsRecords(s: State, op: Op)
    requires !op.Send? && !op.Resolve? && !op.Purge?
    ensures Apply(s, op).events == s.events && Apply(s, op).ledger == s.ledger
  {
    hide SeedAll, LoseAll, Judge, Binding, Advance, Interrupted, Claim, AllQueued, AnyActive;
  }

  lemma {:induction false} RunAccounts(s: State, ops: seq<Op>, k: Key)
    requires Accounted(s, k)
    ensures Accounted(Run(s, ops), k)
    decreases |ops|
  {
    if ops != [] {
      StepAccounts(s, ops[0], k);
      RunAccounts(Apply(s, ops[0]), ops[1..], k);
    }
  }

  /**
   * In every interleaving, step k of a lead leaves at most once for the row that stands, once more for each restart
   * of that lead, once for each purge of the row, and once for each send whose transaction failed.
   */
  lemma {:induction false} SendsAreBounded(s: State, ops: seq<Op>, k: Key)
    requires Fresh(s)
    ensures var e := Run(s, ops);
            e.ledger.sent[k] <=
            1 + e.ledger.restarts[k.lead] + e.ledger.purged[k] + e.ledger.unrecorded[k]
  {
    RunAccounts(s, ops, k);
  }

  // ---- at most once ------------------------------------------------------------------

  /** Delivered once, and once more only after its record was deleted by a restart or a purge. */
  predicate AtMostOnce(s: State, k: Key) { s.ledger.sent[k] <= 1 + s.ledger.erased[k] + s.ledger.purged[k] }

  /** A worker lets an email go only while its step has neither a record nor a copy that failed to be recorded. */
  predicate Guarded(s: State, op: Op, k: Key) {
    op.Send? && op.job in s.flying && op.job.lead in s.leads && op.job.Id() == k && op.outcome != Failed ==>
      k !in s.events && s.ledger.unrecorded[k] == 0
  }

  lemma {:induction false} StepOnceIff(s: State, op: Op, k: Key)
    requires Accounted(s, k) && AtMostOnce(s, k)
    ensures AtMostOnce(Apply(s, op), k) <==> Guarded(s, op, k)
  {
    StepAccounts(s, op, k);
    hide SeedAll, LoseAll, ResolveAll, AffectedIds, EventsOf, Advance, DueStep, PickStep, FinishStep, Claim, Interrupted;
    if !op.Send? && !op.Resolve? && !op.Purge? { KeepsRecords(s, op); }
  }

  predicate AlwaysOnce(s: State, ops: seq<Op>, k: Key)
    decreases |ops|
  {
    AtMostOnce(s, k) && (ops == [] || AlwaysOnce(Apply(s, ops[0]), ops[1..], k))
  }

  predicate AlwaysGuarded(s: State, ops: seq<Op>, k: Key)
    decreases |ops|
  {
    ops == [] || (Guarded(s, ops[0], k) && AlwaysGuarded(Apply(s, ops[0]), ops[1..], k))
  }

  /** Over every run: a step is delivered at most once throughout exactly when every send of it was guarded. */
  lemma {:induction false} RunOnceIff(s: State, ops: seq<Op>, k: Key)
    requires Accounted(s, k) && AtMostOnce(s, k)
    ensures AlwaysOnce(s, ops, k) <==> AlwaysGuarded(s, ops, k)
    decreases |ops|
  {
    if ops != [] {
      StepAccounts(s, ops[0], k);
      StepOnceIff(s, ops[0], k);
      if AtMostOnce(Apply(s, ops[0]), k) { RunOnceIff(Apply(s, ops[0]), ops[1..], k); }
    }
  }

  // ---- what makes every send guarded ---------------------------------------------------

  /** A worker that checks an email while no other worker holds the same one, and whose commits reach the database. */
  predicate SerialStep(s: State, op: Op) {
    && (op.Check? ==> forall j :: j in s.flying ==> j.Id() != op.job.Id())
    && (op.Send? ==> op.outcome != CommitFails)
  }

  predicate Serial(s: State, ops: seq<Op>)
    decreases |ops|
  {
    ops == [] || (SerialStep(s, ops[0]) && Serial(Apply(s, ops[0]), ops[1..]))
  }

  /** Emails in flight are distinct and not yet recorded, and no transaction has failed. */
  predicate Orderly(s: State) {
    && s.ledger.unrecorded == multiset{}
    && (forall j :: j in s.flying ==> s.flying[j] == 1 && j.Id() !in s.events)
    && (forall i, j :: i in s.flying && j in s.flying && i.Id() == j.Id() ==> i == j)
  }

  lemma {:induction false} OrderlyWithLess(s: State, t: State)
    requires Orderly(s) && t.flying <= s.flying && t.ledger.unrecorded == s.ledger.unrecorded
    requires t.events <= s.events
    ensures Orderly(t)
  {
    forall j | j in t.flying ensures t.flying[j] == 1 && j.Id() !in t.events {
      assert t.flying[j] <= s.flying[j];
    }
  }

  lemma {:induction false} OrderlyCheck(s: State, job: Job, gate: Gate, again: nat)
    requires Orderly(s) && forall j :: j in s.flying ==> j.Id() != job.Id()
    ensures Orderly(CheckStep(s, job, gate, again))
  {
    hide Advance;
  }

  lemma {:induction false} OrderlySend(s: State, job: Job, outcome: Outcome, again: nat)
    requires Orderly(s) && outcome != CommitFails
    ensures Orderly(SendStep(s, job, outcome, again))
  {
    hide Advance;
    if job in s.flying {
      assert job !in s.flying - multiset{job};
      assert job.Id() !in s.events;
    }
  }

  lemma {:induction false} SerialStepOrderly(s: State, op: Op)
    requires Orderly(s) && SerialStep(s, op)
    ensures Orderly(Apply(s, op))
  {
    hide SeedAll, LoseAll, ResolveAll, AffectedIds, Judge, Advance, Interrupted, Claim, AllQueued, AnyActive, Orderly;
    match op {
      case Check(job, gate, again) => OrderlyCheck(s, job, gate, again);
      case Send(job, outcome, again) => OrderlySend(s, job, outcome, again);
      case _ => OrderlyWithLess(s, Apply(s, op));
    }
  }

  lemma {:induction false} OrderlyIsGuarded(s: State, op: Op, k: Key)
    requires Orderly(s)
    ensures Guarded(s, op, k)
  {
  }

  /** Serial workers with reliable commits guard every send, so from a new campaign every step is sent at most once. */
  lemma {:induction false} SerialSends(s: State, ops: seq<Op>, k: Key)
    requires Fresh(s) && Serial(s, ops)
    ensures AlwaysOnce(s, ops, k)
    ensures var e := Run(s, ops); e.ledger.sent[k] <= 1 + e.ledger.restarts[k.lead] + e.ledger.purged[k]
  {
    SerialIsGuarded(s, ops, k);
    RunOnceIff(s, ops, k);
    OnceAtTheEnd(s, ops, k);
    RunAccounts(s, ops, k);
  }

  lemma {:induction false} SerialIsGuarded(s: State, ops: seq<Op>, k: Key)
    requires Orderly(s) && Serial(s, ops)
    ensures AlwaysGuarded(s, ops, k)
    decreases |ops|
  {
    hide Apply, Orderly, SerialStep, Guarded;
    if ops != [] {
      OrderlyIsGuarded(s, ops[0], k);
      SerialStepOrderly(s, ops[0]);
      SerialIsGuarded(Apply(s, ops[0]), ops[1..], k);
    }
  }

  lemma {:induction false} OnceAtTheEnd(s: State, ops: seq<Op>, k: Key)
    requires AlwaysOnce(s, ops, k)
    ensures AtMostOnce(Run(s, ops), k)
    decreases |ops|
  {
    hide Apply, AtMostOnce;
    if ops != [] { OnceAtTheEnd(Apply(s, ops[0]), ops[1..], k); }
  }

  /**
   * The unique key alone does not make delivery at-most-once, because it is consulted after the email has left:
   * whenever an undelivered email is queued, two workers that both check it before either commits send it twice.
   */
  lemma {:induction false} OverlapSendsTwice(s: State, job: Job, again: nat)
    requires job in s.jobs && job.lead in s.leads && job.Id() !in s.events && job !in s.flying
    ensures var ops := [Check(job, Allow, again), Check(job, Allow, again),
                        Send(job, Recorded, again), Send(job, Recorded, again)];
            var e := Run(s, ops);
            && e.ledger.sent[job.Id()] == s.ledger.sent[job.Id()] + 2
            && e.ledger.erased == s.ledger.erased && e.ledger.purged == s.ledger.purged
            && !Serial(s, ops)
  {
    hide Advance;
    var c := Check(job, Allow, again);
    var d := Send(job, Recorded, again);
    var s1 := Apply(s, c);
    var s2 := Apply(s1, c);
    var s3 := Apply(s2, d);
    var s4 := Apply(s3, d);
    assert job in s1.flying;
    assert [c, c, d, d] == [c, c] + [d, d];
    RunAppends(s, [c, c], [d, d]);
    RunTwo(s, c, c);
    RunTwo(s2, d, d);
    assert s3.ledger.sent[job.Id()] == s.ledger.sent[job.Id()] + 1;
    assert job in s3.flying;
    assert !SerialStep(s1, c);
  }
}
