/**
 * Account deletion over the audit log: src/controllers/dataRightsController.ts, the `delete` branch of
 * src/controllers/billingController.ts and src/workers/accountDeletionWorker.ts.
 */
module DeletionLog {
  import opened Prelude

  /** Thirty days in milliseconds. */
  const GRACE: nat := 2592000000

  /** A request made by cancelling the subscription carries no token. */
  datatype Kind = Requested(token: Option<nat>) | Cancelled | SkippedCancelled | Executed

  datatype Row = Row(id: nat, org: nat, user: nat, kind: Kind, at: nat)

  /** next is the source of row ids; an audit row's organization must exist and takes its rows with it. */
  datatype State = State(rows: set<Row>, orgs: set<nat>, next: nat)

  predicate IsRequest(r: Row, org: nat, user: nat) { r.org == org && r.user == user && r.kind.Requested? }

  predicate Requests(rows: set<Row>, org: nat, user: nat) { exists r :: r in rows && IsRequest(r, org, user) }

  predicate CancelledAfter(rows: set<Row>, r: Row) {
    exists c :: c in rows && c.org == r.org && c.user == r.user && c.kind.Cancelled? && c.at > r.at
  }

  predicate Pending(rows: set<Row>, org: nat, user: nat) {
    exists r :: r in rows && IsRequest(r, org, user) && !CancelledAfter(rows, r)
  }

  predicate WasExecuted(rows: set<Row>, r: Row) {
    exists c :: c in rows && c.org == r.org && c.user == r.user && c.kind.Executed?
  }

  function Add(s: State, org: nat, user: nat, kind: Kind, now: nat): State {
    s.(rows := s.rows + {Row(s.next, org, user, kind, now)}, next := s.next + 1)
  }

  // ---- requests and cancellations --------------------------------------------------

  datatype Op =
    | Ask(org: nat, user: nat, token: nat, now: nat)
    | CancelSubscription(org: nat, user: nat, now: nat)
    | CancelDeletion(org: nat, user: nat, token: nat, now: nat)

  predicate TokenFits(rows: set<Row>, org: nat, user: nat, token: nat) {
    exists r :: r in rows && IsRequest(r, org, user) && r.kind.token == Some(token)
  }

  function Asked(s: State, org: nat, user: nat, token: Option<nat>, now: nat): State {
    if org !in s.orgs || Requests(s.rows, org, user) then s else Add(s, org, user, Requested(token), now)
  }

  function Apply(s: State, op: Op): State {
    match op
    case Ask(org, user, token, now) => Asked(s, org, user, Some(token), now)
    case CancelSubscription(org, user, now) => Asked(s, org, user, None, now)
    case CancelDeletion(org, user, token, now) =>
      if org in s.orgs && TokenFits(s.rows, org, user, token) then Add(s, org, user, Cancelled, now) else s
  }

  function Run(s: State, ops: seq<Op>): State
    decreases |ops|
  {
    if ops == [] then s else Run(Apply(s, ops[0]), ops[1..])
  }

  // ---- the sweep ---------------------------------------------------------------------

  /** Which of the worker's writes reach the database; erases: erasing the leads' personal data does not throw. */
  datatype Luck = Luck(marker: bool, rowDelete: bool, erases: bool, orgDelete: bool, insert: bool)

  function DropOrg(rows: set<Row>, org: nat): set<Row> { set r | r in rows && r.org != org }

  function SweepOne(s: State, r: Row, luck: Luck, now: nat): State {
    if now < r.at + GRACE then s
    else if CancelledAfter(s.rows, r) then
      var t := if luck.marker && r.org in s.orgs then Add(s, r.org, r.user, SkippedCancelled, now) else s;
      if luck.rowDelete then t.(rows := t.rows - {r}) else t
    else if WasExecuted(s.rows, r) then if luck.rowDelete then s.(rows := s.rows - {r}) else s
    else if r.org !in s.orgs || !luck.erases then s
    else if luck.orgDelete then s.(rows := DropOrg(s.rows, r.org), orgs := s.orgs - {r.org})
    else if luck.insert then Add(s, r.org, r.user, Executed, now)
    else s
  }

  function Sweep(s: State, requests: seq<Row>, lucks: seq<Luck>, now: nat): State
    requires |requests| == |lucks|
    decreases |requests|
  {
    if requests == [] then s
    else
      var n := |requests| - 1;
      SweepOne(Sweep(s, requests[..n], lucks[..n], now), requests[n], lucks[n], now)
  }

  // ---- what every state keeps ----------------------------------------------------------

  predicate Valid(s: State) {
    && (forall r :: r in s.rows ==> r.org in s.orgs && r.id < s.next)
    && (forall q, r :: q in s.rows && r in s.rows && q.id == r.id ==> q == r)
    && (forall q, r :: q in s.rows && r in s.rows && q.kind.Requested? && IsRequest(r, q.org, q.user) ==> q == r)
  }

  /** At most one request row per organization and user, in every run of handlers. */
  lemma {:induction false} StepKeepsOneRequest(s: State, op: Op)
    requires Valid(s)
    ensures Valid(Apply(s, op))
  {
  }

  lemma {:induction false} RunKeepsOneRequest(s: State, ops: seq<Op>)
    requires Valid(s)
    ensures Valid(Run(s, ops))
    decreases |ops|
  {
    if ops != [] {
      StepKeepsOneRequest(s, ops[0]);
      RunKeepsOneRequest(Apply(s, ops[0]), ops[1..]);
    }
  }

  lemma {:induction false} SweepOneKeeps(s: State, r: Row, luck: Luck, now: nat)
    requires Valid(s)
    ensures Valid(SweepOne(s, r, luck, now))
  {
    hide CancelledAfter, WasExecuted;
  }

  lemma {:induction false} SweepKeepsOneRequest(s: State, requests: seq<Row>, lucks: seq<Luck>, now: nat)
    requires Valid(s) && |requests| == |lucks|
    ensures Valid(Sweep(s, requests, lucks, now))
    decreases |requests|
  {
    hide Valid, SweepOne;
    if requests != [] {
      var n := |requests| - 1;
      SweepKeepsOneRequest(s, requests[..n], lucks[..n], now);
      SweepOneKeeps(Sweep(s, requests[..n], lucks[..n], now), requests[n], lucks[n], now);
    }
  }

  // ---- pending ---------------------------------------------------------------------------

  /** The request row, when there is one. */
  ghost function RequestOf(s: State, org: nat, user: nat): (r: Row)
    requires Requests(s.rows, org, user)
    ensures r in s.rows && IsRequest(r, org, user)
  {
    var r :| r in s.rows && IsRequest(r, org, user);
    r
  }

  predicate Opens(s: State, op: Op, org: nat, user: nat) {
    !op.CancelDeletion? && op.org == org && op.user == user && org in s.orgs && !Requests(s.rows, org, user)
  }

  /** A cancellation that counts: the right token, in a strictly later millisecond than the request. */
  ghost predicate Closes(s: State, op: Op, org: nat, user: nat) {
    op.CancelDeletion? && op.org == org && op.user == user && org in s.orgs && Requests(s.rows, org, user) &&
    RequestOf(s, org, user).kind.token == Some(op.token) && RequestOf(s, org, user).at < op.now
  }

  /** No row is later than now. */
  predicate UpTo(s: State, now: nat) { forall r :: r in s.rows ==> r.at <= now }

  /**
   * Pending begins with the first request or subscription cancellation and ends with the first token cancellation
   * that counts; no other step begins or ends it.
   */
  lemma {:induction false} PendingIff(s: State, op: Op, org: nat, user: nat)
    requires Valid(s) && UpTo(s, op.now)
    ensures Pending(Apply(s, op).rows, org, user) <==>
            Opens(s, op, org, user) || (Pending(s.rows, org, user) && !Closes(s, op, org, user))
  {
    var t := Apply(s, op);
    StepKeepsOneRequest(s, op);
    if Requests(s.rows, org, user) {
      var r := RequestOf(s, org, user);
      assert r in t.rows;
      assert Pending(s.rows, org, user) <==> !CancelledAfter(s.rows, r);
      assert Pending(t.rows, org, user) <==> !CancelledAfter(t.rows, r);
      if Closes(s, op, org, user) {
        assert Row(s.next, org, user, Cancelled, op.now) in t.rows;
      } else {
        assert forall c :: c in s.rows ==> c in t.rows;
        assert CancelledAfter(t.rows, r) ==> CancelledAfter(s.rows, r);
        assert CancelledAfter(s.rows, r) ==> CancelledAfter(t.rows, r);
      }
    } else if Opens(s, op, org, user) {
      var r := Row(s.next, org, user, Requested(if op.Ask? then Some(op.token) else None), op.now);
      assert r in t.rows && IsRequest(r, org, user);
      assert !CancelledAfter(t.rows, r);
    }
  }

  predicate InOrder(s: State, ops: seq<Op>) {
    && (ops != [] ==> UpTo(s, ops[0].now))
    && (forall i, j :: 0 <= i < j < |ops| ==> ops[i].now <= ops[j].now)
  }

  lemma {:induction false} InOrderNext(s: State, ops: seq<Op>)
    requires InOrder(s, ops) && ops != []
    ensures InOrder(Apply(s, ops[0]), ops[1..])
  {
  }

  predicate Asks(op: Op, org: nat, user: nat) { !op.CancelDeletion? && op.org == org && op.user == user }

  function TokenOf(op: Op): Option<nat> { if op.Ask? then Some(op.token) else None }

  /** A cancellation by that token, strictly later. */
  predicate Counts(op: Op, org: nat, user: nat, token: Option<nat>, at: nat) {
    op.CancelDeletion? && op.org == org && op.user == user && token == Some(op.token) && at < op.now
  }

  lemma {:induction false} HeadOrTail(ops: seq<Op>)
    requires ops != []
    ensures forall o :: o in ops <==> o == ops[0] || o in ops[1..]
  {
    assert ops == [ops[0]] + ops[1..];
  }

  lemma {:induction false} PendingAfter(s: State, ops: seq<Op>, org: nat, user: nat, r: Row)
    requires Valid(s) && InOrder(s, ops) && r in s.rows && IsRequest(r, org, user)
    ensures Pending(Run(s, ops).rows, org, user) <==>
            Pending(s.rows, org, user) && forall o :: o in ops ==> !Counts(o, org, user, r.kind.token, r.at)
    decreases |ops|
  {
    if ops != [] {
      PendingIff(s, ops[0], org, user);
      StepKeepsOneRequest(s, ops[0]);
      InOrderNext(s, ops);
      assert r in Apply(s, ops[0]).rows && RequestOf(s, org, user) == r;
      assert Closes(s, ops[0], org, user) <==> Counts(ops[0], org, user, r.kind.token, r.at);
      PendingAfter(Apply(s, ops[0]), ops[1..], org, user, r);
      HeadOrTail(ops);
    }
  }

  /** The first request of the run opens, and no later cancellation counts. */
  predicate OpensFor(ops: seq<Op>, i: nat, org: nat, user: nat) {
    && i < |ops| && Asks(ops[i], org, user)
    && (forall j :: 0 <= j < i ==> !Asks(ops[j], org, user))
    && (forall j :: i < j < |ops| ==> !Counts(ops[j], org, user, TokenOf(ops[i]), ops[i].now))
  }

  /**
   * Over every run of handlers, for a user who had made no request: a deletion is pending at the end exactly when the
   * run's first request was not followed by a strictly later cancellation with its own token.
   */
  lemma {:induction false} PendingHistory(s: State, ops: seq<Op>, org: nat, user: nat)
    requires Valid(s) && InOrder(s, ops) && org in s.orgs && !Requests(s.rows, org, user)
    ensures Pending(Run(s, ops).rows, org, user) <==> exists i: nat :: OpensFor(ops, i, org, user)
    decreases |ops|
  {
    if ops != [] {
      var t, rest := Apply(s, ops[0]), ops[1..];
      StepKeepsOneRequest(s, ops[0]);
      InOrderNext(s, ops);
      if Asks(ops[0], org, user) {
        FirstRequest(s, ops, org, user);
      } else {
        assert !Requests(t.rows, org, user);
        PendingHistory(t, rest, org, user);
        if i: nat :| OpensFor(rest, i, org, user) {
          assert ops[i + 1] == rest[i];
          assert forall j :: 0 < j <= i ==> ops[j] == rest[j - 1];
          assert forall j :: i + 1 < j < |ops| ==> ops[j] == rest[j - 1];
          assert OpensFor(ops, i + 1, org, user);
        }
        if i: nat :| OpensFor(ops, i, org, user) {
          assert forall j :: 0 <= j < |rest| ==> rest[j] == ops[j + 1];
          assert OpensFor(rest, i - 1, org, user);
        }
      }
    }
  }

  lemma {:induction false} FirstRequest(s: State, ops: seq<Op>, org: nat, user: nat)
    requires Valid(s) && InOrder(s, ops) && org in s.orgs && !Requests(s.rows, org, user)
    requires ops != [] && Asks(ops[0], org, user)
    ensures Pending(Run(s, ops).rows, org, user) <==> exists i: nat :: OpensFor(ops, i, org, user)
  {
    var t := Apply(s, ops[0]);
    var r := Row(s.next, org, user, Requested(TokenOf(ops[0])), ops[0].now);
    StepKeepsOneRequest(s, ops[0]);
    InOrderNext(s, ops);
    PendingIff(s, ops[0], org, user);
    assert r in t.rows;
    PendingAfter(t, ops[1..], org, user, r);
    assert forall j :: 0 < j < |ops| ==> ops[j] in ops[1..];
    assert forall o :: o in ops[1..] ==> exists j :: 0 < j < |ops| && ops[j] == o;
    assert forall i: nat :: OpensFor(ops, i, org, user) ==> i == 0;
    if Pending(Run(s, ops).rows, org, user) { assert OpensFor(ops, 0, org, user); }
  }

  /** After a cancellation that counts, nothing the user does makes a deletion pending again: requests are still
   *  answered as already made, until the worker removes the old row. */
  lemma {:induction false} NeverPendingAgain(s: State, ops: seq<Op>, org: nat, user: nat)
    requires Valid(s) && InOrder(s, ops)
    requires Requests(s.rows, org, user) && !Pending(s.rows, org, user)
    ensures var e := Run(s, ops); Requests(e.rows, org, user) && !Pending(e.rows, org, user)
    decreases |ops|
  {
    if ops != [] {
      PendingIff(s, ops[0], org, user);
      StepKeepsOneRequest(s, ops[0]);
      InOrderNext(s, ops);
      var r := RequestOf(s, org, user);
      assert r in Apply(s, ops[0]).rows;
      NeverPendingAgain(Apply(s, ops[0]), ops[1..], org, user);
    }
  }

  /** A cancellation is accepted on its token alone, but takes effect exactly when it is not in the request's own
   *  millisecond: otherwise it answers success and the deletion stays pending. */
  lemma {:induction false} AcceptedCancelWorksIff(s: State, org: nat, user: nat, token: nat, now: nat)
    requires Valid(s) && UpTo(s, now) && TokenFits(s.rows, org, user, token) && Pending(s.rows, org, user)
    ensures var t := Apply(s, CancelDeletion(org, user, token, now));
            Pending(t.rows, org, user) <==> RequestOf(s, org, user).at == now
  {
    PendingIff(s, CancelDeletion(org, user, token, now), org, user);
  }

  /** A deletion requested by cancelling the subscription has no token, so no run of handlers can cancel it. */
  lemma {:induction false} SubscriptionRequestIsFinal(s: State, ops: seq<Op>, org: nat, user: nat)
    requires Valid(s) && InOrder(s, ops) && Pending(s.rows, org, user)
    requires RequestOf(s, org, user).kind.token.None?
    ensures Pending(Run(s, ops).rows, org, user)
    decreases |ops|
  {
    if ops != [] {
      var t := Apply(s, ops[0]);
      PendingIff(s, ops[0], org, user);
      StepKeepsOneRequest(s, ops[0]);
      InOrderNext(s, ops);
      assert RequestOf(s, org, user) in t.rows;
      assert RequestOf(t, org, user) == RequestOf(s, org, user);
      SubscriptionRequestIsFinal(t, ops[1..], org, user);
    }
  }

  // ---- what the worker erases -----------------------------------------------------------

  predicate Overdue(s: State, r: Row, now: nat) {
    r in s.rows && r.kind.Requested? && r.at + 2592000000 <= now && !CancelledAfter(s.rows, r) && !WasExecuted(s.rows, r)
  }

  /**
   * The worker writes `deletion_executed` exactly when erasing returned, the organization was nevertheless not deleted
   * and the insert went through: a deleted organization cascades to its audit rows and refuses new ones.
   */
  lemma {:induction false} ExecutedIff(s: State, r: Row, luck: Luck, now: nat)
    requires Valid(s) && Overdue(s, r, now)
    ensures var t := SweepOne(s, r, luck, now);
            && (WasExecuted(t.rows, r) <==> luck.erases && r.org in t.orgs && luck.insert)
            && (r.org in t.orgs <==> !(luck.erases && luck.orgDelete))
            && (r.org !in t.orgs ==> forall q :: q in t.rows ==> q.org != r.org)
  {
    var row := Row(s.next, r.org, r.user, Executed, now);
    if luck.erases && !luck.orgDelete && luck.insert { assert row in Add(s, r.org, r.user, Executed, now).rows; }
  }

  /** A request of a cycle touches its own organization only, and there, while it stays, its own row and one new one. */
  lemma {:induction false} SweepTouches(s: State, r: Row, luck: Luck, now: nat, q: Row)
    ensures var t := SweepOne(s, r, luck, now);
            && t.orgs == (if r.org in t.orgs then s.orgs else s.orgs - {r.org})
            && (q in t.rows && q !in s.rows ==>
                  q.id == s.next && q.org == r.org && q.user == r.user && q.at == now &&
                  (q.kind == SkippedCancelled || q.kind == Executed))
            && (q in s.rows && q !in t.rows ==> q == r || (q.org == r.org && r.org !in t.orgs))
  {
    hide CancelledAfter, WasExecuted;
    assert r.org !in s.orgs ==> s.orgs - {r.org} == s.orgs;
  }

  /** The worker counts a request it tries to carry out as executed when its row is written, and as an error otherwise. */
  predicate Recorded(s: State, r: Row, luck: Luck, now: nat) {
    Tried(s, r, now) && r.org in s.orgs && luck.erases && !luck.orgDelete && luck.insert
  }

  predicate Tried(s: State, r: Row, now: nat) {
    r.at + 2592000000 <= now && !CancelledAfter(s.rows, r) && !WasExecuted(s.rows, r)
  }

  lemma {:induction false} RecordedIsTried(s: State, r: Row, luck: Luck, now: nat)
    ensures Recorded(s, r, luck, now) ==> Tried(s, r, now)
  {
  }

  /** How many requests of a cycle are tried, and how many of those recorded, each in the state it then meets. */
  function Tries(s: State, requests: seq<Row>, lucks: seq<Luck>, now: nat, recorded: bool): nat
    requires |requests| == |lucks|
    decreases |requests|
  {
    if requests == [] then 0
    else
      var n := |requests| - 1;
      var t := Sweep(s, requests[..n], lucks[..n], now);
      Tries(s, requests[..n], lucks[..n], now, recorded) +
      if Tried(t, requests[n], now) && (recorded ==> Recorded(t, requests[n], lucks[n], now)) then 1 else 0
  }

  lemma {:induction false} NoneHandled(s: State, now: nat)
    ensures Sweep(s, [], [], now) == s && forall b :: Tries(s, [], [], now, b) == 0
  {
  }

  lemma {:induction false} NextHandled(s: State, requests: seq<Row>, lucks: seq<Luck>, now: nat, i: nat)
    requires i < |requests| == |lucks|
    ensures var t := Sweep(s, requests[..i], lucks[..i], now);
            && Sweep(s, requests[..i + 1], lucks[..i + 1], now) == SweepOne(t, requests[i], lucks[i], now)
            && Tries(s, requests[..i + 1], lucks[..i + 1], now, true) ==
               Tries(s, requests[..i], lucks[..i], now, true) + (if Recorded(t, requests[i], lucks[i], now) then 1 else 0)
            && Tries(s, requests[..i + 1], lucks[..i + 1], now, false) ==
               Tries(s, requests[..i], lucks[..i], now, false) + (if Tried(t, requests[i], now) then 1 else 0)
  {
    hide SweepOne, Tried, Recorded;
    RecordedIsTried(Sweep(s, requests[..i], lucks[..i], now), requests[i], lucks[i], now);
    assert requests[..i + 1][..i] == requests[..i] && lucks[..i + 1][..i] == lucks[..i];
  }

  /** The rows the worker reads at the start of a cycle. */
  predicate Snapshot(s: State, requests: seq<Row>) {
    && (forall r :: r in requests ==> r in s.rows && r.kind.Requested?)
    && (forall r :: r in s.rows && r.kind.Requested? ==> r in requests)
    && (forall i, j :: 0 <= i < j < |requests| ==> requests[i] != requests[j])
  }

  /** What a sweep leaves of an organization that it did not delete: its cancellations, and no others. */
  predicate SweptFrom(s: State, t: State) {
    && t.orgs <= s.orgs
    && (forall c :: c in t.rows && (c.kind.Cancelled? || c.kind.Requested?) ==> c in s.rows)
    && (forall c :: c in s.rows && c.org in t.orgs && c.kind.Cancelled? ==> c in t.rows)
    && (forall c :: c in s.rows && c.org in t.orgs && c.kind.Executed? ==> c in t.rows)
  }

  lemma {:induction false} SweepSweeps(s: State, requests: seq<Row>, lucks: seq<Luck>, now: nat)
    requires Valid(s) && |requests| == |lucks|
    requires forall r :: r in requests ==> r in s.rows && r.kind.Requested?
    ensures SweptFrom(s, Sweep(s, requests, lucks, now))
    decreases |requests|
  {
    if requests != [] {
      var n := |requests| - 1;
      assert forall r :: r in requests[..n] ==> r in requests;
      SweepSweeps(s, requests[..n], lucks[..n], now);
      assert requests[n] in requests;
      SweepOneSweeps(s, Sweep(s, requests[..n], lucks[..n], now), requests[n], lucks[n], now);
    }
  }

  lemma {:induction false} SweepOneSweeps(s: State, m: State, r: Row, luck: Luck, now: nat)
    requires Valid(s) && SweptFrom(s, m) && r in s.rows && r.kind.Requested?
    ensures SweptFrom(s, SweepOne(m, r, luck, now))
  {
    hide CancelledAfter, WasExecuted;
  }

  /** An organization disappears in a sweep only if one of its users' requests is thirty days old and has no
   *  strictly later cancellation. */
  lemma {:induction false} ErasedOnlyIfOverdue(s: State, requests: seq<Row>, lucks: seq<Luck>, now: nat, org: nat)
    requires Valid(s) && |requests| == |lucks|
    requires forall r :: r in requests ==> r in s.rows && r.kind.Requested?
    requires org in s.orgs && org !in Sweep(s, requests, lucks, now).orgs
    ensures exists r: Row :: r.org == org && Overdue(s, r, now)
    decreases |requests|
  {
    if requests != [] {
      var n := |requests| - 1;
      assert forall r :: r in requests[..n] ==> r in requests;
      var m := Sweep(s, requests[..n], lucks[..n], now);
      SweepSweeps(s, requests[..n], lucks[..n], now);
      if org in m.orgs {
        var r := requests[n];
        assert r in requests && r.org == org;
        StillOverdue(s, m, r);
        assert Overdue(s, r, now);
      } else {
        ErasedOnlyIfOverdue(s, requests[..n], lucks[..n], now, org);
      }
    }
  }

  lemma {:induction false} StillOverdue(s: State, m: State, r: Row)
    requires SweptFrom(s, m) && r in s.rows && r.org in m.orgs
    ensures CancelledAfter(m.rows, r) <==> CancelledAfter(s.rows, r)
    ensures WasExecuted(s.rows, r) ==> WasExecuted(m.rows, r)
  {
  }

  /** After a deletion that failed once, the stale `deletion_executed` row shields the organization from that user's
   *  requests for good: no cycle over them deletes it. */
  lemma {:induction false} FailedErasureIsNotRetried(s: State, requests: seq<Row>, lucks: seq<Luck>, now: nat,
                                                     done: Row)
    requires Valid(s) && |requests| == |lucks|
    requires forall r :: r in requests ==> r in s.rows && r.kind.Requested?
    requires done in s.rows && done.kind.Executed?
    requires forall r :: r in s.rows && r.org == done.org && r.kind.Requested? ==> r.user == done.user
    ensures done.org in Sweep(s, requests, lucks, now).orgs && done in Sweep(s, requests, lucks, now).rows
  {
    forall r: Row | r in s.rows && r.org == done.org && r.kind.Requested? ensures WasExecuted(s.rows, r) {
      assert r.user == done.user;
    }
    if done.org !in Sweep(s, requests, lucks, now).orgs {
      ErasedOnlyIfOverdue(s, requests, lucks, now, done.org);
    }
    SweepSweeps(s, requests, lucks, now);
  }

  predicate AllLucky(lucks: seq<Luck>) { forall l :: l in lucks ==> l == Luck(true, true, true, true, true) }

  /** When its writes succeed, a cycle leaves nothing overdue: those organizations are gone, and of the elapsed
   *  requests of the others none is left, so that a cancelled request can be made again. */
  lemma {:induction false} SweepLeavesNoneElapsed(s: State, requests: seq<Row>, lucks: seq<Luck>, now: nat, r: Row)
    requires Valid(s) && |requests| == |lucks| && AllLucky(lucks)
    requires forall q :: q in requests ==> q in s.rows && q.kind.Requested?
    requires r in requests && r.at + 2592000000 <= now
    ensures var t := Sweep(s, requests, lucks, now);
            (Overdue(s, r, now) ==> r.org !in t.orgs) && (r.org in t.orgs ==> !Requests(t.rows, r.org, r.user))
    decreases |requests|
  {
    var n := |requests| - 1;
    var m := Sweep(s, requests[..n], lucks[..n], now);
    var t := Sweep(s, requests, lucks, now);
    assert forall q :: q in requests[..n] ==> q in requests;
    assert forall l :: l in lucks[..n] ==> l in lucks;
    SweepSweeps(s, requests[..n], lucks[..n], now);
    SweepSweeps(s, requests, lucks, now);
    assert requests[n] in requests && lucks[n] in lucks;
    if r in requests[..n] {
      SweepLeavesNoneElapsed(s, requests[..n], lucks[..n], now, r);
      assert t.orgs <= m.orgs;
      assert forall q :: q in t.rows && q.kind.Requested? ==> q in m.rows;
    } else {
      assert r == requests[n];
      SweepKeepsOneRequest(s, requests[..n], lucks[..n], now);
      LuckyRecordsNone(s, requests[..n], lucks[..n], now);
      assert WasExecuted(m.rows, r) ==> WasExecuted(s.rows, r);
      if r.org in m.orgs {
        StillOverdue(s, m, r);
        OneElapsed(s, m, r, now);
      }
    }
  }

  lemma {:induction false} LuckyRecordsNone(s: State, requests: seq<Row>, lucks: seq<Luck>, now: nat)
    requires |requests| == |lucks| && AllLucky(lucks)
    ensures forall c :: c in Sweep(s, requests, lucks, now).rows && c.kind.Executed? ==> c in s.rows
    decreases |requests|
  {
    if requests != [] {
      var n := |requests| - 1;
      assert lucks[n] in lucks && forall l :: l in lucks[..n] ==> l in lucks;
      LuckyRecordsNone(s, requests[..n], lucks[..n], now);
    }
  }

  lemma {:induction false} OneElapsed(s: State, m: State, r: Row, now: nat)
    requires Valid(s) && Valid(m) && SweptFrom(s, m) && r in s.rows && r.kind.Requested? && r.org in m.orgs
    requires r.at + GRACE <= now && (CancelledAfter(m.rows, r) <==> CancelledAfter(s.rows, r))
    ensures var t := SweepOne(m, r, Luck(true, true, true, true, true), now);
            (r.org in t.orgs ==> !Requests(t.rows, r.org, r.user)) &&
            (!CancelledAfter(s.rows, r) && !WasExecuted(m.rows, r) ==> r.org !in t.orgs)
  {
    var t := SweepOne(m, r, Luck(true, true, true, true, true), now);
    SweepOneSweeps(s, m, r, Luck(true, true, true, true, true), now);
    assert forall q :: q in t.rows && IsRequest(q, r.org, r.user) ==> q == r;
    assert r.org in t.orgs ==> r !in t.rows;
  }

  /** The audit table and the handlers that use it. */
  class AuditLog {
    var rows: set<Row>
    var orgs: set<nat>
    var next: nat

    ghost function View(): State
      reads this
    {
      State(rows, orgs, next)
    }

    method LatestRequest(org: nat, user: nat) returns (r: Option<Row>)
      ensures r.Some? <==> Requests(rows, org, user)
      ensures r.Some? ==> r.value in rows && IsRequest(r.value, org, user)
      ensures r.Some? ==> forall q :: q in rows && IsRequest(q, org, user) ==> q.at <= r.value.at
    {
      r := None;
      var rest := rows;
      while rest != {}
        invariant rest <= rows
        invariant r.Some? ==> r.value in rows && IsRequest(r.value, org, user)
        invariant forall q :: q in rows - rest && IsRequest(q, org, user) ==> r.Some? && q.at <= r.value.at
        decreases |rest|
      {
        var q :| q in rest;
        rest := rest - {q};
        if IsRequest(q, org, user) && (r.None? || r.value.at < q.at) { r := Some(q); }
      }
    }

    /** already: a request row is found, whether or not it has been cancelled since. */
    method RequestAccountDeletion(org: nat, user: nat, token: nat, now: nat) returns (already: bool)
      requires Valid(View()) && UpTo(View(), now) && org in orgs
      modifies this`rows, this`next
      ensures View() == Apply(old(View()), Ask(org, user, token, now)) && Valid(View())
      ensures already <==> Requests(old(rows), org, user)
      ensures !already ==> Pending(rows, org, user)
      ensures already ==> (Pending(rows, org, user) <==> old(Pending(rows, org, user)))
    {
      PendingIff(View(), Ask(org, user, token, now), org, user);
      StepKeepsOneRequest(View(), Ask(org, user, token, now));
      var existing := LatestRequest(org, user);
      if existing.Some? { return true; }
      rows := rows + {Row(next, org, user, Requested(Some(token)), now)};
      next := next + 1;
      already := false;
    }

    method CancelSubscriptionAndDelete(org: nat, user: nat, now: nat)
      requires Valid(View()) && UpTo(View(), now) && org in orgs
      modifies this`rows, this`next
      ensures View() == Apply(old(View()), CancelSubscription(org, user, now)) && Valid(View())
      ensures !old(Requests(rows, org, user)) ==>
                Pending(rows, org, user) && RequestOf(View(), org, user).kind == Requested(None)
    {
      PendingIff(View(), CancelSubscription(org, user, now), org, user);
      StepKeepsOneRequest(View(), CancelSubscription(org, user, now));
      var existing := LatestRequest(org, user);
      if existing.None? {
        rows := rows + {Row(next, org, user, Requested(None), now)};
        next := next + 1;
      }
    }

    method GetDeletionStatus(org: nat, user: nat) returns (pending: bool, executesAfter: nat)
      requires Valid(View())
      ensures pending <==> Pending(rows, org, user)
      ensures pending ==> exists r :: r in rows && IsRequest(r, org, user) && executesAfter == r.at + 2592000000
    {
      var existing := LatestRequest(org, user);
      if existing.None? { return false, 0; }
      var r := existing.value;
      var rest := rows;
      while rest != {}
        invariant rest <= rows
        invariant forall c :: c in rows - rest ==>
                    !(c.org == r.org && c.user == r.user && c.kind.Cancelled? && c.at > r.at)
        decreases |rest|
      {
        var c :| c in rest;
        rest := rest - {c};
        if c.org == r.org && c.user == r.user && c.kind.Cancelled? && c.at > r.at { return false, 0; }
      }
      return true, r.at + GRACE;
    }

    /** 200, 403 or 404 */
    method CancelAccountDeletion(org: nat, user: nat, token: nat, now: nat) returns (code: nat)
      requires Valid(View()) && UpTo(View(), now) && org in orgs
      modifies this`rows, this`next
      ensures View() == Apply(old(View()), CancelDeletion(org, user, token, now)) && Valid(View())
      ensures code == if !old(Requests(rows, org, user)) then 404
                      else if old(TokenFits(rows, org, user, token)) then 200 else 403
      ensures code == 200 ==> (Pending(rows, org, user) <==>
                               old(Pending(rows, org, user)) && old(RequestOf(View(), org, user)).at == now)
    {
      PendingIff(View(), CancelDeletion(org, user, token, now), org, user);
      StepKeepsOneRequest(View(), CancelDeletion(org, user, token, now));
      var existing := LatestRequest(org, user);
      if existing.None? { return 404; }
      if existing.value.kind.token != Some(token) { return 403; }
      rows := rows + {Row(next, org, user, Cancelled, now)};
      next := next + 1;
      code := 200;
    }

    /** One request of a cycle. */
    method Handle(r: Row, luck: Luck, now: nat) returns (executed: nat, errors: nat)
      modifies this
      ensures View() == SweepOne(old(View()), r, luck, now)
      ensures |old(orgs)| <= |orgs| + errors
      ensures executed == if Recorded(old(View()), r, luck, now) then 1 else 0
      ensures executed + errors == if Tried(old(View()), r, now) then 1 else 0
    {
      executed, errors := 0, 0;
      if now < r.at + GRACE { return; }
      if CancelledAfter(rows, r) {
        if luck.marker && r.org in orgs {
          rows := rows + {Row(next, r.org, r.user, SkippedCancelled, now)};
          next := next + 1;
        }
        if luck.rowDelete { rows := rows - {r}; }
        return;
      }
      if WasExecuted(rows, r) {
        if luck.rowDelete { rows := rows - {r}; }
        return;
      }
      if !luck.erases { return 0, 1; }
      if luck.orgDelete && r.org in orgs {
        rows := DropOrg(rows, r.org);
        orgs := orgs - {r.org};
      }
      if r.org in orgs && luck.insert {
        rows := rows + {Row(next, r.org, r.user, Executed, now)};
        next := next + 1;
        executed := 1;
      } else {
        errors := 1;
      }
    }

    /** One cycle of the worker over the requests it read; every organization it deletes is counted as an error. */
    method RunOnce(requests: seq<Row>, lucks: seq<Luck>, now: nat) returns (executed: nat, errors: nat)
      requires Valid(View()) && Snapshot(View(), requests) && |lucks| == |requests|
      modifies this
      ensures View() == Sweep(old(View()), requests, lucks, now) && Valid(View())
      ensures |old(orgs)| <= |orgs| + errors
      ensures executed == Tries(old(View()), requests, lucks, now, true)
      ensures executed + errors == Tries(old(View()), requests, lucks, now, false)
    {
      hide SweepOne, Sweep, Tries, Tried, Recorded, Valid, Snapshot;
      SweepKeepsOneRequest(View(), requests, lucks, now);
      NoneHandled(View(), now);
      executed, errors := 0, 0;
      var i := 0;
      while i < |requests|
        invariant i <= |requests|
        invariant View() == Sweep(old(View()), requests[..i], lucks[..i], now)
        invariant |old(orgs)| <= |orgs| + errors
        invariant executed == Tries(old(View()), requests[..i], lucks[..i], now, true)
        invariant executed + errors == Tries(old(View()), requests[..i], lucks[..i], now, false)
      {
        NextHandled(old(View()), requests, lucks, now, i);
        var e, f := Handle(requests[i], lucks[i], now);
        executed, errors := executed + e, errors + f;
        i := i + 1;
      }
      assert requests[..i] == requests && lucks[..i] == lucks;
    }
  }
}
