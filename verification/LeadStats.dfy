/** scripts/backfill_lead_stats_from_sequencer.ts: reconciling lead rows with the sequencer's event tables. */
module LeadStats {
  import opened Prelude

  datatype LeadStatus = Held | Active | Paused | Blocked | Completed | Unlisted(name: string)
  datatype RowStatus = RowActive | RowPaused | RowOver

  /** A CampaignLead row; times in milliseconds. */
  datatype Row = Row(campaign: nat, opens: nat, clicks: nat, status: RowStatus, lastSent: Option<int>,
                     replied: Option<int>, bounced: Option<int>, unsubscribed: Option<int>, created: int)

  /** What the event tables hold for one email, rows in the order the query returned them. */
  datatype Evidence = Evidence(sends: seq<int>, replies: seq<int>, bounces: nat, rows: seq<Row>)

  datatype Stats = Stats(sent: nat, opens: nat, clicks: nat, replies: nat, bounced: bool, campaign: Option<nat>,
                         lastActivity: Option<int>)

  datatype Lead = Lead(stats: Stats, status: LeadStatus)

  datatype Field = Sent | Opened | Clicked | RepliedCount | Bounced | Assigned | LastActivity | Status

  datatype Change = Change(before: Lead, after: Stats, activates: bool, diff: seq<Field>)

  // ---- the pieces ------------------------------------------------------------------

  function SumOpens(rows: seq<Row>): nat { if rows == [] then 0 else rows[0].opens + SumOpens(rows[1..]) }

  function SumClicks(rows: seq<Row>): nat { if rows == [] then 0 else rows[0].clicks + SumClicks(rows[1..]) }

  /** The sort key: last sent, or created when nothing was sent. */
  function Time(r: Row): int { if r.lastSent.Some? then r.lastSent.value else r.created }

  /** Stable insertion, latest first. */
  function Insert(r: Row, rows: seq<Row>): seq<Row> {
    if rows == [] || Time(r) >= Time(rows[0]) then [r] + rows else [rows[0]] + Insert(r, rows[1..])
  }

  function SortLatestFirst(rows: seq<Row>): (s: seq<Row>)
    ensures rows != [] ==> s != []
  {
    if rows == [] then [] else Insert(rows[0], SortLatestFirst(rows[1..]))
  }

  /** filter(Date) then reduce to the larger, the first kept on a tie. */
  function Latest(dates: seq<Option<int>>): Option<int> {
    if dates == [] then None
    else
      var n := |dates| - 1;
      var m := Latest(dates[..n]);
      if dates[n].None? then m else if m.None? || dates[n].value > m.value then dates[n] else m
  }

  function Dates(times: seq<int>): seq<Option<int>> { seq(|times|, i requires 0 <= i < |times| => Some(times[i])) }

  function RowDates(rows: seq<Row>, pick: Row -> Option<int>): seq<Option<int>> {
    seq(|rows|, i requires 0 <= i < |rows| => pick(rows[i]))
  }

  function Candidates(last: Option<int>, ev: Evidence): seq<Option<int>> {
    [last, Latest(Dates(ev.sends)), Latest(Dates(ev.replies))]
    + RowDates(ev.rows, (r: Row) => r.lastSent) + RowDates(ev.rows, (r: Row) => r.replied)
    + RowDates(ev.rows, (r: Row) => r.bounced) + RowDates(ev.rows, (r: Row) => r.unsubscribed)
  }

  predicate AnyBounced(ev: Evidence) { ev.bounces > 0 || exists r :: r in ev.rows && r.bounced.Some? }

  predicate AnyRunning(ev: Evidence) { exists r :: r in ev.rows && (r.status == RowActive || r.status == RowPaused) }

  function After(s: Stats, ev: Evidence): Stats {
    Stats(|ev.sends|, SumOpens(ev.rows), SumClicks(ev.rows), |ev.replies|, AnyBounced(ev),
          if ev.rows == [] then s.campaign else Some(SortLatestFirst(ev.rows)[0].campaign),
          Latest(Candidates(s.lastActivity, ev)))
  }

  function Mark(differs: bool, f: Field): seq<Field> { if differs then [f] else [] }

  function Diff(b: Stats, a: Stats, activates: bool): seq<Field> {
    Mark(b.sent != a.sent, Sent) + Mark(b.opens != a.opens, Opened) + Mark(b.clicks != a.clicks, Clicked)
    + Mark(b.replies != a.replies, RepliedCount) + Mark(b.bounced != a.bounced, Bounced)
    + Mark(b.campaign != a.campaign, Assigned) + Mark(b.lastActivity != a.lastActivity, LastActivity)
    + Mark(activates, Status)
  }

  function ComputeChange(lead: Lead, ev: Evidence): Option<Change> {
    var after := After(lead.stats, ev);
    var activates := lead.status == Held && AnyRunning(ev);
    var diff := Diff(lead.stats, after, activates);
    if diff == [] then None else Some(Change(lead, after, activates, diff))
  }

  /** What the live apply writes for one change when the update and the transition reach the database or not. */
  function Applied(lead: Lead, ev: Evidence, updated: bool, transitioned: bool): Lead {
    var c := ComputeChange(lead, ev);
    if c.None? || !updated then lead
    else Lead(c.value.after, if c.value.activates && transitioned then Active else lead.status)
  }

  // ---- the latest date ---------------------------------------------------------------

  /** The latest of the candidates: one of them, and no later one exists. */
  lemma {:induction false} LatestIsMax(dates: seq<Option<int>>)
    ensures Latest(dates).None? <==> forall d :: d in dates ==> d == None
    ensures Latest(dates).Some? ==> Latest(dates) in dates
    ensures forall d :: d in dates && d.Some? ==> Latest(dates).Some? && d.value <= Latest(dates).value
  {
    if dates != [] {
      var n := |dates| - 1;
      LatestIsMax(dates[..n]);
      assert dates == dates[..n] + [dates[n]];
      assert forall d :: d in dates <==> d in dates[..n] || d == dates[n];
    }
  }

  /** last_activity_at is the latest of the old value and every recorded date, so it never moves back. */
  lemma {:induction false} LastActivityIsLatest(s: Stats, ev: Evidence)
    ensures var last := After(s, ev).lastActivity;
            && (s.lastActivity.Some? ==> last.Some? && s.lastActivity.value <= last.value)
            && (forall t :: t in ev.sends || t in ev.replies ==> last.Some? && t <= last.value)
            && (forall r, d :: r in ev.rows && DateOf(r, d) && d.Some? ==> last.Some? && d.value <= last.value)
            && (last.Some? ==>
                  (last == s.lastActivity || last.value in ev.sends || last.value in ev.replies ||
                   exists r :: r in ev.rows && DateOf(r, last)))
  {
    var c := Candidates(s.lastActivity, ev);
    LatestIsMax(c);
    TimesIn(ev.sends);
    TimesIn(ev.replies);
    InCandidates(s.lastActivity, ev);
    hide Candidates, Dates, Latest;
    assert s.lastActivity in c && Latest(Dates(ev.sends)) in c && Latest(Dates(ev.replies)) in c;
    forall r | r in ev.rows ensures r.lastSent in c && r.replied in c && r.bounced in c && r.unsubscribed in c {
      assert DateOf(r, r.lastSent) && DateOf(r, r.replied) && DateOf(r, r.bounced) && DateOf(r, r.unsubscribed);
    }
  }

  predicate DateOf(r: Row, d: Option<int>) { d in {r.lastSent, r.replied, r.bounced, r.unsubscribed} }

  lemma {:induction false} InRowDates(rows: seq<Row>, pick: Row -> Option<int>, d: Option<int>)
    ensures d in RowDates(rows, pick) <==> exists r :: r in rows && pick(r) == d
  {
    if r :| r in rows && pick(r) == d {
      var i :| 0 <= i < |rows| && rows[i] == r;
      assert RowDates(rows, pick)[i] == d;
    }
  }

  lemma {:induction false} InCandidates(last: Option<int>, ev: Evidence)
    ensures forall d :: d in Candidates(last, ev) <==>
              (d == last || d == Latest(Dates(ev.sends)) || d == Latest(Dates(ev.replies)) ||
               exists r :: r in ev.rows && DateOf(r, d))
  {
    forall d
      ensures d in Candidates(last, ev) <==>
              (d == last || d == Latest(Dates(ev.sends)) || d == Latest(Dates(ev.replies)) ||
               exists r :: r in ev.rows && DateOf(r, d))
    {
      InRowDates(ev.rows, (r: Row) => r.lastSent, d);
      InRowDates(ev.rows, (r: Row) => r.replied, d);
      InRowDates(ev.rows, (r: Row) => r.bounced, d);
      InRowDates(ev.rows, (r: Row) => r.unsubscribed, d);
    }
  }

  lemma {:induction false} TimesIn(times: seq<int>)
    ensures forall t :: t in times ==> Latest(Dates(times)).Some? && t <= Latest(Dates(times)).value
    ensures Latest(Dates(times)).Some? ==> Latest(Dates(times)).value in times
  {
    LatestIsMax(Dates(times));
    forall t | t in times ensures Some(t) in Dates(times) {
      var i :| 0 <= i < |times| && times[i] == t;
      assert Dates(times)[i] == Some(t);
    }
  }

  /** Computed again from what it produced, the latest date is itself. */
  lemma {:induction false} LatestSettles(s: Stats, ev: Evidence)
    ensures Latest(Candidates(Latest(Candidates(s.lastActivity, ev)), ev)) == Latest(Candidates(s.lastActivity, ev))
  {
    hide Candidates, Latest, DateOf;
    var c := Candidates(s.lastActivity, ev);
    var m := Latest(c);
    var d := Candidates(m, ev);
    LatestIsMax(c);
    LatestIsMax(d);
    InCandidates(s.lastActivity, ev);
    InCandidates(m, ev);
    assert m in d && forall x :: x in d ==> x == m || x in c;
  }

  // ---- the assigned campaign -----------------------------------------------------------

  /** Some row is as late as any and comes first among those. */
  predicate FirstLatest(rows: seq<Row>, k: nat) {
    && k < |rows|
    && (forall j :: 0 <= j < |rows| ==> Time(rows[j]) <= Time(rows[k]))
    && (forall j :: 0 <= j < k ==> Time(rows[j]) < Time(rows[k]))
  }

  lemma {:induction false} InsertHead(r: Row, rows: seq<Row>)
    ensures Insert(r, rows)[0] == if rows == [] || Time(r) >= Time(rows[0]) then r else rows[0]
  {
  }

  /** The head of the stable sort is the first of the rows with the latest time. */
  lemma {:induction false} SortHead(rows: seq<Row>) returns (k: nat)
    requires rows != []
    ensures FirstLatest(rows, k) && SortLatestFirst(rows)[0] == rows[k]
  {
    if |rows| == 1 {
      k := 0;
    } else {
      var j := SortHead(rows[1..]);
      InsertHead(rows[0], SortLatestFirst(rows[1..]));
      k := if Time(rows[0]) >= Time(rows[1..][j]) then 0 else j + 1;
      assert forall i :: 0 < i < |rows| ==> rows[i] == rows[1..][i - 1];
    }
  }

  /** The sort is a sort: same rows, latest first. */
  lemma {:induction false} SortSorts(rows: seq<Row>)
    ensures multiset(SortLatestFirst(rows)) == multiset(rows)
    ensures LatestFirst(SortLatestFirst(rows))
  {
    if rows != [] {
      SortSorts(rows[1..]);
      InsertSorts(rows[0], SortLatestFirst(rows[1..]));
      assert rows == [rows[0]] + rows[1..];
    }
  }

  lemma {:induction false} InsertKeeps(r: Row, rows: seq<Row>)
    ensures multiset(Insert(r, rows)) == multiset(rows) + multiset{r}
  {
    hide Time;
    if !(rows == [] || Time(r) >= Time(rows[0])) {
      InsertKeeps(r, rows[1..]);
      assert rows == [rows[0]] + rows[1..];
    }
  }

  lemma {:induction false} InsertSorts(r: Row, rows: seq<Row>)
    requires LatestFirst(rows)
    ensures LatestFirst(Insert(r, rows)) && multiset(Insert(r, rows)) == multiset(rows) + multiset{r}
  {
    hide Time;
    InsertKeeps(r, rows);
    if !(rows == [] || Time(r) >= Time(rows[0])) {
      var t := Insert(r, rows[1..]);
      InsertSorts(r, rows[1..]);
      forall k | 0 <= k < |t| ensures Time(rows[0]) >= Time(t[k]) {
        assert t[k] in multiset(t);
        assert t[k] == r || t[k] in rows[1..];
      }
    }
  }

  predicate LatestFirst(rows: seq<Row>) { forall i, j :: 0 <= i < j < |rows| ==> Time(rows[i]) >= Time(rows[j]) }

  predicate TopOf(rows: seq<Row>, r: Row) { r in rows && forall q :: q in rows ==> Time(q) <= Time(r) }

  /** The assigned campaign is one whose row maximises last sent, or created when nothing was sent. */
  lemma {:induction false} AssignedIsLatest(s: Stats, ev: Evidence)
    requires ev.rows != []
    ensures exists r :: TopOf(ev.rows, r) && After(s, ev).campaign == Some(r.campaign)
  {
    var k := SortHead(ev.rows);
    assert TopOf(ev.rows, ev.rows[k]);
  }

  // ---- the counters ------------------------------------------------------------------------

  /** The evidence with one more campaign row, wherever the query returns it. */
  function WithRow(ev: Evidence, r: Row, k: nat): Evidence
    requires k <= |ev.rows|
  {
    ev.(rows := ev.rows[..k] + [r] + ev.rows[k..])
  }

  /** One more campaign row adds its opens to the opens and its clicks to the clicks, and its bounce to the bounces. */
  lemma {:induction false} RowAdds(s: Stats, ev: Evidence, r: Row, k: nat)
    requires k <= |ev.rows|
    ensures var a, b := After(s, ev), After(s, WithRow(ev, r, k));
            && b.opens == a.opens + r.opens && b.clicks == a.clicks + r.clicks
            && b.sent == a.sent && b.replies == a.replies && (b.bounced <==> a.bounced || r.bounced.Some?)
  {
    hide Candidates, SortLatestFirst, SumOpens, SumClicks;
    var rows := ev.rows[..k] + [r] + ev.rows[k..];
    SumsWithout(rows, k);
    assert rows[..k] + rows[k + 1..] == ev.rows;
    assert rows[k] == r && ev.rows == ev.rows[..k] + ev.rows[k..];
    assert forall q :: q in rows <==> q == r || q in ev.rows;
  }

  /** One more send, reply or bounce event counts once, where it belongs and nowhere else; without any, nothing counts. */
  lemma {:induction false} EventAdds(s: Stats, ev: Evidence, t: int)
    ensures var a := After(s, ev);
            && SameCounters(After(s, ev.(sends := ev.sends + [t])), a.(sent := a.sent + 1))
            && SameCounters(After(s, ev.(replies := ev.replies + [t])), a.(replies := a.replies + 1))
            && SameCounters(After(s, ev.(bounces := ev.bounces + 1)), a.(bounced := true))
    ensures SameCounters(After(s, Evidence([], [], 0, [])), Stats(0, 0, 0, 0, false, None, None))
  {
    hide Candidates, SortLatestFirst;
  }

  /** The counters are those of the event tables, and a bounce is a bounce event or a bounced row. */
  predicate Reflects(s: Stats, ev: Evidence) {
    && s.sent == |ev.sends| && s.replies == |ev.replies|
    && s.opens == SumOpens(ev.rows) && s.clicks == SumClicks(ev.rows)
    && (s.bounced <==> ev.bounces > 0 || exists r :: r in ev.rows && r.bounced.Some?)
  }

  lemma {:induction false} AppliedReflects(lead: Lead, ev: Evidence, transitioned: bool)
    ensures Reflects(Applied(lead, ev, true, transitioned).stats, ev)
    ensures Applied(lead, ev, false, transitioned) == lead
    ensures Applied(lead, ev, true, transitioned).status ==
            if lead.status == Held && AnyRunning(ev) && transitioned then Active else lead.status
    ensures AnyRunning(ev) <==> exists r :: r in ev.rows && r.status != RowOver
  {
    hide Candidates, SortLatestFirst, Diff;
    NoChangeIff(lead, ev);
  }

  // ---- leads without evidence --------------------------------------------------------------

  predicate SameCounters(a: Stats, b: Stats) {
    a.sent == b.sent && a.opens == b.opens && a.clicks == b.clicks && a.replies == b.replies && a.bounced == b.bounced
  }

  /**
   * A lead with no campaign row and no send is said to keep its counters and status. It keeps campaign and status, but
   * its counters exactly when they already are what the event tables hold: no sends, opens or clicks.
   */
  lemma {:induction false} NoEvidenceKeptIff(lead: Lead, ev: Evidence, updated: bool, transitioned: bool)
    requires ev.rows == [] && ev.sends == []
    ensures var l := Applied(lead, ev, true, transitioned);
            && l.status == lead.status && l.stats.campaign == lead.stats.campaign
            && (SameCounters(l.stats, lead.stats) <==>
                lead.stats.sent == lead.stats.opens == lead.stats.clicks == 0 &&
                lead.stats.replies == |ev.replies| && lead.stats.bounced == (ev.bounces > 0))
  {
    hide Candidates, Latest;
    NoChangeIff(lead, ev);
  }

  /** A lead that has five sends on record and no evidence loses them. */
  lemma {:induction false} SendsAreZeroed(s: Stats)
    requires s.sent == 5
    ensures Applied(Lead(s, Held), Evidence([], [], 0, []), true, true).stats.sent == 0
  {
    hide Candidates, Latest;
    NoEvidenceKeptIff(Lead(s, Held), Evidence([], [], 0, []), true, true);
    NoChangeIff(Lead(s, Held), Evidence([], [], 0, []));
  }

  // ---- running it again ------------------------------------------------------------------

  /** No change is reported exactly when writing would leave the row as it is. */
  lemma {:induction false} NoChangeIff(lead: Lead, ev: Evidence)
    ensures ComputeChange(lead, ev).None? <==>
            After(lead.stats, ev) == lead.stats && !(lead.status == Held && AnyRunning(ev))
  {
    hide After, AnyRunning;
  }

  /** The value of a field differs, or for the status, the lead is to be activated. */
  predicate Differs(b: Stats, a: Stats, activates: bool, f: Field) {
    match f
    case Sent => b.sent != a.sent
    case Opened => b.opens != a.opens
    case Clicked => b.clicks != a.clicks
    case RepliedCount => b.replies != a.replies
    case Bounced => b.bounced != a.bounced
    case Assigned => b.campaign != a.campaign
    case LastActivity => b.lastActivity != a.lastActivity
    case Status => activates
  }

  /** Exactly those fields are reported. */
  lemma {:induction false} DiffIsExact(lead: Lead, ev: Evidence, f: Field)
    requires ComputeChange(lead, ev).Some?
    ensures var c := ComputeChange(lead, ev).value;
            && c.before == lead && c.after == After(lead.stats, ev)
            && (c.activates <==> lead.status == Held && AnyRunning(ev))
            && (f in c.diff <==> Differs(lead.stats, After(lead.stats, ev), c.activates, f))
  {
    hide After, AnyRunning, Diff;
    InDiff(lead.stats, After(lead.stats, ev), lead.status == Held && AnyRunning(ev), f);
  }

  lemma {:induction false} InDiff(b: Stats, a: Stats, activates: bool, f: Field)
    ensures f in Diff(b, a, activates) <==> Differs(b, a, activates, f)
  {
    hide Mark;
    Marked(b.sent != a.sent, Sent, f);
    Marked(b.opens != a.opens, Opened, f);
    Marked(b.clicks != a.clicks, Clicked, f);
    Marked(b.replies != a.replies, RepliedCount, f);
    Marked(b.bounced != a.bounced, Bounced, f);
    Marked(b.campaign != a.campaign, Assigned, f);
    Marked(b.lastActivity != a.lastActivity, LastActivity, f);
    Marked(activates, Status, f);
  }

  lemma {:induction false} Marked(differs: bool, f: Field, g: Field)
    ensures g in Mark(differs, f) <==> differs && g == f
  {
  }

  lemma {:induction false} AfterSettles(s: Stats, ev: Evidence)
    ensures After(After(s, ev), ev) == After(s, ev)
  {
    hide Candidates, SortLatestFirst;
    LatestSettles(s, ev);
  }

  /**
   * A second computation over the same rows reports nothing, except the status alone when the first one's update
   * went through and its transition did not.
   */
  lemma {:induction false} SecondRun(lead: Lead, ev: Evidence, transitioned: bool)
    ensures var l := Applied(lead, ev, true, transitioned);
            var c := ComputeChange(l, ev);
            && (c.Some? <==> lead.status == Held && AnyRunning(ev) && !transitioned)
            && (c.Some? ==> c.value.diff == [Status])
            && (lead.status == Held && AnyRunning(ev) && transitioned ==> l.status == Active)
            && (!(lead.status == Held && AnyRunning(ev)) ==> l.status == lead.status)
  {
    hide After, AnyRunning;
    AfterSettles(lead.stats, ev);
    NoChangeIff(lead, ev);
    NoChangeIff(Applied(lead, ev, true, transitioned), ev);
  }

  /** The rows of one email read again, in whatever order the database returns them. */
  predicate Reread(a: seq<Row>, b: seq<Row>) { multiset(a) == multiset(b) }

  lemma {:induction false} RereadSame(a: seq<Row>, b: seq<Row>)
    requires Reread(a, b)
    ensures |a| == |b| && forall r :: r in a <==> r in b
  {
    assert |multiset(a)| == |multiset(b)|;
    forall r ensures r in a <==> r in b {
      assert r in a <==> r in multiset(a);
      assert r in b <==> r in multiset(b);
    }
  }

  lemma {:induction false} SumsReread(a: seq<Row>, b: seq<Row>)
    requires Reread(a, b)
    ensures SumOpens(a) == SumOpens(b) && SumClicks(a) == SumClicks(b)
    decreases |a|
  {
    RereadSame(a, b);
    if a != [] {
      var rest, k := Without(a, b);
      SumsReread(a[1..], rest);
      SumsWithout(b, k);
    }
  }

  lemma {:induction false} Without(a: seq<Row>, b: seq<Row>) returns (rest: seq<Row>, k: nat)
    requires Reread(a, b) && a != []
    ensures k < |b| && b[k] == a[0] && rest == b[..k] + b[k + 1..] && Reread(a[1..], rest)
  {
    RereadSame(a, b);
    assert a[0] in b;
    k :| 0 <= k < |b| && b[k] == a[0];
    rest := b[..k] + b[k + 1..];
    TakenOut(b, k);
    TakenOut(a, 0);
    assert a[..0] + a[1..] == a[1..];
  }

  lemma {:induction false} TakenOut(b: seq<Row>, k: nat)
    requires k < |b|
    ensures multiset(b[..k] + b[k + 1..]) == multiset(b) - multiset{b[k]}
  {
    assert b == (b[..k] + [b[k]]) + b[k + 1..];
    assert multiset(b) == multiset(b[..k]) + multiset{b[k]} + multiset(b[k + 1..]);
  }

  lemma {:induction false} SumsWithout(b: seq<Row>, k: nat)
    requires k < |b|
    ensures SumOpens(b) == b[k].opens + SumOpens(b[..k] + b[k + 1..])
    ensures SumClicks(b) == b[k].clicks + SumClicks(b[..k] + b[k + 1..])
  {
    var rest := b[..k] + b[k + 1..];
    if k == 0 {
      assert rest == b[1..];
    } else {
      SumsWithout(b[1..], k - 1);
      assert rest[1..] == b[1..][..k - 1] + b[1..][k..];
    }
  }

  /** Every row that is as late as any belongs to one campaign. */
  ghost predicate OneTopCampaign(rows: seq<Row>) {
    forall q, r :: TopOf(rows, q) && TopOf(rows, r) ==> q.campaign == r.campaign
  }

  /** Only the assigned campaign can depend on the order of the rows. */
  lemma {:induction false} AfterReread(s: Stats, ev: Evidence, rows: seq<Row>)
    requires Reread(ev.rows, rows)
    ensures After(s, ev.(rows := rows)) == After(s, ev).(campaign := After(s, ev.(rows := rows)).campaign)
    ensures AnyRunning(ev.(rows := rows)) == AnyRunning(ev)
    ensures |rows| == |ev.rows|
  {
    hide Candidates, SortLatestFirst;
    var e := ev.(rows := rows);
    RereadSame(ev.rows, rows);
    SumsReread(ev.rows, rows);
    LastActivityIsLatest(s, ev);
    LastActivityIsLatest(s, e);
    var a, b := After(s, ev).lastActivity, After(s, e).lastActivity;
    assert a.Some? ==> b.Some? && a.value <= b.value;
    assert b.Some? ==> a.Some? && b.value <= a.value;
  }

  /** So a later run over re-read rows reports nothing exactly when the same campaign comes out on top. */
  lemma {:induction false} RereadSettlesIff(lead: Lead, ev: Evidence, rows: seq<Row>)
    requires Reread(ev.rows, rows)
    ensures ComputeChange(Applied(lead, ev, true, true), ev.(rows := rows)).None? <==>
            rows == [] || SortLatestFirst(rows)[0].campaign == SortLatestFirst(ev.rows)[0].campaign
  {
    hide Candidates, SortLatestFirst, AnyRunning, Diff;
    var l := Applied(lead, ev, true, true);
    NoChangeIff(lead, ev);
    SecondRun(lead, ev, true);
    NoChangeIff(l, ev);
    NoChangeIff(l, ev.(rows := rows));
    AfterReread(l.stats, ev, rows);
  }

  lemma {:induction false} TopComesFirst(rows: seq<Row>, q: Row) returns (moved: seq<Row>)
    requires TopOf(rows, q)
    ensures Reread(rows, moved) && moved != [] && SortLatestFirst(moved)[0] == q
  {
    var k :| 0 <= k < |rows| && rows[k] == q;
    moved := [q] + (rows[..k] + rows[k + 1..]);
    assert rows == rows[..k] + [q] + rows[k + 1..];
    var h := SortHead(moved);
    RereadSame(rows, moved);
    assert moved[0] == q && moved[h] in rows;
  }

  /** The second run is empty however the rows are read exactly when all the latest rows belong to one campaign. */
  lemma {:induction false} SettledInAnyOrderIff(lead: Lead, ev: Evidence)
    ensures OneTopCampaign(ev.rows) <==>
            forall rows :: Reread(ev.rows, rows) ==>
              ComputeChange(Applied(lead, ev, true, true), ev.(rows := rows)).None?
  {
    hide ComputeChange, Applied, SortLatestFirst;
    if OneTopCampaign(ev.rows) {
      forall rows | Reread(ev.rows, rows)
        ensures ComputeChange(Applied(lead, ev, true, true), ev.(rows := rows)).None?
      {
        RereadSettlesIff(lead, ev, rows);
        RereadSame(ev.rows, rows);
        if rows != [] {
          var a := SortHead(ev.rows);
          var b := SortHead(rows);
          assert ev.rows[a] in rows && rows[b] in ev.rows;
          assert TopOf(ev.rows, ev.rows[a]) && TopOf(ev.rows, rows[b]);
        }
      }
    } else {
      var q, r :| TopOf(ev.rows, q) && TopOf(ev.rows, r) && q.campaign != r.campaign;
      var one := TopComesFirst(ev.rows, q);
      var two := TopComesFirst(ev.rows, r);
      RereadSettlesIff(lead, ev, one);
      RereadSettlesIff(lead, ev, two);
    }
  }

  // ---- the script ----------------------------------------------------------------------

  predicate Changes(lead: Lead, ev: Evidence) { ComputeChange(lead, ev).Some? }

  function ChangedIds(leads: map<nat, Lead>, evidence: map<nat, Evidence>): set<nat>
    requires leads.Keys <= evidence.Keys
  {
    set id | id in leads && Changes(leads[id], evidence[id])
  }

  /** Which writes reach the database in one run. */
  datatype Faults = Faults(updateFails: set<nat>, transitionFails: set<nat>)

  predicate ValidTransition(from: LeadStatus, to: LeadStatus) {
    match from
    case Held => to in {Active, Paused, Blocked}
    case Active => to in {Paused, Completed, Blocked}
    case Paused => to in {Active, Completed, Blocked}
    case _ => false
  }

  /** Nothing goes back to held, and blocked and completed are final. */
  lemma {:induction false} TransitionsGoForward(from: LeadStatus, to: LeadStatus)
    ensures ValidTransition(from, to) ==> from in {Held, Active, Paused} && to in {Active, Paused, Blocked, Completed}
    ensures ValidTransition(Held, to) <==> to in {Active, Paused, Blocked}
    ensures ValidTransition(Active, to) <==> to in {Paused, Completed, Blocked}
    ensures ValidTransition(Paused, to) <==> to in {Active, Completed, Blocked}
  {
  }

  function AfterRun(leads: map<nat, Lead>, evidence: map<nat, Evidence>, f: Faults): map<nat, Lead>
    requires leads.Keys <= evidence.Keys
  {
    map id | id in leads :: Applied(leads[id], evidence[id], id !in f.updateFails, id !in f.transitionFails)
  }

  predicate Distinct(ids: seq<nat>) { forall i, j :: 0 <= i < j < |ids| ==> ids[i] != ids[j] }

  function Ids(found: seq<(nat, Change)>): seq<nat> { seq(|found|, i requires 0 <= i < |found| => found[i].0) }

  lemma {:induction false} NotEarlier(ids: seq<nat>, i: nat)
    requires Distinct(ids) && i < |ids|
    ensures ids[i] !in ids[..i]
  {
  }

  function SetOf(ids: seq<nat>): set<nat> { set i | i in ids }

  lemma {:induction false} DistinctCount(ids: seq<nat>)
    requires Distinct(ids)
    ensures |SetOf(ids)| == |ids|
    decreases |ids|
  {
    if ids == [] {
      assert SetOf(ids) == {};
    } else {
      var n := |ids| - 1;
      DistinctCount(ids[..n]);
      NotEarlier(ids, n);
      assert ids == ids[..n] + [ids[n]];
      assert SetOf(ids) == SetOf(ids[..n]) + {ids[n]};
    }
  }

  lemma {:induction false} ChangeCount(leads: map<nat, Lead>, evidence: map<nat, Evidence>, found: seq<(nat, Change)>)
    requires leads.Keys <= evidence.Keys && Distinct(Ids(found))
    requires forall k :: 0 <= k < |found| ==>
               found[k].0 in leads && ComputeChange(leads[found[k].0], evidence[found[k].0]) == Some(found[k].1)
    requires forall id :: id in leads && Changes(leads[id], evidence[id]) ==> id in Ids(found)
    ensures |found| == |ChangedIds(leads, evidence)|
  {
    hide ComputeChange;
    DistinctCount(Ids(found));
    forall id | id in Ids(found) ensures id in ChangedIds(leads, evidence) {
      var k :| 0 <= k < |found| && Ids(found)[k] == id;
      assert found[k].0 == id;
    }
    assert SetOf(Ids(found)) == ChangedIds(leads, evidence);
  }

  /** How many of the changes are written, and how many of those activate their lead. */
  function Written(found: seq<(nat, Change)>, f: Faults): nat
    decreases |found|
  {
    if found == [] then 0
    else
      var n := |found| - 1;
      Written(found[..n], f) + if found[n].0 in f.updateFails then 0 else 1
  }

  function Activated(found: seq<(nat, Change)>, f: Faults): nat
    decreases |found|
  {
    if found == [] then 0
    else
      var n := |found| - 1;
      Activated(found[..n], f) +
      if found[n].1.activates && found[n].0 !in f.updateFails && found[n].0 !in f.transitionFails then 1 else 0
  }

  function WrittenIds(found: seq<(nat, Change)>, f: Faults): set<nat> {
    set k | 0 <= k < |found| && found[k].0 !in f.updateFails :: found[k].0
  }

  function ActivatedIds(found: seq<(nat, Change)>, f: Faults): set<nat> {
    set k | 0 <= k < |found| && found[k].1.activates && found[k].0 !in f.updateFails &&
            found[k].0 !in f.transitionFails :: found[k].0
  }

  lemma {:induction false} FoundOnce(found: seq<(nat, Change)>)
    requires found != [] && Distinct(Ids(found))
    ensures var n := |found| - 1;
            Distinct(Ids(found[..n])) && forall k :: 0 <= k < n ==> found[k].0 != found[n].0
  {
    var n := |found| - 1;
    assert Ids(found)[..n] == Ids(found[..n]);
    forall k | 0 <= k < n ensures found[k].0 != found[n].0 { assert Ids(found)[k] != Ids(found)[n]; }
  }

  lemma {:induction false} WrittenIsSize(found: seq<(nat, Change)>, f: Faults)
    requires Distinct(Ids(found))
    ensures Written(found, f) == |WrittenIds(found, f)|
    decreases |found|
  {
    if found == [] {
      assert WrittenIds(found, f) == {};
    } else {
      var n := |found| - 1;
      FoundOnce(found);
      hide Distinct, Ids;
      WrittenIsSize(found[..n], f);
      var id, rest := found[n].0, WrittenIds(found[..n], f);
      forall i ensures i in WrittenIds(found, f) <==> i in rest || (i == id && id !in f.updateFails) {
        if i in rest { var k :| 0 <= k < n && found[..n][k].0 == i && i !in f.updateFails; assert found[k].0 == i; }
      }
      assert WrittenIds(found, f) == rest + if id in f.updateFails then {} else {id};
    }
  }

  lemma {:induction false} ActivatedIsSize(found: seq<(nat, Change)>, f: Faults)
    requires Distinct(Ids(found))
    ensures Activated(found, f) == |ActivatedIds(found, f)|
    decreases |found|
  {
    if found == [] {
      assert ActivatedIds(found, f) == {};
    } else {
      var n := |found| - 1;
      FoundOnce(found);
      hide Distinct, Ids;
      ActivatedIsSize(found[..n], f);
      var id, rest := found[n].0, ActivatedIds(found[..n], f);
      var on := found[n].1.activates && id !in f.updateFails && id !in f.transitionFails;
      forall i ensures i in ActivatedIds(found, f) <==> i in rest || (i == id && on) {
        if i in rest { var k :| 0 <= k < n && found[..n][k].0 == i && found[..n][k].1.activates; assert found[k].0 == i; }
      }
      assert ActivatedIds(found, f) == rest + if on then {id} else {};
    }
  }

  lemma {:induction false} ApplyCounts(leads: map<nat, Lead>, evidence: map<nat, Evidence>, f: Faults,
                                       found: seq<(nat, Change)>)
    requires leads.Keys <= evidence.Keys
    requires forall k :: 0 <= k < |found| ==>
               found[k].0 in leads && ComputeChange(leads[found[k].0], evidence[found[k].0]) == Some(found[k].1)
    requires forall id :: id in leads && Changes(leads[id], evidence[id]) ==> id in Ids(found)
    ensures WrittenIds(found, f) == ChangedIds(leads, evidence) - f.updateFails
    ensures ActivatedIds(found, f) == set id | id in leads && Moves(leads, evidence, f, id)
  {
    hide ComputeChange, Moves;
    forall k | 0 <= k < |found|
      ensures Changes(leads[found[k].0], evidence[found[k].0])
      ensures Moves(leads, evidence, f, found[k].0) <==>
              found[k].1.activates && found[k].0 !in f.updateFails && found[k].0 !in f.transitionFails
    {
      MovesIff(leads, evidence, f, found[k].0, found[k].1);
    }
    forall id | id in leads && (Changes(leads[id], evidence[id]) || Moves(leads, evidence, f, id))
      ensures exists k :: 0 <= k < |found| && found[k].0 == id
    {
      if Moves(leads, evidence, f, id) { MoversChange(leads, evidence, f, id); }
      var k :| 0 <= k < |found| && Ids(found)[k] == id;
      assert found[k].0 == id;
    }
  }

  lemma {:induction false} RunIs(was: map<nat, Lead>, evidence: map<nat, Evidence>, f: Faults, found: seq<(nat, Change)>,
                                 now: map<nat, Lead>)
    requires was.Keys <= evidence.Keys && now.Keys == was.Keys
    requires forall id :: id in was && Changes(was[id], evidence[id]) ==> id in Ids(found)
    requires forall id :: id in now ==>
               now[id] == if id in Ids(found)
                          then Applied(was[id], evidence[id], id !in f.updateFails, id !in f.transitionFails)
                          else was[id]
    ensures now == AfterRun(was, evidence, f)
  {
    hide Applied;
    forall id | id in was && id !in Ids(found)
      ensures was[id] == Applied(was[id], evidence[id], id !in f.updateFails, id !in f.transitionFails)
    {
      UnchangedApplied(was[id], evidence[id], id !in f.updateFails, id !in f.transitionFails);
    }
  }

  /** What a live run leaves of every lead. */
  lemma {:induction false} RunReflects(leads: map<nat, Lead>, evidence: map<nat, Evidence>, f: Faults)
    requires leads.Keys <= evidence.Keys
    ensures var next := AfterRun(leads, evidence, f);
            next.Keys == leads.Keys && forall id :: id in next ==>
              if id in f.updateFails then next[id] == leads[id]
              else Reflects(next[id].stats, evidence[id]) &&
                   next[id].status == if Moves(leads, evidence, f, id) then Active else leads[id].status
  {
    hide Applied, AnyRunning, Reflects;
    forall id | id in leads {
      AppliedReflects(leads[id], evidence[id], id !in f.transitionFails);
    }
  }

  lemma {:induction false} OneApplied(lead: Lead, ev: Evidence, c: Change, updated: bool, transitioned: bool)
    requires ComputeChange(lead, ev) == Some(c)
    ensures c.before == lead && (c.activates ==> lead.status == Held)
    ensures Applied(lead, ev, updated, transitioned) ==
            if updated then Lead(c.after, if c.activates && transitioned then Active else lead.status) else lead
  {
  }

  lemma {:induction false} UnchangedApplied(lead: Lead, ev: Evidence, updated: bool, transitioned: bool)
    requires !Changes(lead, ev)
    ensures Applied(lead, ev, updated, transitioned) == lead
  {
  }

  /** The run activates the lead: it is held, some campaign of it runs, and both writes reach the database. */
  predicate Moves(leads: map<nat, Lead>, evidence: map<nat, Evidence>, f: Faults, id: nat) {
    id in leads && id in evidence && leads[id].status == Held && AnyRunning(evidence[id]) &&
    id !in f.updateFails && id !in f.transitionFails
  }

  lemma {:induction false} MovesIff(leads: map<nat, Lead>, evidence: map<nat, Evidence>, f: Faults, id: nat, c: Change)
    requires id in leads && id in evidence && ComputeChange(leads[id], evidence[id]) == Some(c)
    ensures c.before == leads[id] && (c.activates <==> leads[id].status == Held && AnyRunning(evidence[id]))
    ensures Moves(leads, evidence, f, id) <==> c.activates && id !in f.updateFails && id !in f.transitionFails
  {
  }

  lemma {:induction false} MoversChange(leads: map<nat, Lead>, evidence: map<nat, Evidence>, f: Faults, id: nat)
    requires Moves(leads, evidence, f, id)
    ensures Changes(leads[id], evidence[id])
  {
    NoChangeIff(leads[id], evidence[id]);
  }

  /** The lead table and the script's run. */
  class Backfill {
    var leads: map<nat, Lead>

    /** applyStatusTransition */
    method ApplyStatusTransition(id: nat, from: LeadStatus, to: LeadStatus, fails: bool) returns (ok: bool)
      requires id in leads
      modifies this
      ensures ok <==> ValidTransition(from, to) && !fails
      ensures leads == if ok then old(leads)[id := old(leads)[id].(status := to)] else old(leads)
    {
      if !ValidTransition(from, to) { return false; }
      if fails { return false; }
      leads := leads[id := leads[id].(status := to)];
      ok := true;
    }

    /** The first half: every change that the rows call for, in the query's order. */
    method FindChanges(order: seq<nat>, evidence: map<nat, Evidence>) returns (found: seq<(nat, Change)>)
      requires leads.Keys <= evidence.Keys && forall id :: id in order ==> id in leads
      requires Distinct(order)
      ensures Distinct(Ids(found)) && |found| <= |order|
      ensures forall k :: 0 <= k < |found| ==>
                found[k].0 in order && ComputeChange(leads[found[k].0], evidence[found[k].0]) == Some(found[k].1)
      ensures forall id :: id in order && Changes(leads[id], evidence[id]) ==> id in Ids(found)
    {
      hide ComputeChange;
      found := [];
      for i := 0 to |order|
        invariant |found| <= i && Distinct(Ids(found))
        invariant forall k :: 0 <= k < |found| ==>
                    found[k].0 in order[..i] &&
                    ComputeChange(leads[found[k].0], evidence[found[k].0]) == Some(found[k].1)
        invariant forall id :: id in order[..i] && ComputeChange(leads[id], evidence[id]).Some? ==> id in Ids(found)
      {
        var c := ComputeChange(leads[order[i]], evidence[order[i]]);
        assert order[..i + 1] == order[..i] + [order[i]];
        if c.Some? {
          assert Ids(found + [(order[i], c.value)]) == Ids(found) + [order[i]];
          found := found + [(order[i], c.value)];
        }
      }
      assert order[..|order|] == order;
    }

    /** One change of the live half: the update, then the transition if the update went through. */
    method ApplyOne(id: nat, c: Change, f: Faults) returns (applied: bool, moved: bool)
      requires id in leads
      modifies this
      ensures applied <==> id !in f.updateFails
      ensures moved ==> applied && c.activates
      ensures leads == if applied then old(leads)[id := Lead(c.after, if moved then Active else old(leads)[id].status)]
                       else old(leads)
      ensures c.before.status == Held && applied && c.activates ==> (moved <==> id !in f.transitionFails)
    {
      applied, moved := false, false;
      if id in f.updateFails { return; }
      leads := leads[id := leads[id].(stats := c.after)];
      applied := true;
      if c.activates { moved := ApplyStatusTransition(id, c.before.status, Active, id in f.transitionFails); }
    }

    /** The live half: each change in turn; one whose update throws is counted as failed and not transitioned. */
    method ApplyAll(found: seq<(nat, Change)>, ghost evidence: map<nat, Evidence>, f: Faults)
      returns (applied: nat, transitioned: nat, failed: nat)
      requires leads.Keys <= evidence.Keys && Distinct(Ids(found))
      requires forall k :: 0 <= k < |found| ==>
                 found[k].0 in leads && ComputeChange(leads[found[k].0], evidence[found[k].0]) == Some(found[k].1)
      modifies this
      ensures applied + failed == |found| && transitioned <= applied
      ensures applied == Written(found, f) && transitioned == Activated(found, f)
      ensures leads.Keys == old(leads).Keys
      ensures forall id :: id in leads ==>
                leads[id] == if id in Ids(found)
                             then Applied(old(leads)[id], evidence[id], id !in f.updateFails, id !in f.transitionFails)
                             else old(leads)[id]
    {
      hide Applied, ComputeChange, SetOf;
      applied, transitioned, failed := 0, 0, 0;
      ghost var was := leads;
      for i := 0 to |found|
        invariant applied == Written(found[..i], f) && transitioned == Activated(found[..i], f)
        invariant applied + failed == i && transitioned <= applied
        invariant leads.Keys == was.Keys
        invariant forall id :: id in leads && id !in Ids(found)[..i] ==> leads[id] == was[id]
        invariant forall id :: id in leads && id in Ids(found)[..i] ==>
                    leads[id] == Applied(was[id], evidence[id], id !in f.updateFails, id !in f.transitionFails)
      {
        var id, c := found[i].0, found[i].1;
        assert Ids(found)[i] == id;
        NotEarlier(Ids(found), i);
        assert Ids(found)[..i + 1] == Ids(found)[..i] + [id];
        OneApplied(was[id], evidence[id], c, id !in f.updateFails, id !in f.transitionFails);
        var ok, moved := ApplyOne(id, c, f);
        assert found[..i + 1][..i] == found[..i];
        if ok { applied := applied + 1; } else { failed := failed + 1; }
        if moved { transitioned := transitioned + 1; }
      }
      assert found[..|found|] == found;
      assert Ids(found)[..|found|] == Ids(found);
    }

    /** order is the query's result. Every change is computed before any is applied; a dry run applies none. */
    method Reconcile(order: seq<nat>, evidence: map<nat, Evidence>, live: bool, f: Faults)
      returns (changes: nat, skipped: nat, applied: nat, transitioned: nat, failed: nat)
      requires leads.Keys <= evidence.Keys
      requires (forall id :: id in leads <==> id in order) && Distinct(order)
      modifies this
      ensures leads == if live then AfterRun(old(leads), evidence, f) else old(leads)
      ensures changes == |ChangedIds(old(leads), evidence)| && changes + skipped == |order|
      ensures live ==> applied + failed == changes && transitioned <= applied
      ensures live ==> applied == |ChangedIds(old(leads), evidence) - f.updateFails|
      ensures live ==> transitioned == |set id | id in old(leads) && Moves(old(leads), evidence, f, id)|
      ensures !live ==> applied == failed == transitioned == 0
      ensures live ==> leads.Keys == old(leads).Keys && forall id :: id in leads ==>
                if id in f.updateFails then leads[id] == old(leads)[id]
                else Reflects(leads[id].stats, evidence[id]) &&
                     leads[id].status == if Moves(old(leads), evidence, f, id) then Active else old(leads)[id].status
    {
      hide Applied, ComputeChange, Moves, Reflects, Written, Activated, WrittenIds, ActivatedIds, SetOf;
      applied, transitioned, failed := 0, 0, 0;
      var found := FindChanges(order, evidence);
      ghost var was := leads;
      ChangeCount(leads, evidence, found);
      changes, skipped := |found|, |order| - |found|;
      if !live { return; }
      applied, transitioned, failed := ApplyAll(found, evidence, f);
      WrittenIsSize(found, f);
      ActivatedIsSize(found, f);
      ApplyCounts(was, evidence, f, found);
      RunIs(was, evidence, f, found, leads);
      RunReflects(was, evidence, f);
    }
  }

  // ---- the next run --------------------------------------------------------------------

  /** The next run changes exactly the leads whose update failed, and those whose transition did. */
  lemma {:induction false} NextRunChanges(leads: map<nat, Lead>, evidence: map<nat, Evidence>, f: Faults, id: nat)
    requires leads.Keys <= evidence.Keys && id in leads
    ensures id in ChangedIds(AfterRun(leads, evidence, f), evidence) <==>
            id in ChangedIds(leads, evidence) &&
            (id in f.updateFails ||
             (leads[id].status == Held && AnyRunning(evidence[id]) && id in f.transitionFails))
  {
    hide After, AnyRunning, Diff;
    SecondRun(leads[id], evidence[id], id !in f.transitionFails);
    NoChangeIff(leads[id], evidence[id]);
  }

  /** With every write going through, one live run leaves nothing for the next. */
  lemma {:induction false} OneRunSettles(leads: map<nat, Lead>, evidence: map<nat, Evidence>)
    requires leads.Keys <= evidence.Keys
    ensures var next := AfterRun(leads, evidence, Faults({}, {}));
            ChangedIds(next, evidence) == {} && AfterRun(next, evidence, Faults({}, {})) == next
  {
    hide ComputeChange, Applied, AnyRunning;
    var f := Faults({}, {});
    var next := AfterRun(leads, evidence, f);
    forall id | id in leads ensures id !in ChangedIds(next, evidence) { NextRunChanges(leads, evidence, f, id); }
    assert ChangedIds(next, evidence) == {};
    forall id | id in next ensures Applied(next[id], evidence[id], true, true) == next[id] {
      assert id !in ChangedIds(next, evidence);
      UnchangedApplied(next[id], evidence[id], true, true);
    }
    assert AfterRun(next, evidence, f).Keys == next.Keys;
  }
}
