/** src/controllers/analyticsController.ts, getMailboxComparison: scores and the provider roll-up. */
module ProviderStats {
  datatype Phase = HealthyPhase | PausedPhase | OtherPhase

  /** One mailbox row with its score. */
  datatype Mailbox = Mailbox(provider: nat, sent: nat, replied: nat, bounced: nat, statusPaused: bool, phase: Phase,
                             score: nat)

  datatype Bucket = Bucket(count: nat, sent: nat, replied: nat, bounced: nat, healthy: nat, inRecovery: nat,
                           paused: nat, scoreSum: nat)

  function Max0(x: int): nat { if x < 0 then 0 else x }

  // ---- the score -----------------------------------------------------------------------------

  /** Math.round */
  function Round(x: real): int { (x + 0.5).Floor }

  function Clamp(x: int): (r: nat)
    ensures r <= 100
  {
    if x < 0 then 0 else if x > 100 then 100 else x
  }

  function Raw(reply: real, bounce: real, warm: bool, healthy: bool): real {
    (if reply * 6.0 < 60.0 then reply * 6.0 else 60.0)
    + (if 100.0 - bounce > 0.0 then (100.0 - bounce) * 0.4 else 0.0)
    + (if warm then 10.0 else 0.0) + (if healthy then 0.0 else -30.0)
  }

  function HealthScore(reply: real, bounce: real, warm: bool, healthy: bool): nat {
    Clamp(Round(Raw(reply, bounce, warm, healthy)))
  }

  /** More replies, fewer bounces, warm-up and health never lower the score, which stays in 0..100. */
  lemma {:induction false} ScoreIsMonotone(r: real, b: real, w: bool, h: bool, r2: real, b2: real, w2: bool, h2: bool)
    requires r <= r2 && b >= b2 && (w ==> w2) && (h ==> h2)
    ensures HealthScore(r, b, w, h) <= HealthScore(r2, b2, w2, h2) <= 100
  {
    assert Raw(r, b, w, h) <= Raw(r2, b2, w2, h2);
  }

  /** Six points for each percent of replies up to ten, 0.4 for each percent that does not bounce, ten and thirty flat. */
  lemma {:induction false} PointsPerPercent(reply: real, bounce: real, d: real, warm: bool, healthy: bool)
    requires d >= 0.0
    ensures reply + d <= 10.0 ==> Raw(reply + d, bounce, warm, healthy) == Raw(reply, bounce, warm, healthy) + 6.0 * d
    ensures reply >= 10.0 ==> Raw(reply + d, bounce, warm, healthy) == Raw(reply, bounce, warm, healthy)
    ensures bounce + d <= 100.0 ==>
              Raw(reply, bounce, warm, healthy) == Raw(reply, bounce + d, warm, healthy) + 0.4 * d
    ensures bounce >= 100.0 ==> Raw(reply, bounce + d, warm, healthy) == Raw(reply, bounce, warm, healthy)
    ensures Raw(reply, bounce, true, healthy) == Raw(reply, bounce, false, healthy) + 10.0
    ensures Raw(reply, bounce, warm, true) == Raw(reply, bounce, warm, false) + 30.0
    ensures Raw(0.0, 100.0, false, true) == 0.0
  {
  }

  /** The score is the points, rounded half up and kept within 0 and 100. */
  lemma {:induction false} ScoreIsRounded(reply: real, bounce: real, warm: bool, healthy: bool)
    ensures var raw, score := Raw(reply, bounce, warm, healthy), HealthScore(reply, bounce, warm, healthy);
            && (0.0 <= raw <= 100.0 ==> raw - 0.5 < score as real <= raw + 0.5)
            && (raw <= 0.0 ==> score == 0) && (raw >= 100.0 ==> score == 100)
  {
  }

  // ---- the buckets -----------------------------------------------------------------------------

  function Empty(): Bucket { Bucket(0, 0, 0, 0, 0, 0, 0, 0) }

  predicate IsPaused(m: Mailbox) { m.phase == PausedPhase || m.statusPaused }

  function AddTo(b: Bucket, m: Mailbox): Bucket {
    Bucket(b.count + 1, b.sent + m.sent, b.replied + m.replied, b.bounced + m.bounced,
           b.healthy + if !IsPaused(m) && m.phase == HealthyPhase then 1 else 0,
           b.inRecovery + if !IsPaused(m) && m.phase != HealthyPhase then 1 else 0,
           b.paused + if IsPaused(m) then 1 else 0, b.scoreSum + m.score)
  }

  function Of(ms: seq<Mailbox>, p: nat): seq<Mailbox> {
    if ms == [] then []
    else
      var n := |ms| - 1;
      Of(ms[..n], p) + if ms[n].provider == p then [ms[n]] else []
  }

  function Total(ms: seq<Mailbox>): Bucket {
    if ms == [] then Empty() else AddTo(Total(ms[..|ms| - 1]), ms[|ms| - 1])
  }

  function Providers(ms: seq<Mailbox>): set<nat> { set m | m in ms :: m.provider }

  function Plus(a: Bucket, b: Bucket): Bucket {
    Bucket(a.count + b.count, a.sent + b.sent, a.replied + b.replied, a.bounced + b.bounced, a.healthy + b.healthy,
           a.inRecovery + b.inRecovery, a.paused + b.paused, a.scoreSum + b.scoreSum)
  }

  /** All buckets together. */
  ghost function Sum(buckets: map<nat, Bucket>): Bucket {
    if buckets == map[] then Empty() else var p :| p in buckets; Plus(buckets[p], Sum(buckets - {p}))
  }

  lemma {:induction false} Swaps(a: Bucket, b: Bucket, c: Bucket)
    ensures Plus(a, Plus(b, c)) == Plus(b, Plus(a, c))
  {
  }

  lemma {:induction false} SumSplit(buckets: map<nat, Bucket>, p: nat)
    requires p in buckets
    ensures Sum(buckets) == Plus(buckets[p], Sum(buckets - {p}))
    decreases |buckets|
  {
    var q: nat :| q in buckets && Sum(buckets) == Plus(buckets[q], Sum(buckets - {q}));
    if q != p {
      SumSplit(buckets - {q}, p);
      SumSplit(buckets - {p}, q);
      var rest := buckets - {q} - {p};
      assert rest == buckets - {p} - {q};
      assert (buckets - {q})[p] == buckets[p] && (buckets - {p})[q] == buckets[q];
      Swaps(buckets[p], buckets[q], Sum(rest));
    }
  }

  /** Adding a mailbox to its bucket adds it to the sum. */
  lemma {:induction false} SumAdds(buckets: map<nat, Bucket>, p: nat, m: Mailbox)
    ensures var b := if p in buckets then buckets[p] else Empty();
            Sum(buckets[p := AddTo(b, m)]) == AddTo(Sum(buckets), m)
  {
    var b := if p in buckets then buckets[p] else Empty();
    var next := buckets[p := AddTo(b, m)];
    SumSplit(next, p);
    assert next - {p} == buckets - {p};
    if p in buckets { SumSplit(buckets, p); } else { assert buckets - {p} == buckets; }
  }

  /** Each bucket is the total of exactly its provider's mailboxes, and together they hold every mailbox once. */
  method RollUp(ms: seq<Mailbox>) returns (buckets: map<nat, Bucket>)
    ensures buckets.Keys == Providers(ms)
    ensures forall p :: p in buckets ==> buckets[p] == Total(Of(ms, p))
    ensures Sum(buckets) == Total(ms)
  {
    EmptySum();
    hide Total, Of, AddTo;
    buckets := map[];
    for i := 0 to |ms|
      invariant buckets.Keys == Providers(ms[..i])
      invariant forall p :: p in buckets ==> buckets[p] == Total(Of(ms[..i], p))
      invariant Sum(buckets) == Total(ms[..i])
    {
      var m := ms[i];
      assert ms[..i + 1] == ms[..i] + [m];
      if m.provider !in buckets { NoneOf(ms[..i], m.provider); }
      var b := if m.provider in buckets then buckets[m.provider] else Empty();
      forall p ensures Total(Of(ms[..i + 1], p)) ==
                       if p == m.provider then AddTo(Total(Of(ms[..i], p)), m) else Total(Of(ms[..i], p))
      {
        OneMore(ms[..i], m, p);
      }
      SumAdds(buckets, m.provider, m);
      TotalAdds(ms[..i], m);
      buckets := buckets[m.provider := AddTo(b, m)];
    }
    assert ms[..|ms|] == ms;
  }

  lemma {:induction false} EmptySum()
    ensures Sum(map[]) == Empty() && Total([]) == Empty()
  {
  }

  lemma {:induction false} TotalAdds(ms: seq<Mailbox>, m: Mailbox)
    ensures Total(ms + [m]) == AddTo(Total(ms), m)
  {
    assert (ms + [m])[..|ms|] == ms;
  }

  lemma {:induction false} OneMore(ms: seq<Mailbox>, m: Mailbox, p: nat)
    ensures Total(Of(ms + [m], p)) == if p == m.provider then AddTo(Total(Of(ms, p)), m) else Total(Of(ms, p))
  {
    hide AddTo;
    var o := Of(ms, p);
    assert (ms + [m])[..|ms|] == ms;
    assert (o + [m])[..|o|] == o;
    assert o + [] == o;
  }

  lemma {:induction false} NoneOf(ms: seq<Mailbox>, p: nat)
    requires p !in Providers(ms)
    ensures Of(ms, p) == [] && Total(Of(ms, p)) == Empty()
  {
    if ms != [] {
      var n := |ms| - 1;
      assert ms[n] in ms && forall m :: m in ms[..n] ==> m in ms;
      NoneOf(ms[..n], p);
    }
  }

  datatype Standing = IsHealthy | IsRecovering | Stopped

  /** Paused by its phase or its status, in any other phase that is not healthy, or healthy. */
  function StandingOf(m: Mailbox): Standing {
    if m.statusPaused then Stopped
    else match m.phase
      case PausedPhase => Stopped
      case HealthyPhase => IsHealthy
      case OtherPhase => IsRecovering
  }

  function Standings(ms: seq<Mailbox>): seq<Standing> {
    seq(|ms|, i requires 0 <= i < |ms| => StandingOf(ms[i]))
  }

  /** A bucket counts every mailbox under its own standing. */
  lemma {:induction false} BucketCounts(ms: seq<Mailbox>)
    ensures var b, all := Total(ms), multiset(Standings(ms));
            b.healthy == all[IsHealthy] && b.inRecovery == all[IsRecovering] && b.paused == all[Stopped]
  {
    if ms != [] {
      var n := |ms| - 1;
      BucketCounts(ms[..n]);
      assert Standings(ms) == Standings(ms[..n]) + [StandingOf(ms[n])];
    }
  }

  /** In a bucket the three states partition the mailboxes, and the average score is a score. */
  lemma {:induction false} BucketBounds(ms: seq<Mailbox>)
    requires forall m :: m in ms ==> m.score <= 100
    ensures var b := Total(ms);
            && b.count == |ms| && b.healthy + b.inRecovery + b.paused == b.count
            && b.scoreSum <= 100 * b.count
            && (ms != [] ==> 0 <= AverageScore(b) <= 100)
  {
    if ms != [] {
      assert ms[|ms| - 1] in ms && forall m :: m in ms[..|ms| - 1] ==> m in ms;
      BucketBounds(ms[..|ms| - 1]);
      Averages(Total(ms));
    }
  }

  /** Math.round(sum / count) */
  function AverageScore(b: Bucket): int { if b.count > 0 then (2 * b.scoreSum + b.count) / (2 * b.count) else 0 }

  /** The average is the sum divided by the count, rounded half up. */
  lemma {:induction false} AverageIsRounded(b: Bucket)
    ensures b.count > 0 ==> 2 * b.scoreSum - b.count < 2 * (AverageScore(b) * b.count) <= 2 * b.scoreSum + b.count
    ensures b.count == 0 ==> AverageScore(b) == 0
  {
    if b.count == 0 { return; }
    var d := 2 * b.count;
    var x := 2 * b.scoreSum + b.count;
    var q := x / d;
    assert x == q * d + x % d && 0 <= x % d < d;
    assert q * d == 2 * (q * b.count);
  }

  lemma {:induction false} Quotient(x: nat, d: nat, q: nat)
    requires d > 0 && x < (q + 1) * d
    ensures 0 <= x / d <= q
  {
    var y := x / d;
    assert x == y * d + x % d;
    if y > q { Times(q + 1, y, d); }
  }

  lemma {:induction false} Times(a: nat, b: nat, d: nat)
    requires a <= b
    ensures a * d <= b * d
  {
  }

  lemma {:induction false} Averages(b: Bucket)
    requires b.count > 0 && b.scoreSum <= 100 * b.count
    ensures 0 <= AverageScore(b) <= 100
  {
    Quotient(2 * b.scoreSum + b.count, 2 * b.count, 100);
  }

  // ---- rates of sums ---------------------------------------------------------------------------

  /** a's bounce rate is at most b's, without dividing. */
  predicate RateLe(bounced: nat, sent: nat, bounced2: nat, sent2: nat) { bounced * sent2 <= bounced2 * sent }

  predicate SilentAreClean(ms: seq<Mailbox>) { forall m :: m in ms && m.sent == 0 ==> m.bounced == 0 }

  /** The bucket's bounce rate lies between those of its best and its worst sending mailbox. */
  lemma {:induction false} RateIsBetween(ms: seq<Mailbox>) returns (lo: Mailbox, hi: Mailbox)
    requires SilentAreClean(ms) && Total(ms).sent > 0
    ensures lo in ms && hi in ms && lo.sent > 0 && hi.sent > 0
    ensures RateLe(lo.bounced, lo.sent, Total(ms).bounced, Total(ms).sent)
    ensures RateLe(Total(ms).bounced, Total(ms).sent, hi.bounced, hi.sent)
  {
    var n := |ms| - 1;
    var m, rest := ms[n], ms[..n];
    var t := Total(rest);
    assert m in ms && forall q :: q in rest ==> q in ms;
    if t.sent == 0 {
      NoBouncesUnsent(rest);
      lo, hi := m, m;
    } else {
      lo, hi := RateIsBetween(rest);
      if m.sent > 0 {
        if m.bounced * t.sent <= t.bounced * m.sent {
          RateTrans(m.bounced, m.sent, t.bounced, t.sent, hi.bounced, hi.sent);
          if RateLe(m.bounced, m.sent, lo.bounced, lo.sent) { lo := m; }
        } else {
          RateTrans(lo.bounced, lo.sent, t.bounced, t.sent, m.bounced, m.sent);
          if RateLe(hi.bounced, hi.sent, m.bounced, m.sent) { hi := m; }
        }
        Mediant(lo, t, m);
        MediantHigh(hi, t, m);
      }
    }
  }

  lemma {:induction false} NoBouncesUnsent(ms: seq<Mailbox>)
    requires SilentAreClean(ms) && Total(ms).sent == 0
    ensures Total(ms).bounced == 0
  {
    if ms != [] {
      assert ms[|ms| - 1] in ms && forall q :: q in ms[..|ms| - 1] ==> q in ms;
      NoBouncesUnsent(ms[..|ms| - 1]);
    }
  }

  lemma {:induction false} RateTrans(a: nat, x: nat, b: nat, y: nat, c: nat, z: nat)
    requires y > 0 && RateLe(a, x, b, y) && RateLe(b, y, c, z)
    ensures RateLe(a, x, c, z)
  {
    calc {
      (a * z) * y;
      (a * y) * z;
    <= { Scale(a * y, b * x, z); }
      (b * x) * z;
      (b * z) * x;
    <= { Scale(b * z, c * y, x); }
      (c * y) * x;
      (c * x) * y;
    }
    if a * z > c * x { StrictScale(c * x, a * z, y); }
  }

  lemma {:induction false} Scale(a: nat, b: nat, k: nat)
    requires a <= b
    ensures a * k <= b * k
  {
  }

  lemma {:induction false} StrictScale(a: nat, b: nat, k: nat)
    requires a < b && k > 0
    ensures a * k < b * k
  {
  }

  lemma {:induction false} Mediant(lo: Mailbox, t: Bucket, m: Mailbox)
    requires RateLe(lo.bounced, lo.sent, t.bounced, t.sent) && RateLe(lo.bounced, lo.sent, m.bounced, m.sent)
    ensures RateLe(lo.bounced, lo.sent, t.bounced + m.bounced, t.sent + m.sent)
  {
    assert lo.bounced * (t.sent + m.sent) == lo.bounced * t.sent + lo.bounced * m.sent;
    assert (t.bounced + m.bounced) * lo.sent == t.bounced * lo.sent + m.bounced * lo.sent;
  }

  lemma {:induction false} MediantHigh(hi: Mailbox, t: Bucket, m: Mailbox)
    requires RateLe(t.bounced, t.sent, hi.bounced, hi.sent) && RateLe(m.bounced, m.sent, hi.bounced, hi.sent)
    ensures RateLe(t.bounced + m.bounced, t.sent + m.sent, hi.bounced, hi.sent)
  {
    assert hi.bounced * (t.sent + m.sent) == hi.bounced * t.sent + hi.bounced * m.sent;
    assert (t.bounced + m.bounced) * hi.sent == t.bounced * hi.sent + m.bounced * hi.sent;
  }

  // ---- delivered ---------------------------------------------------------------------------------

  function Delivered(sent: nat, bounced: nat): nat { Max0(sent - bounced) }

  function DeliveredSum(ms: seq<Mailbox>): nat {
    if ms == [] then 0
    else DeliveredSum(ms[..|ms| - 1]) + Delivered(ms[|ms| - 1].sent, ms[|ms| - 1].bounced)
  }

  /** Bounces beyond a mailbox's own sends. */
  function Excess(ms: seq<Mailbox>): nat {
    if ms == [] then 0 else Excess(ms[..|ms| - 1]) + Max0(ms[|ms| - 1].bounced - ms[|ms| - 1].sent)
  }

  lemma {:induction false} Balance(ms: seq<Mailbox>)
    ensures DeliveredSum(ms) - Excess(ms) == Total(ms).sent - Total(ms).bounced
  {
    if ms != [] { Balance(ms[..|ms| - 1]); }
  }

  lemma {:induction false} AllOrNone(ms: seq<Mailbox>)
    ensures DeliveredSum(ms) == 0 <==> forall m :: m in ms ==> m.sent <= m.bounced
    ensures Excess(ms) == 0 <==> forall m :: m in ms ==> m.bounced <= m.sent
  {
    if ms != [] {
      var rest, last := ms[..|ms| - 1], ms[|ms| - 1];
      AllOrNone(rest);
      assert forall m :: m in ms <==> m in rest || m == last;
    }
  }

  /** A bucket delivers at most what its mailboxes do, and as much exactly when no mailbox with bounces beyond its
   *  sends stands beside one that delivered. */
  lemma {:induction false} DeliveredIff(ms: seq<Mailbox>)
    ensures var b := Delivered(Total(ms).sent, Total(ms).bounced);
            && b <= DeliveredSum(ms)
            && (b == DeliveredSum(ms) <==>
                (forall m :: m in ms ==> m.bounced <= m.sent) || (forall m :: m in ms ==> m.sent <= m.bounced))
  {
    Balance(ms);
    AllOrNone(ms);
  }
}
