/** src/services/sendQueueService.ts, the branching engine: which step a lead due for step n is sent. */
module Sequence {
  import opened Prelude

  datatype Condition = Always | IfNoReply | IfReplied | IfOpened | IfNotOpened | IfClicked | IfNotClicked

  datatype Step = Step(number: int, condition: Condition, branch: Option<int>)

  /** What the conditions look at. */
  datatype Signals = Signals(replied: bool, opens: nat, clicks: nat)

  const HOPS: nat := 10

  predicate Matches(c: Condition, sig: Signals) {
    match c
    case Always => true
    case IfNoReply => !sig.replied
    case IfReplied => sig.replied
    case IfOpened => sig.opens > 0
    case IfNotOpened => sig.opens == 0
    case IfClicked => sig.clicks > 0
    case IfNotClicked => sig.clicks == 0
  }

  /** Reply, open and click conditions come in pairs of which exactly one holds, and say what they say. */
  lemma {:induction false} ConditionsMean(sig: Signals)
    ensures Matches(Always, sig)
    ensures Matches(IfReplied, sig) == sig.replied && Matches(IfNoReply, sig) == !sig.replied
    ensures Matches(IfOpened, sig) == (sig.opens >= 1) && Matches(IfNotOpened, sig) == (sig.opens == 0)
    ensures Matches(IfClicked, sig) == (sig.clicks >= 1) && Matches(IfNotClicked, sig) == (sig.clicks == 0)
  {
  }

  /** The first step with that number. */
  function Find(steps: seq<Step>, n: int): (r: Option<Step>)
    ensures r.Some? ==> r.value in steps && r.value.number == n
    ensures r.None? ==> forall st :: st in steps ==> st.number != n
  {
    if steps == [] then None
    else if steps[0].number == n then Some(steps[0])
    else Find(steps[1..], n)
  }

  predicate Deliverable(steps: seq<Step>, n: int, sig: Signals) {
    Find(steps, n).Some? && Matches(Find(steps, n).value.condition, sig)
  }

  /** Where the walk goes from n: only a failing step with a branch elsewhere leads on. */
  function Hop(steps: seq<Step>, n: int, sig: Signals): Option<int> {
    var f := Find(steps, n);
    if f.None? || Matches(f.value.condition, sig) || f.value.branch == Some(n) then None else f.value.branch
  }

  /** The number reached after k hops. */
  function Nth(steps: seq<Step>, start: int, sig: Signals, k: nat): Option<int> {
    if k == 0 then Some(start)
    else
      var m := Nth(steps, start, sig, k - 1);
      if m.None? then None else Hop(steps, m.value, sig)
  }

  /** k hops lead to a step that is sent. */
  predicate Reaches(steps: seq<Step>, start: int, sig: Signals, k: nat, st: Step) {
    var m := Nth(steps, start, sig, k);
    m.Some? && Deliverable(steps, m.value, sig) && Find(steps, m.value) == Some(st)
  }

  /** resolveDeliverableStep with the given number of visits allowed. */
  function Walk(steps: seq<Step>, start: int, sig: Signals, visits: nat): Option<Step>
    decreases visits
  {
    if visits == 0 || Find(steps, start).None? then None
    else if Matches(Find(steps, start).value.condition, sig) then Find(steps, start)
    else
      var next := Hop(steps, start, sig);
      if next.None? then None else Walk(steps, next.value, sig, visits - 1)
  }

  function Deliver(steps: seq<Step>, start: int, sig: Signals): Option<Step> { Walk(steps, start, sig, HOPS) }

  method ResolveDeliverableStep(startNumber: int, steps: seq<Step>, sig: Signals) returns (r: Option<Step>)
    ensures r == Deliver(steps, startNumber, sig)
  {
    var current, safety := startNumber, HOPS;
    while safety > 0
      invariant Walk(steps, startNumber, sig, HOPS) == Walk(steps, current, sig, safety)
    {
      safety := safety - 1;
      var i := 0;
      while i < |steps| && steps[i].number != current
        invariant i <= |steps| && Find(steps, current) == Find(steps[i..], current)
      {
        i := i + 1;
      }
      if i == |steps| { return None; }
      if Matches(steps[i].condition, sig) { return Some(steps[i]); }
      if steps[i].branch.None? || steps[i].branch.value == current { return None; }
      current := steps[i].branch.value;
    }
    return None;
  }

  // ---- what the walk finds -----------------------------------------------------

  lemma {:induction false} NthFromNext(steps: seq<Step>, start: int, sig: Signals, k: nat)
    requires Hop(steps, start, sig).Some?
    ensures Nth(steps, start, sig, k + 1) == Nth(steps, Hop(steps, start, sig).value, sig, k)
  {
    if k > 0 { NthFromNext(steps, start, sig, k - 1); }
  }

  lemma {:induction false} NoHopNoNth(steps: seq<Step>, start: int, sig: Signals, k: nat)
    requires Hop(steps, start, sig).None?
    ensures Nth(steps, start, sig, k + 1).None?
  {
    if k > 0 { NoHopNoNth(steps, start, sig, k - 1); }
  }

  /** The walk returns exactly the step that fewer than that many hops over failing steps reach. */
  lemma {:induction false} WalkIff(steps: seq<Step>, start: int, sig: Signals, visits: nat, st: Step)
    ensures Walk(steps, start, sig, visits) == Some(st) <==>
            exists k: nat :: k < visits && Reaches(steps, start, sig, k, st)
    decreases visits
  {
    var next := Hop(steps, start, sig);
    if visits > 0 {
      if Deliverable(steps, start, sig) {
        assert Reaches(steps, start, sig, 0, Find(steps, start).value);
        forall k: nat | k > 0 ensures !Reaches(steps, start, sig, k, st) { NoHopNoNth(steps, start, sig, k - 1); }
      } else if next.None? {
        forall k: nat | k > 0 ensures !Reaches(steps, start, sig, k, st) { NoHopNoNth(steps, start, sig, k - 1); }
      } else {
        WalkIff(steps, next.value, sig, visits - 1, st);
        forall k: nat ensures Reaches(steps, start, sig, k + 1, st) <==> Reaches(steps, next.value, sig, k, st) {
          NthFromNext(steps, start, sig, k);
        }
        forall k: nat | Reaches(steps, start, sig, k, st) ensures k > 0 && Reaches(steps, next.value, sig, k - 1, st) {
          if k > 0 { assert Reaches(steps, start, sig, (k - 1) + 1, st); }
        }
      }
    }
  }

  // ---- ten visits are enough for ten steps -----------------------------------------

  function Numbers(steps: seq<Step>): set<int> { set st | st in steps :: st.number }

  lemma {:induction false} Pigeonhole(f: seq<int>, s: set<int>) returns (i: nat, j: nat)
    requires |f| > |s| && forall k :: 0 <= k < |f| ==> f[k] in s
    ensures i < j < |f| && f[i] == f[j]
    decreases |f|
  {
    var n := |f| - 1;
    if a: nat :| a < n && f[a] == f[n] {
      return a, n;
    } else {
      i, j := Pigeonhole(f[..n], s - {f[n]});
    }
  }

  /** Two visits to one number repeat everything in between. */
  lemma {:induction false} Repeats(steps: seq<Step>, start: int, sig: Signals, i: nat, j: nat, d: nat)
    requires Nth(steps, start, sig, i) == Nth(steps, start, sig, j)
    ensures Nth(steps, start, sig, i + d) == Nth(steps, start, sig, j + d)
  {
    if d > 0 { Repeats(steps, start, sig, i, j, d - 1); }
  }

  lemma {:induction false} EarlierExists(steps: seq<Step>, start: int, sig: Signals, k: nat, i: nat)
    requires i <= k && Nth(steps, start, sig, k).Some?
    ensures Nth(steps, start, sig, i).Some?
    ensures i < k ==> Hop(steps, Nth(steps, start, sig, i).value, sig).Some?
    decreases k - i
  {
    if i < k { EarlierExists(steps, start, sig, k, i + 1); }
  }

  /** A step that is reached at all is reached in fewer hops than there are step numbers. */
  lemma {:induction false} ReachedSoon(steps: seq<Step>, start: int, sig: Signals, k: nat, st: Step)
    requires Reaches(steps, start, sig, k, st)
    ensures k < |Numbers(steps)|
  {
    forall i: nat | i <= k
      ensures Nth(steps, start, sig, i).Some? && Nth(steps, start, sig, i).value in Numbers(steps)
    {
      EarlierExists(steps, start, sig, k, i);
    }
    if k >= |Numbers(steps)| {
      var f := seq(k + 1, i requires 0 <= i <= k => Nth(steps, start, sig, i).value);
      var i, j := Pigeonhole(f, Numbers(steps));
      Repeats(steps, start, sig, i, j, k - j);
      EarlierExists(steps, start, sig, k, i + (k - j));
    }
  }

  /**
   * With at most ten step numbers the cap never changes the answer: a walk of any length would find the same step.
   * A walk that loops finds none either way.
   */
  lemma {:induction false} TenStepsNeedNoMore(steps: seq<Step>, start: int, sig: Signals, visits: nat)
    requires |Numbers(steps)| <= 10 <= visits
    ensures Walk(steps, start, sig, visits) == Deliver(steps, start, sig)
  {
    var far := Walk(steps, start, sig, visits);
    var near := Deliver(steps, start, sig);
    if far.Some? {
      WalkIff(steps, start, sig, visits, far.value);
      var k: nat :| k < visits && Reaches(steps, start, sig, k, far.value);
      ReachedSoon(steps, start, sig, k, far.value);
      WalkIff(steps, start, sig, HOPS, far.value);
    } else if near.Some? {
      WalkIff(steps, start, sig, HOPS, near.value);
      var k: nat :| k < HOPS && Reaches(steps, start, sig, k, near.value);
      WalkIff(steps, start, sig, visits, near.value);
    }
  }

  /** n failing steps, each branching to the next, then one that is always sent. */
  function Chain(n: nat): seq<Step> {
    seq(n + 1, i => if i < n then Step(i + 1, IfOpened, Some(i + 2)) else Step(i + 1, Always, None))
  }

  lemma {:induction false} FindAt(steps: seq<Step>, i: nat)
    requires i < |steps| && forall a, b :: 0 <= a < b < |steps| ==> steps[a].number != steps[b].number
    ensures Find(steps, steps[i].number) == Some(steps[i])
  {
    if i > 0 { FindAt(steps[1..], i - 1); }
  }

  lemma {:induction false} ChainNth(n: nat, k: nat)
    requires k <= n
    ensures Nth(Chain(n), 1, Signals(false, 0, 0), k) == Some(k + 1)
  {
    if k > 0 {
      ChainNth(n, k - 1);
      FindAt(Chain(n), k - 1);
    }
  }

  /** Ten is tight: an eleventh step at the end of a chain of ten failing ones is never sent. */
  lemma {:induction false} EleventhStepIsLost()
    ensures var sig := Signals(false, 0, 0);
            Deliver(Chain(10), 1, sig).None? && Walk(Chain(10), 1, sig, HOPS + 1) == Some(Step(11, Always, None))
  {
    var sig := Signals(false, 0, 0);
    ChainNth(10, 10);
    FindAt(Chain(10), 10);
    var last := Step(11, Always, None);
    assert Reaches(Chain(10), 1, sig, 10, last);
    WalkIff(Chain(10), 1, sig, HOPS + 1, last);
    var near := Deliver(Chain(10), 1, sig);
    if near.Some? {
      WalkIff(Chain(10), 1, sig, HOPS, near.value);
      var k: nat :| k < HOPS && Reaches(Chain(10), 1, sig, k, near.value);
      EarlierExists(Chain(10), 1, sig, 10, k);
    }
  }

  // ---- branches that only go forward ------------------------------------------------

  predicate BranchesForward(steps: seq<Step>) {
    forall st :: st in steps && st.branch.Some? ==> st.branch.value > st.number
  }

  /** Then the step that is sent is never before the one that was due. */
  lemma {:induction false} ForwardOnly(steps: seq<Step>, start: int, sig: Signals, visits: nat)
    requires BranchesForward(steps) && Walk(steps, start, sig, visits).Some?
    ensures Walk(steps, start, sig, visits).value in steps
    ensures Walk(steps, start, sig, visits).value.number >= start
    decreases visits
  {
    if !Matches(Find(steps, start).value.condition, sig) {
      ForwardOnly(steps, Hop(steps, start, sig).value, sig, visits - 1);
    }
  }
}
