/** src/controllers/aiGenerateController.ts: the per-organization limiter and the sequence budget. */
module RateLimit {
  import opened Prelude

  const LIMIT: nat := 15
  const WINDOW: nat := 60000

  datatype Slot = Slot(windowStart: nat, count: nat)

  /** One call for one organization: the slot it leaves, and whether it is granted. */
  function Check(slot: Option<Slot>, now: nat): (Slot, bool) {
    if slot.None? || now - slot.value.windowStart > WINDOW then (Slot(now, 1), true)
    else if slot.value.count >= LIMIT then (slot.value, false)
    else (Slot(slot.value.windowStart, slot.value.count + 1), true)
  }

  /** ceil((60_000 - elapsed) / 1000) */
  function RetryAfterSec(slot: Slot, now: nat): int { (WINDOW - (now - slot.windowStart) + 999) / 1000 }

  /** The Retry-After header: a zero falls back to 60. */
  function RetryHeader(sec: int): int { if sec == 0 then 60 else sec }

  datatype Call = Call(org: nat, at: nat)

  predicate Ordered(calls: seq<Call>) { forall i, j :: 0 <= i < j < |calls| ==> calls[i].at <= calls[j].at }

  function SlotOf(slots: map<nat, Slot>, org: nat): Option<Slot> { if org in slots then Some(slots[org]) else None }

  /** The window map after a run of calls. */
  function Slots(calls: seq<Call>): map<nat, Slot>
    decreases |calls|
  {
    if calls == [] then map[]
    else
      var n := |calls| - 1;
      var s := Slots(calls[..n]);
      s[calls[n].org := Check(SlotOf(s, calls[n].org), calls[n].at).0]
  }

  /** For one organization: the times of its granted calls, in order, and which of those grants opened a window. */
  function Track(calls: seq<Call>, org: nat): (seq<nat>, set<nat>)
    decreases |calls|
  {
    if calls == [] then ([], {})
    else
      var n := |calls| - 1;
      var (g, opens) := Track(calls[..n], org);
      var (after, ok) := Check(SlotOf(Slots(calls[..n]), org), calls[n].at);
      if calls[n].org != org || !ok then (g, opens)
      else (g + [calls[n].at], if after.count == 1 then opens + {|g|} else opens)
  }

  function Grants(calls: seq<Call>, org: nat): seq<nat> { Track(calls, org).0 }

  // ---- what every run keeps ----------------------------------------------------

  predicate AllBy(g: seq<nat>, t: nat) { forall i :: 0 <= i < |g| ==> g[i] <= t }

  predicate Sorted(g: seq<nat>) { forall i, j :: 0 <= i < j < |g| ==> g[i] <= g[j] }

  /** The slot is the last window: it began with the last opening grant and counts the grants since. */
  predicate Remembers(slot: Option<Slot>, g: seq<nat>, opens: set<nat>) {
    match slot
    case None => g == [] && opens == {}
    case Some(s) =>
      && 0 < s.count <= LIMIT && s.count <= |g|
      && g[|g| - s.count] == s.windowStart
      && |g| - s.count in opens && forall o :: o in opens ==> o <= |g| - s.count
  }

  /** Windows open more than 60 s apart. */
  predicate Apart(g: seq<nat>, opens: set<nat>) {
    && (forall o :: o in opens ==> o < |g|)
    && (forall o, p :: o in opens && p in opens && o < p ==> g[o] + WINDOW < g[p])
  }

  predicate OpensNear(opens: set<nat>, i: int) { exists o :: o in opens && i <= o < i + LIMIT }

  /** Any 15 grants in a row include one that opened a window. */
  predicate Dense(g: seq<nat>, opens: set<nat>) {
    forall i :: 0 <= i && i + LIMIT <= |g| ==> OpensNear(opens, i)
  }

  predicate Tracks(slot: Option<Slot>, g: seq<nat>, opens: set<nat>) {
    Remembers(slot, g, opens) && Apart(g, opens) && Dense(g, opens) && Sorted(g)
  }

  lemma {:induction false} GrantKeeps(slot: Option<Slot>, g: seq<nat>, opens: set<nat>, now: nat)
    requires Tracks(slot, g, opens) && AllBy(g, now)
    requires Check(slot, now).1
    ensures var after := Check(slot, now).0;
            Tracks(Some(after), g + [now], if after.count == 1 then opens + {|g|} else opens)
  {
    var after := Check(slot, now).0;
    var o := if after.count == 1 then opens + {|g|} else opens;
    var h := g + [now];
    forall i | 0 <= i && i + LIMIT <= |h| ensures OpensNear(o, i) {
      if i + LIMIT <= |g| {
        assert OpensNear(opens, i);
        var p :| p in opens && i <= p < i + LIMIT;
        assert p in o;
      } else {
        assert |h| - after.count in o;
      }
    }
  }

  predicate UpTo(calls: seq<Call>, t: nat) { forall i :: 0 <= i < |calls| ==> calls[i].at <= t }

  /** In every run the slot is exactly the organization's last window, and windows never overlap. */
  lemma {:induction false} SlotIsLastWindow(calls: seq<Call>, org: nat, now: nat)
    requires Ordered(calls) && UpTo(calls, now)
    ensures var (g, opens) := Track(calls, org); Tracks(SlotOf(Slots(calls), org), g, opens)
    ensures AllBy(Track(calls, org).0, now)
    decreases |calls|
  {
    if calls != [] {
      var n := |calls| - 1;
      SlotIsLastWindow(calls[..n], org, calls[n].at);
      var (g, opens) := Track(calls[..n], org);
      if calls[n].org == org && Check(SlotOf(Slots(calls[..n]), org), calls[n].at).1 {
        GrantKeeps(SlotOf(Slots(calls[..n]), org), g, opens, calls[n].at);
      }
    }
  }

  lemma {:induction false} SlotBounded(calls: seq<Call>, org: nat, now: nat)
    requires Ordered(calls) && UpTo(calls, now) && org in Slots(calls)
    ensures 0 < Slots(calls)[org].count <= LIMIT && Slots(calls)[org].windowStart <= now
  {
    SlotIsLastWindow(calls, org, now);
    assert Some(Slots(calls)[org]) == SlotOf(Slots(calls), org);
  }

  /** One more call. */
  lemma {:induction false} Extend(calls: seq<Call>, c: Call, org: nat)
    ensures Slots(calls + [c]) == Slots(calls)[c.org := Check(SlotOf(Slots(calls), c.org), c.at).0]
    ensures Grants(calls + [c], org) ==
            Grants(calls, org) + if c.org == org && Check(SlotOf(Slots(calls), org), c.at).1 then [c.at] else []
  {
    var d := calls + [c];
    assert d[..|d| - 1] == calls;
  }

  // ---- the rate ----------------------------------------------------------------

  lemma {:induction false} GrantsAreSorted(calls: seq<Call>, org: nat)
    requires Ordered(calls)
    ensures var (g, opens) := Track(calls, org); Apart(g, opens) && Dense(g, opens) && Sorted(g)
  {
    SlotIsLastWindow(calls, org, if calls == [] then 0 else calls[|calls| - 1].at);
  }

  /** Any 30 grants in a row span more than 60 s. */
  lemma {:induction false} ThirtyGrantsSpan(calls: seq<Call>, org: nat, i: nat)
    requires Ordered(calls) && i + 2 * LIMIT <= |Grants(calls, org)|
    ensures Grants(calls, org)[i] + WINDOW < Grants(calls, org)[i + 2 * LIMIT - 1]
  {
    GrantsAreSorted(calls, org);
    var (g, opens) := Track(calls, org);
    assert OpensNear(opens, i);
    var o :| o in opens && i <= o < i + LIMIT;
    assert OpensNear(opens, o + 1);
    var p :| p in opens && o + 1 <= p < o + 1 + LIMIT;
    assert g[i] <= g[o] || i == o;
    assert g[p] <= g[i + 2 * LIMIT - 1] || p == i + 2 * LIMIT - 1;
  }

  function Within(g: seq<nat>, a: nat): set<nat> { set i | 0 <= i < |g| && a <= g[i] <= a + WINDOW }

  lemma {:induction false} RangeSize(s: set<nat>, lo: nat, n: nat)
    requires forall i :: i in s ==> lo <= i < lo + n
    ensures |s| <= n
    ensures (forall i :: lo <= i < lo + n ==> i in s) ==> |s| == n
  {
    if n > 0 {
      RangeSize(s - {lo + n - 1}, lo, n - 1);
    } else {
      assert s == {};
    }
  }

  lemma {:induction false} Least(s: set<nat>) returns (m: nat)
    requires s != {}
    ensures m in s && forall i :: i in s ==> m <= i
    decreases |s|
  {
    m :| m in s;
    var rest := s - {m};
    assert forall i :: i in s ==> i == m || i in rest;
    if rest != {} {
      var k := Least(rest);
      if k < m { m := k; }
    }
  }

  /** Whatever the calls, no closed interval of 60 000 ms holds more than 29 grants of one organization. */
  lemma {:induction false} AtMost29(calls: seq<Call>, org: nat, a: nat)
    requires Ordered(calls)
    ensures |Within(Grants(calls, org), a)| <= 29
  {
    GrantsAreSorted(calls, org);
    var g := Grants(calls, org);
    var s := Within(g, a);
    if s != {} {
      var lo := Least(s);
      forall i | i in s ensures lo <= i < lo + (2 * LIMIT - 1) {
        if i >= lo + (2 * LIMIT - 1) {
          ThirtyGrantsSpan(calls, org, lo);
        }
      }
      RangeSize(s, lo, 2 * LIMIT - 1);
    }
  }

  /** k calls of one organization at one instant. */
  function Burst(org: nat, at: nat, k: nat): seq<Call> { seq(k, _ => Call(org, at)) }

  function Copies(at: nat, k: nat): seq<nat> { seq(k, _ => at) }

  lemma {:induction false} BurstIsGranted(calls: seq<Call>, org: nat, at: nat, k: nat)
    requires org in Slots(calls)
    requires at - Slots(calls)[org].windowStart <= WINDOW && Slots(calls)[org].count + k <= LIMIT
    ensures var c := calls + Burst(org, at, k);
            && org in Slots(c) && Slots(c)[org] == Slots(calls)[org].(count := Slots(calls)[org].count + k)
            && Grants(c, org) == Grants(calls, org) + Copies(at, k)
  {
    if k == 0 {
      assert calls + Burst(org, at, k) == calls;
    } else {
      BurstIsGranted(calls, org, at, k - 1);
      assert calls + Burst(org, at, k) == (calls + Burst(org, at, k - 1)) + [Call(org, at)];
      Extend(calls + Burst(org, at, k - 1), Call(org, at), org);
      assert Copies(at, k) == Copies(at, k - 1) + [at];
    }
  }

  /** 29 is reached: one call at 0, fourteen at 1 ms, fifteen at 60 001 ms. */
  lemma {:induction false} TwentyNineIsReached(org: nat)
    ensures var calls := [Call(org, 0)] + Burst(org, 1, 14) + [Call(org, 60001)] + Burst(org, 60001, 14);
            Ordered(calls) && |Within(Grants(calls, org), 1)| == 29
  {
    var a := [Call(org, 0)];
    assert a == [] + [Call(org, 0)];
    Extend([], Call(org, 0), org);
    BurstIsGranted(a, org, 1, 14);
    var b := a + Burst(org, 1, 14);
    var c := b + [Call(org, 60001)];
    Extend(b, Call(org, 60001), org);
    BurstIsGranted(c, org, 60001, 14);
    var g := Grants(c + Burst(org, 60001, 14), org);
    assert g == [0] + Copies(1, 14) + [60001] + Copies(60001, 14);
    RangeSize(Within(g, 1), 1, 29);
  }

  // ---- organizations do not share a window ---------------------------------------

  function Only(calls: seq<Call>, org: nat): seq<Call>
    decreases |calls|
  {
    if calls == [] then []
    else
      var n := |calls| - 1;
      if calls[n].org == org then Only(calls[..n], org) + [calls[n]] else Only(calls[..n], org)
  }

  /** An organization's slot and grants are those of the run with everybody else's calls left out. */
  lemma {:induction false} OrgsAreIndependent(calls: seq<Call>, org: nat)
    ensures SlotOf(Slots(calls), org) == SlotOf(Slots(Only(calls, org)), org)
    ensures Track(calls, org) == Track(Only(calls, org), org)
    decreases |calls|
  {
    if calls != [] {
      var n := |calls| - 1;
      OrgsAreIndependent(calls[..n], org);
      var o := Only(calls, org);
      if calls[n].org == org {
        assert o[..|o| - 1] == Only(calls[..n], org);
      }
    }
  }

  // ---- waiting as told -----------------------------------------------------------

  /**
   * A refused caller that waits exactly the Retry-After header and finds the slot untouched is admitted
   * except when the window had a positive whole number of seconds left: the reset test is strict.
   */
  lemma {:induction false} WaitingIsEnoughIff(slot: Slot, now: nat)
    requires slot.windowStart <= now && !Check(Some(slot), now).1
    ensures var left := WINDOW - (now - slot.windowStart);
            var wait := RetryHeader(RetryAfterSec(slot, now));
            && 0 <= left && 0 < wait <= 60
            && (Check(Some(slot), now + 1000 * wait).1 <==> left == 0 || left % 1000 != 0)
  {
    var left := WINDOW - (now - slot.windowStart);
    assert left == 1000 * (left / 1000) + left % 1000;
    if left % 1000 == 0 {
      assert (left + 999) / 1000 == left / 1000;
    } else {
      assert (left + 999) / 1000 == left / 1000 + 1;
    }
  }

  // ---- the limiter itself ----------------------------------------------------------

  function CallsAt(org: nat, clock: seq<nat>): seq<Call> { seq(|clock|, i requires 0 <= i < |clock| => Call(org, clock[i])) }

  predicate ClockRuns(clock: seq<nat>) { forall i, j :: 0 <= i < j < |clock| ==> clock[i] <= clock[j] }

  /** The window that now falls in has no grant left. */
  predicate Full(slots: map<nat, Slot>, org: nat, now: nat) {
    org in slots && slots[org].count == LIMIT && slots[org].windowStart <= now <= slots[org].windowStart + WINDOW
  }

  /** The window map, kept for the life of the process. */
  class Limiter {
    var windowState: map<nat, Slot>
    ghost var history: seq<Call>

    ghost predicate Valid()
      reads this
    {
      Ordered(history) && windowState == Slots(history)
    }

    constructor ()
      ensures Valid() && history == []
    {
      windowState, history := map[], [];
    }

    /** One generation: at most 15 grants per window, and a grant is the only thing that changes the slot. */
    method CheckRateLimit(org: nat, now: nat) returns (ok: bool, retryAfterSec: int)
      requires Valid() && UpTo(history, now)
      modifies this
      ensures Valid() && history == old(history) + [Call(org, now)]
      ensures Grants(history, org) == old(Grants(history, org)) + if ok then [now] else []
      ensures !ok ==> windowState == old(windowState) && Full(windowState, org, now) &&
                      retryAfterSec == RetryAfterSec(windowState[org], now)
      ensures forall o :: o != org ==> SlotOf(windowState, o) == SlotOf(old(windowState), o)
    {
      hide Slots, Track;
      if org in windowState { SlotBounded(history, org, now); }
      Extend(history, Call(org, now), org);
      history := history + [Call(org, now)];
      ok, retryAfterSec := true, 0;
      if org !in windowState || now - windowState[org].windowStart > WINDOW {
        windowState := windowState[org := Slot(now, 1)];
      } else if windowState[org].count >= LIMIT {
        ok, retryAfterSec := false, RetryAfterSec(windowState[org], now);
        assert windowState[org := windowState[org]] == windowState;
      } else {
        var slot := windowState[org];
        windowState := windowState[org := slot.(count := slot.count + 1)];
      }
    }

    /**
     * generateSequence's budget: one call a step, each reading the clock, stopping at the first refusal.
     * What was granted before a refusal stays spent, and the refusal leaves the window full.
     */
    method SpendBudget(org: nat, clock: seq<nat>) returns (ok: bool, spent: nat)
      requires Valid() && ClockRuns(clock) && (clock != [] ==> UpTo(history, clock[0]))
      modifies this
      ensures Valid() && spent <= |clock| && (ok <==> spent == |clock|)
      ensures history == old(history) + CallsAt(org, clock[..if ok then spent else spent + 1])
      ensures Grants(history, org) == old(Grants(history, org)) + clock[..spent]
      ensures !ok ==> Full(windowState, org, clock[spent])
      ensures forall o :: o != org ==> SlotOf(windowState, o) == SlotOf(old(windowState), o)
    {
      hide Slots, Track, Ordered, Check, Grants;
      ok, spent := true, 0;
      while ok && spent < |clock|
        invariant Valid() && spent <= |clock|
        invariant ok && spent < |clock| ==> UpTo(history, clock[spent])
        invariant !ok ==> spent < |clock| && Full(windowState, org, clock[spent])
        invariant history == old(history) + CallsAt(org, clock[..if ok then spent else spent + 1])
        invariant Grants(history, org) == old(Grants(history, org)) + clock[..spent]
        invariant forall o :: o != org ==> SlotOf(windowState, o) == SlotOf(old(windowState), o)
        decreases |clock| - spent, ok
      {
        var wait;
        ok, wait := CheckRateLimit(org, clock[spent]);
        assert clock[..spent + 1] == clock[..spent] + [clock[spent]];
        assert CallsAt(org, clock[..spent + 1]) == CallsAt(org, clock[..spent]) + [Call(org, clock[spent])];
        if ok { spent := spent + 1; }
      }
    }
  }
}
