/**
 * The lock around the held-lead cycle (src/processor.ts, src/utils/redis.ts): one key, set if absent with
 * an expiry, deleted by key alone, shared by every instance and by overlapping timer ticks of one instance.
 */
module ProcessorLock {
  import opened Prelude

  const TTL: nat := 60000

  /** `key` is the lock's expiry; `bodies` are the cycle bodies now running, with their start. */
  datatype System = System(now: nat, key: Option<nat>, bodies: map<nat, nat>)

  datatype Step =
    | Tick(ms: nat)
    | Acquire(id: nat, redisUp: bool)  // a timer tick tries to start a cycle
    | Finish(id: nat, redisUp: bool)   // the finally block
    | Crash(id: nat)                   // the process dies inside the body

  predicate Legal(s: System, step: Step) {
    match step
    case Tick(_) => true
    case Acquire(id, _) => id !in s.bodies
    case Finish(id, _) => id in s.bodies
    case Crash(id) => id in s.bodies
  }

  predicate KeyLive(s: System) { s.key.Some? && s.now < s.key.value }

  function Next(s: System, step: Step): System
    requires Legal(s, step)
  {
    match step
    case Tick(ms) => s.(now := s.now + ms)
    case Acquire(id, redisUp) =>
      if redisUp && !KeyLive(s) then s.(key := Some(s.now + TTL), bodies := s.bodies[id := s.now]) else s
    case Finish(id, redisUp) => System(s.now, if redisUp then None else s.key, s.bodies - {id})
    case Crash(id) => s.(bodies := s.bodies - {id})
  }

  const INIT: System := System(0, None, map[])

  ghost predicate IsRun(states: seq<System>, steps: seq<Step>) {
    && |states| == |steps| + 1 && states[0] == INIT
    && forall i :: 0 <= i < |steps| ==> Legal(states[i], steps[i]) && states[i + 1] == Next(states[i], steps[i])
  }

  /** At most one body runs. */
  predicate Exclusive(s: System) { forall p, q :: p in s.bodies && q in s.bodies ==> p == q }

  /** Someone tries to start a cycle while a body older than the lock's lifetime is still running. */
  predicate LateAttempt(s: System, step: Step) {
    step.Acquire? && step.redisUp && exists q :: q in s.bodies && s.bodies[q] + 60000 <= s.now
  }

  /** The running body's own key is still the one that is set. */
  predicate Guarded(s: System) {
    && Exclusive(s)
    && forall q :: q in s.bodies ==> s.bodies[q] <= s.now && s.key == Some(s.bodies[q] + TTL)
  }

  lemma {:induction false} StepGuards(s: System, step: Step)
    requires Guarded(s) && Legal(s, step)
    ensures LateAttempt(s, step) ==> !Exclusive(Next(s, step))
    ensures !LateAttempt(s, step) ==> Guarded(Next(s, step))
  {
    if LateAttempt(s, step) {
      var q :| q in s.bodies && s.bodies[q] + TTL <= s.now;
      assert q in Next(s, step).bodies && step.id in Next(s, step).bodies;
    }
  }

  predicate AllExclusive(states: seq<System>) { forall i :: 0 <= i < |states| ==> Exclusive(states[i]) }

  predicate NeverLate(states: seq<System>, steps: seq<Step>)
    requires |states| == |steps| + 1
  {
    forall i :: 0 <= i < |steps| ==> !LateAttempt(states[i], steps[i])
  }

  lemma {:induction false} LastStep(states: seq<System>, steps: seq<Step>, n: nat)
    requires IsRun(states, steps) && |steps| == n + 1
    ensures IsRun(states[..n + 1], steps[..n])
    ensures AllExclusive(states) <==> AllExclusive(states[..n + 1]) && Exclusive(states[n + 1])
    ensures NeverLate(states, steps) <==>
            NeverLate(states[..n + 1], steps[..n]) && !LateAttempt(states[n], steps[n])
  {
    var before, sooner := states[..n + 1], steps[..n];
    assert states == before + [states[n + 1]] && steps == sooner + [steps[n]];
    assert before[n] == states[n];
  }

  /** In every run: at most one body at a time, exactly when nobody tries to start past a body's 60 s. */
  lemma {:induction false} ExclusiveIff(states: seq<System>, steps: seq<Step>)
    requires IsRun(states, steps)
    ensures AllExclusive(states) <==> NeverLate(states, steps)
    ensures AllExclusive(states) ==> Guarded(states[|steps|])
    decreases |steps|
  {
    if steps != [] {
      var n := |steps| - 1;
      LastStep(states, steps, n);
      ExclusiveIff(states[..n + 1], steps[..n]);
      if AllExclusive(states[..n + 1]) {
        assert states[..n + 1][n] == states[n];
        StepGuards(states[n], steps[n]);
      }
    }
  }

  /** While every body ends before the lock expires, at most one runs. */
  lemma {:induction false} TimelyCyclesExclude(states: seq<System>, steps: seq<Step>)
    requires IsRun(states, steps)
    requires forall i, q :: 0 <= i < |states| && q in states[i].bodies ==> states[i].now < states[i].bodies[q] + 60000
    ensures AllExclusive(states)
  {
    ExclusiveIff(states, steps);
  }

  function Play(s: System, steps: seq<Step>): Option<System>
    decreases |steps|
  {
    if steps == [] then Some(s)
    else if Legal(s, steps[0]) then Play(Next(s, steps[0]), steps[1..])
    else None
  }

  /**
   * One overrun is enough for two bodies that are both within their 60 s: the late body's release deletes
   * the key of the body that started after it.
   */
  lemma {:induction false} OverrunFreesTheNextBody()
    ensures Play(INIT, [Acquire(1, true), Tick(TTL), Acquire(2, true), Finish(1, true), Acquire(3, true)])
         == Some(System(TTL, Some(TTL + TTL), map[2 := TTL, 3 := TTL]))
  {
    var s1 := System(0, Some(TTL), map[1 := 0]);
    var s2 := System(TTL, Some(TTL), map[1 := 0]);
    var s3 := System(TTL, Some(TTL + TTL), map[1 := 0, 2 := TTL]);
    var s4 := System(TTL, None, map[2 := TTL]);
    var last := System(TTL, Some(TTL + TTL), map[2 := TTL, 3 := TTL]);
    assert Next(INIT, Acquire(1, true)) == s1;
    assert Next(s3, Finish(1, true)) == s4;
    assert Play(last, []) == Some(last);
    assert Play(s4, [Acquire(3, true)]) == Some(last);
    assert [Finish(1, true), Acquire(3, true)][1..] == [Acquire(3, true)];
    assert Play(s3, [Finish(1, true), Acquire(3, true)]) == Some(last);
    var rest := [Acquire(2, true), Finish(1, true), Acquire(3, true)];
    assert rest[1..] == [Finish(1, true), Acquire(3, true)];
    assert Play(s2, rest) == Some(last);
    var more := [Tick(TTL)] + rest;
    assert more[1..] == rest;
    assert Play(s1, more) == Some(last);
    var all := [Acquire(1, true)] + more;
    assert all[1..] == more;
    assert all == [Acquire(1, true), Tick(TTL), Acquire(2, true), Finish(1, true), Acquire(3, true)];
  }

  /** A crash ends the body and keeps its key: until that expires nobody starts, and a clean finish frees it at once. */
  lemma {:induction false} CrashKeepsKey(s: System, id: nat, other: nat)
    requires id in s.bodies && other !in s.bodies
    ensures var t := Next(s, Crash(id));
            && t.bodies == s.bodies - {id} && t.key == s.key && t.now == s.now
            && (other in Next(t, Acquire(other, true)).bodies <==> s.key.None? || s.key.value <= s.now)
    ensures var t := Next(s, Finish(id, true));
            t.bodies == s.bodies - {id} && t.key == None && other in Next(t, Acquire(other, true)).bodies
  {
  }

  /** A key left behind, by a crash or a failed release, blocks nobody for longer than its lifetime. */
  lemma {:induction false} LeftoverKeyExpires(states: seq<System>, steps: seq<Step>, ms: nat, id: nat)
    requires IsRun(states, steps) && ms >= 60000 && id !in states[|steps|].bodies
    ensures var later := states[|steps|].(now := states[|steps|].now + ms);
            id in Next(later, Acquire(id, true)).bodies
  {
    KeyIsShort(states, steps);
  }

  lemma {:induction false} KeyIsShort(states: seq<System>, steps: seq<Step>)
    requires IsRun(states, steps)
    ensures var s := states[|steps|]; s.key.Some? ==> s.key.value <= s.now + 60000
    decreases |steps|
  {
    if steps != [] {
      var n := |steps| - 1;
      assert IsRun(states[..n + 1], steps[..n]);
      KeyIsShort(states[..n + 1], steps[..n]);
    }
  }
}
