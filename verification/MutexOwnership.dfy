/** Who has a mutex, told from the answers of the calls: mutual exclusion over every run. */
module MutexOwnership {
  import opened Lists
  import opened MutexModel
  import opened MutexPropagation
  import opened MutexLoopInvariants
  import opened MutexSteps
  import opened MutexRuns

  /** How often `t` holds `m`. */
  function Holds(g: Graph, t: nat, m: nat): nat
    requires m < |g.ms|
  {
    if g.ms[m].owner == Some(t) then g.ms[m].hold else 0
  }

  ghost predicate WaitsFor(g: Graph, t: nat, m: nat)
  {
    t < |g.ts| && g.ts[t].suspended && g.ts[t].pending == Some(m)
  }

  /** Every thread but `t` and `u` and every mutex but `m` are as they were. */
  ghost predicate OnlyMoves(g: Graph, g': Graph, t: nat, u: nat, m: nat)
  {
    && |g'.ts| == |g.ts| && |g'.ms| == |g.ms|
    && (forall x :: 0 <= x < |g.ts| && x != t && x != u ==> g'.ts[x] == g.ts[x])
    && (forall k :: 0 <= k < |g.ms| && k != m ==> g'.ms[k] == g.ms[k])
  }

  // ----- what a take answers -----

  /** Taken: one hold more.  Waiting: blocked on the mutex.  Timed out or full: nothing happened, because another thread
      has the mutex or the caller has it too often. */
  ghost predicate TakeTells(s: State, s': State, t: nat, m: nat, wait: bool, r: Outcome)
    requires m < |s.g.ms|
  {
    && OnlyMoves(s.g, s'.g, t, t, m)
    && (r == Taken <==> Holds(s'.g, t, m) == Holds(s.g, t, m) + 1)
    && (r == Waiting <==> WaitsFor(s'.g, t, m))
    && (r == TimedOut <==> s' == s && s.g.ms[m].owner.Some? && Holds(s.g, t, m) == 0)
    && (r == Full <==> s' == s && Holds(s.g, t, m) == HOLD_MAX)
    && (r == Waiting ==> wait && s'.g.ms == s.g.ms && s.g.ms[m].owner.Some?)
    && (r == TimedOut ==> !wait)
    && r != Released && r != NotOwner
    && (s.g.ms[m].owner.Some? ==> s'.g.ms[m].owner == s.g.ms[m].owner)
  }

  lemma TakeAnswers(s: State, t: nat, m: nat, wait: bool)
    requires Valid(s) && Active(s.g, t) && m < |s.g.ms|
    ensures var (s', r) := Take(s, t, m, wait); TakeTells(s, s', t, m, wait, r)
  {
    if s.g.ms[m].owner == Some(t) {
      NestedTakeIs(s, t, m, wait);
    } else {
      OtherTakeIs(s, t, m, wait);
      if s.g.ms[m].owner.None? {
        TakeFreeIs(s, t, m);
      } else if wait {
        TakeBlockIs(s, t, m);
      }
    }
  }

  // ----- what a release answers -----

  /** The mutex goes from `t` to `w`, the most urgent of those that waited for it. */
  ghost predicate PassesTo(s: State, s': State, t: nat, m: nat, w: nat)
    requires m < |s.g.ms| && |s.q.cur| == |s.g.ts|
  {
    && OnlyMoves(s.g, s'.g, t, w, m)
    && WaitsFor(s.g, w, m) && Active(s'.g, w) && Holds(s'.g, w, m) == 1
    && forall x :: 0 <= x < |s.g.ts| && WaitsFor(s.g, x, m) ==> s.q.cur[w] <= s.q.cur[x]
  }

  /** Released: one hold less; with the last one the mutex passes to a waiter, or nobody waited and it is free. */
  ghost predicate ReleaseTells(s: State, s': State, t: nat, m: nat, r: Outcome)
    requires m < |s.g.ms| && |s.q.cur| == |s.g.ts|
  {
    && |s'.g.ms| == |s.g.ms|
    && (r == Released <==> Holds(s'.g, t, m) == Holds(s.g, t, m) - 1)
    && (r == NotOwner <==> s' == s)
    && (r == NotOwner <==> Holds(s.g, t, m) == 0)
    && (r == Released || r == NotOwner)
    && (Holds(s.g, t, m) > 1 ==> OnlyMoves(s.g, s'.g, t, t, m) && s'.g.ms[m].owner == Some(t))
    && (Holds(s.g, t, m) == 1 ==>
          if exists w :: WaitsFor(s.g, w, m) then exists w :: PassesTo(s, s', t, m, w)
          else OnlyMoves(s.g, s'.g, t, t, m) && s'.g.ms[m].owner.None? && m < |s'.q.field| && s'.q.field[m] == NO_PRIO)
  }

  lemma ReleaseAnswers(s: State, t: nat, m: nat)
    requires Covered(s.g, s.q) && Active(s.g, t) && m < |s.g.ms|
    ensures var (s', r) := Release(s, t, m); ReleaseTells(s, s', t, m, r)
  {
    if s.g.ms[m].owner == Some(t) {
      if s.g.ms[m].hold > 1 {
        NestedReleaseIs(s, t, m);
      } else {
        LastReleaseIs(s, t, m);
        LastReleaseAnswers(s, t, m);
      }
    }
  }

  lemma WaitersAre(s: State, m: nat)
    requires Covered(s.g, s.q) && m < |s.g.ms|
    ensures forall x :: 0 <= x < |s.g.ts| ==> (x in s.q.waiters[m] <==> WaitsFor(s.g, x, m))
    ensures s.q.waiters[m] == [] <==> !exists w :: WaitsFor(s.g, w, m)
  {
    forall x | 0 <= x < |s.g.ts| ensures x in s.q.waiters[m] <==> WaitsFor(s.g, x, m) {
      if WaitsFor(s.g, x, m) { assert Blocked(s.g.ts[x]); }
    }
    if s.q.waiters[m] != [] {
      assert s.q.waiters[m][0] in s.q.waiters[m];
      assert WaitsFor(s.g, s.q.waiters[m][0], m);
    }
  }

  lemma LastReleaseAnswers(s: State, t: nat, m: nat)
    requires Covered(s.g, s.q) && Active(s.g, t) && m < |s.g.ms| && s.g.ms[m].owner == Some(t) && s.g.ms[m].hold == 1
    ensures var s1 := Disown(s, t, m);
            ReleaseTells(s, if s.q.waiters[m] != [] then HandOff(s1, m) else Vacate(s1, m), t, m, Released)
  {
    DisownIs(s, t, m);
    WaitersAre(s, m);
    if s.q.waiters[m] != [] {
      HandOffPasses(s, t, m);
    }
  }

  lemma HandOffPasses(s: State, t: nat, m: nat)
    requires Covered(s.g, s.q) && Active(s.g, t) && m < |s.g.ms| && s.g.ms[m].owner == Some(t) && s.q.waiters[m] != []
    ensures var s' := HandOff(Disown(s, t, m), m); PassesTo(s, s', t, m, s.q.waiters[m][0]) && Holds(s'.g, t, m) == 0
  {
    var w := s.q.waiters[m][0];
    DisownIs(s, t, m);
    HandOffIs(s, t, m, Disown(s, t, m).q.cur[t]);
    WaitersAre(s, m);
    SortedTail(s.q.cur, s.q.waiters[m]);
  }

  // ----- what the other calls leave alone -----

  /** A change of ceiling stores the new one and returns the old one, or is out of range and changes nothing. */
  lemma CeilingAnswers(s: State, m: nat, p: Prio)
    requires Valid(s) && m < |s.g.ms|
    ensures var (s', r) := SetCeiling(s, m, p);
            && s'.g.ts == s.g.ts && OnlyMoves(s.g, s'.g, 0, 0, m) && s'.g.ms[m].owner == s.g.ms[m].owner && s'.g.ms[m].hold == s.g.ms[m].hold
            && (p < s.levels ==> s'.g.ms[m].ceiling == p && r == s.g.ms[m].ceiling)
            && (p >= s.levels ==> s' == s && r == NO_PRIO)
  {
  }

  /** A timed-out thread waits no more, and after its clean-up it is back to normal; nobody else and no mutex is touched. */
  lemma TimeOutAnswers(s: State, t: nat)
    requires Valid(s) && t < |s.g.ts|
    ensures Blocked(s.g.ts[t]) ==>
              var s' := Expire(s, t); s'.g.ms == s.g.ms && OnlyMoves(s.g, s'.g, t, t, |s.g.ms|) && s'.g.ts[t] == s.g.ts[t].(suspended := false)
    ensures !s.g.ts[t].suspended && s.g.ts[t].pending.Some? ==>
              var s' := CleanUp(s, t); s'.g.ms == s.g.ms && OnlyMoves(s.g, s'.g, t, t, |s.g.ms|) && s'.g.ts[t] == s.g.ts[t].(pending := None)
  {
  }

  // ----- over runs -----

  /** The step ends a wait of `t` for `m` with success: it is a release, and `t` waits no more. */
  ghost predicate Granted(s: State, op: Op, t: nat, m: nat)
    requires Enabled(s, op)
  {
    op.ReleaseOp? && op.m == m && WaitsFor(s.g, t, m) && !WaitsFor(Step(s, op).g, t, m)
  }

  /** What a step tells `t` about `m`: a take that succeeds, at once or after a wait, or a release that does. */
  ghost function Credit(s: State, op: Op, t: nat, m: nat): int
    requires Enabled(s, op)
  {
    if op.TakeOp? && op.t == t && op.m == m && Take(s, t, m, op.wait).1 == Taken then 1
    else if op.ReleaseOp? && op.t == t && op.m == m && Release(s, t, m).1 == Released then -1
    else if Granted(s, op, t, m) then 1
    else 0
  }

  lemma TakeCredits(s: State, op: Op, t: nat, m: nat)
    requires Covered(s.g, s.q) && op.TakeOp? && Enabled(s, op) && m < |s.g.ms|
    ensures var s' := Step(s, op); |s'.g.ms| == |s.g.ms| && Holds(s'.g, t, m) == Holds(s.g, t, m) + Credit(s, op, t, m)
  {
    TakeAnswers(s, op.t, op.m, op.wait);
  }

  /** The same for a release by `x`, from what it tells. */
  lemma ReleasedCredits(s: State, s': State, x: nat, k: nat, r: Outcome, t: nat, m: nat)
    requires m < |s.g.ms| && k < |s.g.ms| && |s.q.cur| == |s.g.ts| && t < |s.g.ts| && Active(s.g, x) && ReleaseTells(s, s', x, k, r)
    ensures Holds(s'.g, t, m) == Holds(s.g, t, m) + if x == t && k == m && r == Released then -1
                                                    else if k == m && WaitsFor(s.g, t, m) && !WaitsFor(s'.g, t, m) then 1 else 0
  {
    if Holds(s.g, x, k) == 1 && exists w :: WaitsFor(s.g, w, k) {
      var w :| PassesTo(s, s', x, k, w);
      assert x != t && w != t ==> s'.g.ts[t] == s.g.ts[t];
    }
  }

  lemma ReleaseCredits(s: State, op: Op, t: nat, m: nat)
    requires Covered(s.g, s.q) && op.ReleaseOp? && Enabled(s, op) && m < |s.g.ms| && t < |s.g.ts|
    ensures var s' := Step(s, op); |s'.g.ms| == |s.g.ms| && Holds(s'.g, t, m) == Holds(s.g, t, m) + Credit(s, op, t, m)
  {
    ReleaseAnswers(s, op.t, op.m);
    ReleasedCredits(s, Step(s, op), op.t, op.m, Release(s, op.t, op.m).1, t, m);
  }

  /** A thread's holds change by exactly what it is told. */
  lemma StepCredits(s: State, op: Op, t: nat, m: nat)
    requires Covered(s.g, s.q) && Enabled(s, op) && m < |s.g.ms| && t < |s.g.ts|
    ensures var s' := Step(s, op);
            |s'.g.ms| == |s.g.ms| && |s'.g.ts| == |s.g.ts| && Holds(s'.g, t, m) == Holds(s.g, t, m) + Credit(s, op, t, m)
  {
    match op
    case TakeOp(_, _, _) => TakeCredits(s, op, t, m);
    case ReleaseOp(_, _) => ReleaseCredits(s, op, t, m);
    case CeilingOp(k, p) => CeilingAnswers(s, k, p);
    case ExpireOp(x) => TimeOutAnswers(s, x);
    case CleanUpOp(x) => TimeOutAnswers(s, x);
    case TimeOutOp(x) => ExpireWF(s, x); TimeOutAnswers(s, x); TimeOutAnswers(Expire(s, x), x);
    case SleepOp(_) =>
    case WakeOp(_) =>
  }

  /** All that `t` has been told about `m` in the first `i` steps. */
  ghost function Account(ss: seq<State>, ops: seq<Op>, i: nat, t: nat, m: nat): int
    requires Run(ss, ops) && i <= |ops|
  {
    if i == 0 then 0
    else
      assert StepAt(ss, ops, i - 1);
      Account(ss, ops, i - 1, t, m) + Credit(ss[i - 1], ops[i - 1], t, m)
  }

  /** In every run a thread holds a mutex as often as its successful takes exceed its successful releases. */
  lemma {:induction false} HoldsAccount(ss: seq<State>, ops: seq<Op>, i: nat, t: nat, m: nat)
    requires Run(ss, ops) && i <= |ops| && t < |ss[0].g.ts| && m < |ss[0].g.ms|
    ensures |ss[i].g.ts| == |ss[0].g.ts| && |ss[i].g.ms| == |ss[0].g.ms| && Holds(ss[i].g, t, m) == Account(ss, ops, i, t, m)
  {
    if i > 0 {
      HoldsAccount(ss, ops, i - 1, t, m);
      RunCovered(ss, ops, i - 1);
      assert StepAt(ss, ops, i - 1);
      StepCredits(ss[i - 1], ops[i - 1], t, m);
    }
  }

  /** Mutual exclusion: as long as `t` has been told of more takes of `m` than releases, it is the owner, no other thread
      has, and a step after which that is still so tells no other thread that it has taken `m`. */
  lemma MutualExclusion(ss: seq<State>, ops: seq<Op>, i: nat, t: nat, u: nat, m: nat)
    requires Run(ss, ops) && i <= |ops| && t < |ss[0].g.ts| && u < |ss[0].g.ts| && t != u && m < |ss[0].g.ms|
    requires Account(ss, ops, i, t, m) > 0
    ensures m < |ss[i].g.ms| && ss[i].g.ms[m].owner == Some(t) && Account(ss, ops, i, u, m) == 0
    ensures i < |ops| && Account(ss, ops, i + 1, t, m) > 0 ==> StepAt(ss, ops, i) && Credit(ss[i], ops[i], u, m) == 0
  {
    HoldsAccount(ss, ops, i, t, m);
    HoldsAccount(ss, ops, i, u, m);
    if i < |ops| {
      assert StepAt(ss, ops, i);
      HoldsAccount(ss, ops, i + 1, t, m);
      HoldsAccount(ss, ops, i + 1, u, m);
    }
  }
}
