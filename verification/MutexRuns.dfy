/** Runs of the mutex operations: the inheritance theorems over every reachable state. */
module MutexRuns {
  import opened Lists
  import opened MutexModel
  import opened MutexPropagation
  import opened MutexLoopInvariants
  import opened MutexSteps

  datatype Op =
    | TakeOp(t: nat, m: nat, wait: bool)
    | ReleaseOp(t: nat, m: nat)
    | CeilingOp(m: nat, p: Prio)
    | ExpireOp(t: nat)
    | CleanUpOp(t: nat)
    | TimeOutOp(t: nat)
    | SleepOp(t: nat)
    | WakeOp(t: nat)

  ghost predicate Enabled(s: State, op: Op)
  {
    && Valid(s)
    && match op
       case TakeOp(t, m, _) => Active(s.g, t) && m < |s.g.ms|
       case ReleaseOp(t, m) => Active(s.g, t) && m < |s.g.ms|
       case CeilingOp(m, _) => m < |s.g.ms|
       case ExpireOp(t) => t < |s.g.ts| && Blocked(s.g.ts[t])
       case CleanUpOp(t) => t < |s.g.ts| && !s.g.ts[t].suspended && s.g.ts[t].pending.Some?
       case TimeOutOp(t) => t < |s.g.ts| && Blocked(s.g.ts[t])
       case SleepOp(t) => Active(s.g, t)
       case WakeOp(t) => t < |s.g.ts| && s.g.ts[t].suspended && s.g.ts[t].pending.None?
  }

  function Step(s: State, op: Op): State
    requires Enabled(s, op)
  {
    match op
    case TakeOp(t, m, wait) => Take(s, t, m, wait).0
    case ReleaseOp(t, m) => Release(s, t, m).0
    case CeilingOp(m, p) => SetCeiling(s, m, p).0
    case ExpireOp(t) => Expire(s, t)
    case CleanUpOp(t) => CleanUp(s, t)
    case TimeOutOp(t) => TimeOut(s, t)
    case SleepOp(t) => Sleep(s, t)
    case WakeOp(t) => Wake(s, t)
  }

  /** Threads at their initial priority, free mutexes without a ceiling. */
  ghost predicate Initial(s: State)
  {
    && |s.q.cur| == |s.g.ts| && |s.q.field| == |s.q.waiters| == |s.g.ms|
    && (forall t :: 0 <= t < |s.g.ts| ==>
          s.g.ts[t] == Thread(s.g.ts[t].init, false, None, []) && s.q.cur[t] == s.g.ts[t].init < s.levels)
    && (forall m :: 0 <= m < |s.g.ms| ==>
          s.g.ms[m] == Mutex(None, 0, NO_PRIO) && s.q.field[m] == NO_PRIO && s.q.waiters[m] == [])
  }

  /** `op` can be done in `s` and leads to `s'`. */
  ghost predicate Leads(s: State, op: Op, s': State)
  {
    Enabled(s, op) && Step(s, op) == s'
  }

  ghost predicate StepAt(ss: seq<State>, ops: seq<Op>, i: nat)
    requires |ss| == |ops| + 1 && i < |ops|
  {
    Leads(ss[i], ops[i], ss[i + 1])
  }

  ghost predicate Run(ss: seq<State>, ops: seq<Op>)
  {
    |ss| == |ops| + 1 && Initial(ss[0]) && forall i :: 0 <= i < |ops| ==> StepAt(ss, ops, i)
  }

  lemma InitialExact(s: State)
    requires Initial(s)
    ensures Exact(s.g, s.q)
  {
  }

  // ----- no inversion, in every run -----

  /** What a nested take and a nested release do. */
  lemma NestedTakeIs(s: State, t: nat, m: nat, wait: bool)
    requires Valid(s) && Active(s.g, t) && m < |s.g.ms| && s.g.ms[m].owner == Some(t)
    ensures var h := s.g.ms[m].hold;
            Take(s, t, m, wait).0 == if h < HOLD_MAX then s.(g := SetMutex(s.g, m, s.g.ms[m].(hold := h + 1))) else s
  {
  }

  lemma NestedReleaseIs(s: State, t: nat, m: nat)
    requires Valid(s) && Active(s.g, t) && m < |s.g.ms| && s.g.ms[m].owner == Some(t) && s.g.ms[m].hold > 1
    ensures Release(s, t, m).0 == s.(g := SetMutex(s.g, m, s.g.ms[m].(hold := s.g.ms[m].hold - 1)))
  {
  }

  /** What a take by a thread that is not the owner does. */
  lemma OtherTakeIs(s: State, t: nat, m: nat, wait: bool)
    requires Valid(s) && Active(s.g, t) && m < |s.g.ms| && s.g.ms[m].owner != Some(t)
    ensures s.g.ms[m].owner.None? ==> Take(s, t, m, wait).0 == TakeFree(s, t, m)
    ensures s.g.ms[m].owner.Some? && wait ==> Take(s, t, m, wait).0 == TakeBlock(s, t, m)
    ensures s.g.ms[m].owner.Some? && !wait ==> Take(s, t, m, wait).0 == s
  {
  }

  lemma TakeCovered(s: State, t: nat, m: nat, wait: bool, s': State)
    requires Covered(s.g, s.q) && Active(s.g, t) && m < |s.g.ms| && s' == Take(s, t, m, wait).0
    ensures Covered(s'.g, s'.q)
  {
    if s.g.ms[m].owner == Some(t) {
      NestedTakeIs(s, t, m, wait);
      if s.g.ms[m].hold < HOLD_MAX { HoldKept(s.g, s.q, m, s.g.ms[m].hold + 1); }
    } else {
      OtherTakeIs(s, t, m, wait);
      if s.g.ms[m].owner.None? {
        TakeFreeCovered(s, t, m);
      } else if wait {
        BlockCovered(s, t, m);
      }
    }
  }

  /** What the release of the last hold does. */
  lemma LastReleaseIs(s: State, t: nat, m: nat)
    requires Valid(s) && Active(s.g, t) && m < |s.g.ms| && s.g.ms[m].owner == Some(t) && s.g.ms[m].hold == 1
    ensures Release(s, t, m).0 == if s.q.waiters[m] != [] then HandOff(Disown(s, t, m), m) else Vacate(Disown(s, t, m), m)
  {
  }

  lemma ReleaseCovered(s: State, t: nat, m: nat, s': State)
    requires Covered(s.g, s.q) && Active(s.g, t) && m < |s.g.ms| && s' == Release(s, t, m).0
    ensures Covered(s'.g, s'.q)
  {
    if s.g.ms[m].owner == Some(t) {
      if s.g.ms[m].hold > 1 {
        NestedReleaseIs(s, t, m);
        HoldKept(s.g, s.q, m, s.g.ms[m].hold - 1);
      } else {
        LastReleaseIs(s, t, m);
        if s.q.waiters[m] != [] {
          HandOffCovered(s, t, m);
        } else {
          VacateCovered(s, t, m);
        }
      }
    }
  }

  lemma StepCovered(s: State, op: Op)
    requires Covered(s.g, s.q) && Enabled(s, op)
    ensures var s' := Step(s, op); Covered(s'.g, s'.q)
  {
    match op
    case TakeOp(t, m, wait) => TakeCovered(s, t, m, wait, Step(s, op));
    case ReleaseOp(t, m) => ReleaseCovered(s, t, m, Step(s, op));
    case CeilingOp(m, p) => CeilingCovered(s, m, p);
    case ExpireOp(t) => ExpireCovered(s, t);
    case CleanUpOp(t) => CleanUpCovered(s, t);
    case TimeOutOp(t) => ExpireCovered(s, t); CleanUpCovered(Expire(s, t), t);
    case SleepOp(t) => SleepKept(s.g, s.q, t, true);
    case WakeOp(t) => SleepKept(s.g, s.q, t, false);
  }

  lemma {:induction false} RunCovered(ss: seq<State>, ops: seq<Op>, i: nat)
    requires Run(ss, ops) && i < |ss|
    ensures Covered(ss[i].g, ss[i].q)
  {
    if i == 0 {
      InitialExact(ss[0]);
      ExactCovers(ss[0].g, ss[0].q);
    } else {
      RunCovered(ss, ops, i - 1);
      assert StepAt(ss, ops, i - 1);
      StepCovered(ss[i - 1], ops[i - 1]);
    }
  }

  lemma OwnerCoversWaiter(g: Graph, q: Queues, t: nat)
    requires Covered(g, q) && t < |g.ts| && Blocked(g.ts[t])
    ensures q.cur[OwnerOf(g, t)] <= q.cur[t]
  {
    var m := g.ts[t].pending.value;
    assert t in q.waiters[m];
    SortedTail(q.cur, q.waiters[m]);
  }

  /** In no reachable state, with ceilings and with timeouts separated from their clean-up,
      is a thread more urgent than a thread its blocking chain leads to. */
  lemma {:induction false} NoInversionAlongChains(ss: seq<State>, ops: seq<Op>, i: nat, path: seq<nat>)
    requires Run(ss, ops) && i < |ss| && Chain(ss[i].g, path)
    ensures |ss[i].q.cur| == |ss[i].g.ts| && ss[i].q.cur[path[|path| - 1]] <= ss[i].q.cur[path[0]]
    decreases |path|
  {
    RunCovered(ss, ops, i);
    if |path| > 1 {
      var rest := path[1..];
      ChainTail(ss[i].g, path);
      NoInversionAlongChains(ss, ops, i, rest);
      OwnerCoversWaiter(ss[i].g, ss[i].q, path[0]);
    }
  }

  // ----- exact inheritance, in every run -----

  /** The mutex a thread has timed out on and not yet cleaned up after. */
  function LateOn(th: Thread): Option<nat>
  {
    if th.suspended then None else th.pending
  }

  ghost predicate Late(g: Graph, m: nat)
  {
    exists t :: 0 <= t < |g.ts| && LateOn(g.ts[t]) == Some(m)
  }

  /** The mutexes with a timeout that is not cleaned up yet. */
  ghost function LateSet(g: Graph): set<nat>
  {
    set m | 0 <= m < |g.ms| && Late(g, m)
  }

  /** Every thread has the minimum of its initial priority and the claims of the mutexes it
      holds, and every mutex without an outstanding clean-up carries its head waiter's priority. */
  ghost predicate Settled(s: State)
  {
    SettledIn(s.g, s.q, LateSet(s.g))
  }

  lemma SameLate(g: Graph, g': Graph)
    requires |g'.ts| == |g.ts| && |g'.ms| == |g.ms|
    requires forall t :: 0 <= t < |g.ts| ==> LateOn(g'.ts[t]) == LateOn(g.ts[t])
    ensures LateSet(g') == LateSet(g)
  {
    forall m: nat ensures Late(g, m) <==> Late(g', m) {
      if Late(g, m) {
        var t :| 0 <= t < |g.ts| && LateOn(g.ts[t]) == Some(m);
        assert LateOn(g'.ts[t]) == Some(m);
      }
    }
  }

  lemma TakeLate(s: State, t: nat, m: nat, wait: bool)
    requires Valid(s) && Active(s.g, t) && m < |s.g.ms|
    ensures LateSet(Take(s, t, m, wait).0.g) == LateSet(s.g)
  {
    if s.g.ms[m].owner == Some(t) {
      NestedTakeIs(s, t, m, wait);
    } else {
      OtherTakeIs(s, t, m, wait);
      if s.g.ms[m].owner.None? {
        TakeFreeIs(s, t, m);
      } else if wait {
        TakeBlockIs(s, t, m);
      }
    }
    SameLate(s.g, Take(s, t, m, wait).0.g);
  }

  lemma ReleaseLate(s: State, t: nat, m: nat)
    requires Valid(s) && Active(s.g, t) && m < |s.g.ms|
    ensures LateSet(Release(s, t, m).0.g) == LateSet(s.g)
  {
    if s.q.waiters[m] != [] {
      assert s.q.waiters[m][0] in s.q.waiters[m];
    }
    SameLate(s.g, Release(s, t, m).0.g);
  }

  /** Only a timeout and its clean-up change who is late. */
  lemma StepLate(s: State, op: Op)
    requires Enabled(s, op) && !op.ExpireOp? && !op.CleanUpOp? && !op.TimeOutOp?
    ensures LateSet(Step(s, op).g) == LateSet(s.g)
  {
    match op
    case TakeOp(t, m, wait) => TakeLate(s, t, m, wait);
    case ReleaseOp(t, m) => ReleaseLate(s, t, m);
    case CeilingOp(m, p) => SameLate(s.g, SetCeiling(s, m, p).0.g);
    case SleepOp(t) => SameLate(s.g, Sleep(s, t).g);
    case WakeOp(t) => SameLate(s.g, Wake(s, t).g);
  }

  lemma ExpireLate(s: State, t: nat)
    requires Valid(s) && t < |s.g.ts| && Blocked(s.g.ts[t])
    ensures LateSet(Expire(s, t).g) == LateSet(s.g) + {s.g.ts[t].pending.value}
  {
    var g, g', p := s.g, Expire(s, t).g, s.g.ts[t].pending.value;
    forall m: nat ensures Late(g', m) <==> Late(g, m) || m == p {
      if Late(g, m) {
        var x :| 0 <= x < |g.ts| && LateOn(g.ts[x]) == Some(m);
        assert LateOn(g'.ts[x]) == Some(m);
      }
      assert LateOn(g'.ts[t]) == Some(p);
    }
  }

  lemma CleanUpLate(s: State, t: nat)
    requires Valid(s) && t < |s.g.ts| && !s.g.ts[t].suspended && s.g.ts[t].pending.Some?
    ensures LateSet(s.g) <= LateSet(CleanUp(s, t).g) + {s.g.ts[t].pending.value}
  {
    var g, g', p := s.g, CleanUp(s, t).g, s.g.ts[t].pending.value;
    forall m | m in LateSet(g) && m != p ensures m in LateSet(g') {
      var x :| 0 <= x < |g.ts| && LateOn(g.ts[x]) == Some(m);
      assert LateOn(g'.ts[x]) == Some(m);
    }
  }

  /** The hand-off that `op` makes, if it makes one, gives the mutex to a thread at least as
      urgent as its ceiling. */
  ghost predicate HandOffFits(s: State, op: Op)
    requires Enabled(s, op)
  {
    op.ReleaseOp? && s.g.ms[op.m].owner == Some(op.t) && s.g.ms[op.m].hold == 1 && s.q.waiters[op.m] != [] ==>
      s.q.cur[s.q.waiters[op.m][0]] <= s.g.ms[op.m].ceiling
  }

  /** The clean-up that `op` makes, if it makes one, tests positive or has nothing to recompute. */
  ghost predicate Cleans(s: State, op: Op)
    requires Enabled(s, op)
  {
    && (op.CleanUpOp? ==> CleanUpFits(s, op.t))
    && (op.TimeOutOp? ==> Valid(Expire(s, op.t)) && CleanUpFits(Expire(s, op.t), op.t))
  }

  lemma TakeSettled(s: State, late: set<nat>, t: nat, m: nat, wait: bool, s': State)
    requires SettledIn(s.g, s.q, late) && Active(s.g, t) && m < |s.g.ms| && s' == Take(s, t, m, wait).0
    ensures SettledIn(s'.g, s'.q, late)
  {
    if s.g.ms[m].owner == Some(t) {
      NestedTakeIs(s, t, m, wait);
      if s.g.ms[m].hold < HOLD_MAX { HoldKept(s.g, s.q, m, s.g.ms[m].hold + 1); }
    } else {
      OtherTakeIs(s, t, m, wait);
      if s.g.ms[m].owner.None? {
        TakeFreeSettled(s, late, t, m);
      } else if wait {
        BlockSettled(s, late, t, m);
      }
    }
  }

  lemma LastReleaseSettled(s: State, late: set<nat>, t: nat, m: nat, s': State)
    requires SettledIn(s.g, s.q, late) && Active(s.g, t) && m < |s.g.ms| && s.g.ms[m].owner == Some(t) && s.g.ms[m].hold == 1
    requires s' == if s.q.waiters[m] != [] then HandOff(Disown(s, t, m), m) else Vacate(Disown(s, t, m), m)
    ensures SettledIn(s'.g, s'.q, late) <==> (s.q.waiters[m] != [] ==> s.q.cur[s.q.waiters[m][0]] <= s.g.ms[m].ceiling)
  {
    if s.q.waiters[m] != [] {
      HandOffSettledIff(s, late, t, m);
    } else {
      VacateSettled(s, late, t, m);
    }
  }

  lemma NestedReleaseSettled(s: State, late: set<nat>, t: nat, m: nat)
    requires SettledIn(s.g, s.q, late) && Active(s.g, t) && m < |s.g.ms| && s.g.ms[m].owner == Some(t) && s.g.ms[m].hold > 1
    ensures var s' := Release(s, t, m).0; SettledIn(s'.g, s'.q, late)
  {
    NestedReleaseIs(s, t, m);
    HoldKept(s.g, s.q, m, s.g.ms[m].hold - 1);
  }

  lemma ReleaseSettled(s: State, late: set<nat>, t: nat, m: nat, s': State)
    requires SettledIn(s.g, s.q, late) && Active(s.g, t) && m < |s.g.ms| && s' == Release(s, t, m).0
    ensures SettledIn(s'.g, s'.q, late) <==> HandOffFits(s, ReleaseOp(t, m))
  {
    if s.g.ms[m].owner == Some(t) {
      if s.g.ms[m].hold > 1 {
        NestedReleaseSettled(s, late, t, m);
      } else {
        LastReleaseIs(s, t, m);
        LastReleaseSettled(s, late, t, m, s');
      }
    }
  }

  lemma TimeOutSettled(s: State, t: nat)
    requires Settled(s) && t < |s.g.ts| && Blocked(s.g.ts[t])
    ensures Valid(Expire(s, t)) && (Settled(TimeOut(s, t)) <==> CleanUpFits(Expire(s, t), t))
  {
    var late, s1 := LateSet(s.g), Expire(s, t);
    ExpireWF(s, t);
    ExpireSettled(s, late, t);
    ExpireLate(s, t);
    CleanUpLate(s1, t);
    CleanUpSettledIff(s1, LateSet(s1.g), LateSet(CleanUp(s1, t).g), t);
  }

  /** A step keeps everybody at the priority it claims if and only if the hand-off and the
      clean-up it makes fit. */
  lemma StepSettledIff(s: State, op: Op)
    requires Settled(s) && Enabled(s, op)
    ensures Settled(Step(s, op)) <==> HandOffFits(s, op) && Cleans(s, op)
  {
    var late := LateSet(s.g);
    if !op.ExpireOp? && !op.CleanUpOp? && !op.TimeOutOp? { StepLate(s, op); }
    match op
    case TakeOp(t, m, wait) => TakeSettled(s, late, t, m, wait, Step(s, op));
    case ReleaseOp(t, m) => ReleaseSettled(s, late, t, m, Step(s, op));
    case CeilingOp(m, p) => CeilingSettled(s, late, m, p);
    case ExpireOp(t) => ExpireSettled(s, late, t); ExpireLate(s, t);
    case CleanUpOp(t) => CleanUpLate(s, t); CleanUpSettledIff(s, late, LateSet(CleanUp(s, t).g), t);
    case TimeOutOp(t) => TimeOutSettled(s, t);
    case SleepOp(t) => SleepKept(s.g, s.q, t, true);
    case WakeOp(t) => SleepKept(s.g, s.q, t, false);
  }

  lemma InitialSettled(s: State)
    requires Initial(s)
    ensures Exact(s.g, s.q) && LateSet(s.g) == {} && Settled(s)
  {
    InitialExact(s);
    assert forall m: nat :: !Late(s.g, m);
  }

  ghost predicate SettledAt(ss: seq<State>, k: nat)
    requires k < |ss|
  {
    Settled(ss[k])
  }

  ghost predicate FitsAt(ss: seq<State>, ops: seq<Op>, k: nat)
    requires Run(ss, ops) && k < |ops|
  {
    assert StepAt(ss, ops, k);
    HandOffFits(ss[k], ops[k]) && Cleans(ss[k], ops[k])
  }

  lemma SettledNext(ss: seq<State>, ops: seq<Op>, k: nat)
    requires Run(ss, ops) && k < |ops| && SettledAt(ss, k)
    ensures SettledAt(ss, k + 1) <==> FitsAt(ss, ops, k)
  {
    assert StepAt(ss, ops, k);
    StepSettledIff(ss[k], ops[k]);
  }

  /** The states up to `i` are all settled. */
  ghost predicate SettledThrough(ss: seq<State>, i: nat)
    requires i < |ss|
  {
    SettledAt(ss, i) && (i > 0 ==> SettledThrough(ss, i - 1))
  }

  /** The hand-offs and clean-ups of the first `i` steps all fit. */
  ghost predicate FitThrough(ss: seq<State>, ops: seq<Op>, i: nat)
    requires Run(ss, ops) && i <= |ops|
  {
    i > 0 ==> FitsAt(ss, ops, i - 1) && FitThrough(ss, ops, i - 1)
  }

  /** In every run, everybody has the priority it claims in all states so far if and only if
      all hand-offs and clean-ups so far fitted. */
  lemma {:induction false} RunSettledIff(ss: seq<State>, ops: seq<Op>, i: nat)
    requires Run(ss, ops) && i < |ss|
    ensures SettledThrough(ss, i) <==> FitThrough(ss, ops, i)
  {
    if i == 0 {
      InitialSettled(ss[0]);
    } else {
      RunSettledIff(ss, ops, i - 1);
      if SettledAt(ss, i - 1) {
        SettledNext(ss, ops, i - 1);
      }
    }
  }

  /** In such a run, all inheritance equations hold whenever no clean-up is outstanding. */
  lemma RunExact(ss: seq<State>, ops: seq<Op>, i: nat)
    requires Run(ss, ops) && i < |ss| && FitThrough(ss, ops, i)
    ensures Settled(ss[i]) && (LateSet(ss[i].g) == {} ==> Exact(ss[i].g, ss[i].q))
  {
    RunSettledIff(ss, ops, i);
    assert SettledAt(ss, i);
  }

  ghost predicate NoCeilings(g: Graph)
  {
    forall m :: 0 <= m < |g.ms| ==> g.ms[m].ceiling == NO_PRIO
  }

  lemma StepNoCeilings(s: State, op: Op)
    requires Enabled(s, op) && !op.CeilingOp? && NoCeilings(s.g)
    ensures NoCeilings(Step(s, op).g)
  {
  }

  /** A run without ceilings in which every timeout is cleaned up at once: in every state each
      suspend list is sorted, each mutex carries its head waiter's priority or 0xFF, and each
      thread has the minimum of its initial priority and the fields of the mutexes it holds. */
  lemma {:induction false} CeilingFreeRunExact(ss: seq<State>, ops: seq<Op>, i: nat)
    requires Run(ss, ops) && i < |ss|
    requires forall k :: 0 <= k < |ops| ==> !ops[k].ExpireOp? && !ops[k].CeilingOp?
    ensures Exact(ss[i].g, ss[i].q) && NoCeilings(ss[i].g) && LateSet(ss[i].g) == {}
  {
    if i == 0 {
      InitialSettled(ss[0]);
    } else {
      CeilingFreeRunExact(ss, ops, i - 1);
      assert StepAt(ss, ops, i - 1);
      StepNoCeilings(ss[i - 1], ops[i - 1]);
      CeilingFreeStep(ss[i - 1], ops[i - 1]);
    }
  }

  lemma LateListed(s: State, t: nat)
    requires Valid(s) && t < |s.g.ts| && LateOn(s.g.ts[t]).Some?
    ensures LateOn(s.g.ts[t]).value in LateSet(s.g)
  {
  }

  lemma CeilingFreeStep(s: State, op: Op)
    requires Exact(s.g, s.q) && NoCeilings(s.g) && LateSet(s.g) == {} && Enabled(s, op) && !op.ExpireOp? && !op.CeilingOp?
    ensures var s' := Step(s, op); Exact(s'.g, s'.q) && LateSet(s'.g) == {}
  {
    if op.CleanUpOp? {
      LateListed(s, op.t);
    } else if op.TimeOutOp? {
      ExpireWF(s, op.t);
      TimeOutExact(s, op.t);
      TimeOutLate(s, op.t);
    } else {
      StepLate(s, op);
      StepSettledIff(s, op);
    }
  }

  lemma TimeOutLate(s: State, t: nat)
    requires Valid(s) && t < |s.g.ts| && Blocked(s.g.ts[t])
    ensures LateSet(TimeOut(s, t).g) == LateSet(s.g)
  {
    ExpireWF(s, t);
    SameLate(s.g, TimeOut(s, t).g);
  }
}
