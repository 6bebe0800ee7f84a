/** Every mutex operation keeps the state well formed, keeps owners at least as urgent as
    their waiters, and keeps (or exactly when it keeps) the inheritance equations. */
module MutexSteps {
  import opened Lists
  import opened MutexModel
  import opened MutexPropagation
  import opened MutexLoopInvariants

  // ----- how a claim changes -----

  lemma MinUnique(ms: seq<Mutex>, field: seq<Prio>, taken: seq<nat>, p: Prio, r: Prio)
    requires Below(taken, |ms|) && |field| == |ms| && IsMin(ms, field, taken, p, r)
    ensures MinField(ms, field, taken, p) == r
  {
    MinFieldIsMin(ms, field, taken, p);
  }

  /** One more mutex on the taken list. */
  lemma MinCons(ms: seq<Mutex>, field: seq<Prio>, m: nat, taken: seq<nat>, p: Prio)
    requires m < |ms| && Below(taken, |ms|) && |field| == |ms|
    ensures Below([m] + taken, |ms|)
    ensures MinField(ms, field, [m] + taken, p) == Min(MinField(ms, field, taken, p), Claim(ms, field, m))
  {
    MinFieldIsMin(ms, field, taken, p);
    var r := Min(MinField(ms, field, taken, p), Claim(ms, field, m));
    assert forall k :: k in [m] + taken <==> k == m || k in taken;
    MinUnique(ms, field, [m] + taken, p, r);
  }

  /** One mutex fewer: the rest and that mutex together made up the minimum. */
  lemma MinWithout(ms: seq<Mutex>, field: seq<Prio>, m: nat, taken: seq<nat>, p: Prio)
    requires Below(taken, |ms|) && |field| == |ms| && NoDup(taken) && m in taken
    ensures Below(Without(taken, m), |ms|)
    ensures MinField(ms, field, taken, p) == Min(MinField(ms, field, Without(taken, m), p), Claim(ms, field, m))
  {
    WithoutBelow(taken, m, |ms|);
    WithoutMembers(taken, m);
    MinFieldIsMin(ms, field, Without(taken, m), p);
    MinUnique(ms, field, taken, p, Min(MinField(ms, field, Without(taken, m), p), Claim(ms, field, m)));
  }

  /** The minimum depends only on the mutexes that are listed. */
  lemma MinFrame(ms: seq<Mutex>, field: seq<Prio>, ms': seq<Mutex>, field': seq<Prio>, taken: seq<nat>, p: Prio)
    requires Below(taken, |ms|) && |field| == |ms| && |field'| == |ms'| == |ms|
    requires forall m :: m in taken ==> Claim(ms, field, m) == Claim(ms', field', m)
    ensures MinField(ms, field, taken, p) == MinField(ms', field', taken, p)
  {
    MinMono(ms, field, ms', field', taken, p);
    MinMono(ms', field', ms, field, taken, p);
  }

  /** A more urgent waiter lowers its owner's claim to its own priority, if that is lower. */
  lemma LowerField(ms: seq<Mutex>, field: seq<Prio>, m: nat, taken: seq<nat>, p: Prio, f: Prio)
    requires Below(taken, |ms|) && |field| == |ms| && NoDup(taken) && m in taken && f <= field[m]
    ensures MinField(ms, field[m := f], taken, p) == Min(MinField(ms, field, taken, p), f)
  {
    MinWithout(ms, field, m, taken, p);
    MinWithout(ms, field[m := f], m, taken, p);
    WithoutMembers(taken, m);
    MinFrame(ms, field, ms, field[m := f], Without(taken, m), p);
  }

  /** Losing a waiter that was not what held the owner up changes nothing. */
  lemma RaiseField(ms: seq<Mutex>, field: seq<Prio>, m: nat, taken: seq<nat>, p: Prio, f: Prio)
    requires Below(taken, |ms|) && |field| == |ms| && NoDup(taken) && m in taken && f >= field[m]
    requires MinField(ms, field, taken, p) < field[m]
    ensures MinField(ms, field[m := f], taken, p) == MinField(ms, field, taken, p)
  {
    MinWithout(ms, field, m, taken, p);
    MinWithout(ms, field[m := f], m, taken, p);
    WithoutMembers(taken, m);
    MinFrame(ms, field, ms, field[m := f], Without(taken, m), p);
  }

  lemma {:induction false} EnqueueHead(cur: seq<Prio>, ws: seq<nat>, t: nat)
    requires t < |cur| && Below(ws, |cur|)
    ensures HeadPrio(cur, Enqueue(cur, ws, t)) == Min(HeadPrio(cur, ws), cur[t])
  {
  }

  /** Exact inheritance is the stronger invariant. */
  lemma ExactCovers(g: Graph, q: Queues)
    requires Exact(g, q)
    ensures Covered(g, q)
  {
    forall t | 0 <= t < |g.ts|
      ensures q.cur[t] <= g.ts[t].init
      ensures forall m :: 0 <= m < |g.ms| && g.ms[m].owner == Some(t) ==> q.cur[t] <= q.field[m]
    {
      assert CurOk(g, q, t);
      ClaimCovers(g, q.field, t);
    }
    assert forall m :: 0 <= m < |g.ms| ==> HeadOk(q, m);
  }

  /** A thread that is not blocked just gets the priority. */
  lemma UpdateIdle(g: Graph, q: Queues, t: nat, p: Prio)
    requires Sized(g, q) && t < |g.ts| && !Blocked(g.ts[t])
    ensures UpdatePriority(g, q, t, p) == SetCur(q, t, p)
  {
    IdleRounds(g, SetCur(q, t, p), t, Enough(g));
  }

  lemma IdleRounds(g: Graph, q: Queues, t: nat, n: nat)
    requires Sized(g, q) && t < |g.ts| && !Blocked(g.ts[t]) && n > 0
    ensures Rounds(g, q, Some(t), n) == (q, None)
  {
    assert Rounds(g, q, None, n - 1) == (q, None);
  }

  lemma RefreshCovered(g: Graph, q: Queues, o: Option<nat>)
    requires Covered(g, q) && (o.Some? ==> o.value < |g.ts|)
    ensures Covered(g, Refresh(g, q, o))
  {
    if o.Some? {
      ClaimCovers(g, q.field, o.value);
      if Inherited(g, q.field, o.value) != q.cur[o.value] {
        UpdateCovered(g, q, o.value, Inherited(g, q.field, o.value));
      }
    }
  }

  lemma RefreshSettled(g: Graph, q: Queues, late: set<nat>, o: nat)
    requires WF(g, q) && o < |g.ts| && Ordered(q.cur, q.waiters) && HeadsBut(q, late, None) && ClaimsBut(g, q, Some(o))
    ensures SettledIn(g, Refresh(g, q, Some(o)), late)
  {
    if Inherited(g, q.field, o) != q.cur[o] { UpdateSettled(g, q, late, o); }
  }

  // ----- taking a free mutex -----

  lemma WaitersHaveOwner(g: Graph, q: Queues, m: nat)
    requires WF(g, q) && m < |g.ms|
    ensures q.waiters[m] != [] ==> g.ms[m].owner.Some?
  {
    if q.waiters[m] != [] {
      assert q.waiters[m][0] in q.waiters[m];
    }
  }

  /** What taking a free mutex does, in one expression per field. */
  lemma TakeFreeIs(s: State, t: nat, m: nat)
    requires Valid(s) && Active(s.g, t) && m < |s.g.ms| && s.g.ms[m].owner.None?
    ensures var s' := TakeFree(s, t, m);
            && s'.g == Graph(s.g.ts[t := s.g.ts[t].(taken := [m] + s.g.ts[t].taken)],
                             s.g.ms[m := Mutex(Some(t), 1, s.g.ms[m].ceiling)])
            && s'.q == Queues(s.q.cur[t := Min(s.q.cur[t], s.g.ms[m].ceiling)], s.q.field[m := NO_PRIO], s.q.waiters)
  {
    var c := s.g.ms[m].ceiling;
    var g := SetMutex(s.g, m, Mutex(Some(t), 1, c));
    var q := s.q.(field := s.q.field[m := NO_PRIO]);
    UpdateIdle(g, q, t, c);
    assert s.q.cur[t := s.q.cur[t]] == s.q.cur;
  }

  lemma TakeFreeWF(s: State, t: nat, m: nat)
    requires Valid(s) && Active(s.g, t) && m < |s.g.ms| && s.g.ms[m].owner.None?
    ensures Valid(TakeFree(s, t, m))
  {
    TakeFreeIs(s, t, m);
    NoDupCons(m, s.g.ts[t].taken);
  }

  lemma TakeFreeCovered(s: State, t: nat, m: nat)
    requires Covered(s.g, s.q) && Active(s.g, t) && m < |s.g.ms| && s.g.ms[m].owner.None?
    ensures var s' := TakeFree(s, t, m); Covered(s'.g, s'.q)
  {
    TakeFreeWF(s, t, m);
    TakeFreeIs(s, t, m);
    WaitersHaveOwner(s.g, s.q, m);
    RunnerUnlisted(s.g, s.q, t, Min(s.q.cur[t], s.g.ms[m].ceiling));
  }

  /** A thread that is on no suspend list can change priority without disturbing any. */
  lemma RunnerUnlisted(g: Graph, q: Queues, t: nat, p: Prio)
    requires WF(g, q) && t < |g.ts| && !Blocked(g.ts[t])
    ensures Ordered(q.cur, q.waiters) ==> Ordered(q.cur[t := p], q.waiters)
    ensures forall m :: 0 <= m < |q.waiters| ==> HeadPrio(q.cur[t := p], q.waiters[m]) == HeadPrio(q.cur, q.waiters[m])
  {
    forall m | 0 <= m < |q.waiters|
      ensures Sorted(q.cur, q.waiters[m]) ==> Sorted(q.cur[t := p], q.waiters[m])
      ensures HeadPrio(q.cur[t := p], q.waiters[m]) == HeadPrio(q.cur, q.waiters[m])
    {
      assert t !in q.waiters[m];
      assert q.waiters[m] != [] ==> q.waiters[m][0] in q.waiters[m];
    }
  }

  lemma TakeFreeSettled(s: State, late: set<nat>, t: nat, m: nat)
    requires SettledIn(s.g, s.q, late) && Active(s.g, t) && m < |s.g.ms| && s.g.ms[m].owner.None?
    ensures var s' := TakeFree(s, t, m); SettledIn(s'.g, s'.q, late)
  {
    var s' := TakeFree(s, t, m);
    TakeFreeWF(s, t, m);
    TakeFreeIs(s, t, m);
    WaitersHaveOwner(s.g, s.q, m);
    RunnerUnlisted(s.g, s.q, t, Min(s.q.cur[t], s.g.ms[m].ceiling));
    forall x | 0 <= x < |s.g.ts| ensures CurOk(s'.g, s'.q, x) {
      assert m !in s.g.ts[x].taken;
      MinFrame(s.g.ms, s.q.field, s'.g.ms, s'.q.field, s.g.ts[x].taken, s.g.ts[x].init);
      MinCons(s'.g.ms, s'.q.field, m, s.g.ts[x].taken, s.g.ts[x].init);
    }
  }

  // ----- blocking on an owned mutex -----

  lemma SuspendWF(s: State, t: nat, m: nat)
    requires Valid(s) && Active(s.g, t) && m < |s.g.ms| && s.g.ms[m].owner.Some? && s.g.ms[m].owner != Some(t)
    ensures Valid(Suspend(s, t, m))
  {
    assert t !in s.q.waiters[m];
    EnqueueMembers(s.q.cur, s.q.waiters[m], t);
    EnqueueNoDup(s.q.cur, s.q.waiters[m], t);
  }

  lemma SuspendOrdered(s: State, t: nat, m: nat)
    requires Valid(s) && Active(s.g, t) && m < |s.g.ms| && s.g.ms[m].owner.Some? && Ordered(s.q.cur, s.q.waiters)
    ensures Ordered(s.q.cur, Suspend(s, t, m).q.waiters)
  {
    EnqueueSorted(s.q.cur, s.q.waiters[m], t);
  }

  /** The queues that TakeBlock hands to the propagation loop. */
  function BlockQueues(s: State, t: nat, m: nat): Queues
    requires Valid(s) && Active(s.g, t) && m < |s.g.ms| && s.g.ms[m].owner.Some?
  {
    var q := Suspend(s, t, m).q;
    q.(field := q.field[m := Min(q.field[m], s.q.cur[t])])
  }

  lemma TakeBlockIs(s: State, t: nat, m: nat)
    requires Valid(s) && Active(s.g, t) && m < |s.g.ms| && s.g.ms[m].owner.Some?
    ensures var s', q, o, p := TakeBlock(s, t, m), BlockQueues(s, t, m), s.g.ms[m].owner.value, s.q.cur[t];
            && s'.g == Suspend(s, t, m).g
            && Sized(s'.g, q)
            && s'.q == if p < s.q.field[m] && p < s.q.cur[o] then UpdatePriority(s'.g, q, o, p) else q
  {
    assert s.q.field[m := s.q.field[m]] == s.q.field;
  }

  lemma BlockReady(s: State, t: nat, m: nat)
    requires Covered(s.g, s.q) && Active(s.g, t) && m < |s.g.ms|
    requires s.g.ms[m].owner.Some? && s.g.ms[m].owner != Some(t)
    ensures var g, q, o := Suspend(s, t, m).g, BlockQueues(s, t, m), s.g.ms[m].owner;
            && WF(g, q) && Ordered(q.cur, q.waiters) && AtLeastInit(g, q)
            && FieldsCoverBut(q, None) && OwnersCoverBut(g, q, o)
  {
    TakeBlockIs(s, t, m);
    SuspendWF(s, t, m);
    SuspendOrdered(s, t, m);
    EnqueueHead(s.q.cur, s.q.waiters[m], t);
  }

  lemma BlockCovered(s: State, t: nat, m: nat)
    requires Covered(s.g, s.q) && Active(s.g, t) && m < |s.g.ms|
    requires s.g.ms[m].owner.Some? && s.g.ms[m].owner != Some(t)
    ensures var s' := TakeBlock(s, t, m); Covered(s'.g, s'.q)
  {
    var g, q, o, p := Suspend(s, t, m).g, BlockQueues(s, t, m), s.g.ms[m].owner.value, s.q.cur[t];
    TakeBlockIs(s, t, m);
    BlockReady(s, t, m);
    if p < s.q.field[m] && p < s.q.cur[o] {
      UpdateCovered(g, q, o, p);
    }
  }

  lemma BlockHeads(s: State, late: set<nat>, t: nat, m: nat)
    requires Valid(s) && HeadsBut(s.q, late, None) && Active(s.g, t) && m < |s.g.ms| && s.g.ms[m].owner.Some?
    ensures Sized(Suspend(s, t, m).g, BlockQueues(s, t, m)) && HeadsBut(BlockQueues(s, t, m), late, None)
  {
    var q := BlockQueues(s, t, m);
    EnqueueHead(s.q.cur, s.q.waiters[m], t);
    forall k | 0 <= k < |q.field| && k !in late ensures HeadOk(q, k) {
      assert HeadOk(s.q, k);
    }
  }

  lemma BlockClaims(s: State, t: nat, m: nat)
    requires Valid(s) && ClaimsBut(s.g, s.q, None) && Active(s.g, t) && m < |s.g.ms|
    requires s.g.ms[m].owner.Some? && s.g.ms[m].owner != Some(t)
    ensures var g, q, o := Suspend(s, t, m).g, BlockQueues(s, t, m), s.g.ms[m].owner.value;
            && Sized(g, q) && ClaimsBut(g, q, Some(o))
            && Inherited(g, q.field, o) == Min(s.q.cur[o], if s.q.cur[t] < s.q.field[m] then s.q.cur[t] else s.q.cur[o])
  {
    var g, q, o := Suspend(s, t, m).g, BlockQueues(s, t, m), s.g.ms[m].owner.value;
    TakeBlockIs(s, t, m);
    forall x | 0 <= x < |g.ts| && x != o ensures CurOk(g, q, x) {
      assert CurOk(s.g, s.q, x) && m !in s.g.ts[x].taken;
      MinFrame(s.g.ms, s.q.field, g.ms, q.field, s.g.ts[x].taken, s.g.ts[x].init);
    }
    LowerField(s.g.ms, s.q.field, m, s.g.ts[o].taken, s.g.ts[o].init, Min(s.q.field[m], s.q.cur[t]));
    MinFieldIsMin(s.g.ms, s.q.field, s.g.ts[o].taken, s.g.ts[o].init);
    assert s.q.cur[o] <= Claim(s.g.ms, s.q.field, m);
  }

  lemma BlockSettled(s: State, late: set<nat>, t: nat, m: nat)
    requires SettledIn(s.g, s.q, late) && Active(s.g, t) && m < |s.g.ms|
    requires s.g.ms[m].owner.Some? && s.g.ms[m].owner != Some(t)
    ensures var s' := TakeBlock(s, t, m); SettledIn(s'.g, s'.q, late)
  {
    var g, q, o, p := Suspend(s, t, m).g, BlockQueues(s, t, m), s.g.ms[m].owner.value, s.q.cur[t];
    TakeBlockIs(s, t, m);
    SuspendWF(s, t, m);
    SuspendOrdered(s, t, m);
    EnqueueHead(s.q.cur, s.q.waiters[m], t);
    BlockClaims(s, t, m);
    BlockHeads(s, late, t, m);
    if p < s.q.field[m] && p < s.q.cur[o] {
      UpdateSettled(g, q, late, o);
    }
  }

  // ----- releasing the last hold -----

  /** The graph after the owner has unlinked `m` from its taken list. */
  function Unlinked(g: Graph, t: nat, m: nat): (r: Graph)
    requires Refs(g) && t < |g.ts|
    ensures Refs(r)
  {
    WithoutBelow(g.ts[t].taken, m, |g.ms|);
    SetThread(g, t, g.ts[t].(taken := Without(g.ts[t].taken, m)))
  }

  /** The test of `_check_and_update_prio` agrees with recomputing every time. */
  lemma CheapTestAgrees(s: State, t: nat, m: nat)
    requires Valid(s) && ClaimsBut(s.g, s.q, None) && t < |s.g.ts| && m < |s.g.ms| && s.g.ms[m].owner == Some(t)
    ensures Disown(s, t, m) == State(s.levels, Unlinked(s.g, t, m),
                                     SetCur(s.q, t, Inherited(Unlinked(s.g, t, m), s.q.field, t)))
  {
    var g := Unlinked(s.g, t, m);
    MinWithout(s.g.ms, s.q.field, m, s.g.ts[t].taken, s.g.ts[t].init);
    if s.g.ms[m].ceiling == NO_PRIO && s.q.cur[t] != s.q.field[m] {
      assert CurOk(s.g, s.q, t);
      assert Inherited(g, s.q.field, t) == s.q.cur[t];
      assert s.q.cur[t := s.q.cur[t]] == s.q.cur;
    }
  }

  /** What `Disown` leaves: only `t`'s taken list and priority differ, and `t` still covers
      every other mutex it holds. */
  lemma DisownIs(s: State, t: nat, m: nat)
    requires Covered(s.g, s.q) && t < |s.g.ts| && m < |s.g.ms| && s.g.ms[m].owner == Some(t)
    ensures var s1 := Disown(s, t, m);
            && s1.g == Unlinked(s.g, t, m)
            && s1.q == SetCur(s.q, t, s1.q.cur[t])
            && s1.q.cur[t] <= s.g.ts[t].init
            && (forall k :: 0 <= k < |s.g.ms| && k != m && s.g.ms[k].owner == Some(t) ==> s1.q.cur[t] <= s.q.field[k])
  {
    var g, th := Unlinked(s.g, t, m), s.g.ts[t];
    WithoutBelow(th.taken, m, |s.g.ms|);
    WithoutMembers(th.taken, m);
    MinFieldIsMin(s.g.ms, s.q.field, Without(th.taken, m), th.init);
    forall k | 0 <= k < |s.g.ms| && k != m && s.g.ms[k].owner == Some(t)
      ensures Inherited(g, s.q.field, t) <= s.q.field[k]
    {
      assert Inherited(g, s.q.field, t) <= Claim(s.g.ms, s.q.field, k);
    }
    assert s.q.cur[t := s.q.cur[t]] == s.q.cur;
  }

  /** The graph after `m` has passed from `t` to `w`. */
  function Handed(g: Graph, t: nat, m: nat, w: nat): Graph
    requires Refs(g) && t < |g.ts| && m < |g.ms| && w < |g.ts|
  {
    SetMutex(SetThread(Unlinked(g, t, m), w, g.ts[w].(suspended := false, pending := None, taken := [m] + g.ts[w].taken)),
             m, g.ms[m].(owner := Some(w), hold := 1))
  }

  lemma HandOffIs(s: State, t: nat, m: nat, p: Prio)
    requires Valid(s) && Active(s.g, t) && m < |s.g.ms| && s.g.ms[m].owner == Some(t) && s.q.waiters[m] != []
    ensures var w, ws := s.q.waiters[m][0], s.q.waiters[m][1..];
            && w != t && Blocked(s.g.ts[w]) && s.g.ts[w].pending == Some(m)
            && HandOff(State(s.levels, Unlinked(s.g, t, m), SetCur(s.q, t, p)), m)
               == State(s.levels, Handed(s.g, t, m, w),
                        Queues(s.q.cur[t := p], s.q.field[m := HeadPrio(s.q.cur, ws)], s.q.waiters[m := ws]))
  {
    var w, ws := s.q.waiters[m][0], s.q.waiters[m][1..];
    assert w in s.q.waiters[m];
    assert t !in s.q.waiters[m];
    assert ws != [] ==> ws[0] in s.q.waiters[m];
  }

  lemma HandedTaken(g: Graph, t: nat, m: nat, w: nat, x: nat, k: nat)
    requires Refs(g) && OwnersOk(g) && t < |g.ts| && m < |g.ms| && w < |g.ts| && w != t && x < |g.ts|
    requires g.ms[m].owner == Some(t)
    ensures k in Handed(g, t, m, w).ts[x].taken <==> (x == w && k == m) || (k != m && k in g.ts[x].taken)
  {
    WithoutMembers(g.ts[t].taken, m);
    assert m in g.ts[x].taken ==> x == t;
  }

  lemma HandedRefs(g: Graph, t: nat, m: nat, w: nat)
    requires Refs(g) && OwnersOk(g) && t < |g.ts| && m < |g.ms| && w < |g.ts| && w != t
    requires g.ms[m].owner == Some(t) && g.ts[w].pending == Some(m)
    ensures Refs(Handed(g, t, m, w))
  {
    WithoutBelow(g.ts[t].taken, m, |g.ms|);
  }

  lemma HandedDistinct(g: Graph, t: nat, m: nat, w: nat)
    requires Refs(g) && OwnersOk(g) && t < |g.ts| && m < |g.ms| && w < |g.ts| && w != t && g.ms[m].owner == Some(t)
    ensures forall x :: 0 <= x < |g.ts| ==> NoDup(Handed(g, t, m, w).ts[x].taken)
  {
    WithoutMembers(g.ts[t].taken, m);
    HandedTaken(g, t, m, w, w, m);
    assert m !in g.ts[w].taken;
    NoDupCons(m, g.ts[w].taken);
  }

  lemma HandedOwners(g: Graph, t: nat, m: nat, w: nat)
    requires Refs(g) && OwnersOk(g) && t < |g.ts| && m < |g.ms| && w < |g.ts| && w != t
    requires g.ms[m].owner == Some(t) && g.ts[w].pending == Some(m)
    ensures Refs(Handed(g, t, m, w)) && OwnersOk(Handed(g, t, m, w))
  {
    var g' := Handed(g, t, m, w);
    HandedRefs(g, t, m, w);
    HandedDistinct(g, t, m, w);
    forall x, k | 0 <= x < |g'.ts| && k in g'.ts[x].taken ensures g'.ms[k].owner == Some(x) {
      HandedTaken(g, t, m, w, x, k);
    }
    forall k | 0 <= k < |g'.ms| && g'.ms[k].owner.Some? ensures k in g'.ts[g'.ms[k].owner.value].taken {
      HandedTaken(g, t, m, w, g'.ms[k].owner.value, k);
    }
  }

  lemma HandedWaiters(g: Graph, q: Queues, t: nat, m: nat)
    requires WF(g, q) && Active(g, t) && m < |g.ms| && q.waiters[m] != []
    ensures var w, ws := q.waiters[m][0], q.waiters[m][1..];
            ListsBelow(q.waiters[m := ws], |g.ts|) && WaitersOk(Handed(g, t, m, w).ts, q.waiters[m := ws])
  {
    var w, ws := q.waiters[m][0], q.waiters[m][1..];
    assert w in q.waiters[m];
    NoDupTail(q.waiters[m]);
    assert forall x :: x in q.waiters[m] <==> x == w || x in ws;
  }

  lemma HandOffWF(s: State, t: nat, m: nat, p: Prio)
    requires Valid(s) && Active(s.g, t) && m < |s.g.ms| && s.g.ms[m].owner == Some(t) && s.q.waiters[m] != []
    ensures Valid(HandOff(State(s.levels, Unlinked(s.g, t, m), SetCur(s.q, t, p)), m))
  {
    HandOffIs(s, t, m, p);
    HandedOwners(s.g, t, m, s.q.waiters[m][0]);
    HandedWaiters(s.g, s.q, t, m);
  }

  /** The queues after a hand-off. */
  function HandedQueues(q: Queues, t: nat, m: nat, p: Prio): Queues
    requires t < |q.cur| && m < |q.waiters| == |q.field| && ListsBelow(q.waiters, |q.cur|) && q.waiters[m] != []
  {
    var ws := q.waiters[m][1..];
    Queues(q.cur[t := p], q.field[m := HeadPrio(q.cur, ws)], q.waiters[m := ws])
  }

  lemma HandedOrdered(g: Graph, q: Queues, t: nat, m: nat, p: Prio)
    requires WF(g, q) && t < |g.ts| && !Blocked(g.ts[t]) && m < |g.ms| && q.waiters[m] != [] && Ordered(q.cur, q.waiters)
    ensures var q' := HandedQueues(q, t, m, p);
            && ListsBelow(q'.waiters, |q'.cur|) && Ordered(q'.cur, q'.waiters)
            && q.cur[q.waiters[m][0]] <= q'.field[m]
            && q'.field[m] == HeadPrio(q'.cur, q'.waiters[m])
            && forall k :: 0 <= k < |q.waiters| && k != m ==> HeadPrio(q'.cur, q'.waiters[k]) == HeadPrio(q.cur, q.waiters[k])
  {
    var ws := q.waiters[m][1..];
    RunnerUnlisted(g, q, t, p);
    assert Sorted(q.cur[t := p], q.waiters[m]);
    assert t !in q.waiters[m];
    assert ws != [] ==> ws[0] in q.waiters[m];
  }

  lemma HandOffCovered(s: State, t: nat, m: nat)
    requires Covered(s.g, s.q) && Active(s.g, t) && m < |s.g.ms| && s.g.ms[m].owner == Some(t) && s.q.waiters[m] != []
    ensures var s' := HandOff(Disown(s, t, m), m); Covered(s'.g, s'.q)
  {
    var p := Disown(s, t, m).q.cur[t];
    DisownIs(s, t, m);
    HandOffIs(s, t, m, p);
    HandOffWF(s, t, m, p);
    HandedOrdered(s.g, s.q, t, m, p);
  }

  /** After a hand-off everybody but the new owner has the priority it claims. */
  lemma HandOffClaims(s: State, t: nat, m: nat, x: nat)
    requires Valid(s) && ClaimsBut(s.g, s.q, None) && Active(s.g, t) && m < |s.g.ms| && s.g.ms[m].owner == Some(t) && s.q.waiters[m] != []
    requires x < |s.g.ts|
    ensures var w, p := s.q.waiters[m][0], Inherited(Unlinked(s.g, t, m), s.q.field, t);
            var g', q' := Handed(s.g, t, m, w), HandedQueues(s.q, t, m, p);
            && Refs(g')
            && Inherited(g', q'.field, x) == if x == w then Min(q'.cur[w], Claim(g'.ms, q'.field, m)) else q'.cur[x]
  {
    var w, p := s.q.waiters[m][0], Inherited(Unlinked(s.g, t, m), s.q.field, t);
    var g', q' := Handed(s.g, t, m, w), HandedQueues(s.q, t, m, p);
    HandOffIs(s, t, m, p);
    HandedOwners(s.g, t, m, w);
    WithoutMembers(s.g.ts[t].taken, m);
    assert CurOk(s.g, s.q, x);
    var taken := if x == t then Without(s.g.ts[t].taken, m) else s.g.ts[x].taken;
    assert m !in taken;
    MinFrame(s.g.ms, s.q.field, g'.ms, q'.field, taken, s.g.ts[x].init);
    if x == w { MinCons(g'.ms, q'.field, m, taken, s.g.ts[x].init); }
  }

  /** Handing a mutex on keeps exact inheritance if and only if its ceiling is no more urgent
      than the thread that receives it: the hand-off does not apply the ceiling. */
  lemma HandOffSettledIff(s: State, late: set<nat>, t: nat, m: nat)
    requires SettledIn(s.g, s.q, late) && Active(s.g, t) && m < |s.g.ms| && s.g.ms[m].owner == Some(t) && s.q.waiters[m] != []
    ensures var s' := HandOff(Disown(s, t, m), m);
            SettledIn(s'.g, s'.q, late) <==> s.q.cur[s.q.waiters[m][0]] <= s.g.ms[m].ceiling
  {
    var w, p := s.q.waiters[m][0], Inherited(Unlinked(s.g, t, m), s.q.field, t);
    var g', q' := Handed(s.g, t, m, w), HandedQueues(s.q, t, m, p);
    CheapTestAgrees(s, t, m);
    HandOffIs(s, t, m, p);
    HandOffWF(s, t, m, p);
    HandedOrdered(s.g, s.q, t, m, p);
    HandOffClaims(s, t, m, w);
    if s.q.cur[w] <= s.g.ms[m].ceiling {
      forall x | 0 <= x < |g'.ts| ensures CurOk(g', q', x) {
        HandOffClaims(s, t, m, x);
      }
      forall k | 0 <= k < |q'.field| && k !in late ensures HeadOk(q', k) {
        assert HeadOk(s.q, k);
      }
    } else {
      assert !CurOk(g', q', w);
    }
  }

  /** The state after a release nobody was waiting for. */
  lemma VacateOwners(g: Graph, t: nat, m: nat)
    requires Refs(g) && OwnersOk(g) && t < |g.ts| && m < |g.ms| && g.ms[m].owner == Some(t)
    requires forall w :: 0 <= w < |g.ts| && Blocked(g.ts[w]) ==> g.ts[w].pending != Some(m)
    ensures var g' := SetMutex(Unlinked(g, t, m), m, g.ms[m].(owner := None, hold := 0)); Refs(g') && OwnersOk(g')
  {
    WithoutMembers(g.ts[t].taken, m);
    WithoutBelow(g.ts[t].taken, m, |g.ms|);
    var g' := SetMutex(Unlinked(g, t, m), m, g.ms[m].(owner := None, hold := 0));
    forall x, k | 0 <= x < |g'.ts| && k in g'.ts[x].taken ensures g'.ms[k].owner == Some(x) {
      assert k in g.ts[x].taken;
    }
  }

  lemma VacateWF(s: State, t: nat, m: nat, p: Prio)
    requires Valid(s) && Active(s.g, t) && m < |s.g.ms| && s.g.ms[m].owner == Some(t) && s.q.waiters[m] == []
    ensures Valid(Vacate(State(s.levels, Unlinked(s.g, t, m), SetCur(s.q, t, p)), m))
  {
    forall w | 0 <= w < |s.g.ts| && Blocked(s.g.ts[w]) ensures s.g.ts[w].pending != Some(m) {
      assert w in s.q.waiters[s.g.ts[w].pending.value];
    }
    VacateOwners(s.g, t, m);
  }

  lemma VacateCovered(s: State, t: nat, m: nat)
    requires Covered(s.g, s.q) && Active(s.g, t) && m < |s.g.ms| && s.g.ms[m].owner == Some(t) && s.q.waiters[m] == []
    ensures var s' := Vacate(Disown(s, t, m), m); Covered(s'.g, s'.q)
  {
    var p := Disown(s, t, m).q.cur[t];
    DisownIs(s, t, m);
    VacateWF(s, t, m, p);
    RunnerUnlisted(s.g, s.q, t, p);
  }

  lemma VacateSettled(s: State, late: set<nat>, t: nat, m: nat)
    requires SettledIn(s.g, s.q, late) && Active(s.g, t) && m < |s.g.ms| && s.g.ms[m].owner == Some(t) && s.q.waiters[m] == []
    ensures var s' := Vacate(Disown(s, t, m), m); SettledIn(s'.g, s'.q, late)
  {
    var p := Inherited(Unlinked(s.g, t, m), s.q.field, t);
    CheapTestAgrees(s, t, m);
    VacateWF(s, t, m, p);
    RunnerUnlisted(s.g, s.q, t, p);
    var s' := Vacate(Disown(s, t, m), m);
    WithoutMembers(s.g.ts[t].taken, m);
    forall x | 0 <= x < |s'.g.ts| ensures CurOk(s'.g, s'.q, x) {
      assert CurOk(s.g, s.q, x);
      assert m !in s'.g.ts[x].taken;
      MinFrame(s.g.ms, s.q.field, s'.g.ms, s'.q.field, s'.g.ts[x].taken, s.g.ts[x].init);
    }
  }

  // ----- ceilings -----

  lemma CeilingWF(g: Graph, q: Queues, m: nat, p: Prio)
    requires WF(g, q) && m < |g.ms|
    ensures WF(SetMutex(g, m, g.ms[m].(ceiling := p)), q)
  {
  }

  lemma CeilingCovered(s: State, m: nat, p: Prio)
    requires Covered(s.g, s.q) && m < |s.g.ms|
    ensures var s' := SetCeiling(s, m, p).0; Covered(s'.g, s'.q)
  {
    var g := SetMutex(s.g, m, s.g.ms[m].(ceiling := p));
    CeilingWF(s.g, s.q, m, p);
    RefreshCovered(g, s.q, g.ms[m].owner);
  }

  lemma CeilingSettled(s: State, late: set<nat>, m: nat, p: Prio)
    requires SettledIn(s.g, s.q, late) && m < |s.g.ms|
    ensures var s' := SetCeiling(s, m, p).0; SettledIn(s'.g, s'.q, late)
  {
    var g := SetMutex(s.g, m, s.g.ms[m].(ceiling := p));
    CeilingWF(s.g, s.q, m, p);
    forall x | 0 <= x < |g.ts| && g.ms[m].owner != Some(x) ensures CurOk(g, s.q, x) {
      assert CurOk(s.g, s.q, x) && m !in s.g.ts[x].taken;
      MinFrame(s.g.ms, s.q.field, g.ms, s.q.field, g.ts[x].taken, g.ts[x].init);
    }
    if g.ms[m].owner.Some? { RefreshSettled(g, s.q, late, g.ms[m].owner.value); }
  }

  // ----- timeouts -----

  lemma ExpireWF(s: State, t: nat)
    requires Valid(s) && t < |s.g.ts| && Blocked(s.g.ts[t])
    ensures Valid(Expire(s, t))
  {
    var m := s.g.ts[t].pending.value;
    WithoutBelow(s.q.waiters[m], t, |s.g.ts|);
    WithoutMembers(s.q.waiters[m], t);
  }

  /** Losing a waiter never makes the head more urgent. */
  lemma ExpireHead(q: Queues, m: nat, t: nat)
    requires m < |q.waiters| && ListsBelow(q.waiters, |q.cur|) && NoDup(q.waiters[m]) && Sorted(q.cur, q.waiters[m])
    ensures Below(Without(q.waiters[m], t), |q.cur|) && Sorted(q.cur, Without(q.waiters[m], t))
    ensures HeadPrio(q.cur, q.waiters[m]) <= HeadPrio(q.cur, Without(q.waiters[m], t))
    ensures HeadPrio(q.cur, q.waiters[m]) == HeadPrio(q.cur, Without(q.waiters[m], t)) || q.waiters[m][0] == t
  {
    WithoutSorted(q.cur, q.waiters[m], t);
  }

  lemma ExpireCovered(s: State, t: nat)
    requires Covered(s.g, s.q) && t < |s.g.ts| && Blocked(s.g.ts[t])
    ensures var s' := Expire(s, t); Covered(s'.g, s'.q)
  {
    ExpireWF(s, t);
    ExpireHead(s.q, s.g.ts[t].pending.value, t);
  }

  /** A thread past its timeout can forget what it was waiting for. */
  lemma ForgetWF(g: Graph, q: Queues, t: nat)
    requires WF(g, q) && t < |g.ts| && !g.ts[t].suspended
    ensures WF(SetThread(g, t, g.ts[t].(pending := None)), q)
  {
  }

  lemma ForgetClaims(g: Graph, q: Queues, t: nat)
    requires WF(g, q) && t < |g.ts| && !g.ts[t].suspended
    ensures WF(SetThread(g, t, g.ts[t].(pending := None)), q)
    ensures ClaimsBut(g, q, None) <==> ClaimsBut(SetThread(g, t, g.ts[t].(pending := None)), q, None)
    ensures Covered(g, q) ==> Covered(SetThread(g, t, g.ts[t].(pending := None)), q)
  {
    ForgetWF(g, q, t);
    var g' := SetThread(g, t, g.ts[t].(pending := None));
    assert forall x :: 0 <= x < |g.ts| ==> (CurOk(g, q, x) <==> CurOk(g', q, x));
  }

  lemma CleanUpCovered(s: State, t: nat)
    requires Covered(s.g, s.q) && t < |s.g.ts| && !s.g.ts[t].suspended && s.g.ts[t].pending.Some?
    ensures var s' := CleanUp(s, t); Covered(s'.g, s'.q)
  {
    var m := s.g.ts[t].pending.value;
    var q := s.q.(field := s.q.field[m := HeadPrio(s.q.cur, s.q.waiters[m])]);
    assert Covered(s.g, q);
    RefreshCovered(s.g, q, s.g.ms[m].owner);
    ForgetClaims(s.g, Refresh(s.g, q, s.g.ms[m].owner), t);
    ForgetClaims(s.g, q, t);
  }

  /** A timeout makes only the mutex that was waited on late. */
  lemma ExpireSettled(s: State, late: set<nat>, t: nat)
    requires SettledIn(s.g, s.q, late) && t < |s.g.ts| && Blocked(s.g.ts[t])
    ensures var s' := Expire(s, t); SettledIn(s'.g, s'.q, late + {s.g.ts[t].pending.value})
  {
    var m, s' := s.g.ts[t].pending.value, Expire(s, t);
    ExpireWF(s, t);
    ExpireHead(s.q, m, t);
    forall x | 0 <= x < |s.g.ts| ensures CurOk(s'.g, s'.q, x) {
      assert CurOk(s.g, s.q, x);
    }
    forall k | 0 <= k < |s.q.field| && k !in late + {m} ensures HeadOk(s'.q, k) {
      assert HeadOk(s.q, k);
    }
  }

  /** The queues a clean-up works on: the field of the mutex is refreshed. */
  function CleanQueues(s: State, t: nat): Queues
    requires Valid(s) && t < |s.g.ts| && s.g.ts[t].pending.Some?
  {
    var m := s.g.ts[t].pending.value;
    s.q.(field := s.q.field[m := HeadPrio(s.q.cur, s.q.waiters[m])])
  }

  /** The clean-up of `t` passes its test on the owner's priority, or recomputing that priority
      would not move it. */
  ghost predicate CleanUpFits(s: State, t: nat)
    requires Valid(s) && t < |s.g.ts| && s.g.ts[t].pending.Some?
  {
    var o := s.g.ms[s.g.ts[t].pending.value].owner;
    o.Some? ==> s.q.cur[o.value] == s.q.cur[t] || Inherited(s.g, CleanQueues(s, t).field, o.value) == s.q.cur[o.value]
  }

  lemma CleanReady(s: State, late: set<nat>, late': set<nat>, t: nat)
    requires SettledIn(s.g, s.q, late) && t < |s.g.ts| && !s.g.ts[t].suspended && s.g.ts[t].pending.Some?
    requires late <= late' + {s.g.ts[t].pending.value}
    ensures var q, o := CleanQueues(s, t), s.g.ms[s.g.ts[t].pending.value].owner;
            WF(s.g, q) && Ordered(q.cur, q.waiters) && HeadsBut(q, late', None) && ClaimsBut(s.g, q, o)
  {
    var m, q := s.g.ts[t].pending.value, CleanQueues(s, t);
    forall x | 0 <= x < |s.g.ts| && s.g.ms[m].owner != Some(x) ensures CurOk(s.g, q, x) {
      assert CurOk(s.g, s.q, x) && m !in s.g.ts[x].taken;
      MinFrame(s.g.ms, s.q.field, s.g.ms, q.field, s.g.ts[x].taken, s.g.ts[x].init);
    }
    forall k | 0 <= k < |q.field| && k !in late' ensures HeadOk(q, k) {
      assert k != m ==> HeadOk(s.q, k);
    }
  }

  lemma CleanUpTested(s: State, late: set<nat>, late': set<nat>, t: nat, o: nat)
    requires SettledIn(s.g, s.q, late) && t < |s.g.ts| && !s.g.ts[t].suspended && s.g.ts[t].pending.Some?
    requires late <= late' + {s.g.ts[t].pending.value}
    requires s.g.ms[s.g.ts[t].pending.value].owner == Some(o) && s.q.cur[o] == s.q.cur[t]
    ensures var s' := CleanUp(s, t); SettledIn(s'.g, s'.q, late')
  {
    var q := CleanQueues(s, t);
    CleanReady(s, late, late', t);
    RefreshSettled(s.g, q, late', o);
    ForgetClaims(s.g, Refresh(s.g, q, Some(o)), t);
  }

  lemma CleanUpSkipped(s: State, late: set<nat>, late': set<nat>, t: nat)
    requires SettledIn(s.g, s.q, late) && t < |s.g.ts| && !s.g.ts[t].suspended && s.g.ts[t].pending.Some?
    requires late <= late' + {s.g.ts[t].pending.value}
    requires var o := s.g.ms[s.g.ts[t].pending.value].owner; o.Some? ==> s.q.cur[o.value] != s.q.cur[t]
    ensures var s' := CleanUp(s, t); SettledIn(s'.g, s'.q, late') <==> CleanUpFits(s, t)
  {
    var q, o := CleanQueues(s, t), s.g.ms[s.g.ts[t].pending.value].owner;
    CleanReady(s, late, late', t);
    ForgetClaims(s.g, q, t);
    assert CleanUp(s, t).q == q;
    assert o.Some? ==> (CurOk(s.g, q, o.value) <==> CleanUpFits(s, t));
  }

  /** A clean-up, however late, settles its mutex, and keeps everybody at the priority it claims
      if and only if it fits. */
  lemma CleanUpSettledIff(s: State, late: set<nat>, late': set<nat>, t: nat)
    requires SettledIn(s.g, s.q, late) && t < |s.g.ts| && !s.g.ts[t].suspended && s.g.ts[t].pending.Some?
    requires late <= late' + {s.g.ts[t].pending.value}
    ensures var s' := CleanUp(s, t); SettledIn(s'.g, s'.q, late') <==> CleanUpFits(s, t)
  {
    var o := s.g.ms[s.g.ts[t].pending.value].owner;
    if o.Some? && s.q.cur[o.value] == s.q.cur[t] {
      CleanUpTested(s, late, late', t, o.value);
    } else {
      CleanUpSkipped(s, late, late', t);
    }
  }

  /** A timeout and the clean-up that follows it. */
  function TimeOut(s: State, t: nat): State
    requires Valid(s) && t < |s.g.ts| && Blocked(s.g.ts[t])
  {
    ExpireWF(s, t);
    CleanUp(Expire(s, t), t)
  }

  /** From an exact state, a clean-up at once always fits. */
  lemma TimeOutFits(s: State, t: nat)
    requires Exact(s.g, s.q) && t < |s.g.ts| && Blocked(s.g.ts[t])
    ensures Valid(Expire(s, t)) && CleanUpFits(Expire(s, t), t)
  {
    var m, o, f, s1 := s.g.ts[t].pending.value, OwnerOf(s.g, t), s.q.field, Expire(s, t);
    ExpireWF(s, t);
    ExpireHead(s.q, m, t);
    ClaimCovers(s.g, f, o);
    assert CurOk(s.g, s.q, o) && HeadOk(s.q, m);
    var h := CleanQueues(s1, t).field[m];
    assert Inherited(s1.g, f[m := h], o) == Inherited(s.g, f[m := h], o);
    if s.q.cur[o] != s.q.cur[t] {
      if h == f[m] {
        assert f[m := h] == f;
      } else {
        RaiseField(s.g.ms, f, m, s.g.ts[o].taken, s.g.ts[o].init, h);
      }
    }
  }

  lemma TimeOutExact(s: State, t: nat)
    requires Exact(s.g, s.q) && t < |s.g.ts| && Blocked(s.g.ts[t])
    ensures var s' := TimeOut(s, t); Exact(s'.g, s'.q)
  {
    ExpireWF(s, t);
    ExpireSettled(s, {}, t);
    TimeOutFits(s, t);
    CleanUpSettledIff(Expire(s, t), {s.g.ts[t].pending.value}, {}, t);
  }

  // ----- everything else -----

  /** Counting a nested take or release, sleeping and waking touch no list and no priority. */
  lemma HoldKept(g: Graph, q: Queues, m: nat, h: nat)
    requires WF(g, q) && m < |g.ms| && g.ms[m].owner.Some? && 0 < h <= HOLD_MAX
    ensures var g' := SetMutex(g, m, g.ms[m].(hold := h));
            WF(g', q) && (ClaimsBut(g, q, None) ==> ClaimsBut(g', q, None)) && (Covered(g, q) ==> Covered(g', q))
  {
    var g' := SetMutex(g, m, g.ms[m].(hold := h));
    forall x | 0 <= x < |g.ts| ensures CurOk(g, q, x) <==> CurOk(g', q, x) {
      MinFrame(g.ms, q.field, g'.ms, q.field, g.ts[x].taken, g.ts[x].init);
    }
  }

  lemma SleepClaims(g: Graph, q: Queues, t: nat, b: bool)
    requires WF(g, q) && t < |g.ts| && g.ts[t].pending.None?
    ensures var g' := SetThread(g, t, g.ts[t].(suspended := b));
            WF(g', q) && (ClaimsBut(g, q, None) ==> ClaimsBut(g', q, None))
  {
    var g' := SetThread(g, t, g.ts[t].(suspended := b));
    assert forall x :: 0 <= x < |g.ts| ==> (CurOk(g, q, x) <==> CurOk(g', q, x));
  }

  lemma SleepKept(g: Graph, q: Queues, t: nat, b: bool)
    requires WF(g, q) && t < |g.ts| && g.ts[t].pending.None?
    ensures var g' := SetThread(g, t, g.ts[t].(suspended := b));
            WF(g', q) && (ClaimsBut(g, q, None) ==> ClaimsBut(g', q, None)) && (Covered(g, q) ==> Covered(g', q))
  {
    SleepClaims(g, q, t, b);
  }
}
