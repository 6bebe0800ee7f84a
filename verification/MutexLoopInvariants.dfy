/** What `_thread_update_priority` establishes when its loop stops: the exact inheritance
    equations if they held before, and in any case that no owner is less urgent than its
    waiters. */
module MutexLoopInvariants {
  import opened Lists
  import opened MutexModel
  import opened MutexPropagation

  /** The mutex a thread is queued on. */
  function QueuedOn(g: Graph, t: nat): Option<nat>
    requires t < |g.ts|
  {
    if g.ts[t].suspended then g.ts[t].pending else None
  }

  // ----- exact inheritance -----

  /** Every mutex but `but` and those in `late` carries its head waiter's priority, or 0xFF. */
  ghost predicate HeadsBut(q: Queues, late: set<nat>, but: Option<nat>)
    requires |q.field| == |q.waiters| && ListsBelow(q.waiters, |q.cur|)
  {
    forall m :: 0 <= m < |q.field| && but != Some(m) && m !in late ==> HeadOk(q, m)
  }

  /** Every thread but `but` has the minimum of its initial priority and the claims of the
      mutexes it holds. */
  ghost predicate ClaimsBut(g: Graph, q: Queues, but: Option<nat>)
    requires Sized(g, q)
  {
    forall t :: 0 <= t < |g.ts| && but != Some(t) ==> CurOk(g, q, t)
  }

  /** Every thread has the priority it claims through the stored fields, and the fields are
      right, but for the mutexes in `late`. */
  ghost predicate SettledIn(g: Graph, q: Queues, late: set<nat>)
  {
    WF(g, q) && Ordered(q.cur, q.waiters) && HeadsBut(q, late, None) && ClaimsBut(g, q, None)
  }

  /** All inheritance equations hold. */
  ghost predicate Exact(g: Graph, q: Queues)
  {
    SettledIn(g, q, {})
  }

  /** Settled but for the place of `t` in its suspend list and the field of that mutex. */
  ghost predicate SettledBut(g: Graph, q: Queues, late: set<nat>, t: nat)
  {
    && WF(g, q) && t < |g.ts| && OrderedBut(q.cur, q.waiters, t)
    && HeadsBut(q, late, QueuedOn(g, t)) && ClaimsBut(g, q, None)
  }

  /** Requeueing a thread settles its mutex. */
  lemma RequeueHeads(g: Graph, q: Queues, late: set<nat>, t: nat)
    requires WF(g, q) && t < |g.ts| && Blocked(g.ts[t]) && HeadsBut(q, late, QueuedOn(g, t))
    ensures HeadsBut(Requeue(q, t, g.ts[t].pending.value), late, None)
  {
    var q' := Requeue(q, t, g.ts[t].pending.value);
    forall m | 0 <= m < |q.field| && m !in late ensures HeadOk(q', m) {
      assert m != g.ts[t].pending.value ==> HeadOk(q, m);
    }
  }

  /** Setting a priority unsettles only the mutex that thread is queued on. */
  lemma SetCurHeads(g: Graph, q: Queues, late: set<nat>, t: nat, p: Prio)
    requires WF(g, q) && t < |g.ts| && HeadsBut(q, late, None)
    ensures HeadsBut(SetCur(q, t, p), late, QueuedOn(g, t))
  {
    forall m | 0 <= m < |q.field| && QueuedOn(g, t) != Some(m) && m !in late ensures HeadOk(SetCur(q, t, p), m) {
      var ws := q.waiters[m];
      assert t !in ws && HeadOk(q, m);
      assert ws != [] ==> ws[0] in ws;
    }
  }

  lemma RequeueClaims(g: Graph, q: Queues, t: nat, q1: Queues, o: nat, p: Prio)
    requires WF(g, q) && t < |g.ts| && ClaimsBut(g, q, None) && Turn(g, q, t, q1, o, p)
    ensures Sized(g, q1) && ClaimsBut(g, q1, Some(o)) && ClaimsBut(g, SetCur(q1, o, p), None)
  {
    forall x | 0 <= x < |g.ts| && x != o ensures CurOk(g, q1, x) {
      assert CurOk(g, q, x);
      OthersUnmoved(g, q.field, q1.field, g.ts[t].pending.value, x);
    }
  }

  lemma TurnSettled(g: Graph, q: Queues, late: set<nat>, t: nat, q1: Queues, o: nat, p: Prio)
    requires SettledBut(g, q, late, t) && Turn(g, q, t, q1, o, p)
    ensures p == q1.cur[o] ==> SettledIn(g, q1, late)
    ensures SettledBut(g, SetCur(q1, o, p), late, o)
  {
    RequeueWF(g, q, t);
    RequeueOrdered(g, q, t);
    RequeueHeads(g, q, late, t);
    RequeueClaims(g, q, t, q1, o, p);
    SetCurOrdered(g, q1, o, p);
    SetCurHeads(g, q1, late, o, p);
  }

  /** At a thread that is not blocked on a mutex nothing is out of place. */
  lemma IdleSettled(g: Graph, q: Queues, late: set<nat>, t: nat)
    requires SettledBut(g, q, late, t) && !Blocked(g.ts[t])
    ensures SettledIn(g, q, late)
  {
    forall m | 0 <= m < |q.waiters| ensures Sorted(q.cur, q.waiters[m]) {
      WithoutSame(q.waiters[m], t);
    }
  }

  lemma {:induction false} RoundsSettled(g: Graph, q: Queues, late: set<nat>, t: nat, n: nat)
    requires SettledBut(g, q, late, t) && Stops(g, q, t, n)
    ensures SettledIn(g, Rounds(g, q, Some(t), n).0, late)
    decreases n
  {
    if !Blocked(g.ts[t]) {
      IdleSettled(g, q, late, t);
    } else {
      var q1, o := Requeue(q, t, g.ts[t].pending.value), OwnerOf(g, t);
      var p := Inherited(g, q1.field, o);
      TurnSettled(g, q, late, t, q1, o, p);
      if p != q1.cur[o] { RoundsSettled(g, SetCur(q1, o, p), late, o, n - 1); }
    }
  }

  /** Bringing one thread to its claim, and following the chain, restores every equation. */
  lemma UpdateSettled(g: Graph, q: Queues, late: set<nat>, t: nat)
    requires WF(g, q) && t < |g.ts| && Ordered(q.cur, q.waiters) && HeadsBut(q, late, None) && ClaimsBut(g, q, Some(t))
    ensures SettledIn(g, UpdatePriority(g, q, t, Inherited(g, q.field, t)), late)
  {
    var p := Inherited(g, q.field, t);
    LoopStops(g, q, t, p);
    SetCurOrdered(g, q, t, p);
    SetCurHeads(g, q, late, t, p);
    RoundsSettled(g, SetCur(q, t, p), late, t, Enough(g));
  }

  // ----- no inversion -----

  /** No mutex but `but` has a field less urgent than its head waiter. */
  ghost predicate FieldsCoverBut(q: Queues, but: Option<nat>)
    requires |q.field| == |q.waiters| && ListsBelow(q.waiters, |q.cur|)
  {
    forall m :: 0 <= m < |q.field| && but != Some(m) ==> q.field[m] <= HeadPrio(q.cur, q.waiters[m])
  }

  /** No owner but `but` is less urgent than the field of a mutex it holds. */
  ghost predicate OwnersCoverBut(g: Graph, q: Queues, but: Option<nat>)
    requires Sized(g, q)
  {
    forall m :: 0 <= m < |g.ms| && g.ms[m].owner.Some? && g.ms[m].owner != but ==>
      q.cur[g.ms[m].owner.value] <= q.field[m]
  }

  /** No thread is less urgent than its initial priority. */
  ghost predicate AtLeastInit(g: Graph, q: Queues)
    requires Sized(g, q)
  {
    forall t :: 0 <= t < |g.ts| ==> q.cur[t] <= g.ts[t].init
  }

  ghost predicate Covered(g: Graph, q: Queues)
  {
    && WF(g, q) && Ordered(q.cur, q.waiters) && AtLeastInit(g, q)
    && FieldsCoverBut(q, None) && OwnersCoverBut(g, q, None)
  }

  ghost predicate CoveredBut(g: Graph, q: Queues, t: nat)
  {
    && WF(g, q) && t < |g.ts| && OrderedBut(q.cur, q.waiters, t) && AtLeastInit(g, q)
    && FieldsCoverBut(q, QueuedOn(g, t)) && OwnersCoverBut(g, q, None)
  }

  /** A thread at its claim covers every field it holds. */
  lemma ClaimCovers(g: Graph, field: seq<Prio>, t: nat)
    requires Refs(g) && OwnersOk(g) && |field| == |g.ms| && t < |g.ts|
    ensures Inherited(g, field, t) <= g.ts[t].init
    ensures forall m :: 0 <= m < |g.ms| && g.ms[m].owner == Some(t) ==> Inherited(g, field, t) <= field[m]
  {
    MinFieldIsMin(g.ms, field, g.ts[t].taken, g.ts[t].init);
    forall m | 0 <= m < |g.ms| && g.ms[m].owner == Some(t) ensures Inherited(g, field, t) <= field[m] {
      assert Inherited(g, field, t) <= Claim(g.ms, field, m);
    }
  }

  lemma RequeueFields(g: Graph, q: Queues, t: nat)
    requires WF(g, q) && t < |g.ts| && Blocked(g.ts[t]) && FieldsCoverBut(q, QueuedOn(g, t))
    ensures FieldsCoverBut(Requeue(q, t, g.ts[t].pending.value), None)
  {
  }

  lemma SetCurFields(g: Graph, q: Queues, t: nat, p: Prio)
    requires WF(g, q) && t < |g.ts| && FieldsCoverBut(q, None)
    ensures FieldsCoverBut(SetCur(q, t, p), QueuedOn(g, t))
  {
    forall m | 0 <= m < |q.field| && QueuedOn(g, t) != Some(m)
      ensures q.field[m] <= HeadPrio(q.cur[t := p], q.waiters[m])
    {
      var ws := q.waiters[m];
      assert t !in ws;
      assert ws != [] ==> ws[0] in ws;
    }
  }

  lemma RequeueOwners(g: Graph, q: Queues, t: nat, q1: Queues, o: nat, p: Prio)
    requires WF(g, q) && t < |g.ts| && OwnersCoverBut(g, q, None) && Turn(g, q, t, q1, o, p)
    ensures Sized(g, q1) && OwnersCoverBut(g, q1, Some(o)) && OwnersCoverBut(g, SetCur(q1, o, p), None)
    ensures p <= g.ts[o].init
  {
    ClaimCovers(g, q1.field, o);
  }

  lemma TurnCovered(g: Graph, q: Queues, t: nat, q1: Queues, o: nat, p: Prio)
    requires CoveredBut(g, q, t) && Turn(g, q, t, q1, o, p)
    ensures p == q1.cur[o] ==> Covered(g, q1)
    ensures CoveredBut(g, SetCur(q1, o, p), o)
  {
    RequeueWF(g, q, t);
    RequeueOrdered(g, q, t);
    RequeueFields(g, q, t);
    RequeueOwners(g, q, t, q1, o, p);
    SetCurOrdered(g, q1, o, p);
    SetCurFields(g, q1, o, p);
    if p == q1.cur[o] { assert SetCur(q1, o, p).cur == q1.cur; }
  }

  lemma IdleCovered(g: Graph, q: Queues, t: nat)
    requires CoveredBut(g, q, t) && !Blocked(g.ts[t])
    ensures Covered(g, q)
  {
    forall m | 0 <= m < |q.waiters| ensures Sorted(q.cur, q.waiters[m]) {
      WithoutSame(q.waiters[m], t);
    }
  }

  lemma {:induction false} RoundsCovered(g: Graph, q: Queues, t: nat, n: nat)
    requires CoveredBut(g, q, t) && Stops(g, q, t, n)
    ensures Covered(g, Rounds(g, q, Some(t), n).0)
    decreases n
  {
    if !Blocked(g.ts[t]) {
      IdleCovered(g, q, t);
    } else {
      var q1, o := Requeue(q, t, g.ts[t].pending.value), OwnerOf(g, t);
      var p := Inherited(g, q1.field, o);
      TurnCovered(g, q, t, q1, o, p);
      if p != q1.cur[o] { RoundsCovered(g, SetCur(q1, o, p), o, n - 1); }
    }
  }

  /** Giving a thread a priority that covers its mutexes, and following the chain, keeps
      every waiter covered. */
  lemma UpdateCovered(g: Graph, q: Queues, t: nat, p: Prio)
    requires WF(g, q) && t < |g.ts| && Ordered(q.cur, q.waiters) && AtLeastInit(g, q)
    requires FieldsCoverBut(q, None) && OwnersCoverBut(g, q, Some(t))
    requires p <= g.ts[t].init && forall m :: 0 <= m < |g.ms| && g.ms[m].owner == Some(t) ==> p <= q.field[m]
    ensures Covered(g, UpdatePriority(g, q, t, p))
  {
    LoopStops(g, q, t, p);
    SetCurOrdered(g, q, t, p);
    SetCurFields(g, q, t, p);
    RoundsCovered(g, SetCur(q, t, p), t, Enough(g));
  }
}
