/** The mutex code as it runs: fields updated in place, lists and chains walked in loops.
    Each method is proved against the function of MutexModel it implements. */
module MutexKernel {
  import opened Lists
  import opened MutexModel
  import opened MutexPropagation
  import opened MutexLoopInvariants
  import opened MutexSteps
  import opened MutexRuns
  import opened MutexOwnership

  class Kernel {
    var levels: nat
    var ts: seq<Thread>
    var ms: seq<Mutex>
    var cur: seq<Prio>
    var field: seq<Prio>
    var waiters: seq<seq<nat>>

    ghost function G(): Graph
      reads this
    {
      Graph(ts, ms)
    }

    ghost function Q(): Queues
      reads this
    {
      Queues(cur, field, waiters)
    }

    ghost function S(): State
      reads this
    {
      State(levels, G(), Q())
    }

    /** `_thread_get_mutex_priority`. */
    method GetMutexPriority(t: nat) returns (p: Prio)
      requires Sized(G(), Q()) && t < |ts|
      ensures p == Inherited(G(), field, t)
    {
      p := ts[t].init;
      var taken := ts[t].taken;
      for i := 0 to |taken|
        invariant MinField(ms, field, taken[i..], p) == Inherited(G(), field, t)
      {
        assert taken[i..][1..] == taken[i + 1..];
        var prio := field[taken[i]];
        prio := if prio < ms[taken[i]].ceiling then prio else ms[taken[i]].ceiling;
        if p > prio {
          p := prio;
        }
      }
    }

    /** `rt_susp_list_enqueue` on the suspend list of `m`. */
    method SuspListEnqueue(m: nat, t: nat)
      requires m < |waiters| && t < |cur| && ListsBelow(waiters, |cur|)
      modifies this`waiters
      ensures waiters == old(waiters)[m := Enqueue(cur, old(waiters[m]), t)]
    {
      var ws := waiters[m];
      var n := 0;
      while n < |ws| && cur[t] >= cur[ws[n]]
        invariant 0 <= n <= |ws|
        invariant forall i :: 0 <= i < n ==> cur[t] >= cur[ws[i]]
      {
        n := n + 1;
      }
      EnqueueAt(cur, ws, t, n);
      waiters := waiters[m := ws[..n] + ([t] + ws[n..])];
    }

    /** `_mutex_update_priority`. */
    method MutexUpdatePriority(m: nat)
      requires m < |field| == |waiters| && ListsBelow(waiters, |cur|)
      modifies this`field
      ensures field == old(field)[m := HeadPrio(cur, waiters[m])]
    {
      if waiters[m] != [] {
        field := field[m := cur[waiters[m][0]]];
      } else {
        field := field[m := NO_PRIO];
      }
    }

    /** The part of the loop body that moves a blocked thread within its suspend list. */
    method Resort(t: nat, m: nat)
      requires Sized(G(), Q()) && t < |ts| && m < |ms|
      modifies this`field, this`waiters
      ensures Q() == Requeue(old(Q()), t, m)
    {
      WithoutBelow(waiters[m], t, |cur|);
      ghost var ws := Without<nat>(waiters[m], t);
      waiters := waiters[m := Without<nat>(waiters[m], t)];
      SuspListEnqueue(m, t);
      assert waiters == old(waiters)[m := Enqueue(cur, ws, t)];
      MutexUpdatePriority(m);
    }

    /** `_thread_update_priority`: the loop along the blocking chain. */
    method ThreadUpdatePriority(thread: nat, priority: Prio)
      requires Sized(G(), Q()) && thread < |ts|
      requires Stops(G(), SetCur(Q(), thread, priority), thread, Enough(G()))
      modifies this`cur, this`field, this`waiters
      ensures Q() == UpdatePriority(old(G()), old(Q()), thread, priority)
    {
      ghost var g, q0, n := G(), SetCur(Q(), thread, priority), Enough(G());
      cur := cur[thread := priority];
      var t, go := thread, true;
      while go && Blocked(ts[t])
        invariant ts == g.ts && ms == g.ms && Sized(g, Q()) && t < |ts|
        invariant go ==> Stops(g, Q(), t, n)
        invariant Rounds(g, q0, Some(thread), Enough(g)).0 == if go then Rounds(g, Q(), Some(t), n).0 else Q()
        decreases n
      {
        ghost var q := Q();
        var m := ts[t].pending.value;
        Resort(t, m);
        var o := ms[m].owner.value;
        var p := GetMutexPriority(o);
        LoopTurn(g, q, t, n, Q(), o, p);
        if p != cur[o] {
          t := o;
          cur := cur[t := p];
        } else {
          go := false;
        }
        n := n - 1;
      }
      if go { IdleRounds(g, Q(), t, n); }
    }

    /** Recompute an owner's priority, and propagate it if it moved. */
    method RefreshOwner(o: nat)
      requires Sized(G(), Q()) && OwnersOk(G()) && WaitersOk(ts, waiters) && Ordered(cur, waiters) && o < |ts|
      modifies this`cur, this`field, this`waiters
      ensures Q() == Refresh(old(G()), old(Q()), Some(o))
    {
      var p := GetMutexPriority(o);
      if p != cur[o] {
        LoopStops(G(), Q(), o, p);
        ThreadUpdatePriority(o, p);
      }
    }

    /** `_rt_mutex_take` by the running thread `t`, up to its return or its suspension. */
    method MutexTake(t: nat, m: nat, wait: bool) returns (r: Outcome)
      requires Covered(G(), Q()) && Active(G(), t) && m < |ms|
      modifies this
      ensures (S(), r) == Take(old(S()), t, m, wait)
      ensures TakeTells(old(S()), S(), t, m, wait, r)
      ensures Covered(G(), Q())
    {
      TakeAnswers(S(), t, m, wait);
      TakeCovered(S(), t, m, wait, Take(S(), t, m, wait).0);
      if ms[m].owner == Some(t) {
        if ms[m].hold < HOLD_MAX {
          ms := ms[m := ms[m].(hold := ms[m].hold + 1)];
          r := Taken;
        } else {
          r := Full;
        }
      } else if ms[m].owner.None? {
        TakeUnowned(t, m);
        r := Taken;
      } else if !wait {
        r := TimedOut;
      } else {
        TakeOwned(t, m);
        r := Waiting;
      }
    }

    method TakeUnowned(t: nat, m: nat)
      requires Covered(G(), Q()) && Active(G(), t) && m < |ms| && ms[m].owner.None?
      modifies this
      ensures S() == TakeFree(old(S()), t, m)
    {
      ms := ms[m := ms[m].(owner := Some(t), hold := 1)];
      field := field[m := NO_PRIO];
      if ms[m].ceiling != NO_PRIO && ms[m].ceiling < cur[t] {
        IdleRounds(G(), SetCur(Q(), t, ms[m].ceiling), t, Enough(G()));
        ThreadUpdatePriority(t, ms[m].ceiling);
      }
      ts := ts[t := ts[t].(taken := [m] + ts[t].taken)];
    }

    method TakeOwned(t: nat, m: nat)
      requires Covered(G(), Q()) && Active(G(), t) && m < |ms| && ms[m].owner.Some? && ms[m].owner != Some(t)
      modifies this
      ensures S() == TakeBlock(old(S()), t, m)
    {
      ghost var s := S();
      SuspListEnqueue(m, t);
      ts := ts[t := ts[t].(suspended := true, pending := Some(m))];
      assert S() == Suspend(s, t, m);
      if cur[t] < field[m] {
        field := field[m := cur[t]];
        var o := ms[m].owner.value;
        if field[m] < cur[o] {
          BlockReady(s, t, m);
          assert Q() == BlockQueues(s, t, m);
          LoopStops(G(), Q(), o, cur[t]);
          ThreadUpdatePriority(o, cur[t]);
        }
      }
    }

    /** `_check_and_update_prio`. */
    method CheckAndUpdatePrio(t: nat, m: nat) returns (resched: bool)
      requires Sized(G(), Q()) && t < |ts| && m < |ms|
      modifies this`cur
      ensures resched <==> ms[m].ceiling != NO_PRIO || old(cur[t]) == field[m]
      ensures cur == if resched then old(cur)[t := Inherited(G(), field, t)] else old(cur)
    {
      resched := false;
      if ms[m].ceiling != NO_PRIO || cur[t] == field[m] {
        var p := GetMutexPriority(t);
        cur := cur[t := p];
        resched := true;
      }
    }

    /** `rt_mutex_release` by the running thread `t`. */
    method MutexRelease(t: nat, m: nat) returns (r: Outcome)
      requires Covered(G(), Q()) && Active(G(), t) && m < |ms|
      modifies this
      ensures (S(), r) == Release(old(S()), t, m)
      ensures ReleaseTells(old(S()), S(), t, m, r)
      ensures Covered(G(), Q())
    {
      ReleaseAnswers(S(), t, m);
      ReleaseCovered(S(), t, m, Release(S(), t, m).0);
      if ms[m].owner != Some(t) {
        return NotOwner;
      }
      r := Released;
      if ms[m].hold > 1 {
        ms := ms[m := ms[m].(hold := ms[m].hold - 1)];
      } else {
        LastRelease(t, m);
      }
    }

    /** The owner gives up `m` and what it inherited through it. */
    method GiveUp(t: nat, m: nat)
      requires Covered(G(), Q()) && Active(G(), t) && m < |ms| && ms[m].owner == Some(t)
      modifies this`ts, this`cur
      ensures S() == Disown(old(S()), t, m)
    {
      WithoutBelow(ts[t].taken, m, |ms|);
      ts := ts[t := ts[t].(taken := Without<nat>(ts[t].taken, m))];
      var resched := CheckAndUpdatePrio(t, m);
    }

    /** The first waiter becomes the owner. */
    method PassOn(m: nat)
      requires Sized(G(), Q()) && m < |ms| && waiters[m] != []
      modifies this`ts, this`ms, this`waiters, this`field
      ensures S() == HandOff(old(S()), m)
    {
      var next := waiters[m][0];
      waiters := waiters[m := waiters[m][1..]];
      ms := ms[m := ms[m].(owner := Some(next), hold := 1)];
      ts := ts[next := ts[next].(suspended := false, pending := None, taken := [m] + ts[next].taken)];
      MutexUpdatePriority(m);
    }

    method LastRelease(t: nat, m: nat)
      requires Covered(G(), Q()) && Active(G(), t) && m < |ms| && ms[m].owner == Some(t) && ms[m].hold == 1
      modifies this
      ensures S() == Release(old(S()), t, m).0
    {
      GiveUp(t, m);
      if waiters[m] != [] {
        PassOn(m);
      } else {
        ms := ms[m := ms[m].(owner := None, hold := 0)];
        field := field[m := NO_PRIO];
      }
    }

    /** `rt_mutex_setprioceiling`. */
    method MutexSetPrioCeiling(m: nat, p: Prio) returns (r: Prio)
      requires Covered(G(), Q()) && m < |ms|
      modifies this
      ensures (S(), r) == SetCeiling(old(S()), m, p)
      ensures p < levels ==> r == old(ms[m].ceiling) && ms == old(ms)[m := old(ms[m]).(ceiling := p)]
      ensures p >= levels ==> r == NO_PRIO && ms == old(ms)
      ensures Covered(G(), Q())
    {
      CeilingCovered(S(), m, p);
      r := NO_PRIO;
      if p < levels {
        CeilingWF(G(), Q(), m, p);
        r := ms[m].ceiling;
        ms := ms[m := ms[m].(ceiling := p)];
        if ms[m].owner.Some? {
          RefreshOwner(ms[m].owner.value);
        }
      }
    }

    /** `_thread_timeout` of a thread blocked on a mutex. */
    method ThreadTimeout(t: nat)
      requires Covered(G(), Q()) && t < |ts| && Blocked(ts[t])
      modifies this
      ensures S() == Expire(old(S()), t) && ms == old(ms) && ts == old(ts)[t := old(ts[t]).(suspended := false)]
      ensures Covered(G(), Q())
    {
      ExpireCovered(S(), t);
      WithoutBelow(waiters[ts[t].pending.value], t, |ts|);
      waiters := waiters[ts[t].pending.value := Without<nat>(waiters[ts[t].pending.value], t)];
      ts := ts[t := ts[t].(suspended := false)];
    }

    /** The error path of `_rt_mutex_take` after a timeout. */
    method TakeFailed(t: nat)
      requires Covered(G(), Q()) && t < |ts| && !ts[t].suspended && ts[t].pending.Some?
      modifies this
      ensures S() == CleanUp(old(S()), t) && ms == old(ms) && ts == old(ts)[t := old(ts[t]).(pending := None)]
      ensures Covered(G(), Q())
    {
      CleanUpCovered(S(), t);
      var m := ts[t].pending.value;
      var needUpdate := ms[m].owner.Some? && cur[ms[m].owner.value] == cur[t];
      MutexUpdatePriority(m);
      if needUpdate {
        RefreshOwner(ms[m].owner.value);
      }
      ts := ts[t := ts[t].(pending := None)];
    }
  }

  /** The place the search of `rt_susp_list_enqueue` stops at. */
  lemma {:induction false} EnqueueAt(cur: seq<Prio>, ws: seq<nat>, t: nat, n: nat)
    requires Below(ws, |cur|) && t < |cur| && n <= |ws|
    requires (forall i :: 0 <= i < n ==> cur[t] >= cur[ws[i]]) && (n < |ws| ==> cur[t] < cur[ws[n]])
    ensures Enqueue(cur, ws, t) == ws[..n] + ([t] + ws[n..])
  {
    if n > 0 {
      var rest := ws[1..];
      assert forall i :: 0 <= i < |rest| ==> rest[i] == ws[i + 1];
      EnqueueAt(cur, rest, t, n - 1);
      Shifted(ws, rest, t, n);
    }
  }

  lemma Shifted(ws: seq<nat>, rest: seq<nat>, t: nat, n: nat)
    requires 0 < n <= |ws| && rest == ws[1..]
    ensures ws[..n] + ([t] + ws[n..]) == [ws[0]] + (rest[..n - 1] + ([t] + rest[n - 1..]))
  {
  }

  /** One turn of the loop, as `Rounds` sees it. */
  lemma LoopTurn(g: Graph, q: Queues, t: nat, n: nat, q1: Queues, o: nat, p: Prio)
    requires Sized(g, q) && t < |g.ts| && Stops(g, q, t, n) && Turn(g, q, t, q1, o, p)
    ensures n > 0
    ensures p == q1.cur[o] ==> Rounds(g, q, Some(t), n).0 == q1
    ensures p != q1.cur[o] ==>
              && Stops(g, SetCur(q1, o, p), o, n - 1)
              && Rounds(g, q, Some(t), n).0 == Rounds(g, SetCur(q1, o, p), Some(o), n - 1).0
  {
    assert Round(g, q, t) == if p != q1.cur[o] then (SetCur(q1, o, p), Some(o)) else (q1, None);
    assert p == q1.cur[o] ==> Rounds(g, q1, None, n - 1) == (q1, None);
  }
}
