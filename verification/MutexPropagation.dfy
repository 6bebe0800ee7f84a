/** The propagation loop of `_thread_update_priority`: what one turn keeps, and why
    the loop stops on every wait-for graph. */
module MutexPropagation {
  import opened Lists
  import opened MutexModel

  // ----- lists and minima -----

  /** What holding mutex `m` contributes to its owner's priority. */
  function Claim(ms: seq<Mutex>, field: seq<Prio>, m: nat): Prio
    requires m < |ms| && |field| == |ms|
  {
    Min(ms[m].ceiling, field[m])
  }

  /** `r` is the smallest of `p` and the claims of the mutexes in `taken`. */
  ghost predicate IsMin(ms: seq<Mutex>, field: seq<Prio>, taken: seq<nat>, p: Prio, r: Prio)
    requires Below(taken, |ms|) && |field| == |ms|
  {
    && r <= p
    && (forall m :: m in taken ==> r <= Claim(ms, field, m))
    && (r == p || exists m :: m in taken && r == Claim(ms, field, m))
  }

  lemma {:induction false} MinFieldIsMin(ms: seq<Mutex>, field: seq<Prio>, taken: seq<nat>, p: Prio)
    requires Below(taken, |ms|) && |field| == |ms|
    ensures IsMin(ms, field, taken, p, MinField(ms, field, taken, p))
  {
    if taken != [] {
      var c := Claim(ms, field, taken[0]);
      MinFieldIsMin(ms, field, taken[1..], Min(p, c));
      assert forall m :: m in taken <==> m == taken[0] || m in taken[1..];
    }
  }

  /** Two threads' claims compare as the claims they are made of. */
  lemma MinMono(ms: seq<Mutex>, field: seq<Prio>, ms': seq<Mutex>, field': seq<Prio>, taken: seq<nat>, p: Prio)
    requires Below(taken, |ms|) && |field| == |ms| && |field'| == |ms'| == |ms|
    requires forall m :: m in taken ==> Claim(ms, field, m) <= Claim(ms', field', m)
    ensures MinField(ms, field, taken, p) <= MinField(ms', field', taken, p)
  {
    MinFieldIsMin(ms, field, taken, p);
    MinFieldIsMin(ms', field', taken, p);
  }

  lemma {:induction false} EnqueueMembers(cur: seq<Prio>, ws: seq<nat>, t: nat)
    requires t < |cur| && Below(ws, |cur|)
    ensures forall w :: w in Enqueue(cur, ws, t) <==> w in ws || w == t
  {
    if ws != [] {
      EnqueueMembers(cur, ws[1..], t);
      assert forall w :: w in ws <==> w == ws[0] || w in ws[1..];
    }
  }

  lemma {:induction false} EnqueueNoDup(cur: seq<Prio>, ws: seq<nat>, t: nat)
    requires t < |cur| && Below(ws, |cur|) && NoDup(ws) && t !in ws
    ensures NoDup(Enqueue(cur, ws, t))
  {
    if ws == [] {
    } else if cur[t] < cur[ws[0]] {
      NoDupCons(t, ws);
    } else {
      NoDupTail(ws);
      EnqueueNoDup(cur, ws[1..], t);
      EnqueueMembers(cur, ws[1..], t);
      NoDupCons(ws[0], Enqueue(cur, ws[1..], t));
    }
  }

  lemma SortedCons(cur: seq<Prio>, w: nat, ws: seq<nat>)
    requires w < |cur| && Below(ws, |cur|) && Sorted(cur, ws)
    requires forall v :: v in ws ==> cur[w] <= cur[v]
    ensures Sorted(cur, [w] + ws)
  {
    var r := [w] + ws;
    forall i, j | 0 <= i < j < |r| ensures cur[r[i]] <= cur[r[j]] {
      assert r[j] == ws[j - 1];
      if i == 0 {
        assert ws[j - 1] in ws;
      } else {
        assert r[i] == ws[i - 1];
      }
    }
  }

  lemma SortedTail(cur: seq<Prio>, ws: seq<nat>)
    requires Below(ws, |cur|) && Sorted(cur, ws) && ws != []
    ensures Sorted(cur, ws[1..])
    ensures forall v :: v in ws ==> cur[ws[0]] <= cur[v]
  {
  }

  lemma {:induction false} EnqueueSorted(cur: seq<Prio>, ws: seq<nat>, t: nat)
    requires t < |cur| && Below(ws, |cur|) && Sorted(cur, ws)
    ensures Sorted(cur, Enqueue(cur, ws, t))
  {
    if ws != [] {
      SortedTail(cur, ws);
      if cur[t] < cur[ws[0]] {
        SortedCons(cur, t, ws);
      } else {
        EnqueueSorted(cur, ws[1..], t);
        EnqueueMembers(cur, ws[1..], t);
        SortedCons(cur, ws[0], Enqueue(cur, ws[1..], t));
      }
    }
  }

  lemma {:induction false} WithoutSorted(cur: seq<Prio>, ws: seq<nat>, t: nat)
    requires Below(ws, |cur|) && NoDup(ws) && Sorted(cur, ws)
    ensures Below(Without(ws, t), |cur|) && Sorted(cur, Without(ws, t))
  {
    WithoutBelow(ws, t, |cur|);
    if ws != [] {
      SortedTail(cur, ws);
      NoDupTail(ws);
      if ws[0] != t {
        WithoutSorted(cur, ws[1..], t);
        WithoutMembers(ws[1..], t);
        SortedCons(cur, ws[0], Without(ws[1..], t));
      }
    }
  }

  /** A list stays sorted when only the priority of a thread not on it changes. */
  lemma SortedFrame(cur: seq<Prio>, ws: seq<nat>, t: nat, p: Prio)
    requires Below(ws, |cur|) && t < |cur| && Sorted(cur, ws) && t !in ws
    ensures Sorted(cur[t := p], ws)
  {
  }

  // ----- one turn -----

  /** Every suspend list is sorted. */
  ghost predicate Ordered(cur: seq<Prio>, waiters: seq<seq<nat>>)
    requires ListsBelow(waiters, |cur|)
  {
    forall m :: 0 <= m < |waiters| ==> Sorted(cur, waiters[m])
  }

  /** Every suspend list is sorted once `t` is taken out of it. */
  ghost predicate OrderedBut(cur: seq<Prio>, waiters: seq<seq<nat>>, t: nat)
    requires ListsBelow(waiters, |cur|)
  {
    forall m :: 0 <= m < |waiters| ==> Below(Without(waiters[m], t), |cur|) && Sorted(cur, Without(waiters[m], t))
  }

  lemma RequeueWF(g: Graph, q: Queues, t: nat)
    requires WF(g, q) && t < |g.ts| && Blocked(g.ts[t])
    ensures WF(g, Requeue(q, t, g.ts[t].pending.value))
  {
    var ws := q.waiters[g.ts[t].pending.value];
    WithoutMembers(ws, t);
    WithoutBelow(ws, t, |q.cur|);
    EnqueueMembers(q.cur, Without(ws, t), t);
    EnqueueNoDup(q.cur, Without(ws, t), t);
  }

  lemma RequeueOrdered(g: Graph, q: Queues, t: nat)
    requires WF(g, q) && t < |g.ts| && Blocked(g.ts[t]) && OrderedBut(q.cur, q.waiters, t)
    ensures var q1 := Requeue(q, t, g.ts[t].pending.value); Ordered(q1.cur, q1.waiters)
  {
    var m := g.ts[t].pending.value;
    var q1 := Requeue(q, t, m);
    forall k | 0 <= k < |q1.waiters| ensures Sorted(q1.cur, q1.waiters[k]) {
      if k == m {
        EnqueueSorted(q.cur, Without(q.waiters[m], t), t);
      } else {
        WithoutSame(q.waiters[k], t);
      }
    }
  }

  lemma SetCurOrdered(g: Graph, q: Queues, t: nat, p: Prio)
    requires WF(g, q) && t < |g.ts| && Ordered(q.cur, q.waiters)
    ensures OrderedBut(q.cur[t := p], q.waiters, t)
  {
    forall m | 0 <= m < |q.waiters|
      ensures Below(Without(q.waiters[m], t), |q.cur|) && Sorted(q.cur[t := p], Without(q.waiters[m], t))
    {
      WithoutSorted(q.cur, q.waiters[m], t);
      WithoutMembers(q.waiters[m], t);
      SortedFrame(q.cur, Without(q.waiters[m], t), t, p);
    }
  }

  /** A turn at blocked thread `t` requeues it, giving `q1`, and finds that the owner `o` it
      waits for claims priority `p`. */
  ghost predicate Turn(g: Graph, q: Queues, t: nat, q1: Queues, o: nat, p: Prio)
    requires Sized(g, q) && t < |g.ts|
  {
    && Blocked(g.ts[t])
    && q1 == Requeue(q, t, g.ts[t].pending.value)
    && o == OwnerOf(g, t)
    && p == Inherited(g, q1.field, o)
  }

  /** The loop, handling `t` next, stops within `n` turns. */
  ghost predicate Stops(g: Graph, q: Queues, t: nat, n: nat)
    requires Sized(g, q) && t < |g.ts|
  {
    Rounds(g, q, Some(t), n).1.None?
  }

  lemma StopsStep(g: Graph, q: Queues, t: nat, n: nat, q1: Queues, o: nat, p: Prio)
    requires Sized(g, q) && t < |g.ts| && n > 0 && Turn(g, q, t, q1, o, p)
    requires p == q1.cur[o] || Stops(g, SetCur(q1, o, p), o, n - 1)
    ensures Stops(g, q, t, n)
  {
  }

  /** The loop leaves the state well formed. */
  lemma {:induction false} RoundsWF(g: Graph, q: Queues, t: nat, n: nat)
    requires WF(g, q) && t < |g.ts|
    ensures WF(g, Rounds(g, q, Some(t), n).0)
    decreases n
  {
    if n != 0 && Blocked(g.ts[t]) {
      RequeueWF(g, q, t);
      var q1, o := Requeue(q, t, g.ts[t].pending.value), OwnerOf(g, t);
      var p := Inherited(g, q1.field, o);
      if p != q1.cur[o] { RoundsWF(g, SetCur(q1, o, p), o, n - 1); }
    }
  }

  // ----- the loop stops -----

  ghost predicate HeadOk(q: Queues, m: nat)
    requires m < |q.waiters| == |q.field| && ListsBelow(q.waiters, |q.cur|)
  {
    q.field[m] == HeadPrio(q.cur, q.waiters[m])
  }

  ghost predicate CurOk(g: Graph, q: Queues, t: nat)
    requires Sized(g, q) && t < |g.ts|
  {
    q.cur[t] == Inherited(g, q.field, t)
  }

  ghost predicate AllBlocked(ts: seq<Thread>, vs: set<nat>)
  {
    forall v :: v in vs ==> v < |ts| && Blocked(ts[v])
  }

  ghost predicate WaitsIn(g: Graph, v: nat, us: set<nat>)
    requires Refs(g) && v < |g.ts| && Blocked(g.ts[v])
  {
    OwnerOf(g, v) in us
  }

  /** The threads in `vs` wait only for threads in `us`. */
  ghost predicate WaitFor(g: Graph, vs: set<nat>, us: set<nat>)
    requires Refs(g) && AllBlocked(g.ts, vs)
  {
    forall v {:trigger WaitsIn(g, v, us)} :: v in vs ==> WaitsIn(g, v, us)
  }

  /** The mutexes that the threads in `vs` wait on are settled, those `but` waits on aside. */
  ghost predicate HeadsOk(g: Graph, q: Queues, vs: set<nat>, but: Option<nat>)
    requires Sized(g, q) && AllBlocked(g.ts, vs)
  {
    forall v :: v in vs && g.ts[v].pending != but ==> HeadOk(q, g.ts[v].pending.value)
  }

  /** The owners that the threads in `vs` wait for have the priority they claim. */
  ghost predicate ClaimsOk(g: Graph, q: Queues, vs: set<nat>)
    requires Sized(g, q) && AllBlocked(g.ts, vs)
  {
    forall v :: v in vs ==> CurOk(g, q, OwnerOf(g, v))
  }

  function Sum(cur: seq<Prio>): nat
  {
    if cur == [] then 0 else cur[0] + Sum(cur[1..])
  }

  lemma {:induction false} SumBound(cur: seq<Prio>)
    ensures Sum(cur) <= 255 * |cur|
  {
    if cur != [] { SumBound(cur[1..]); }
  }

  lemma {:induction false} SumUpdate(cur: seq<Prio>, t: nat, p: Prio)
    requires t < |cur|
    ensures Sum(cur[t := p]) == Sum(cur) - cur[t] + p
  {
    if t == 0 {
      assert cur[t := p][1..] == cur[1..];
    } else {
      assert cur[t := p][1..] == cur[1..][t - 1 := p];
      SumUpdate(cur[1..], t - 1, p);
    }
  }

  /** In `q` the threads `vs`, which wait for each other, satisfied every equation the loop
      restores; then their member `t` moved to `p`, after which every claim in `vs` is met. */
  ghost predicate Circling(g: Graph, q: Queues, vs: set<nat>, t: nat, p: Prio)
  {
    && WF(g, q) && t in vs && AllBlocked(g.ts, vs) && WaitFor(g, vs, vs)
    && Ordered(q.cur, q.waiters)
    && HeadsOk(g, q, vs, None) && ClaimsOk(g, SetCur(q, t, p), vs)
  }

  /** The head priority of `t`'s list follows the change of `t`. */
  lemma HeadFollows(g: Graph, q: Queues, t: nat, p: Prio)
    requires WF(g, q) && t < |g.ts| && Blocked(g.ts[t])
    requires Ordered(q.cur, q.waiters) && HeadOk(q, g.ts[t].pending.value)
    ensures var m := g.ts[t].pending.value;
            var q1 := Requeue(SetCur(q, t, p), t, m);
            && Ordered(q1.cur, q1.waiters)
            && (p <= q.cur[t] ==> q1.field[m] <= q.field[m])
            && (p >= q.cur[t] ==> q1.field[m] >= q.field[m])
  {
    var m := g.ts[t].pending.value;
    var q0 := SetCur(q, t, p);
    var q1 := Requeue(q0, t, m);
    SetCurOrdered(g, q, t, p);
    RequeueOrdered(g, q0, t);
    var ws, ws' := q.waiters[m], q1.waiters[m];
    WithoutMembers(ws, t);
    WithoutBelow(ws, t, |q.cur|);
    EnqueueMembers(q0.cur, Without(ws, t), t);
    assert t in ws && t in ws';
    assert ws[0] in ws && ws'[0] in ws';
    SortedTail(q.cur, ws);
    SortedTail(q0.cur, ws');
  }

  /** Changing the field of a mutex moves only its owner's claim. */
  lemma OthersUnmoved(g: Graph, field: seq<Prio>, field': seq<Prio>, m: nat, x: nat)
    requires Refs(g) && OwnersOk(g) && |field| == |field'| == |g.ms| && m < |g.ms| && x < |g.ts|
    requires forall k :: 0 <= k < |field| && k != m ==> field'[k] == field[k]
    requires g.ms[m].owner != Some(x)
    ensures Inherited(g, field', x) == Inherited(g, field, x)
  {
    assert m !in g.ts[x].taken;
    MinMono(g.ms, field, g.ms, field', g.ts[x].taken, g.ts[x].init);
    MinMono(g.ms, field', g.ms, field, g.ts[x].taken, g.ts[x].init);
  }

  /** The claim of the owner that `t` waits for follows the change of `t`. */
  lemma OwnerFollows(g: Graph, q: Queues, t: nat, p: Prio)
    requires WF(g, q) && t < |g.ts| && Blocked(g.ts[t])
    requires Ordered(q.cur, q.waiters) && HeadOk(q, g.ts[t].pending.value)
    ensures var q1, o := Requeue(SetCur(q, t, p), t, g.ts[t].pending.value), OwnerOf(g, t);
            && (p <= q.cur[t] ==> Inherited(g, q1.field, o) <= Inherited(g, q.field, o))
            && (p >= q.cur[t] ==> Inherited(g, q1.field, o) >= Inherited(g, q.field, o))
  {
    var q1, o := Requeue(SetCur(q, t, p), t, g.ts[t].pending.value), OwnerOf(g, t);
    HeadFollows(g, q, t, p);
    if p <= q.cur[t] { MinMono(g.ms, q1.field, g.ms, q.field, g.ts[o].taken, g.ts[o].init); }
    if p >= q.cur[t] { MinMono(g.ms, q.field, g.ms, q1.field, g.ts[o].taken, g.ts[o].init); }
  }

  /** After a turn the owners of the threads in `vs` have the priority they claim. */
  lemma ClaimsKept(g: Graph, q: Queues, t: nat, vs: set<nat>)
    requires WF(g, q) && t < |g.ts| && Blocked(g.ts[t]) && AllBlocked(g.ts, vs)
    requires forall v :: v in vs && OwnerOf(g, v) != OwnerOf(g, t) ==> CurOk(g, q, OwnerOf(g, v))
    ensures var q1, o := Requeue(q, t, g.ts[t].pending.value), OwnerOf(g, t);
            ClaimsOk(g, SetCur(q1, o, Inherited(g, q1.field, o)), vs)
  {
    var m, o := g.ts[t].pending.value, OwnerOf(g, t);
    var q1 := Requeue(q, t, m);
    forall v | v in vs ensures CurOk(g, SetCur(q1, o, Inherited(g, q1.field, o)), OwnerOf(g, v)) {
      if OwnerOf(g, v) != o { OthersUnmoved(g, q.field, q1.field, m, OwnerOf(g, v)); }
    }
  }

  /** After requeueing `t` the mutexes that the threads in `vs` wait on are settled. */
  lemma HeadsKept(g: Graph, q: Queues, t: nat, vs: set<nat>)
    requires WF(g, q) && t < |g.ts| && Blocked(g.ts[t]) && AllBlocked(g.ts, vs)
    requires HeadsOk(g, q, vs, g.ts[t].pending)
    ensures HeadsOk(g, Requeue(q, t, g.ts[t].pending.value), vs, None)
  {
  }

  /** Setting `t`'s priority disturbs only the head of the list it is on. */
  lemma HeadsElsewhere(g: Graph, q: Queues, t: nat, p: Prio, vs: set<nat>)
    requires WF(g, q) && t < |g.ts| && AllBlocked(g.ts, vs) && HeadsOk(g, q, vs, None)
    ensures HeadsOk(g, SetCur(q, t, p), vs, g.ts[t].pending)
  {
    forall v | v in vs && g.ts[v].pending != g.ts[t].pending
      ensures HeadOk(SetCur(q, t, p), g.ts[v].pending.value)
    {
      var ws := q.waiters[g.ts[v].pending.value];
      assert t !in ws;
      assert ws != [] ==> ws[0] in ws;
    }
  }

  /** Once the loop circles, it goes on circling. */
  lemma CirclingKept(g: Graph, q: Queues, vs: set<nat>, t: nat, p: Prio, q1: Queues, o: nat, p1: Prio)
    requires Circling(g, q, vs, t, p) && Turn(g, SetCur(q, t, p), t, q1, o, p1)
    ensures Circling(g, q1, vs, o, p1)
  {
    var q0 := SetCur(q, t, p);
    assert WaitsIn(g, t, vs);
    RequeueWF(g, q0, t);
    HeadFollows(g, q, t, p);
    HeadsElsewhere(g, q, t, p, vs);
    HeadsKept(g, q0, t, vs);
    ClaimsKept(g, q0, t, vs);
  }

  /** While it circles, every turn moves a priority the same way as the turn before. */
  lemma CirclingMoves(g: Graph, q: Queues, vs: set<nat>, t: nat, p: Prio, q1: Queues, o: nat, p1: Prio)
    requires Circling(g, q, vs, t, p) && p != q.cur[t] && Turn(g, SetCur(q, t, p), t, q1, o, p1)
    ensures p1 != q1.cur[o] ==> (p1 < q1.cur[o] <==> p < q.cur[t])
    ensures Sum(q1.cur[o := p1]) == Sum(q.cur[t := p]) - q1.cur[o] + p1
  {
    OwnerFollows(g, q, t, p);
    SumUpdate(q1.cur, o, p1);
  }

  /** From a circling state the loop stops: priorities are bounded and move one way. */
  lemma {:induction false} CirclingStops(g: Graph, q: Queues, vs: set<nat>, t: nat, p: Prio, n: nat)
    requires Circling(g, q, vs, t, p) && p != q.cur[t]
    requires n > (if p < q.cur[t] then Sum(q.cur[t := p]) else 255 * |g.ts| - Sum(q.cur[t := p]))
    ensures Stops(g, SetCur(q, t, p), t, n)
    decreases n
  {
    var q0 := SetCur(q, t, p);
    SumBound(q0.cur);
    var q1, o := Requeue(q0, t, g.ts[t].pending.value), OwnerOf(g, t);
    var p1 := Inherited(g, q1.field, o);
    if p1 != q1.cur[o] {
      CirclingKept(g, q, vs, t, p, q1, o, p1);
      CirclingMoves(g, q, vs, t, p, q1, o, p1);
      SumBound(q1.cur[o := p1]);
      CirclingStops(g, q1, vs, o, p1, n - 1);
    }
    StopsStep(g, q0, t, n, q1, o, p1);
  }

  /** On its first pass the loop has handled the threads `vs` and is about to handle `t`:
      their mutexes and owners are settled, except the mutex `t` waits on. */
  ghost predicate Climbing(g: Graph, q: Queues, vs: set<nat>, t: nat)
  {
    && WF(g, q) && t < |g.ts| && t !in vs && AllBlocked(g.ts, vs) && WaitFor(g, vs, vs + {t})
    && OrderedBut(q.cur, q.waiters, t)
    && HeadsOk(g, q, vs, g.ts[t].pending) && ClaimsOk(g, q, vs)
  }

  /** A first pass that reaches a new thread goes on climbing. */
  lemma ClimbingKept(g: Graph, q: Queues, vs: set<nat>, t: nat, q1: Queues, o: nat, p: Prio)
    requires Climbing(g, q, vs, t) && Turn(g, q, t, q1, o, p) && o !in vs
    ensures Climbing(g, SetCur(q1, o, p), vs + {t}, o)
  {
    var us := vs + {t};
    RequeueWF(g, q, t);
    RequeueOrdered(g, q, t);
    SetCurOrdered(g, q1, o, p);
    ClaimsKept(g, q, t, us);
    HeadsKept(g, q, t, us);
    HeadsElsewhere(g, q1, o, p, us);
    forall v | v in us ensures WaitsIn(g, v, us + {o}) {
      assert v != t ==> WaitsIn(g, v, us);
    }
  }

  /** A first pass that meets a thread again starts circling. */
  lemma ClimbingToCircling(g: Graph, q: Queues, vs: set<nat>, t: nat, q1: Queues, o: nat, p: Prio)
    requires Climbing(g, q, vs, t) && Turn(g, q, t, q1, o, p) && o in vs
    ensures Circling(g, q1, vs + {t}, o, p)
  {
    var us := vs + {t};
    RequeueWF(g, q, t);
    RequeueOrdered(g, q, t);
    ClaimsKept(g, q, t, us);
    HeadsKept(g, q, t, us);
    forall v | v in us ensures WaitsIn(g, v, us) {
      assert v != t ==> WaitsIn(g, v, us);
    }
  }

  lemma ClimbingMeetsItself(g: Graph, q: Queues, vs: set<nat>, t: nat, n: nat, q1: Queues, o: nat, p: Prio)
    requires Climbing(g, q, vs, t) && Turn(g, q, t, q1, o, p) && o in vs && p != q1.cur[o] && n > 255 * |g.ts|
    ensures Stops(g, SetCur(q1, o, p), o, n)
  {
    ClimbingToCircling(g, q, vs, t, q1, o, p);
    SumBound(q1.cur[o := p]);
    CirclingStops(g, q1, vs + {t}, o, p, n);
  }

  lemma IdleStops(g: Graph, q: Queues, t: nat, n: nat)
    requires Sized(g, q) && t < |g.ts| && !Blocked(g.ts[t]) && n > 0
    ensures Stops(g, q, t, n)
  {
  }

  /** How many threads below `n` are not in `vs`. */
  ghost function Unseen(vs: set<nat>, n: nat): nat
  {
    if n == 0 then 0 else Unseen(vs, n - 1) + if n - 1 in vs then 0 else 1
  }

  lemma {:induction false} OneLessUnseen(vs: set<nat>, t: nat, n: nat)
    requires t !in vs
    ensures Unseen(vs, n) == Unseen(vs + {t}, n) + if t < n then 1 else 0
  {
    if n != 0 {
      OneLessUnseen(vs, t, n - 1);
    }
  }

  lemma {:induction false} NoneSeen(n: nat)
    ensures Unseen({}, n) == n
  {
    if n != 0 {
      NoneSeen(n - 1);
    }
  }

  lemma {:induction false} ClimbingStops(g: Graph, q: Queues, vs: set<nat>, t: nat, n: nat)
    requires Climbing(g, q, vs, t) && n > 255 * |g.ts| + Unseen(vs, |g.ts|)
    ensures Stops(g, q, t, n)
    decreases n
  {
    if !Blocked(g.ts[t]) {
      IdleStops(g, q, t, n);
    } else {
      var q1, o := Requeue(q, t, g.ts[t].pending.value), OwnerOf(g, t);
      var p := Inherited(g, q1.field, o);
      OneLessUnseen(vs, t, |g.ts|);
      if p != q1.cur[o] {
        if o in vs {
          ClimbingMeetsItself(g, q, vs, t, n - 1, q1, o, p);
        } else {
          ClimbingKept(g, q, vs, t, q1, o, p);
          ClimbingStops(g, SetCur(q1, o, p), vs + {t}, o, n - 1);
        }
      }
      StopsStep(g, q, t, n, q1, o, p);
    }
  }

  /** The loop of `_thread_update_priority` stops on every wait-for graph, cyclic ones
      included, whatever the priorities stored in the state. */
  lemma LoopStops(g: Graph, q: Queues, t: nat, p: Prio)
    requires WF(g, q) && Ordered(q.cur, q.waiters) && t < |g.ts|
    ensures Stops(g, SetCur(q, t, p), t, Enough(g))
  {
    SetCurOrdered(g, q, t, p);
    NoneSeen(|g.ts|);
    ClimbingStops(g, SetCur(q, t, p), {}, t, Enough(g));
  }

  ghost predicate WaitsAt(g: Graph, path: seq<nat>, i: nat)
    requires Refs(g) && Below(path, |g.ts|) && i + 1 < |path|
  {
    Blocked(g.ts[path[i]]) && path[i + 1] == OwnerOf(g, path[i])
  }

  /** `path` follows the wait-for graph. */
  ghost predicate Chain(g: Graph, path: seq<nat>)
  {
    Refs(g) && path != [] && Below(path, |g.ts|) && forall i :: 0 <= i < |path| - 1 ==> WaitsAt(g, path, i)
  }

  lemma ChainTail(g: Graph, path: seq<nat>)
    requires Chain(g, path) && |path| > 1
    ensures Chain(g, path[1..]) && Blocked(g.ts[path[0]]) && path[1] == OwnerOf(g, path[0])
  {
    assert WaitsAt(g, path, 0);
    var rest := path[1..];
    forall i | 0 <= i < |rest| - 1 ensures WaitsAt(g, rest, i) {
      assert WaitsAt(g, path, i + 1);
    }
  }

  /** When the blocking chain from a thread ends, the loop makes at most one turn per thread of
      that chain, whatever the rest of the graph is like. */
  lemma {:induction false} ChainBoundsLoop(g: Graph, q: Queues, path: seq<nat>)
    requires Sized(g, q) && Chain(g, path) && !Blocked(g.ts[path[|path| - 1]])
    ensures Stops(g, q, path[0], |path|)
    decreases |path|
  {
    if |path| > 1 {
      ChainTail(g, path);
      var t, rest := path[0], path[1..];
      var q1, o := Requeue(q, t, g.ts[t].pending.value), OwnerOf(g, t);
      var p := Inherited(g, q1.field, o);
      if p != q1.cur[o] { ChainBoundsLoop(g, SetCur(q1, o, p), rest); }
      StopsStep(g, q, t, |path|, q1, o, p);
    }
  }
}
