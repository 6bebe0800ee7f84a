/** Mutexes with nested priority inheritance: the state that `_rt_mutex_take`,
    `rt_mutex_release`, `rt_mutex_setprioceiling` and a waiter's timeout share,
    and those operations as functions on it.  A smaller priority number is more
    urgent. */
module MutexModel {
  import opened Lists

  type Prio = p: nat | p <= 0xFF

  const NO_PRIO: Prio := 0xFF
  const HOLD_MAX: nat := 0xFF

  datatype Thread = Thread(init: Prio, suspended: bool, pending: Option<nat>, taken: seq<nat>)
  datatype Mutex = Mutex(owner: Option<nat>, hold: nat, ceiling: Prio)

  /** Who holds and who waits for what.  Threads and mutexes are named by their index. */
  datatype Graph = Graph(ts: seq<Thread>, ms: seq<Mutex>)

  /** What the propagation loop changes: `cur[t]` is thread t's current priority, `field[m]`
      and `waiters[m]` are mutex m's `priority` and suspend list. */
  datatype Queues = Queues(cur: seq<Prio>, field: seq<Prio>, waiters: seq<seq<nat>>)

  /** `levels` is RT_THREAD_PRIORITY_MAX. */
  datatype State = State(levels: nat, g: Graph, q: Queues)

  datatype Outcome = Taken | Waiting | Full | TimedOut | Released | NotOwner

  predicate Blocked(th: Thread)
  {
    th.suspended && th.pending.Some?
  }

  // ----- well-formedness -----

  /** Every stored index is in range, and a blocked thread waits on an owned mutex. */
  ghost predicate Refs(g: Graph)
  {
    && (forall t :: 0 <= t < |g.ts| ==> Below(g.ts[t].taken, |g.ms|))
    && (forall t :: 0 <= t < |g.ts| && g.ts[t].pending.Some? ==>
          && g.ts[t].pending.value < |g.ms|
          && (g.ts[t].suspended ==> g.ms[g.ts[t].pending.value].owner.Some?))
    && (forall m :: 0 <= m < |g.ms| && g.ms[m].owner.Some? ==> g.ms[m].owner.value < |g.ts|)
  }

  ghost predicate ListsBelow(ws: seq<seq<nat>>, n: nat)
  {
    forall m :: 0 <= m < |ws| ==> Below(ws[m], n)
  }

  /** The priorities and lists fit the graph. */
  ghost predicate Sized(g: Graph, q: Queues)
  {
    && Refs(g)
    && |q.cur| == |g.ts| && |q.field| == |g.ms| && |q.waiters| == |g.ms|
    && ListsBelow(q.waiters, |q.cur|)
  }

  /** A thread's taken list holds exactly the mutexes that name it as owner, a thread never
      waits on a mutex it owns, and `hold` counts an owner's takes. */
  ghost predicate OwnersOk(g: Graph)
    requires Refs(g)
  {
    && (forall t :: 0 <= t < |g.ts| ==> NoDup(g.ts[t].taken))
    && (forall t, m {:trigger m in g.ts[t].taken} :: 0 <= t < |g.ts| && m in g.ts[t].taken ==> g.ms[m].owner == Some(t))
    && (forall m {:trigger g.ms[m].owner.value} :: 0 <= m < |g.ms| && g.ms[m].owner.Some? ==> m in g.ts[g.ms[m].owner.value].taken)
    && (forall t :: 0 <= t < |g.ts| && g.ts[t].pending.Some? ==> g.ms[g.ts[t].pending.value].owner != Some(t))
    && (forall m :: 0 <= m < |g.ms| ==> g.ms[m].hold <= HOLD_MAX && (g.ms[m].hold > 0 <==> g.ms[m].owner.Some?))
  }

  /** A mutex's suspend list holds exactly the threads blocked on it, once each. */
  ghost predicate WaitersOk(ts: seq<Thread>, ws: seq<seq<nat>>)
    requires ListsBelow(ws, |ts|)
  {
    && (forall m :: 0 <= m < |ws| ==> NoDup(ws[m]))
    && (forall m, w {:trigger w in ws[m]} :: 0 <= m < |ws| && w in ws[m] ==> ts[w].suspended && ts[w].pending == Some(m))
    && (forall w :: 0 <= w < |ts| && Blocked(ts[w]) && ts[w].pending.value < |ws| ==> w in ws[ts[w].pending.value])
  }

  ghost predicate WF(g: Graph, q: Queues)
  {
    Sized(g, q) && OwnersOk(g) && WaitersOk(g.ts, q.waiters)
  }

  // ----- priorities -----

  function Min(a: Prio, b: Prio): Prio
  {
    if a > b then b else a
  }

  /** The most urgent of `p` and, for each listed mutex, its field and its ceiling. */
  function MinField(ms: seq<Mutex>, field: seq<Prio>, taken: seq<nat>, p: Prio): Prio
    requires Below(taken, |ms|) && |field| == |ms|
  {
    if taken == [] then p
    else MinField(ms, field, taken[1..], Min(p, Min(ms[taken[0]].ceiling, field[taken[0]])))
  }

  /** `_thread_get_mutex_priority`. */
  function Inherited(g: Graph, field: seq<Prio>, t: nat): Prio
    requires Refs(g) && |field| == |g.ms| && t < |g.ts|
  {
    MinField(g.ms, field, g.ts[t].taken, g.ts[t].init)
  }

  ghost predicate Sorted(cur: seq<Prio>, ws: seq<nat>)
    requires Below(ws, |cur|)
  {
    forall i, j :: 0 <= i < j < |ws| ==> cur[ws[i]] <= cur[ws[j]]
  }

  /** `rt_susp_list_enqueue` with RT_IPC_FLAG_PRIO: before the first less urgent waiter. */
  function Enqueue(cur: seq<Prio>, ws: seq<nat>, t: nat): (r: seq<nat>)
    requires t < |cur| && Below(ws, |cur|)
    ensures Below(r, |cur|)
  {
    if ws == [] then [t]
    else if cur[t] < cur[ws[0]] then [t] + ws
    else [ws[0]] + Enqueue(cur, ws[1..], t)
  }

  /** What `_mutex_update_priority` stores. */
  function HeadPrio(cur: seq<Prio>, ws: seq<nat>): Prio
    requires Below(ws, |cur|)
  {
    if ws == [] then NO_PRIO else cur[ws[0]]
  }

  // ----- the propagation loop of _thread_update_priority -----

  function SetCur(q: Queues, t: nat, p: Prio): Queues
    requires t < |q.cur|
  {
    q.(cur := q.cur[t := p])
  }

  /** The owner a blocked thread waits for. */
  function OwnerOf(g: Graph, t: nat): (o: nat)
    requires Refs(g) && t < |g.ts| && Blocked(g.ts[t])
    ensures o < |g.ts|
  {
    g.ms[g.ts[t].pending.value].owner.value
  }

  /** Re-sort thread `t` in the suspend list of `m` and refresh that mutex's priority. */
  function Requeue(q: Queues, t: nat, m: nat): (r: Queues)
    requires t < |q.cur| && m < |q.waiters| == |q.field| && ListsBelow(q.waiters, |q.cur|)
    ensures r.cur == q.cur && |r.waiters| == |q.waiters| && |r.field| == |q.field| && ListsBelow(r.waiters, |r.cur|)
  {
    WithoutBelow(q.waiters[m], t, |q.cur|);
    var ws := Enqueue(q.cur, Without(q.waiters[m], t), t);
    q.(waiters := q.waiters[m := ws], field := q.field[m := HeadPrio(q.cur, ws)])
  }

  /** One turn of the loop: the state after it and the thread the next turn handles, if any. */
  function Round(g: Graph, q: Queues, t: nat): (r: (Queues, Option<nat>))
    requires Sized(g, q) && t < |g.ts|
    ensures Sized(g, r.0) && (r.1.Some? ==> r.1.value < |g.ts|)
  {
    if !Blocked(g.ts[t]) then (q, None)
    else
      var q1, o := Requeue(q, t, g.ts[t].pending.value), OwnerOf(g, t);
      var p := Inherited(g, q1.field, o);
      if p != q1.cur[o] then (SetCur(q1, o, p), Some(o)) else (q1, None)
  }

  function Rounds(g: Graph, q: Queues, next: Option<nat>, n: nat): (r: (Queues, Option<nat>))
    requires Sized(g, q) && (next.Some? ==> next.value < |g.ts|)
    ensures Sized(g, r.0) && (r.1.Some? ==> r.1.value < |g.ts|)
    decreases n
  {
    if n == 0 || next.None? then (q, next)
    else
      var (q1, next1) := Round(g, q, next.value);
      Rounds(g, q1, next1, n - 1)
  }

  /** A number of turns that is always enough; see MutexPropagation.LoopStops. */
  function Enough(g: Graph): nat
  {
    256 * |g.ts| + 1
  }

  /** `_thread_update_priority`. */
  function UpdatePriority(g: Graph, q: Queues, t: nat, p: Prio): (r: Queues)
    requires Sized(g, q) && t < |g.ts|
    ensures Sized(g, r)
  {
    Rounds(g, SetCur(q, t, p), Some(t), Enough(g)).0
  }

  // ----- operations -----

  ghost predicate Valid(s: State)
  {
    WF(s.g, s.q)
  }

  function SetThread(g: Graph, t: nat, th: Thread): Graph
    requires t < |g.ts|
  {
    g.(ts := g.ts[t := th])
  }

  function SetMutex(g: Graph, m: nat, mx: Mutex): Graph
    requires m < |g.ms|
  {
    g.(ms := g.ms[m := mx])
  }

  /** A running thread that is not between a timeout and its clean-up. */
  ghost predicate Active(g: Graph, t: nat)
  {
    t < |g.ts| && !g.ts[t].suspended && g.ts[t].pending.None?
  }

  /** `_rt_mutex_take` by running thread `t` up to the point where it returns or is
      switched out; `wait` is `timeout != 0`. */
  function Take(s: State, t: nat, m: nat, wait: bool): (r: (State, Outcome))
    requires Valid(s) && Active(s.g, t) && m < |s.g.ms|
  {
    var mx := s.g.ms[m];
    if mx.owner == Some(t) then
      if mx.hold < HOLD_MAX then (s.(g := SetMutex(s.g, m, mx.(hold := mx.hold + 1))), Taken) else (s, Full)
    else if mx.owner.None? then
      (TakeFree(s, t, m), Taken)
    else if !wait then
      (s, TimedOut)
    else
      (TakeBlock(s, t, m), Waiting)
  }

  function TakeFree(s: State, t: nat, m: nat): State
    requires Valid(s) && Active(s.g, t) && m < |s.g.ms| && s.g.ms[m].owner.None?
  {
    var c := s.g.ms[m].ceiling;
    var g := SetMutex(s.g, m, Mutex(Some(t), 1, c));
    var q := s.q.(field := s.q.field[m := NO_PRIO]);
    var q1 := if c != NO_PRIO && c < q.cur[t] then UpdatePriority(g, q, t, c) else q;
    State(s.levels, SetThread(g, t, g.ts[t].(taken := [m] + g.ts[t].taken)), q1)
  }

  /** `t` joins the suspend list of `m`. */
  function Suspend(s: State, t: nat, m: nat): (r: State)
    requires Valid(s) && Active(s.g, t) && m < |s.g.ms| && s.g.ms[m].owner.Some?
    ensures Sized(r.g, r.q)
  {
    State(s.levels,
          SetThread(s.g, t, s.g.ts[t].(suspended := true, pending := Some(m))),
          s.q.(waiters := s.q.waiters[m := Enqueue(s.q.cur, s.q.waiters[m], t)]))
  }

  function TakeBlock(s: State, t: nat, m: nat): State
    requires Valid(s) && Active(s.g, t) && m < |s.g.ms| && s.g.ms[m].owner.Some?
  {
    var s1 := Suspend(s, t, m);
    var p := s.q.cur[t];
    if p < s.q.field[m] then
      var q := s1.q.(field := s1.q.field[m := p]);
      var o := s.g.ms[m].owner.value;
      s1.(q := if p < q.cur[o] then UpdatePriority(s1.g, q, o, p) else q)
    else s1
  }

  /** The owner gives up its last hold: `rt_mutex_release` up to the wake-up, with the
      test of `_check_and_update_prio`. */
  function Disown(s: State, t: nat, m: nat): (r: State)
    requires Valid(s) && t < |s.g.ts| && m < |s.g.ms| && s.g.ms[m].owner == Some(t)
    ensures Sized(r.g, r.q)
  {
    WithoutBelow(s.g.ts[t].taken, m, |s.g.ms|);
    var g := SetThread(s.g, t, s.g.ts[t].(taken := Without(s.g.ts[t].taken, m)));
    State(s.levels, g,
          if s.g.ms[m].ceiling != NO_PRIO || s.q.cur[t] == s.q.field[m]
          then SetCur(s.q, t, Inherited(g, s.q.field, t)) else s.q)
  }

  /** The first waiter becomes the owner. */
  function HandOff(s: State, m: nat): State
    requires Sized(s.g, s.q) && m < |s.g.ms| && s.q.waiters[m] != []
  {
    var w, ws := s.q.waiters[m][0], s.q.waiters[m][1..];
    var th := s.g.ts[w].(suspended := false, pending := None, taken := [m] + s.g.ts[w].taken);
    State(s.levels,
          SetMutex(SetThread(s.g, w, th), m, s.g.ms[m].(owner := Some(w), hold := 1)),
          Queues(s.q.cur, s.q.field[m := HeadPrio(s.q.cur, ws)], s.q.waiters[m := ws]))
  }

  function Vacate(s: State, m: nat): State
    requires Sized(s.g, s.q) && m < |s.g.ms|
  {
    State(s.levels,
          SetMutex(s.g, m, s.g.ms[m].(owner := None, hold := 0)),
          s.q.(field := s.q.field[m := NO_PRIO]))
  }

  /** `rt_mutex_release` by running thread `t`. */
  function Release(s: State, t: nat, m: nat): (r: (State, Outcome))
    requires Valid(s) && Active(s.g, t) && m < |s.g.ms|
  {
    var mx := s.g.ms[m];
    if mx.owner != Some(t) then (s, NotOwner)
    else if mx.hold > 1 then (s.(g := SetMutex(s.g, m, mx.(hold := mx.hold - 1))), Released)
    else
      var s1 := Disown(s, t, m);
      (if s.q.waiters[m] != [] then HandOff(s1, m) else Vacate(s1, m), Released)
  }

  /** `rt_mutex_setprioceiling`; the result carries the ceiling it returns. */
  function SetCeiling(s: State, m: nat, p: Prio): (r: (State, Prio))
    requires Valid(s) && m < |s.g.ms|
  {
    if p < s.levels then
      var g := SetMutex(s.g, m, s.g.ms[m].(ceiling := p));
      (State(s.levels, g, Refresh(g, s.q, g.ms[m].owner)), s.g.ms[m].ceiling)
    else (s, NO_PRIO)
  }

  /** Recompute an owner's priority and propagate it if it moved. */
  function Refresh(g: Graph, q: Queues, owner: Option<nat>): (r: Queues)
    requires Sized(g, q) && (owner.Some? ==> owner.value < |g.ts|)
    ensures Sized(g, r)
  {
    if owner.Some? && Inherited(g, q.field, owner.value) != q.cur[owner.value]
    then UpdatePriority(g, q, owner.value, Inherited(g, q.field, owner.value))
    else q
  }

  /** `_thread_timeout`: a blocked thread leaves the suspend list and becomes ready. */
  function Expire(s: State, t: nat): State
    requires Valid(s) && t < |s.g.ts| && Blocked(s.g.ts[t])
  {
    var m := s.g.ts[t].pending.value;
    State(s.levels,
          SetThread(s.g, t, s.g.ts[t].(suspended := false)),
          s.q.(waiters := s.q.waiters[m := Without(s.q.waiters[m], t)]))
  }

  /** The error path of `_rt_mutex_take` in a thread that timed out. */
  function CleanUp(s: State, t: nat): State
    requires Valid(s) && t < |s.g.ts| && !s.g.ts[t].suspended && s.g.ts[t].pending.Some?
  {
    var m := s.g.ts[t].pending.value;
    var o := s.g.ms[m].owner;
    var q := s.q.(field := s.q.field[m := HeadPrio(s.q.cur, s.q.waiters[m])]);
    State(s.levels,
          SetThread(s.g, t, s.g.ts[t].(pending := None)),
          if o.Some? && s.q.cur[o.value] == s.q.cur[t] then Refresh(s.g, q, o) else q)
  }

  /** Suspension on something that is not a mutex, and the matching wake-up. */
  function Sleep(s: State, t: nat): State
    requires Active(s.g, t)
  {
    s.(g := SetThread(s.g, t, s.g.ts[t].(suspended := true)))
  }

  function Wake(s: State, t: nat): State
    requires t < |s.g.ts|
  {
    s.(g := SetThread(s.g, t, s.g.ts[t].(suspended := false)))
  }
}
