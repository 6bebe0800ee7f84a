/** The single-core scheduler. */
module UpScheduler {
  import opened Lists
  import opened ReadyBits
  import opened ReadyQueue
  import opened ReadyTurns

  datatype Stat = Init | Ready | Running | Suspended

  /** Status, the yield mark, and the current priority. */
  datatype Thread = Thread(stat: Stat, yielding: bool, prio: nat)

  function SlotOf(x: Thread): Option<Slot>
  {
    if x.stat == Ready then Some(Slot(0, x.prio)) else None
  }

  function Slots(ths: seq<Thread>): (r: seq<Option<Slot>>)
    ensures |r| == |ths| && forall t :: 0 <= t < |ths| ==> r[t] == SlotOf(ths[t])
  {
    seq(|ths|, t requires 0 <= t < |ths| => SlotOf(ths[t]))
  }

  lemma SlotsSet(ths: seq<Thread>, t: nat, x: Thread)
    requires t < |ths|
    ensures Slots(ths[t := x]) == Slots(ths)[t := SlotOf(x)]
  {
  }

  /** The current thread is not queued, and no other thread is running. */
  ghost predicate ThreadOk(x: Thread, isCurrent: bool, levels: nat)
  {
    x.prio < levels && (x.stat == Running ==> isCurrent) && (x.stat == Ready ==> !isCurrent)
  }

  ghost predicate ThreadsOk(ths: seq<Thread>, current: nat, levels: nat)
  {
    current < |ths| && forall t :: 0 <= t < |ths| ==> ThreadOk(ths[t], t == current, levels)
  }

  /** A running thread keeps the core against ready priority `h`. */
  predicate RunsOn(x: Thread, h: int)
  {
    x.stat == Running && (x.prio < h || (x.prio == h && !x.yielding))
  }

  /** Who has the core after scheduling. */
  function Next(ths: seq<Thread>, current: nat, q: Queue): nat
    requires current < |ths| && Coherent(q.bits) && Levels(q.bits) == |q.lists|
  {
    if Top(q).None? || RunsOn(ths[current], Highest(q.bits)) then current else Top(q).value
  }

  /** The current thread keeps the core: nobody is ready, or it runs and is more urgent than all who are, or as urgent and
      does not yield. */
  ghost predicate StaysOn(ths: seq<Thread>, current: nat)
    requires current < |ths|
  {
    || (forall t :: 0 <= t < |ths| ==> ths[t].stat != Ready)
    || (ths[current].stat == Running && forall t :: 0 <= t < |ths| && ths[t].stat == Ready ==> GoesBefore(ths[current], ths[t]))
  }

  predicate GoesBefore(x: Thread, y: Thread)
  {
    x.prio < y.prio || (x.prio == y.prio && !x.yielding)
  }

  lemma NextIs(ths: seq<Thread>, current: nat, q: Queue)
    requires ThreadsOk(ths, current, |q.lists|) && QueueOk(Slots(ths), 0, q)
    ensures Next(ths, current, q) == current <==> StaysOn(ths, current)
    ensures var to := Next(ths, current, q);
            to != current ==> to < |ths| && ths[to].stat == Ready && forall t :: 0 <= t < |ths| && ths[t].stat == Ready ==> ths[to].prio <= ths[t].prio
  {
    TopIs(Slots(ths), 0, q);
    forall t | 0 <= t < |ths| ensures Slots(ths)[t] == SlotOf(ths[t]) && ths[t].prio < |q.lists| && (ths[t].stat == Ready ==> t != current) {
      assert ThreadOk(ths[t], t == current, |q.lists|);
    }
    if Top(q).Some? && StaysOn(ths, current) {
      assert ths[Top(q).value].stat == Ready && GoesBefore(ths[current], ths[Top(q).value]);
    }
  }

  /** Somebody can run, as the idle thread always can. */
  ghost predicate SomebodyRuns(ths: seq<Thread>)
  {
    exists t :: 0 <= t < |ths| && (ths[t].stat == Ready || ths[t].stat == Running)
  }

  /** No ready thread is more urgent than the current one. */
  ghost predicate MostUrgent(ths: seq<Thread>, current: nat)
    requires current < |ths|
  {
    forall t :: 0 <= t < |ths| && ths[t].stat == Ready ==> ths[current].prio <= ths[t].prio
  }

  /** With an empty bitmap nobody is ready, so it is the current thread that can run. */
  lemma NobodyReady(ths: seq<Thread>, current: nat, q: Queue)
    requires ThreadsOk(ths, current, |q.lists|) && QueueOk(Slots(ths), 0, q) && Top(q).None?
    ensures MostUrgent(ths, current) && (SomebodyRuns(ths) ==> ths[current].stat == Running)
  {
    TopIs(Slots(ths), 0, q);
    forall t | 0 <= t < |ths| ensures ths[t].stat != Ready && (ths[t].stat == Running ==> t == current) {
      assert ThreadOk(ths[t], t == current, |q.lists|) && Slots(ths)[t] == SlotOf(ths[t]);
    }
  }

  /** The threads after the core goes from `from` to `to`. */
  function Switched(ths: seq<Thread>, from: nat, to: nat): seq<Thread>
    requires from < |ths| && to < |ths|
  {
    var x := ths[from];
    ths[from := x.(stat := if x.stat == Running then Ready else x.stat, yielding := false)][to := ths[to].(stat := Running)]
  }

  /** The thread that is left is ready again if it ran, and its yield mark is gone; `to` runs; nobody else changes. */
  lemma SwitchedIs(ths: seq<Thread>, from: nat, to: nat)
    requires from < |ths| && to < |ths| && from != to
    ensures var ths' := Switched(ths, from, to);
            && |ths'| == |ths| && ths'[to] == ths[to].(stat := Running)
            && ths'[from].prio == ths[from].prio && !ths'[from].yielding
            && ths'[from].stat == (if ths[from].stat == Running then Ready else ths[from].stat)
            && forall t :: 0 <= t < |ths| && t != from && t != to ==> ths'[t] == ths[t]
  {
  }

  /** What a switch does to the lists: `to` was first of its list and leaves it; `from`, if it can run on, goes to the end of
      its list when it yields and to the front otherwise; nothing else moves. */
  ghost predicate SwitchedLists(ths: seq<Thread>, lists: seq<seq<nat>>, lists': seq<seq<nat>>, from: nat, to: nat)
  {
    && from < |ths| && to < |ths| && ths[from].prio < |lists| == |lists'| && ths[to].prio < |lists|
    && var x, y, goes := ths[from], ths[to], ths[from].stat == Running;
       && lists[y.prio] != [] && lists[y.prio][0] == to
       && (forall r :: 0 <= r < |lists| && r != x.prio && r != y.prio ==> lists'[r] == lists[r])
       && (goes && x.prio == y.prio ==> x.yielding && lists'[y.prio] == lists[y.prio][1..] + [from])
       && (!goes || x.prio != y.prio ==> lists'[y.prio] == lists[y.prio][1..])
       && (goes && x.prio != y.prio ==> lists'[x.prio] == if x.yielding then lists[x.prio] + [from] else [from] + lists[x.prio])
       && (!goes && x.prio != y.prio ==> lists'[x.prio] == lists[x.prio])
  }

  lemma SwitchPlaces(ths: seq<Thread>, q: Queue, q1: Queue, from: nat, to: nat)
    requires from < |ths| && to < |ths| && Coherent(q.bits) && Levels(q.bits) == |q.lists|
    requires ths[from].prio < |q.lists| && ths[to].prio < |q.lists| && q.lists[ths[to].prio] != [] && q.lists[ths[to].prio][0] == to
    requires ths[from].stat == Running && ths[from].prio == ths[to].prio ==> ths[from].yielding
    requires q1 == if ths[from].stat == Running then Enqueue(q, ths[from].prio, from, ths[from].yielding) else q
    requires Coherent(q1.bits) && Levels(q1.bits) == |q1.lists|
    ensures SwitchedLists(ths, q.lists, Dequeue(q1, ths[to].prio, to).lists, from, to)
  {
    if ths[from].stat == Running {
      EnqueuePlace(q, ths[from].prio, from, ths[from].yielding);
    }
    assert q1.lists[ths[to].prio][0] == to;
  }

  /** After a switch to a thread at the highest ready priority, nobody ready is more urgent than it. */
  lemma SwitchedUrgent(ths: seq<Thread>, from: nat, to: nat, q: Queue)
    requires ThreadsOk(ths, from, |q.lists|) && QueueOk(Slots(ths), 0, q) && Top(q) == Some(to) && to < |ths| && to != from
    requires !RunsOn(ths[from], Highest(q.bits))
    ensures MostUrgent(Switched(ths, from, to), to)
  {
    TopIs(Slots(ths), 0, q);
    var ths' := Switched(ths, from, to);
    forall t | 0 <= t < |ths'| && ths'[t].stat == Ready ensures ths'[to].prio <= ths'[t].prio {
      assert Slots(ths)[t] == SlotOf(ths[t]) && Slots(ths)[to] == SlotOf(ths[to]);
    }
  }

  lemma StayUrgent(ths: seq<Thread>, current: nat, q: Queue)
    requires ThreadsOk(ths, current, |q.lists|) && QueueOk(Slots(ths), 0, q) && Top(q).Some? && RunsOn(ths[current], Highest(q.bits))
    ensures MostUrgent(ths, current)
  {
    TopIs(Slots(ths), 0, q);
    forall t | 0 <= t < |ths| && ths[t].stat == Ready ensures ths[current].prio <= ths[t].prio {
      assert Slots(ths)[t] == SlotOf(ths[t]);
    }
  }

  class UpScheduler {
    var threads: seq<Thread>
    var queue: Queue
    var current: nat
    var lockNest: nat

    ghost predicate Valid()
      reads this
    {
      QueueOk(Slots(threads), 0, queue) && ThreadsOk(threads, current, |queue.lists|)
    }

    /** Empty lists and a clear bitmap, with thread `first` on the core and the others not yet started. */
    constructor (prios: seq<nat>, two: bool, first: nat)
      requires first < |prios| && forall t :: 0 <= t < |prios| ==> prios[t] < if two then 256 else 32
      ensures Valid() && |threads| == |prios| && current == first && lockNest == 0 && queue.bits.Two? == two
      ensures forall t :: 0 <= t < |prios| ==> threads[t] == Thread(if t == first then Running else Init, false, prios[t])
    {
      threads := seq(|prios|, t requires 0 <= t < |prios| => Thread(if t == first then Running else Init, false, prios[t]));
      queue := EmptyQueue(two);
      current := first;
      lockNest := 0;
      new;
      EmptyOk(Slots(threads), two);
    }

    /** `rt_sched_insert_thread` of a thread that is not queued. */
    method Insert(t: nat)
      requires Valid() && t < |threads| && threads[t].stat != Ready
      modifies `threads, `queue
      ensures Valid() && threads == old(threads)[t := old(threads)[t].(stat := if t == current then Running else Ready)]
      ensures queue == if t == current then old(queue) else Enqueue(old(queue), threads[t].prio, t, threads[t].yielding)
      ensures t != current ==> Joins(old(queue).lists, queue.lists, threads[t].prio, t, threads[t].yielding)
    {
      ghost var s := if t == current then Running else Ready;
      SlotsSet(threads, t, threads[t].(stat := s));
      assert ThreadOk(threads[t], t == current, |queue.lists|);
      if t == current {
        threads := threads[t := threads[t].(stat := Running)];
        assert Slots(threads) == Slots(old(threads));
        return;
      }
      EnqueueOk(Slots(threads), 0, queue, threads[t].prio, t, threads[t].yielding);
      threads := threads[t := threads[t].(stat := Ready)];
      queue := Enqueue(queue, threads[t].prio, t, threads[t].yielding);
    }

    /** Taking thread `t` off the queue, where it may be, into status `s`. */
    method Remove(t: nat, s: Stat)
      requires Valid() && t < |threads| && s != Ready && (s == Running ==> t == current)
      modifies `threads, `queue
      ensures Valid() && threads == old(threads)[t := old(threads)[t].(stat := s)]
      ensures |queue.lists| == |old(queue).lists|
      ensures queue == Dequeue(old(queue), old(threads)[t].prio, t) && Leaves(old(queue).lists, queue.lists, old(threads)[t].prio, t)
    {
      SlotsSet(threads, t, threads[t].(stat := s));
      assert ThreadOk(threads[t], t == current, |queue.lists|);
      ghost var was := Slots(threads);
      if threads[t].stat == Ready {
        DequeueOk(was, 0, queue, threads[t].prio, t);
      } else {
        DequeueAbsent(was, 0, queue, threads[t].prio, t);
        assert was[t := None] == was;
      }
      queue := Dequeue(queue, threads[t].prio, t);
      threads := threads[t := threads[t].(stat := s)];
    }

    /** `rt_sched_thread_startup`, which makes a new thread ready to be woken. */
    method Startup(t: nat)
      requires Valid() && t < |threads| && threads[t].stat == Init
      modifies `threads
      ensures Valid() && threads == old(threads)[t := old(threads)[t].(stat := Suspended, yielding := false)]
    {
      assert ThreadOk(threads[t], t == current, |queue.lists|);
      Put(t, threads[t].(stat := Suspended, yielding := false));
    }

    /** `rt_sched_thread_ready`, for a wake-up or a timeout. */
    method Wake(t: nat) returns (ok: bool)
      requires Valid() && t < |threads|
      modifies `threads, `queue
      ensures Valid() && ok == (old(threads)[t].stat == Suspended)
      ensures !ok ==> threads == old(threads) && queue == old(queue)
      ensures ok && t == current ==> queue == old(queue)
      ensures ok ==> threads == old(threads)[t := old(threads)[t].(stat := if t == current then Running else Ready)]
      ensures ok && t != current ==> Joins(old(queue).lists, queue.lists, threads[t].prio, t, threads[t].yielding)
    {
      if threads[t].stat != Suspended { return false; }
      Insert(t);
      ok := true;
    }

    /** `rt_thread_suspend_to_list` of the current thread. */
    method Suspend() returns (ok: bool)
      requires Valid()
      modifies `threads, `queue
      ensures Valid() && ok == (old(threads)[current].stat == Running)
      ensures threads == if ok then old(threads)[current := old(threads)[current].(stat := Suspended)] else old(threads)
    {
      assert ThreadOk(threads[current], true, |queue.lists|);
      if threads[current].stat != Ready && threads[current].stat != Running { return false; }
      Remove(current, Suspended);
      ok := true;
    }

    /** `rt_sched_thread_yield` of the current thread. */
    method Yield()
      requires Valid()
      modifies `threads
      ensures Valid() && threads == old(threads)[current := old(threads)[current].(yielding := true)]
    {
      assert ThreadOk(threads[current], true, |queue.lists|);
      Put(current, threads[current].(yielding := true));
    }

    /** `rt_sched_thread_change_priority`: a ready thread changes its list. */
    method ChangePriority(t: nat, prio: nat)
      requires Valid() && t < |threads| && prio < |queue.lists|
      modifies `threads, `queue
      ensures Valid()
      ensures |threads| == |old(threads)| && threads == old(threads)[t := threads[t]]
      ensures threads[t].prio == prio && threads[t].stat == old(threads)[t].stat
      ensures threads[t].yielding == (old(threads)[t].stat != Ready && old(threads)[t].yielding)
      ensures old(threads)[t].stat != Ready ==> queue == old(queue)
      ensures old(threads)[t].stat == Ready ==>
                exists mid :: Leaves(old(queue).lists, mid, old(threads)[t].prio, t) && Joins(mid, queue.lists, prio, t, false)
    {
      assert ThreadOk(threads[t], t == current, |queue.lists|);
      if threads[t].stat == Ready {
        Remove(t, Init);
        Put(t, threads[t].(prio := prio, stat := Init, yielding := false));
        Insert(t);
      } else {
        Put(t, threads[t].(prio := prio));
      }
    }

    /** Changing a thread that is not queued. */
    method Put(t: nat, x: Thread)
      requires Valid() && t < |threads| && threads[t].stat != Ready && x.stat != Ready && ThreadOk(x, t == current, |queue.lists|)
      modifies `threads
      ensures Valid() && threads == old(threads)[t := x]
    {
      SlotsSet(threads, t, x);
      assert Slots(threads)[t := None] == Slots(threads);
      threads := threads[t := x];
    }

    /** `rt_schedule`: nothing while the scheduler is locked; otherwise the core goes to the first thread of the
        highest ready priority, unless the current thread runs on, being more urgent, or as urgent and not
        yielding. */
    method Schedule()
      requires Valid()
      modifies `threads, `queue, `current
      ensures Valid() && |threads| == |old(threads)| && |queue.lists| == |old(queue).lists|
      ensures lockNest > 0 ==> unchanged(`threads, `queue, `current)
      ensures lockNest == 0 ==> current == Next(old(threads), old(current), old(queue))
      ensures lockNest == 0 ==> (current == old(current) <==> StaysOn(old(threads), old(current)))
      ensures lockNest == 0 && SomebodyRuns(old(threads)) ==>
                threads[current].stat == Running && MostUrgent(threads, current)
      ensures lockNest == 0 && current == old(current) ==> threads == old(threads) && queue.lists == old(queue).lists
      ensures lockNest == 0 && current != old(current) ==>
                && threads == Switched(old(threads), old(current), current)
                && threads[old(current)].stat == (if old(threads)[old(current)].stat == Running then Ready else old(threads)[old(current)].stat)
                && !threads[old(current)].yielding
                && SwitchedLists(old(threads), old(queue).lists, queue.lists, old(current), current)
    {
      if lockNest != 0 { return; }
      NextIs(threads, current, queue);
      TopIs(Slots(threads), 0, queue);
      assert ThreadOk(threads[current], true, |queue.lists|);
      if queue.bits.group == 0 {
        NobodyReady(threads, current, queue);
        return;
      }
      var h := Highest(queue.bits);
      var to := queue.lists[h][0];
      var insert := false;
      if threads[current].stat == Running {
        if threads[current].prio < h || (threads[current].prio == h && !threads[current].yielding) {
          to := current;
        } else {
          insert := true;
        }
      }
      if to != current {
        assert Slots(threads)[to] == SlotOf(threads[to]);
        SwitchedUrgent(threads, current, to, queue);
        SwitchTo(to, insert);
      } else {
        assert Slots(threads)[to] == SlotOf(threads[to]);
        StayUrgent(threads, current, queue);
        Remove(current, Running);
        assert threads == old(threads);
        NotQueued(old(threads), old(queue), current);
      }
    }

    lemma NotQueued(ths: seq<Thread>, q: Queue, t: nat)
      requires QueueOk(Slots(ths), 0, q) && t < |ths| && ths[t].prio < |q.lists| && ths[t].stat != Ready
      ensures Dequeue(q, ths[t].prio, t).lists == q.lists
    {
      DequeueAbsent(Slots(ths), 0, q, ths[t].prio, t);
    }

    /** The switch of `rt_schedule`: the thread that is left goes back to the queue if it can run on. */
    method SwitchTo(to: nat, insert: bool)
      requires Valid() && to < |threads| && to != current && threads[to].stat == Ready
      requires insert == (threads[current].stat == Running)
      requires threads[to].prio < |queue.lists| && queue.lists[threads[to].prio] != [] && queue.lists[threads[to].prio][0] == to
      requires insert && threads[current].prio == threads[to].prio ==> threads[current].yielding
      modifies `threads, `queue, `current
      ensures Valid() && current == to && threads == Switched(old(threads), old(current), to) && |queue.lists| == |old(queue).lists|
      ensures SwitchedLists(old(threads), old(queue).lists, queue.lists, old(current), to)
    {
      var from := current;
      ghost var q := queue;
      assert ThreadOk(threads[from], true, |queue.lists|) && ThreadOk(threads[to], false, |queue.lists|);
      ghost var ths := threads;
      ghost var slots := Slots(threads);
      current := to;
      if insert {
        EnqueueOk(slots, 0, queue, threads[from].prio, from, threads[from].yielding);
        SlotsSet(threads, from, threads[from].(stat := Ready));
        threads := threads[from := threads[from].(stat := Ready)];
        queue := Enqueue(queue, threads[from].prio, from, threads[from].yielding);
      }
      SlotsSet(threads, from, threads[from].(yielding := false));
      assert Slots(threads)[from := Slots(threads)[from]] == Slots(threads);
      threads := threads[from := threads[from].(yielding := false)];
      DequeueOk(Slots(threads), 0, queue, threads[to].prio, to);
      SwitchPlaces(ths, q, queue, from, to);
      SlotsSet(threads, to, threads[to].(stat := Running));
      queue := Dequeue(queue, threads[to].prio, to);
      threads := threads[to := threads[to].(stat := Running)];
      assert threads == Switched(ths, from, to);
      forall t | 0 <= t < |threads| ensures ThreadOk(threads[t], t == to, |queue.lists|) {
        assert ThreadOk(ths[t], t == from, |queue.lists|);
      }
    }

    // ----- turns -----

    /** The current thread runs, and nobody ready is more urgent. */
    ghost predicate Serving()
      reads this
    {
      Valid() && lockNest == 0 && threads[current].stat == Running && MostUrgent(threads, current)
    }

    /** The current thread and those of its priority that wait. */
    ghost function View(): Turns
      requires Valid()
      reads this
    {
      assert ThreadOk(threads[current], true, |queue.lists|);
      Turns(current, true, queue.lists[threads[current].prio], [])
    }

    /** `rt_thread_yield` of the current thread. */
    method YieldTurn()
      requires Serving()
      modifies `threads, `queue, `current
      ensures Serving() && View() == Round(old(View()))
    {
      ghost var h := threads[current].prio;
      assert ThreadOk(threads[current], true, |queue.lists|) && ListOk(Slots(threads), 0, queue, h);
      TopAtHighest(threads, queue, current);
      Yield();
      TopAtHighest(threads, queue, current);
      Schedule();
    }

    /** When nobody ready is more urgent than `t`, the threads of its priority that wait are the highest ones. */
    lemma TopAtHighest(ths: seq<Thread>, q: Queue, t: nat)
      requires QueueOk(Slots(ths), 0, q) && t < |ths| && ths[t].prio < |q.lists| && MostUrgent(ths, t)
      ensures var l := q.lists[ths[t].prio];
              && (l != [] ==> Top(q) == Some(l[0]) && Highest(q.bits) == ths[t].prio && l[0] < |ths| && ths[l[0]].prio == ths[t].prio)
              && (l == [] ==> Top(q).None? || Highest(q.bits) > ths[t].prio)
    {
      var l := q.lists[ths[t].prio];
      TopIs(Slots(ths), 0, q);
      assert ListOk(Slots(ths), 0, q, ths[t].prio);
      if l != [] {
        assert l[0] in l && Slots(ths)[l[0]] == SlotOf(ths[l[0]]);
      }
      if Top(q).Some? {
        assert Slots(ths)[Top(q).value] == SlotOf(ths[Top(q).value]);
        assert ListOk(Slots(ths), 0, q, Highest(q.bits));
      }
    }

    /** Only yields, `n` of them: each waiting thread of the priority has its turn within as many rounds as threads wait. */
    method YieldTurns(n: nat) returns (ran: seq<nat>)
      requires Serving()
      modifies `threads, `queue, `current
      ensures Serving() && |ran| == n && forall i :: 0 <= i < n ==> ran[i] == Rounds(old(View()), i + 1).cur
      ensures n >= |old(View()).local| ==> forall t :: t in old(View()).local ==> t in ran
    {
      ghost var s := View();
      ran := [];
      for i := 0 to n
        invariant Serving() && |ran| == i && View() == Rounds(s, i)
        invariant forall j :: 0 <= j < i ==> ran[j] == Rounds(s, j + 1).cur
      {
        OneMore(s, i);
        YieldTurn();
        ran := ran + [current];
      }
      if n >= |s.local| {
        forall t | t in s.local ensures t in ran {
          var k := IndexOf(s.local, t);
          LocalTurn(s, k);
          assert ran[k] == t;
        }
      }
    }
  }
}
