/** The multi-core scheduler: where threads are, under any interleaving of its locked steps. */
module MpScheduler {
  import opened Lists
  import opened ReadyBits
  import opened ReadyQueue
  import opened ReadyTurns

  datatype Stat = Init | Ready | Running | Suspended

  /** `bind` names a core, or with the number of cores none; `oncpu` is the core that has the thread. */
  datatype Thread = Thread(stat: Stat, yielding: bool, prio: nat, bind: nat, oncpu: Option<nat>)

  function SlotOf(x: Thread): Option<Slot>
  {
    if x.stat == Ready then Some(Slot(x.bind, x.prio)) else None
  }

  function Slots(ths: seq<Thread>): (r: seq<Option<Slot>>)
    ensures |r| == |ths| && forall t :: 0 <= t < |ths| ==> r[t] == SlotOf(ths[t])
  {
    seq(|ths|, t requires 0 <= t < |ths| => SlotOf(ths[t]))
  }

  lemma SlotsSet(ths: seq<Thread>, t: nat, x: Thread)
    requires t < |ths|
    ensures Slots(ths[t := x]) == Slots(ths)[t := SlotOf(x)]
    ensures SlotOf(x) == SlotOf(ths[t]) ==> Slots(ths[t := x]) == Slots(ths)
  {
  }

  // ----- all queues -----

  ghost predicate QueueAt(slots: seq<Option<Slot>>, queues: seq<Queue>, levels: nat, b: nat)
    requires b < |queues|
  {
    QueueOk(slots, b, queues[b]) && |queues[b].lists| == levels
  }

  /** Queue `b` holds the ready threads bound to core `b`; the last queue those bound to none. */
  ghost predicate QueuesOk(slots: seq<Option<Slot>>, queues: seq<Queue>, levels: nat)
  {
    forall b :: 0 <= b < |queues| ==> QueueAt(slots, queues, levels, b)
  }

  lemma EnqueueAll(slots: seq<Option<Slot>>, queues: seq<Queue>, levels: nat, b: nat, p: nat, t: nat, last: bool)
    requires QueuesOk(slots, queues, levels) && b < |queues| && p < levels && t < |slots| && slots[t] == None
    ensures QueueAt(slots, queues, levels, b)
    ensures QueuesOk(slots[t := Some(Slot(b, p))], queues[b := Enqueue(queues[b], p, t, last)], levels)
  {
    assert QueueAt(slots, queues, levels, b);
    EnqueueOk(slots, b, queues[b], p, t, last);
    var slots', queues' := slots[t := Some(Slot(b, p))], queues[b := Enqueue(queues[b], p, t, last)];
    forall d | 0 <= d < |queues'| ensures QueueAt(slots', queues', levels, d) {
      if d != b { assert QueueAt(slots, queues, levels, d); OtherQueue(slots, d, queues[d], t, Some(Slot(b, p))); }
    }
  }

  /** Unlinking thread `t`, which may be queued in `b` at `p` but nowhere else. */
  lemma DequeueAll(slots: seq<Option<Slot>>, queues: seq<Queue>, levels: nat, b: nat, p: nat, t: nat)
    requires QueuesOk(slots, queues, levels) && b < |queues| && p < levels && t < |slots|
    requires slots[t] == None || slots[t] == Some(Slot(b, p))
    ensures QueueAt(slots, queues, levels, b)
    ensures QueuesOk(slots[t := None], queues[b := Dequeue(queues[b], p, t)], levels)
  {
    assert QueueAt(slots, queues, levels, b);
    var slots', queues' := slots[t := None], queues[b := Dequeue(queues[b], p, t)];
    if slots[t] == None {
      DequeueAbsent(slots, b, queues[b], p, t);
      assert slots' == slots;
    } else {
      DequeueOk(slots, b, queues[b], p, t);
    }
    forall d | 0 <= d < |queues'| ensures QueueAt(slots', queues', levels, d) {
      if d != b { assert QueueAt(slots, queues, levels, d); OtherQueue(slots, d, queues[d], t, None); }
    }
  }

  // ----- placement -----

  /** A ready thread is on no core, a running one is on one, and a core a thread is on has that thread. */
  ghost predicate ThreadOk(x: Thread, t: nat, cur: seq<nat>, levels: nat)
  {
    && x.prio < levels && x.bind <= |cur|
    && (x.stat == Ready || x.stat == Init ==> x.oncpu == None) && (x.stat == Running ==> x.oncpu != None)
    && (x.oncpu.Some? ==> x.oncpu.value < |cur| && cur[x.oncpu.value] == t)
  }

  ghost predicate CoreOk(ths: seq<Thread>, cur: seq<nat>, c: nat)
    requires c < |cur|
  {
    cur[c] < |ths| && ths[cur[c]].oncpu == Some(c)
  }

  ghost predicate Placed(ths: seq<Thread>, cur: seq<nat>, levels: nat)
  {
    && (forall t :: 0 <= t < |ths| ==> ThreadOk(ths[t], t, cur, levels))
    && (forall c :: 0 <= c < |cur| ==> CoreOk(ths, cur, c))
  }

  /** No thread has two cores. */
  lemma OneCore(ths: seq<Thread>, cur: seq<nat>, levels: nat, c: nat, d: nat)
    requires Placed(ths, cur, levels) && c < |cur| && d < |cur| && cur[c] == cur[d]
    ensures c == d
  {
    assert CoreOk(ths, cur, c) && CoreOk(ths, cur, d);
  }

  /** A thread has a core just when it is the current thread of one, and it is queued just when it is ready:
      never both, and in one list only. */
  lemma OnePlace(ths: seq<Thread>, cur: seq<nat>, queues: seq<Queue>, levels: nat, t: nat, b: nat, p: nat)
    requires Placed(ths, cur, levels) && QueuesOk(Slots(ths), queues, levels) && t < |ths| && b < |queues| && p < levels
    ensures ths[t].oncpu.Some? <==> exists c :: 0 <= c < |cur| && cur[c] == t
    ensures |queues[b].lists| == levels && (t in queues[b].lists[p] <==> ths[t].stat == Ready && ths[t].bind == b && ths[t].prio == p)
    ensures t in queues[b].lists[p] ==> NoDup(queues[b].lists[p]) && ths[t].oncpu == None
  {
    assert ThreadOk(ths[t], t, cur, levels);
    if ths[t].oncpu.Some? { assert cur[ths[t].oncpu.value] == t; }
    forall c | 0 <= c < |cur| && cur[c] == t ensures ths[t].oncpu.Some? { assert CoreOk(ths, cur, c); }
    assert QueueAt(Slots(ths), queues, levels, b) && ListOk(Slots(ths), b, queues[b], p);
    assert Slots(ths)[t] == SlotOf(ths[t]);
  }

  /** `_sched_insert_thread_locked` on the thread: a queued one stays, one that a core still has runs on. */
  function Inserted(x: Thread): Thread
  {
    if x.stat == Ready then x else if x.oncpu.Some? then x.(stat := Running) else x.(stat := Ready)
  }

  // ----- scheduling -----

  /** The thread may run on core `c` of `n`. */
  predicate Eligible(x: Thread, c: nat, n: nat)
  {
    x.bind == n || x.bind == c
  }

  /** The queue core `c` takes from: the global one only when its highest priority is more urgent than the
      highest of the core's own queue. */
  function Source(queues: seq<Queue>, c: nat): (b: nat)
    requires c + 1 < |queues| && Coherent(queues[|queues| - 1].bits) && Coherent(queues[c].bits)
    ensures b == c || b == |queues| - 1
  {
    var n := |queues| - 1;
    var hg, hl := Highest(queues[n].bits), Highest(queues[c].bits);
    if hg != -1 && (hl == -1 || hg < hl) then n else c
  }

  /** A running thread keeps core `c` against ready priority `h`. */
  predicate KeepsCore(x: Thread, c: nat, n: nat, h: int)
  {
    x.stat == Running && Eligible(x, c, n) && (x.prio < h || (x.prio == h && !x.yielding))
  }

  ghost predicate Sized(q: Queue)
  {
    Coherent(q.bits) && Levels(q.bits) == |q.lists|
  }

  /** The two queues of core `c` have `to` on top, at priority `h`. */
  ghost predicate FoundIn(queues: seq<Queue>, c: nat, to: Option<nat>, h: int)
  {
    && c + 1 < |queues| && Sized(queues[|queues| - 1]) && Sized(queues[c])
    && to == Top(queues[Source(queues, c)]) && h == Highest(queues[Source(queues, c)].bits)
  }

  /** Who has core `c` after scheduling, when thread `t` had it. */
  ghost function NextOn(ths: seq<Thread>, queues: seq<Queue>, t: nat, c: nat): nat
    requires t < |ths| && c + 1 < |queues| && Sized(queues[|queues| - 1]) && Sized(queues[c])
  {
    var q := queues[Source(queues, c)];
    if Top(q).None? || KeepsCore(ths[t], c, |queues| - 1, Highest(q.bits)) then t else Top(q).value
  }

  /** No ready thread that may run on core `c` is more urgent than thread `t`. */
  ghost predicate MostUrgent(ths: seq<Thread>, t: nat, c: nat, n: nat)
    requires t < |ths|
  {
    forall u :: 0 <= u < |ths| && ths[u].stat == Ready && Eligible(ths[u], c, n) ==> ths[t].prio <= ths[u].prio
  }

  /** A ready thread may run on core `c`. */
  ghost predicate ReadyFor(ths: seq<Thread>, c: nat, n: nat)
  {
    exists u :: 0 <= u < |ths| && ths[u].stat == Ready && Eligible(ths[u], c, n)
  }

  predicate RunsOn(x: Thread, c: nat, n: nat)
  {
    x.stat == Running && Eligible(x, c, n)
  }

  /** Thread `u` is bound to core `c` and is ready, or runs as the core's current thread. */
  ghost predicate IdleAt(ths: seq<Thread>, cur: seq<nat>, c: nat, u: nat)
  {
    && c < |cur| && u < |ths| && ths[u].bind == c
    && (ths[u].stat == Ready || (ths[u].stat == Running && cur[c] == u))
  }

  /** The idle threads, by core. */
  ghost predicate IdlesOk(ths: seq<Thread>, cur: seq<nat>, idle: map<nat, nat>)
  {
    forall c :: c in idle ==> IdleAt(ths, cur, c, idle[c])
  }

  /** The idle threads when `t` is none of them. */
  ghost function Others(idle: map<nat, nat>, t: nat): map<nat, nat>
  {
    map c | c in idle && idle[c] != t :: idle[c]
  }

  /** A core with an idle thread always has somebody to run, however threads are bound. */
  lemma IdleSuffices(ths: seq<Thread>, cur: seq<nat>, c: nat, u: nat)
    requires IdleAt(ths, cur, c, u) && cur[c] < |ths|
    ensures RunsOn(ths[cur[c]], c, |cur|) || ReadyFor(ths, c, |cur|)
  {
  }

  /** Changing one thread keeps the idle threads, unless it is one and gives up its binding or its status. */
  lemma IdlesKept(ths: seq<Thread>, cur: seq<nat>, idle: map<nat, nat>, t: nat, x: Thread)
    requires IdlesOk(ths, cur, idle) && t < |ths|
    requires forall c :: c in idle && idle[c] == t ==> x.bind == ths[t].bind && x.stat == ths[t].stat
    ensures IdlesOk(ths[t := x], cur, idle)
  {
    forall c | c in idle ensures IdleAt(ths[t := x], cur, c, idle[c]) {
      assert IdleAt(ths, cur, c, idle[c]);
    }
  }

  lemma NotIdle(ths: seq<Thread>, cur: seq<nat>, idle: map<nat, nat>, t: nat)
    requires IdlesOk(ths, cur, idle) && t < |ths| && (ths[t].stat == Init || ths[t].stat == Suspended)
    ensures forall c :: c in idle ==> idle[c] != t
  {
    forall c | c in idle ensures idle[c] != t {
      assert IdleAt(ths, cur, c, idle[c]);
    }
  }

  /** Inserting an idle thread changes nothing about it. */
  lemma IdleInserts(ths: seq<Thread>, cur: seq<nat>, levels: nat, idle: map<nat, nat>, t: nat)
    requires IdlesOk(ths, cur, idle) && Placed(ths, cur, levels) && t < |ths|
    ensures forall c :: c in idle && idle[c] == t ==> Inserted(ths[t]) == ths[t]
  {
    assert ThreadOk(ths[t], t, cur, levels);
    forall c | c in idle && idle[c] == t ensures Inserted(ths[t]) == ths[t] {
      assert IdleAt(ths, cur, c, idle[c]);
    }
  }

  /** Whatever happens to `t`, the other idle threads stay. */
  lemma OthersKept(ths: seq<Thread>, cur: seq<nat>, idle: map<nat, nat>, t: nat, x: Thread)
    requires IdlesOk(ths, cur, idle) && t < |ths|
    ensures IdlesOk(ths[t := x], cur, Others(idle, t))
  {
    var rest := Others(idle, t);
    forall c | c in rest ensures IdleAt(ths[t := x], cur, c, rest[c]) {
      assert IdleAt(ths, cur, c, idle[c]);
    }
  }

  /** A switch keeps all idle threads: the one that leaves its core becomes ready, and one that is taken may run only there. */
  lemma SwitchKeepsIdles(ths: seq<Thread>, cur: seq<nat>, idle: map<nat, nat>, c: nat, to: nat)
    requires IdlesOk(ths, cur, idle) && c < |cur| && cur[c] < |ths| && to < |ths| && to != cur[c]
    requires ths[to].stat == Ready && Eligible(ths[to], c, |cur|)
    ensures IdlesOk(Switched(ths, c, cur[c], to), cur[c := to], idle)
  {
    forall d | d in idle ensures IdleAt(Switched(ths, c, cur[c], to), cur[c := to], d, idle[d]) {
      assert IdleAt(ths, cur, d, idle[d]);
    }
  }

  lemma AllCoherent(slots: seq<Option<Slot>>, queues: seq<Queue>, levels: nat)
    requires QueuesOk(slots, queues, levels)
    ensures forall b :: 0 <= b < |queues| ==> Coherent(queues[b].bits) && Levels(queues[b].bits) == |queues[b].lists| == levels
  {
    forall b | 0 <= b < |queues| ensures Coherent(queues[b].bits) && Levels(queues[b].bits) == |queues[b].lists| == levels {
      assert QueueAt(slots, queues, levels, b);
    }
  }

  /** The head of the source queue is ready, may run on the core, and nobody ready who may is more urgent. */
  lemma SourceIs(ths: seq<Thread>, queues: seq<Queue>, levels: nat, c: nat)
    requires QueuesOk(Slots(ths), queues, levels) && c + 1 < |queues|
    requires forall t :: 0 <= t < |ths| ==> ths[t].prio < levels
    ensures forall b :: 0 <= b < |queues| ==> Coherent(queues[b].bits) && Levels(queues[b].bits) == |queues[b].lists| == levels
    ensures var n := |queues| - 1; var q := queues[Source(queues, c)];
            && (Top(q).None? <==> queues[n].bits.group == 0 && queues[c].bits.group == 0)
            && (Top(q).None? ==> forall u :: 0 <= u < |ths| && ths[u].stat == Ready ==> !Eligible(ths[u], c, n))
            && (Top(q).Some? ==> Top(q).value < |ths| && ths[Top(q).value].stat == Ready && Eligible(ths[Top(q).value], c, n)
                                 && ths[Top(q).value].prio == Highest(q.bits) && MostUrgent(ths, Top(q).value, c, n))
  {
    AllCoherent(Slots(ths), queues, levels);
    var n := |queues| - 1;
    assert QueueAt(Slots(ths), queues, levels, n) && QueueAt(Slots(ths), queues, levels, c);
    TopIs(Slots(ths), n, queues[n]);
    TopIs(Slots(ths), c, queues[c]);
    HighestIs(queues[n].bits);
    HighestIs(queues[c].bits);
    forall u | 0 <= u < |ths| ensures Slots(ths)[u] == SlotOf(ths[u]) { }
  }

  /** The threads after core `c` goes from `from` to `to`. */
  function Switched(ths: seq<Thread>, c: nat, from: nat, to: nat): seq<Thread>
    requires from < |ths| && to < |ths|
  {
    var x := ths[from];
    ths[from := if x.stat == Running then x.(stat := Ready, yielding := false, oncpu := None) else x.(oncpu := None)]
       [to := ths[to].(stat := Running, oncpu := Some(c))]
  }

  /** The thread that is left has no core; it is ready again, without its yield mark, if it ran; `to` runs on core `c`; nobody
      else changes. */
  lemma SwitchedIs(ths: seq<Thread>, c: nat, from: nat, to: nat)
    requires from < |ths| && to < |ths| && from != to
    ensures var ths', x := Switched(ths, c, from, to), ths[from];
            && |ths'| == |ths| && ths'[to] == ths[to].(stat := Running, oncpu := Some(c))
            && (x.stat == Running ==> ths'[from] == x.(stat := Ready, yielding := false, oncpu := None))
            && (x.stat != Running ==> ths'[from] == x.(oncpu := None))
            && forall t :: 0 <= t < |ths| && t != from && t != to ==> ths'[t] == ths[t]
  {
  }

  lemma SwitchedPlaced(ths: seq<Thread>, cur: seq<nat>, levels: nat, c: nat, to: nat)
    requires Placed(ths, cur, levels) && c < |cur| && cur[c] < |ths| && to < |ths| && to != cur[c] && ths[to].stat == Ready
    ensures Placed(Switched(ths, c, cur[c], to), cur[c := to], levels)
  {
    var from, ths', cur' := cur[c], Switched(ths, c, cur[c], to), cur[c := to];
    assert CoreOk(ths, cur, c) && ThreadOk(ths[to], to, cur, levels);
    forall t | 0 <= t < |ths'| ensures ThreadOk(ths'[t], t, cur', levels) {
      assert ThreadOk(ths[t], t, cur, levels);
    }
    forall d | 0 <= d < |cur'| ensures CoreOk(ths', cur', d) {
      assert CoreOk(ths, cur, d);
    }
  }

  lemma SwitchedUrgent(ths: seq<Thread>, c: nat, n: nat, from: nat, to: nat)
    requires from < |ths| && to < |ths| && from != to && MostUrgent(ths, to, c, n)
    requires ths[from].stat == Running && Eligible(ths[from], c, n) ==> ths[to].prio <= ths[from].prio
    ensures MostUrgent(Switched(ths, c, from, to), to, c, n)
  {
  }

  /** What inserting `t` does to the lists: one that is queued or that a core has stays out of them; another comes behind
      all of its binding and priority when it yields, and before all of them otherwise. */
  ghost predicate InsertedLists(x: Thread, t: nat, queues: seq<Queue>, queues': seq<Queue>)
  {
    && |queues'| == |queues| && x.bind < |queues|
    && (forall b :: 0 <= b < |queues| && b != x.bind ==> queues'[b] == queues[b])
    && if x.stat == Ready || x.oncpu.Some? then queues' == queues
       else Joins(queues[x.bind].lists, queues'[x.bind].lists, x.prio, t, x.yielding)
  }

  /** What unlinking `t` does to the lists. */
  ghost predicate UnlinkedLists(x: Thread, t: nat, queues: seq<Queue>, queues': seq<Queue>)
  {
    && |queues'| == |queues| && x.bind < |queues|
    && (forall b :: 0 <= b < |queues| && b != x.bind ==> queues'[b] == queues[b])
    && Leaves(queues[x.bind].lists, queues'[x.bind].lists, x.prio, t)
  }

  /** What becomes of the lists when thread `t` turns from `x` into `y`: a ready one goes to the front of its new list. */
  ghost predicate RelinkedLists(x: Thread, y: Thread, t: nat, queues: seq<Queue>, queues': seq<Queue>)
  {
    if x.stat != Ready then queues' == queues
    else exists mid :: UnlinkedLists(x, t, queues, mid) && InsertedLists(y.(stat := Init, yielding := false), t, mid, queues')
  }

  /** The list of binding `b` and priority `p`. */
  function ListAt(queues: seq<Queue>, b: nat, p: nat): seq<nat>
  {
    if b < |queues| && p < |queues[b].lists| then queues[b].lists[p] else []
  }

  /** What a switch does to the lists: `to` was first of its list and leaves it; `from`, if it can run on, goes to the end of
      its list when it yields and to the front otherwise; nothing else moves. */
  ghost predicate SwitchedLists(ths: seq<Thread>, queues: seq<Queue>, queues': seq<Queue>, from: nat, to: nat)
  {
    && from < |ths| && to < |ths|
    && var x, y, goes := ths[from], ths[to], ths[from].stat == Running; var same := x.prio == y.prio && x.bind == y.bind;
       && ListAt(queues, y.bind, y.prio) != [] && ListAt(queues, y.bind, y.prio)[0] == to
       && (forall b, p :: (b != x.bind || p != x.prio) && (b != y.bind || p != y.prio) ==> ListAt(queues', b, p) == ListAt(queues, b, p))
       && (goes && same ==> x.yielding && ListAt(queues', y.bind, y.prio) == ListAt(queues, y.bind, y.prio)[1..] + [from])
       && (!goes || !same ==> ListAt(queues', y.bind, y.prio) == ListAt(queues, y.bind, y.prio)[1..])
       && (goes && !same ==> ListAt(queues', x.bind, x.prio) ==
                             if x.yielding then ListAt(queues, x.bind, x.prio) + [from] else [from] + ListAt(queues, x.bind, x.prio))
       && (!goes && !same ==> ListAt(queues', x.bind, x.prio) == ListAt(queues, x.bind, x.prio))
  }

  lemma EnqueueLists(queues: seq<Queue>, b: nat, p: nat, t: nat, last: bool)
    requires b < |queues| && Sized(queues[b]) && p < |queues[b].lists|
    ensures var l, qs := ListAt(queues, b, p), queues[b := Enqueue(queues[b], p, t, last)];
            && ListAt(qs, b, p) == (if last then l + [t] else [t] + l)
            && forall d, r :: d != b || r != p ==> ListAt(qs, d, r) == ListAt(queues, d, r)
  {
    EnqueuePlace(queues[b], p, t, last);
  }

  lemma DequeueLists(queues: seq<Queue>, b: nat, p: nat, t: nat)
    requires b < |queues| && Sized(queues[b]) && p < |queues[b].lists| && ListAt(queues, b, p) != [] && ListAt(queues, b, p)[0] == t
    ensures var qs := queues[b := Dequeue(queues[b], p, t)];
            && ListAt(qs, b, p) == ListAt(queues, b, p)[1..]
            && forall d, r :: d != b || r != p ==> ListAt(qs, d, r) == ListAt(queues, d, r)
  {
  }

  lemma SwitchPlaces(ths: seq<Thread>, queues: seq<Queue>, qs1: seq<Queue>, levels: nat, from: nat, to: nat)
    requires from < |ths| && to < |ths|
    requires forall b :: 0 <= b < |queues| ==> Coherent(queues[b].bits) && Levels(queues[b].bits) == |queues[b].lists| == levels
    requires ths[from].prio < levels && ths[to].prio < levels && ths[from].bind < |queues| && ths[to].bind < |queues|
    requires ListAt(queues, ths[to].bind, ths[to].prio) != [] && ListAt(queues, ths[to].bind, ths[to].prio)[0] == to
    requires ths[from].stat == Running && ths[from].prio == ths[to].prio && ths[from].bind == ths[to].bind ==> ths[from].yielding
    requires var x := ths[from];
             qs1 == if x.stat == Running then queues[x.bind := Enqueue(queues[x.bind], x.prio, from, x.yielding)] else queues
    requires Coherent(qs1[ths[to].bind].bits) && Levels(qs1[ths[to].bind].bits) == |qs1[ths[to].bind].lists|
    ensures SwitchedLists(ths, queues, qs1[ths[to].bind := Dequeue(qs1[ths[to].bind], ths[to].prio, to)], from, to)
  {
    var x, y := ths[from], ths[to];
    if x.stat == Running {
      EnqueueLists(queues, x.bind, x.prio, from, x.yielding);
    }
    DequeueLists(qs1, y.bind, y.prio, to);
  }

  /** What scheduling does on core `c`: its next thread is `NextOn`, the other cores keep theirs, the thread left is ready
      again if it can run on, a thread that stays against others has used up its yield mark, and the current thread runs and may
      run there just when it did before or a ready one may. */
  ghost predicate Rescheduled(ths: seq<Thread>, cur: seq<nat>, queues: seq<Queue>, ths': seq<Thread>, cur': seq<nat>, c: nat)
  {
    && c < |cur| && cur[c] < |ths| && |queues| == |cur| + 1 && Sized(queues[|cur|]) && Sized(queues[c])
    && cur' == cur[c := NextOn(ths, queues, cur[c], c)] && |ths'| == |ths| && cur'[c] < |ths|
    && (cur'[c] == cur[c] ==> ths' == if ReadyFor(ths, c, |cur|) then ths[cur[c] := ths[cur[c]].(yielding := false)] else ths)
    && (cur'[c] != cur[c] ==> ths' == Switched(ths, c, cur[c], cur'[c]) && ths[cur'[c]].stat == Ready && Eligible(ths[cur'[c]], c, |cur|))
    && (RunsOn(ths'[cur'[c]], c, |cur|) <==> RunsOn(ths[cur[c]], c, |cur|) || ReadyFor(ths, c, |cur|))
  }

  /** A switch to the thread found is what scheduling does when the current thread does not keep the core. */
  lemma SwitchIs(ths: seq<Thread>, cur: seq<nat>, queues: seq<Queue>, c: nat, to: nat, h: int)
    requires c < |cur| && cur[c] < |ths| && |queues| == |cur| + 1 && FoundIn(queues, c, Some(to), h) && to < |ths| && to != cur[c]
    requires ths[to].stat == Ready && Eligible(ths[to], c, |cur|) && ths[to].prio == h && MostUrgent(ths, to, c, |cur|)
    requires !KeepsCore(ths[cur[c]], c, |cur|, h)
    ensures Rescheduled(ths, cur, queues, Switched(ths, c, cur[c], to), cur[c := to], c)
    ensures MostUrgent(Switched(ths, c, cur[c], to), to, c, |cur|)
  {
    SwitchedUrgent(ths, c, |cur|, cur[c], to);
    assert ReadyFor(ths, c, |cur|);
  }

  predicate GoesBefore(x: Thread, y: Thread)
  {
    x.prio < y.prio || (x.prio == y.prio && !x.yielding)
  }

  /** The current thread keeps core `c`: nobody ready may run there, or it runs, may run there, and is more urgent than all
      who may, or as urgent and does not yield. */
  ghost predicate StaysOn(ths: seq<Thread>, t: nat, c: nat, n: nat)
    requires t < |ths|
  {
    || !ReadyFor(ths, c, n)
    || (RunsOn(ths[t], c, n) && forall u :: 0 <= u < |ths| && ths[u].stat == Ready && Eligible(ths[u], c, n) ==> GoesBefore(ths[t], ths[u]))
  }

  /** Who core `c` takes, when it does not keep its thread: one of the most urgent who may run there, and an unbound one only
      if it is more urgent than all that are bound there. */
  ghost predicate Chosen(ths: seq<Thread>, t: nat, c: nat, n: nat, to: nat)
    requires t < |ths|
  {
    && (to == t <==> StaysOn(ths, t, c, n))
    && (to != t ==>
          && to < |ths| && ths[to].stat == Ready && Eligible(ths[to], c, n) && MostUrgent(ths, to, c, n)
          && (ths[to].bind == n ==> forall u :: 0 <= u < |ths| && ths[u].stat == Ready && ths[u].bind == c ==> ths[to].prio < ths[u].prio))
  }

  /** When the core takes from the shared queue, nobody bound to it is as urgent. */
  lemma SharedFirst(ths: seq<Thread>, queues: seq<Queue>, levels: nat, c: nat)
    requires QueuesOk(Slots(ths), queues, levels) && c + 1 < |queues| && Sized(queues[|queues| - 1]) && Sized(queues[c])
    requires forall u :: 0 <= u < |ths| ==> ths[u].prio < levels
    requires Source(queues, c) != c && Top(queues[Source(queues, c)]).Some?
    ensures forall u :: 0 <= u < |ths| && ths[u].stat == Ready && ths[u].bind == c ==> Highest(queues[|queues| - 1].bits) < ths[u].prio
  {
    assert QueueAt(Slots(ths), queues, levels, c);
    TopIs(Slots(ths), c, queues[c]);
    HighestIs(queues[c].bits);
    forall u | 0 <= u < |ths| ensures Slots(ths)[u] == SlotOf(ths[u]) { }
  }

  /** Keeping the core against the most urgent ready thread is keeping it against all. */
  lemma KeepsIs(ths: seq<Thread>, t: nat, c: nat, n: nat, to: nat)
    requires t < |ths| && to < |ths| && ths[to].stat == Ready && Eligible(ths[to], c, n) && MostUrgent(ths, to, c, n)
    ensures KeepsCore(ths[t], c, n, ths[to].prio) <==> StaysOn(ths, t, c, n)
  {
    if StaysOn(ths, t, c, n) { assert GoesBefore(ths[t], ths[to]); }
  }

  lemma ChosenIs(ths: seq<Thread>, cur: seq<nat>, queues: seq<Queue>, levels: nat, c: nat)
    requires QueuesOk(Slots(ths), queues, levels) && Placed(ths, cur, levels) && c < |cur| && |queues| == |cur| + 1 && cur[c] < |ths|
    ensures Sized(queues[|cur|]) && Sized(queues[c]) && Chosen(ths, cur[c], c, |cur|, NextOn(ths, queues, cur[c], c))
  {
    AllCoherent(Slots(ths), queues, levels);
    forall u | 0 <= u < |ths| ensures ths[u].prio < levels && (ths[u].stat == Ready ==> u != cur[c]) {
      assert ThreadOk(ths[u], u, cur, levels) && CoreOk(ths, cur, c);
    }
    SourceIs(ths, queues, levels, c);
    var q := queues[Source(queues, c)];
    if Top(q).Some? {
      KeepsIs(ths, cur[c], c, |cur|, Top(q).value);
      if Source(queues, c) != c {
        SharedFirst(ths, queues, levels, c);
      } else {
        OwnTop(ths, queues, levels, c);
      }
    }
  }

  lemma OwnTop(ths: seq<Thread>, queues: seq<Queue>, levels: nat, c: nat)
    requires QueuesOk(Slots(ths), queues, levels) && c + 1 < |queues| && Sized(queues[c]) && Top(queues[c]).Some?
    ensures Top(queues[c]).value < |ths| && ths[Top(queues[c]).value].bind == c
  {
    assert QueueAt(Slots(ths), queues, levels, c);
    TopIs(Slots(ths), c, queues[c]);
    assert Slots(ths)[Top(queues[c]).value] == SlotOf(ths[Top(queues[c]).value]);
  }

  lemma RescheduleKeepsIdles(ths: seq<Thread>, cur: seq<nat>, queues: seq<Queue>, ths': seq<Thread>, cur': seq<nat>, c: nat, idle: map<nat, nat>)
    requires Rescheduled(ths, cur, queues, ths', cur', c) && IdlesOk(ths, cur, idle)
    ensures IdlesOk(ths', cur', idle) && (c in idle ==> RunsOn(ths'[cur'[c]], c, |cur|))
  {
    if c in idle {
      assert IdleAt(ths, cur, c, idle[c]);
      IdleSuffices(ths, cur, c, idle[c]);
    }
    if cur'[c] == cur[c] {
      assert cur' == cur;
      IdlesKept(ths, cur, idle, cur[c], ths[cur[c]].(yielding := false));
    } else {
      SwitchKeepsIdles(ths, cur, idle, c, cur'[c]);
    }
  }

  // ----- turns -----

  /** The current thread of core `c` and those of its priority that wait for it. */
  ghost function View(ths: seq<Thread>, cur: seq<nat>, queues: seq<Queue>, c: nat): Turns
    requires c < |cur| && cur[c] < |ths|
  {
    var x := ths[cur[c]];
    Turns(cur[c], x.bind == c, ListAt(queues, c, x.prio), ListAt(queues, |cur|, x.prio))
  }

  /** Queue `b` has the threads of priority `p` on top: its first one, or the queue is empty or less urgent. */
  ghost predicate OnTop(q: Queue, p: nat)
  {
    && Sized(q) && p < |q.lists|
    && if q.lists[p] != [] then Top(q) == Some(q.lists[p][0]) && Highest(q.bits) == p
       else (Top(q).None? && Highest(q.bits) == -1) || (Top(q).Some? && Highest(q.bits) > p)
  }

  /** When nobody ready who may run on core `c` is more urgent than `t`. */
  lemma AtHighest(ths: seq<Thread>, queues: seq<Queue>, levels: nat, c: nat, t: nat, b: nat)
    requires QueuesOk(Slots(ths), queues, levels) && c + 1 < |queues| && (b == c || b == |queues| - 1)
    requires t < |ths| && ths[t].prio < levels && MostUrgent(ths, t, c, |queues| - 1)
    ensures OnTop(queues[b], ths[t].prio)
  {
    assert QueueAt(Slots(ths), queues, levels, b) && ListOk(Slots(ths), b, queues[b], ths[t].prio);
    var q, l := queues[b], queues[b].lists[ths[t].prio];
    TopIs(Slots(ths), b, q);
    HighestIs(q.bits);
    if l != [] {
      assert l[0] in l && Slots(ths)[l[0]] == SlotOf(ths[l[0]]);
    }
    if Top(q).Some? {
      assert Slots(ths)[Top(q).value] == SlotOf(ths[Top(q).value]);
      assert ListOk(Slots(ths), b, q, Highest(q.bits));
    }
  }

  /** Core `c` takes from the list that has somebody, its own first, unless both are empty. */
  ghost predicate Takes(queues: seq<Queue>, c: nat, p: nat)
  {
    && c + 1 < |queues| && Sized(queues[c]) && Sized(queues[|queues| - 1])
    && var l, g, q := ListAt(queues, c, p), ListAt(queues, |queues| - 1, p), queues[Source(queues, c)];
       if l != [] then Top(q) == Some(l[0]) && Highest(q.bits) == p
       else if g != [] then Top(q) == Some(g[0]) && Highest(q.bits) == p
       else Top(q).None? || Highest(q.bits) > p
  }

  lemma TakesFrom(ths: seq<Thread>, cur: seq<nat>, queues: seq<Queue>, levels: nat, c: nat, t: nat)
    requires QueuesOk(Slots(ths), queues, levels) && Placed(ths, cur, levels) && c < |cur| && |queues| == |cur| + 1
    requires t < |ths| && MostUrgent(ths, t, c, |cur|)
    ensures Takes(queues, c, ths[t].prio)
  {
    assert ThreadOk(ths[t], t, cur, levels);
    AtHighest(ths, queues, levels, c, t, c);
    AtHighest(ths, queues, levels, c, t, |cur|);
  }

  lemma TurnNext(ths: seq<Thread>, queues: seq<Queue>, t: nat, c: nat)
    requires t < |ths| && Takes(queues, c, ths[t].prio) && ths[t].yielding && RunsOn(ths[t], c, |queues| - 1)
    ensures var l, g := ListAt(queues, c, ths[t].prio), ListAt(queues, |queues| - 1, ths[t].prio);
            NextOn(ths, queues, t, c) == if l != [] then l[0] else if g != [] then g[0] else t
  {
  }

  /** Thread `t` belongs to list `b` of priority `p`, and is not `from`. */
  ghost predicate ListedAt(ths: seq<Thread>, t: nat, b: nat, p: nat, from: nat)
  {
    t < |ths| && ths[t].bind == b && ths[t].prio == p && t != from
  }

  /** The first of its own queue, or else of the shared one, has the core. */
  lemma TurnSwitch(ths: seq<Thread>, cur: seq<nat>, queues: seq<Queue>, queues': seq<Queue>, c: nat, to: nat, own: bool)
    requires c < |cur| && cur[c] < |ths| && RunsOn(ths[cur[c]], c, |cur|) && ths[cur[c]].yielding && to < |ths| && to != cur[c]
    requires ListedAt(ths, to, if own then c else |cur|, ths[cur[c]].prio, cur[c]) && SwitchedLists(ths, queues, queues', cur[c], to)
    requires !own ==> ListAt(queues, c, ths[cur[c]].prio) == []
    ensures View(Switched(ths, c, cur[c], to), cur[c := to], queues', c) == Round(View(ths, cur, queues, c))
  {
    var v := View(ths, cur, queues, c);
    var l := if own then v.local else v.shared;
    assert (l + [v.cur])[1..] == l[1..] + [v.cur];
  }

  /** A schedule after a yield is one round. */
  lemma TurnIs(ths: seq<Thread>, cur: seq<nat>, queues: seq<Queue>, ths': seq<Thread>, cur': seq<nat>, queues': seq<Queue>, c: nat)
    requires Rescheduled(ths, cur, queues, ths', cur', c) && RunsOn(ths[cur[c]], c, |cur|) && ths[cur[c]].yielding
    requires Takes(queues, c, ths[cur[c]].prio)
    requires forall t :: t in ListAt(queues, c, ths[cur[c]].prio) ==> ListedAt(ths, t, c, ths[cur[c]].prio, cur[c])
    requires forall t :: t in ListAt(queues, |cur|, ths[cur[c]].prio) ==> ListedAt(ths, t, |cur|, ths[cur[c]].prio, cur[c])
    requires cur'[c] == cur[c] ==> queues' == queues
    requires cur'[c] != cur[c] ==> SwitchedLists(ths, queues, queues', cur[c], cur'[c])
    ensures View(ths', cur', queues', c) == Round(View(ths, cur, queues, c))
  {
    var p := ths[cur[c]].prio;
    var l, g := ListAt(queues, c, p), ListAt(queues, |cur|, p);
    TurnNext(ths, queues, cur[c], c);
    if l != [] {
      assert l[0] in l;
      TurnSwitch(ths, cur, queues, queues', c, l[0], true);
    } else if g != [] {
      assert g[0] in g;
      TurnSwitch(ths, cur, queues, queues', c, g[0], false);
    }
  }

  lemma AllDiffer(v: Turns)
    requires NoDup(v.local) && NoDup(v.shared) && v.cur !in v.local && v.cur !in v.shared
    requires forall t :: t in v.local ==> t !in v.shared
    ensures Distinct(v)
  {
    var a := [v.cur] + v.local;
    NoDupCons(v.cur, v.local);
    forall i, j | 0 <= i < |a| && 0 <= j < |v.shared| ensures a[i] != v.shared[j] {
      assert a[i] in a && v.shared[j] in v.shared;
    }
  }

  /** Who is among those that run in the first rounds. */
  lemma RanIs(v: Turns, ran: seq<nat>)
    requires Distinct(v) && forall i :: 0 <= i < |ran| ==> ran[i] == Rounds(v, i + 1).cur
    ensures (v.shared == [] || Owned(v) <= 1) && |ran| >= 2 * (|v.local| + |v.shared|) ==> forall t :: t in v.local + v.shared ==> t in ran
    ensures Owned(v) >= 2 ==> forall t :: t in v.shared ==> t !in ran
  {
    if (v.shared == [] || Owned(v) <= 1) && |ran| >= 2 * (|v.local| + |v.shared|) {
      forall t | t in v.local + v.shared ensures t in ran {
        TurnComes(v, t);
        var i :| 0 < i <= 2 * (|v.local| + |v.shared|) && Rounds(v, i).cur == t;
        assert ran[i - 1] == t;
      }
    }
    if Owned(v) >= 2 {
      forall t | t in v.shared ensures t !in ran {
        SharedWaits(v, t);
        forall i | 0 <= i < |ran| ensures ran[i] != t { SharedStarves(v, t, i + 1); }
      }
    }
  }

  class MpScheduler {
    const levels: nat
    var threads: seq<Thread>
    var queues: seq<Queue>
    /** The current thread of each core. */
    var cur: seq<nat>
    /** The idle threads that have been set up, by core. */
    ghost var idle: map<nat, nat>

    ghost predicate Valid()
      reads this
    {
      Core() && IdlesOk(threads, cur, idle)
    }

    ghost predicate Core()
      reads this
    {
      |queues| == |cur| + 1 && QueuesOk(Slots(threads), queues, levels) && Placed(threads, cur, levels)
    }

    /** `n` cores, each with the thread of its number running, the others not yet started. */
    constructor (n: nat, prios: seq<nat>, binds: seq<nat>, two: bool)
      requires 0 < n <= |prios| == |binds|
      requires forall t :: 0 <= t < |prios| ==> prios[t] < (if two then 256 else 32) && binds[t] <= n
      ensures Valid() && |threads| == |prios| && |cur| == n && idle == map[] && forall c :: 0 <= c < n ==> cur[c] == c
    {
      levels := if two then 256 else 32;
      threads := seq(|prios|, t requires 0 <= t < |prios| =>
        Thread(if t < n then Running else Init, false, prios[t], binds[t], if t < n then Some(t) else None));
      queues := seq(n + 1, _ => EmptyQueue(two));
      cur := seq(n, c => c);
      idle := map[];
      new;
      EmptyOk(Slots(threads), two);
      forall b | 0 <= b < |queues| ensures QueueAt(Slots(threads), queues, levels, b) {
        assert QueueOk(Slots(threads), b, EmptyQueue(two));
      }
    }

    /** Replacing a thread that is not queued by one that is not queued. */
    method Put(t: nat, x: Thread)
      requires Core() && t < |threads| && threads[t].stat != Ready && x.stat != Ready && ThreadOk(x, t, cur, levels)
      requires x.oncpu == threads[t].oncpu
      modifies `threads
      ensures Core() && threads == old(threads)[t := x]
    {
      SlotsSet(threads, t, x);
      ghost var ths := threads;
      threads := threads[t := x];
      forall c | 0 <= c < |cur| ensures CoreOk(threads, cur, c) { assert CoreOk(ths, cur, c); }
    }

    /** Linking thread `t` into the list of its binding and priority, unless a core has it. */
    method Link(t: nat)
      requires Core() && t < |threads|
      modifies `threads, `queues
      ensures Core() && |queues| == |old(queues)| && threads == old(threads)[t := Inserted(old(threads)[t])]
      ensures InsertedLists(old(threads)[t], t, old(queues), queues)
    {
      assert ThreadOk(threads[t], t, cur, levels);
      if threads[t].stat == Ready {
        assert threads == threads[t := threads[t]];
        return;
      }
      if threads[t].oncpu != None {
        Put(t, threads[t].(stat := Running));
        return;
      }
      ghost var ths := threads;
      var x := threads[t].(stat := Ready);
      EnqueueAll(Slots(threads), queues, levels, x.bind, x.prio, t, x.yielding);
      SlotsSet(threads, t, x);
      threads := threads[t := x];
      queues := queues[x.bind := Enqueue(queues[x.bind], x.prio, t, x.yielding)];
      forall c | 0 <= c < |cur| ensures CoreOk(threads, cur, c) { assert CoreOk(ths, cur, c); }
    }

    /** `_sched_insert_thread_locked`. */
    method Insert(t: nat)
      requires Valid() && t < |threads|
      modifies `threads, `queues
      ensures Valid() && |queues| == |old(queues)| && threads == old(threads)[t := Inserted(old(threads)[t])]
      ensures InsertedLists(old(threads)[t], t, old(queues), queues)
    {
      IdleInserts(threads, cur, levels, idle, t);
      IdlesKept(threads, cur, idle, t, Inserted(threads[t]));
      Link(t);
    }

    /** Unlinking thread `t` from the list it may be on. */
    method Unlink(t: nat)
      requires Core() && t < |threads|
      modifies `threads, `queues
      ensures Core() && |queues| == |old(queues)| && UnlinkedLists(old(threads)[t], t, old(queues), queues)
      ensures threads == old(threads)[t := old(threads)[t].(stat := Suspended, yielding := false)]
    {
      assert ThreadOk(threads[t], t, cur, levels);
      ghost var ths := threads;
      var x := threads[t].(stat := Suspended, yielding := false);
      DequeueAll(Slots(threads), queues, levels, x.bind, x.prio, t);
      SlotsSet(threads, t, x);
      queues := queues[x.bind := Dequeue(queues[x.bind], x.prio, t)];
      threads := threads[t := x];
      forall c | 0 <= c < |cur| ensures CoreOk(threads, cur, c) { assert CoreOk(ths, cur, c); }
    }

    /** `rt_sched_remove_thread`: off the ready list it may be on, and suspended. */
    method Remove(t: nat)
      requires Valid() && t < |threads|
      modifies `threads, `queues, `idle
      ensures Valid() && |queues| == |old(queues)| && idle == Others(old(idle), t) && UnlinkedLists(old(threads)[t], t, old(queues), queues)
      ensures threads == old(threads)[t := old(threads)[t].(stat := Suspended, yielding := false)]
    {
      OthersKept(threads, cur, idle, t, threads[t].(stat := Suspended, yielding := false));
      Unlink(t);
      idle := Others(idle, t);
    }

    /** `rt_sched_thread_startup`, which makes a new thread ready to be woken. */
    method Startup(t: nat)
      requires Valid() && t < |threads| && threads[t].stat == Init
      modifies `threads
      ensures Valid() && threads == old(threads)[t := old(threads)[t].(stat := Suspended, yielding := false)]
    {
      assert ThreadOk(threads[t], t, cur, levels);
      NotIdle(threads, cur, idle, t);
      IdlesKept(threads, cur, idle, t, threads[t].(stat := Suspended, yielding := false));
      Put(t, threads[t].(stat := Suspended, yielding := false));
    }

    /** `rt_sched_thread_ready`, for a wake-up or a timeout: a thread its core has not left yet is running
        again, and is not queued. */
    method Wake(t: nat) returns (ok: bool)
      requires Valid() && t < |threads|
      modifies `threads, `queues
      ensures Valid() && ok == (old(threads)[t].stat == Suspended)
      ensures !ok ==> unchanged(`threads, `queues)
      ensures ok ==> threads == old(threads)[t := old(threads)[t].(stat := if old(threads)[t].oncpu.Some? then Running else Ready)]
      ensures ok ==> InsertedLists(old(threads)[t], t, old(queues), queues)
    {
      if threads[t].stat != Suspended { return false; }
      Insert(t);
      ok := true;
    }

    /** `rt_thread_suspend_to_list` of the current thread of core `c`, which keeps the core for now. */
    method Suspend(c: nat) returns (ok: bool)
      requires Valid() && c < |cur|
      modifies `threads, `queues, `idle
      ensures Valid() && |threads| == |old(threads)| && cur[c] < |threads| && ok == (old(threads)[cur[c]].stat == Running)
      ensures !ok ==> unchanged(`threads, `queues, `idle)
      ensures ok ==> idle == Others(old(idle), cur[c])
      ensures ok ==> threads == old(threads)[cur[c] := old(threads)[cur[c]].(stat := Suspended, yielding := false)]
    {
      assert CoreOk(threads, cur, c) && ThreadOk(threads[cur[c]], cur[c], cur, levels);
      var t := cur[c];
      if threads[t].stat != Ready && threads[t].stat != Running { return false; }
      Remove(t);
      ok := true;
    }

    /** `rt_sched_thread_yield` of the current thread of core `c`. */
    method Yield(c: nat)
      requires Valid() && c < |cur|
      modifies `threads
      ensures Valid() && cur[c] < |old(threads)| && threads == old(threads)[cur[c] := old(threads)[cur[c]].(yielding := true)]
    {
      assert CoreOk(threads, cur, c) && ThreadOk(threads[cur[c]], cur[c], cur, levels);
      IdlesKept(threads, cur, idle, cur[c], threads[cur[c]].(yielding := true));
      Put(cur[c], threads[cur[c]].(yielding := true));
    }

    /** `rt_sched_thread_change_priority`. */
    method ChangePriority(t: nat, prio: nat)
      requires Valid() && t < |threads| && prio < levels
      modifies `threads, `queues
      ensures Valid() && |threads| == |old(threads)| && threads == old(threads)[t := threads[t]]
      ensures threads[t] == old(threads)[t].(prio := prio, yielding := old(threads)[t].yielding && old(threads)[t].stat != Ready)
      ensures RelinkedLists(old(threads)[t], threads[t], t, old(queues), queues)
    {
      assert ThreadOk(threads[t], t, cur, levels);
      ghost var ths, y := threads, threads[t].yielding && threads[t].stat != Ready;
      IdlesKept(ths, cur, idle, t, ths[t].(prio := prio, yielding := y));
      Relink(t, threads[t].(prio := prio));
    }

    /** `rt_sched_thread_bind_cpu`: a ready thread changes its queue. */
    method Bind(t: nat, cpu: nat)
      requires Valid() && t < |threads|
      modifies `threads, `queues, `idle
      ensures Valid() && |threads| == |old(threads)| && threads == old(threads)[t := threads[t]]
      ensures threads[t] == old(threads)[t].(bind := if cpu >= |cur| then |cur| else cpu,
                                             yielding := old(threads)[t].yielding && old(threads)[t].stat != Ready)
      ensures idle == if threads[t].bind == old(threads)[t].bind then old(idle) else Others(old(idle), t)
      ensures RelinkedLists(old(threads)[t], threads[t], t, old(queues), queues)
    {
      assert ThreadOk(threads[t], t, cur, levels);
      var to := if cpu >= |cur| then |cur| else cpu;
      ghost var ths, x := threads, threads[t].(bind := to, yielding := threads[t].yielding && threads[t].stat != Ready);
      if to == threads[t].bind {
        IdlesKept(ths, cur, idle, t, x);
      } else {
        OthersKept(ths, cur, idle, t, x);
        idle := Others(idle, t);
      }
      Relink(t, threads[t].(bind := to));
    }

    /** Thread `t` gets another binding or priority; a ready one changes its list. */
    method Relink(t: nat, x: Thread)
      requires Core() && t < |threads| && x == threads[t].(bind := x.bind, prio := x.prio) && x.bind <= |cur| && x.prio < levels
      modifies `threads, `queues
      ensures Core() && |queues| == |old(queues)|
      ensures threads == old(threads)[t := x.(yielding := x.yielding && x.stat != Ready)]
      ensures RelinkedLists(old(threads)[t], x, t, old(queues), queues)
    {
      ghost var ths := threads;
      assert ThreadOk(threads[t], t, cur, levels);
      if threads[t].stat == Ready {
        Unlink(t);
        Put(t, x.(stat := Init, yielding := false));
        Link(t);
        assert threads == ths[t := x.(yielding := false)];
      } else {
        Put(t, x);
      }
    }

    /** A thread that is bound to core `c` and ready, or runs there, counts as its idle thread from now on. */
    ghost method Adopt(c: nat, u: nat)
      requires Valid() && IdleAt(threads, cur, c, u)
      modifies `idle
      ensures Valid() && idle == old(idle)[c := u]
    {
      idle := idle[c := u];
    }

    /** The idle thread `u` of core `c` is bound to it and started. */
    method StartIdle(c: nat, u: nat)
      requires Valid() && c < |cur| && u < |threads| && threads[u].stat == Init
      modifies `threads, `queues, `idle
      ensures Valid() && idle == old(idle)[c := u] && |threads| == |old(threads)| && threads == old(threads)[u := threads[u]]
    {
      NotIdle(threads, cur, idle, u);
      assert Others(idle, u) == idle;
      assert ThreadOk(threads[u], u, cur, levels);
      Bind(u, c);
      Startup(u);
      var ok := Wake(u);
      Adopt(c, u);
    }

    /** `rt_thread_idle_init`: every core gets its idle thread. */
    method IdleInit(us: seq<nat>)
      requires Valid() && |us| == |cur| && NoDup(us) && forall c :: 0 <= c < |us| ==> us[c] < |threads| && threads[us[c]].stat == Init
      modifies `threads, `queues, `idle
      ensures Valid() && |threads| == |old(threads)| && forall c :: 0 <= c < |cur| ==> c in idle && idle[c] == us[c]
    {
      for c := 0 to |us|
        invariant Valid() && |threads| == |old(threads)|
        invariant forall d :: 0 <= d < c ==> d in idle && idle[d] == us[d]
        invariant forall d :: c <= d < |us| ==> us[d] < |threads| && threads[us[d]].stat == Init
      {
        StartIdle(c, us[c]);
      }
    }

    /** The most urgent ready thread that may run on core `c`, and its priority. */
    method Pick(c: nat) returns (to: Option<nat>, h: int)
      requires Core() && c < |cur|
      ensures FoundIn(queues, c, to, h)
      ensures to.None? <==> !ReadyFor(threads, c, |cur|)
      ensures to.Some? ==> to.value < |threads| && threads[to.value].stat == Ready && Eligible(threads[to.value], c, |cur|)
      ensures to.Some? ==> threads[to.value].prio == h && MostUrgent(threads, to.value, c, |cur|)
      ensures to.Some? ==> var l := ListAt(queues, threads[to.value].bind, threads[to.value].prio); l != [] && l[0] == to.value
    {
      AllCoherent(Slots(threads), queues, levels);
      var n := |cur|;
      forall t | 0 <= t < |threads| ensures threads[t].prio < levels { assert ThreadOk(threads[t], t, cur, levels); }
      SourceIs(threads, queues, levels, c);
      var q := queues[Source(queues, c)];
      h := Highest(q.bits);
      if queues[n].bits.group == 0 && queues[c].bits.group == 0 {
        return None, h;
      }
      to := Some(q.lists[h][0]);
      OnePlace(threads, cur, queues, levels, to.value, Source(queues, c), h);
    }

    /** `_prepare_context_switch_locked` on core `c`, and the switch it prepares. */
    method Reschedule(c: nat)
      requires Core() && c < |cur|
      modifies `threads, `queues, `cur
      ensures Core() && Rescheduled(old(threads), old(cur), old(queues), threads, cur, c)
      ensures cur[c] == old(cur)[c] ==> queues == old(queues)
      ensures cur[c] != old(cur)[c] ==> SwitchedLists(old(threads), old(queues), queues, old(cur)[c], cur[c])
      ensures MostUrgent(threads, cur[c], c, |cur|)
    {
      assert CoreOk(threads, cur, c) && ThreadOk(threads[cur[c]], cur[c], cur, levels);
      var to, h := Pick(c);
      if to == None { return; }
      var from := cur[c];
      if KeepsCore(threads[from], c, |cur|, h) {
        Put(from, threads[from].(yielding := false));
        return;
      }
      SwitchIs(threads, cur, queues, c, to.value, h);
      SwitchTo(c, to.value);
    }

    /** `rt_schedule` on core `c`; nothing while scheduling is locked out. Afterwards the current thread runs and may run
        there if and only if it did before or a ready thread may, so it always does once the core has its idle thread. */
    method Schedule(c: nat, locked: bool)
      requires Valid() && c < |cur|
      modifies `threads, `queues, `cur
      ensures Valid()
      ensures locked ==> unchanged(`threads, `queues, `cur)
      ensures !locked ==> Rescheduled(old(threads), old(cur), old(queues), threads, cur, c)
      ensures !locked && cur[c] == old(cur)[c] ==> queues == old(queues)
      ensures !locked && cur[c] != old(cur)[c] ==> SwitchedLists(old(threads), old(queues), queues, old(cur)[c], cur[c])
      ensures !locked ==> |cur| == |old(cur)| && old(cur)[c] < |old(threads)| && Chosen(old(threads), old(cur)[c], c, |cur|, cur[c])
      ensures !locked ==> MostUrgent(threads, cur[c], c, |cur|)
      ensures !locked && c in idle ==> RunsOn(threads[cur[c]], c, |cur|)
    {
      if locked { return; }
      ghost var ths, was, qs := threads, cur, queues;
      assert CoreOk(threads, cur, c);
      ChosenIs(ths, was, qs, levels, c);
      Reschedule(c);
      RescheduleKeepsIdles(ths, was, qs, threads, cur, c, idle);
    }

    /** The switch itself: the thread that is left goes to the queue of its binding if it can run on. */
    method SwitchTo(c: nat, to: nat)
      requires Core() && c < |cur| && to < |threads| && to != cur[c] && threads[to].stat == Ready && cur[c] < |threads|
      requires ListAt(queues, threads[to].bind, threads[to].prio) != [] && ListAt(queues, threads[to].bind, threads[to].prio)[0] == to
      requires var x, y := threads[cur[c]], threads[to]; x.stat == Running && x.prio == y.prio && x.bind == y.bind ==> x.yielding
      modifies `threads, `queues, `cur
      ensures Core() && cur == old(cur)[c := to] && threads == Switched(old(threads), c, old(cur)[c], to)
      ensures SwitchedLists(old(threads), old(queues), queues, old(cur)[c], to)
    {
      var from := cur[c];
      ghost var ths, qs := threads, queues;
      AllCoherent(Slots(threads), queues, levels);
      assert CoreOk(threads, cur, c) && ThreadOk(threads[from], from, cur, levels) && ThreadOk(threads[to], to, cur, levels);
      SwitchedPlaced(threads, cur, levels, c, to);
      var x := threads[from].(oncpu := None);
      if x.stat == Running {
        x := x.(stat := Ready);
        EnqueueAll(Slots(threads), queues, levels, x.bind, x.prio, from, x.yielding);
        queues := queues[x.bind := Enqueue(queues[x.bind], x.prio, from, x.yielding)];
        x := x.(yielding := false);
      }
      SlotsSet(threads, from, x);
      threads := threads[from := x];
      var y := threads[to];
      DequeueAll(Slots(threads), queues, levels, y.bind, y.prio, to);
      SwitchPlaces(ths, qs, queues, levels, from, to);
      SlotsSet(threads, to, y.(stat := Running, oncpu := Some(c)));
      queues := queues[y.bind := Dequeue(queues[y.bind], y.prio, to)];
      threads := threads[to := y.(stat := Running, oncpu := Some(c))];
      cur := cur[c := to];
      assert threads == Switched(ths, c, from, to);
    }

    // ----- turns -----

    /** The current thread of core `c` runs and may run there, and nobody ready who may is more urgent. */
    ghost predicate Serving(c: nat)
      reads this
    {
      Valid() && c < |cur| && cur[c] < |threads| && RunsOn(threads[cur[c]], c, |cur|) && MostUrgent(threads, cur[c], c, |cur|)
    }

    lemma Members(b: nat, p: nat)
      requires Core() && b < |queues| && p < levels
      ensures forall t :: t in ListAt(queues, b, p) ==> t < |threads| && threads[t].stat == Ready && threads[t].bind == b && threads[t].prio == p
    {
      assert QueueAt(Slots(threads), queues, levels, b) && ListOk(Slots(threads), b, queues[b], p);
      forall t | t in ListAt(queues, b, p) ensures t < |threads| && threads[t].stat == Ready && threads[t].bind == b && threads[t].prio == p {
        assert Slots(threads)[t] == SlotOf(threads[t]);
      }
    }

    /** `rt_thread_yield` of the current thread of core `c`. */
    method YieldTurn(c: nat)
      requires Serving(c)
      modifies `threads, `queues, `cur
      ensures Serving(c) && |cur| == |old(cur)| && View(threads, cur, queues, c) == Round(old(View(threads, cur, queues, c)))
    {
      Yield(c);
      ghost var ths, qs, was := threads, queues, cur;
      TakesFrom(ths, was, qs, levels, c, was[c]);
      Members(c, threads[cur[c]].prio);
      Members(|cur|, threads[cur[c]].prio);
      assert ThreadOk(threads[cur[c]], cur[c], cur, levels);
      Schedule(c, false);
      TurnIs(ths, was, qs, threads, cur, queues, c);
    }

    lemma ViewDistinct(c: nat)
      requires Serving(c)
      ensures Distinct(View(threads, cur, queues, c))
    {
      var v, p := View(threads, cur, queues, c), threads[cur[c]].prio;
      assert ThreadOk(threads[cur[c]], cur[c], cur, levels);
      Members(c, p);
      Members(|cur|, p);
      assert QueueAt(Slots(threads), queues, levels, c) && ListOk(Slots(threads), c, queues[c], p);
      assert QueueAt(Slots(threads), queues, levels, |cur|) && ListOk(Slots(threads), |cur|, queues[|cur|], p);
      AllDiffer(v);
    }

    /** Only yields on core `c`, `n` of them: who runs. */
    method Yields(c: nat, n: nat) returns (ran: seq<nat>)
      requires Serving(c)
      modifies `threads, `queues, `cur
      ensures Serving(c) && |ran| == n && forall i :: 0 <= i < n ==> ran[i] == Rounds(old(View(threads, cur, queues, c)), i + 1).cur
    {
      ghost var v := View(threads, cur, queues, c);
      ran := [];
      for i := 0 to n
        invariant Serving(c) && |ran| == i && View(threads, cur, queues, c) == Rounds(v, i)
        invariant forall j :: 0 <= j < i ==> ran[j] == Rounds(v, j + 1).cur
      {
        OneMore(v, i);
        YieldTurn(c);
        ran := ran + [cur[c]];
      }
    }

    /** Every waiting thread has its turn when none waits in the shared queue or at most one belongs to the core's own;
        otherwise no thread of the shared queue ever has. */
    method YieldTurns(c: nat, n: nat) returns (ran: seq<nat>)
      requires Serving(c)
      modifies `threads, `queues, `cur
      ensures Serving(c) && |ran| == n && forall i :: 0 <= i < n ==> ran[i] == Rounds(old(View(threads, cur, queues, c)), i + 1).cur
      ensures var v := old(View(threads, cur, queues, c));
              && ((v.shared == [] || Owned(v) <= 1) && n >= 2 * (|v.local| + |v.shared|) ==> forall t :: t in v.local + v.shared ==> t in ran)
              && (Owned(v) >= 2 ==> forall t :: t in v.shared ==> t !in ran)
    {
      ghost var v := View(threads, cur, queues, c);
      ViewDistinct(c);
      ran := Yields(c, n);
      RanIs(v, ran);
    }
  }
}
