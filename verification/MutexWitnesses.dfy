/** Two runs from the initial state in which a thread ends up with a priority it does not claim. */
module MutexWitnesses {
  import opened Lists
  import opened MutexModel
  import opened MutexPropagation
  import opened MutexLoopInvariants
  import opened MutexSteps
  import opened MutexRuns

  const FF: Prio := NO_PRIO

  function Ready(p: Prio, taken: seq<nat>): Thread
  {
    Thread(p, false, None, taken)
  }

  function Waits(p: Prio, m: nat, taken: seq<nat>): Thread
  {
    Thread(p, true, Some(m), taken)
  }

  function Missed(p: Prio, m: nat, taken: seq<nat>): Thread
  {
    Thread(p, false, Some(m), taken)
  }

  function Held(t: nat): Mutex
  {
    Mutex(Some(t), 1, FF)
  }

  const FREE: Mutex := Mutex(None, 0, FF)

  function Of(ts: seq<Thread>, ms: seq<Mutex>, cur: seq<Prio>, field: seq<Prio>, waiters: seq<seq<nat>>): State
  {
    State(32, Graph(ts, ms), Queues(cur, field, waiters))
  }

  lemma OneClaim(g: Graph, field: seq<Prio>, t: nat, m: nat)
    requires Refs(g) && |field| == |g.ms| && t < |g.ts| && m < |g.ms| && g.ts[t].taken == [m]
    ensures Inherited(g, field, t) == Min(g.ts[t].init, Min(g.ms[m].ceiling, field[m]))
  {
    var p := Min(g.ts[t].init, Min(g.ms[m].ceiling, field[m]));
    assert MinField(g.ms, field, [m][1..], p) == p;
  }

  // ----- a clean-up that comes late -----

  /** Thread 0 has priority 20, thread 1 priority 5, thread 2 priority 3. */
  function Boost0(): State { Of([Ready(20, []), Ready(5, []), Ready(3, [])], [FREE, FREE], [20, 5, 3], [FF, FF], [[], []]) }

  /** Threads 0 and 1 have taken mutexes 0 and 1. */
  function Boost1(): State { Of([Ready(20, [0]), Ready(5, []), Ready(3, [])], [Held(0), FREE], [20, 5, 3], [FF, FF], [[], []]) }
  function Boost2(): State { Of([Ready(20, [0]), Ready(5, [1]), Ready(3, [])], [Held(0), Held(1)], [20, 5, 3], [FF, FF], [[], []]) }

  /** Thread 1 waits for mutex 0, and thread 2 for mutex 1: all inherit priority 3. */
  function Boost3(): State { Of([Ready(20, [0]), Waits(5, 0, [1]), Ready(3, [])], [Held(0), Held(1)], [5, 5, 3], [5, FF], [[1], []]) }
  function Boost4(): State { Of([Ready(20, [0]), Waits(5, 0, [1]), Waits(3, 1, [])], [Held(0), Held(1)], [3, 3, 3], [3, 3], [[1], [2]]) }

  /** Thread 1 times out; thread 2 times out and cleans up, so thread 1 is back at priority 5. */
  function Boost5(): State { Of([Ready(20, [0]), Missed(5, 0, [1]), Waits(3, 1, [])], [Held(0), Held(1)], [3, 3, 3], [3, 3], [[], [2]]) }
  function Boost6(): State { Of([Ready(20, [0]), Missed(5, 0, [1]), Ready(3, [])], [Held(0), Held(1)], [3, 5, 3], [3, FF], [[], []]) }

  /** Thread 1 cleans up and compares 3 with 5; thread 0 releases and compares 3 with 0xFF. */
  function Boost7(): State { Of([Ready(20, [0]), Ready(5, [1]), Ready(3, [])], [Held(0), Held(1)], [3, 5, 3], [FF, FF], [[], []]) }
  function Boost8(): State { Of([Ready(20, []), Ready(5, [1]), Ready(3, [])], [FREE, Held(1)], [3, 5, 3], [FF, FF], [[], []]) }

  lemma Boost01()
    requires Valid(Boost0())
    ensures Leads(Boost0(), TakeOp(0, 0, true), Boost1())
  {
    var s, s' := Boost0(), TakeFree(Boost0(), 0, 0);
    TakeFreeIs(s, 0, 0);
    assert [0] + [] == [0];
    assert s'.g == Boost1().g;
    assert s'.q == Boost1().q;
  }

  lemma Boost12()
    requires Valid(Boost1())
    ensures Leads(Boost1(), TakeOp(1, 1, true), Boost2())
  {
    var s, s' := Boost1(), TakeFree(Boost1(), 1, 1);
    TakeFreeIs(s, 1, 1);
    assert [1] + [] == [1];
    assert s'.g == Boost2().g;
    assert s'.q == Boost2().q;
  }

  lemma Boost23()
    requires Valid(Boost2())
    ensures Leads(Boost2(), TakeOp(1, 0, true), Boost3())
  {
    var s := Boost2();
    TakeBlockIs(s, 1, 0);
    UpdateIdle(Suspend(s, 1, 0).g, BlockQueues(s, 1, 0), 0, 5);
  }

  /** One turn of the propagation loop, at a blocked thread `t` alone on the list of `m`, ending at its owner. */
  lemma OneTurn(g: Graph, q: Queues, t: nat, m: nat, o: nat, p: Prio, q1: Queues)
    requires Sized(g, q) && t < |g.ts| && Blocked(g.ts[t]) && g.ts[t].pending == Some(m) && OwnerOf(g, t) == o && !Blocked(g.ts[o])
    requires q.waiters[m] == [t] && q1 == Queues(q.cur[t := p], q.field[m := p], q.waiters)
    requires Inherited(g, q1.field, o) != q1.cur[o]
    ensures UpdatePriority(g, q, t, p) == SetCur(q1, o, Inherited(g, q1.field, o))
  {
    var q0, i := SetCur(q, t, p), Inherited(g, q1.field, o);
    assert Without([t], t) == [];
    assert q.waiters[m := [t]] == q.waiters;
    assert Requeue(q0, t, m) == q1;
    IdleRounds(g, SetCur(q1, o, i), o, Enough(g) - 1);
    assert Rounds(g, q0, Some(t), Enough(g)) == Rounds(g, SetCur(q1, o, i), Some(o), Enough(g) - 1);
  }

  lemma Boost34Chain(g: Graph, q: Queues, q1: Queues)
    requires g == Boost4().g && Sized(g, q) && q == Queues([5, 5, 3], [5, 3], [[1], [2]]) && q1 == Queues([5, 3, 3], [3, 3], [[1], [2]])
    ensures UpdatePriority(g, q, 1, 3) == Boost4().q
  {
    OneClaim(g, q1.field, 0, 0);
    OneTurn(g, q, 1, 0, 0, 3, q1);
  }

  lemma Boost34()
    requires Valid(Boost3())
    ensures Leads(Boost3(), TakeOp(2, 1, true), Boost4())
  {
    var s := Boost3();
    TakeBlockIs(s, 2, 1);
    var g, q := Suspend(s, 2, 1).g, BlockQueues(s, 2, 1);
    assert g == Boost4().g;
    assert q == Queues([5, 5, 3], [5, 3], [[1], [2]]);
    Boost34Chain(g, q, Queues([5, 3, 3], [3, 3], [[1], [2]]));
  }

  lemma Boost45()
    requires Valid(Boost4())
    ensures Leads(Boost4(), ExpireOp(1), Boost5())
  {
    assert Without([1], 1) == [];
  }

  function Expired(): State { Of([Ready(20, [0]), Missed(5, 0, [1]), Missed(3, 1, [])], [Held(0), Held(1)], [3, 3, 3], [3, 3], [[], []]) }

  lemma Boost56Cleans()
    requires Valid(Expired())
    ensures CleanUp(Expired(), 2) == Boost6()
  {
    var s, q := Expired(), CleanQueues(Expired(), 2);
    OneClaim(s.g, q.field, 1, 1);
    UpdateIdle(s.g, q, 1, 5);
  }

  lemma Boost56()
    requires Valid(Boost5())
    ensures Leads(Boost5(), TimeOutOp(2), Boost6())
  {
    var s := Boost5();
    assert Without([2], 2) == [];
    ExpireWF(s, 2);
    assert Expire(s, 2) == Expired();
    Boost56Cleans();
  }

  lemma Boost67()
    requires Valid(Boost6())
    ensures Leads(Boost6(), CleanUpOp(1), Boost7())
  {
  }

  lemma Boost78()
    requires Valid(Boost7())
    ensures Leads(Boost7(), ReleaseOp(0, 0), Boost8())
  {
    assert Without([0], 0) == [];
  }

  ghost predicate Reachable(s: State)
  {
    exists ss, ops :: Run(ss, ops) && ss[|ss| - 1] == s
  }

  lemma ReachableStart(s: State)
    requires Initial(s)
    ensures Reachable(s) && Valid(s)
  {
    assert Run([s], []);
    InitialExact(s);
  }

  lemma RunMore(ss: seq<State>, ops: seq<Op>, op: Op, s': State)
    requires Run(ss, ops) && Leads(ss[|ss| - 1], op, s')
    ensures Run(ss + [s'], ops + [op])
  {
    var ss', ops' := ss + [s'], ops + [op];
    forall i | 0 <= i < |ops'| ensures StepAt(ss', ops', i) {
      assert i < |ops| ==> StepAt(ss, ops, i);
    }
  }

  lemma ReachableNext(s: State, op: Op, s': State)
    requires Reachable(s) && Leads(s, op, s')
    ensures Reachable(s') && Valid(s')
  {
    var ss, ops :| Run(ss, ops) && ss[|ss| - 1] == s;
    RunCovered(ss, ops, |ss| - 1);
    StepCovered(s, op);
    RunMore(ss, ops, op, s');
  }

  lemma ReachBoost6()
    ensures Reachable(Boost6()) && Valid(Boost6())
  {
    ReachableStart(Boost0());
    Boost01();
    ReachableNext(Boost0(), TakeOp(0, 0, true), Boost1());
    Boost12();
    ReachableNext(Boost1(), TakeOp(1, 1, true), Boost2());
    Boost23();
    ReachableNext(Boost2(), TakeOp(1, 0, true), Boost3());
    Boost34();
    ReachableNext(Boost3(), TakeOp(2, 1, true), Boost4());
    Boost45();
    ReachableNext(Boost4(), ExpireOp(1), Boost5());
    Boost56();
    ReachableNext(Boost5(), TimeOutOp(2), Boost6());
  }

  lemma Boost6Claims()
    requires Valid(Boost6())
    ensures ClaimsBut(Boost6().g, Boost6().q, None)
  {
    var s := Boost6();
    OneClaim(s.g, s.q.field, 0, 0);
    OneClaim(s.g, s.q.field, 1, 1);
  }

  lemma Boost6Heads()
    requires Valid(Boost6())
    ensures HeadsBut(Boost6().q, LateSet(Boost6().g), None)
  {
    var s := Boost6();
    assert LateOn(s.g.ts[1]) == Some(0);
    assert Late(s.g, 0);
  }

  lemma Boost6Settled()
    requires Valid(Boost6())
    ensures Settled(Boost6())
  {
    Boost6Claims();
    Boost6Heads();
  }

  /** A run without ceilings and without hand-offs: up to the clean-up of thread 1 everybody has
      the priority it claims; then thread 0 runs at priority 3 while it claims 20, and still does
      when it has released its mutex and holds nothing. */
  lemma LateCleanUpKeepsBoost()
    ensures Reachable(Boost6()) && Settled(Boost6()) && !CleanUpFits(Boost6(), 1)
    ensures Leads(Boost6(), CleanUpOp(1), Boost7()) && !Settled(Boost7())
    ensures Leads(Boost7(), ReleaseOp(0, 0), Boost8())
    ensures Boost8().g.ts[0] == Ready(20, []) && Boost8().q.cur[0] == 3
  {
    ReachBoost6();
    Boost6Settled();
    Boost67();
    ReachableNext(Boost6(), CleanUpOp(1), Boost7());
    Boost78();
    StepSettledIff(Boost6(), CleanUpOp(1));
    OneClaim(Boost7().g, Boost7().q.field, 0, 0);
    assert !CurOk(Boost7().g, Boost7().q, 0);
  }

  // ----- a hand-off that ignores a ceiling -----

  /** Thread 0 has priority 10, thread 1 priority 20; the mutex gets the ceiling 5. */
  function Pass0(): State { Of([Ready(10, []), Ready(20, [])], [FREE], [10, 20], [FF], [[]]) }
  function Pass1(): State { Of([Ready(10, []), Ready(20, [])], [Mutex(None, 0, 5)], [10, 20], [FF], [[]]) }

  /** Thread 0 takes it and is raised to 5; thread 1 waits; thread 0 hands it over. */
  function Pass2(): State { Of([Ready(10, [0]), Ready(20, [])], [Mutex(Some(0), 1, 5)], [5, 20], [FF], [[]]) }
  function Pass3(): State { Of([Ready(10, [0]), Waits(20, 0, [])], [Mutex(Some(0), 1, 5)], [5, 20], [20], [[1]]) }
  function Pass4(): State { Of([Ready(10, []), Ready(20, [0])], [Mutex(Some(1), 1, 5)], [10, 20], [FF], [[]]) }

  lemma Pass01()
    requires Valid(Pass0())
    ensures Leads(Pass0(), CeilingOp(0, 5), Pass1())
  {
  }

  lemma Pass12()
    requires Valid(Pass1())
    ensures Leads(Pass1(), TakeOp(0, 0, true), Pass2())
  {
    var s, s' := Pass1(), TakeFree(Pass1(), 0, 0);
    TakeFreeIs(s, 0, 0);
    assert [0] + [] == [0];
    assert s'.g == Pass2().g;
    assert s'.q == Pass2().q;
  }

  lemma Pass23()
    requires Valid(Pass2())
    ensures Leads(Pass2(), TakeOp(1, 0, true), Pass3())
  {
    TakeBlockIs(Pass2(), 1, 0);
  }

  lemma Pass34()
    requires Valid(Pass3())
    ensures Leads(Pass3(), ReleaseOp(0, 0), Pass4())
  {
    var s := Pass3();
    assert Without([0], 0) == [];
    assert MinField(s.g.ms, s.q.field, [], 10) == 10;
    assert [0] + [] == [0] && [1][1..] == [];
  }

  lemma ReachPass3()
    ensures Reachable(Pass3()) && Valid(Pass3())
  {
    ReachableStart(Pass0());
    Pass01();
    ReachableNext(Pass0(), CeilingOp(0, 5), Pass1());
    Pass12();
    ReachableNext(Pass1(), TakeOp(0, 0, true), Pass2());
    Pass23();
    ReachableNext(Pass2(), TakeOp(1, 0, true), Pass3());
  }

  /** A run in which a hand-off leaves the new owner at priority 20 with a mutex of ceiling 5. */
  lemma HandOffIgnoresCeiling()
    ensures Reachable(Pass3()) && Leads(Pass3(), ReleaseOp(0, 0), Pass4())
    ensures !HandOffFits(Pass3(), ReleaseOp(0, 0)) && !Settled(Pass4())
  {
    ReachPass3();
    Pass34();
    ReachableNext(Pass3(), ReleaseOp(0, 0), Pass4());
    OneClaim(Pass4().g, Pass4().q.field, 1, 0);
    assert !CurOk(Pass4().g, Pass4().q, 1);
  }
}
