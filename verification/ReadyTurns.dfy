/** Who runs when the threads of the highest priority only yield to each other. */
module ReadyTurns {
  import opened Lists

  /** The thread on a core, whether it belongs to the core's own queue, and the other threads of its priority: those of the
      core's own queue and those of the shared one. */
  datatype Turns = Turns(cur: nat, own: bool, local: seq<nat>, shared: seq<nat>)

  /** The thread on the core yields: the first of the own queue runs, or else the first of the shared one, and the thread
      that yields goes to the end of its queue. */
  function Round(s: Turns): Turns
  {
    var l, g := if s.own then s.local + [s.cur] else s.local, if s.own then s.shared else s.shared + [s.cur];
    if s.local != [] then Turns(s.local[0], true, l[1..], g)
    else if s.shared != [] then Turns(s.shared[0], false, l, g[1..])
    else s
  }

  function Rounds(s: Turns, n: nat): Turns
    decreases n
  {
    if n == 0 then s else Rounds(Round(s), n - 1)
  }

  lemma {:induction false} OneMore(s: Turns, n: nat)
    ensures Rounds(s, n + 1) == Round(Rounds(s, n))
    decreases n
  {
    if n > 0 {
      OneMore(Round(s), n - 1);
    }
  }

  /** The threads of the own queue run in its order, one round each. */
  lemma {:induction false} LocalTurn(s: Turns, i: nat)
    requires i < |s.local|
    ensures Rounds(s, i + 1).cur == s.local[i]
    decreases i
  {
    var s1 := Round(s);
    if i == 0 {
      assert Rounds(s1, 0) == s1;
    } else {
      assert s1.local[i - 1] == s.local[i];
      LocalTurn(s1, i - 1);
    }
  }

  /** With no thread of the own queue, the threads of the shared one run in its order, one round each. */
  lemma {:induction false} SharedTurn(s: Turns, i: nat)
    requires s.local == [] && !s.own && i < |s.shared|
    ensures Rounds(s, i + 1).cur == s.shared[i]
    decreases i
  {
    var s1 := Round(s);
    if i == 0 {
      assert Rounds(s1, 0) == s1;
    } else {
      assert s1.shared[i - 1] == s.shared[i];
      SharedTurn(s1, i - 1);
    }
  }

  /** How many threads belong to the own queue. */
  function Owned(s: Turns): nat
  {
    |s.local| + if s.own then 1 else 0
  }

  /** With one thread of the own queue, it runs every other round, and the shared ones in between, in order. */
  lemma {:induction false} AlternateTurn(s: Turns, i: nat)
    requires Owned(s) == 1 && i < |s.shared|
    ensures Rounds(s, 2 * i + if s.own then 1 else 2).cur == s.shared[i]
    decreases i, if s.own then 0 else 1
  {
    var s1 := Round(s);
    if s.own {
      if i == 0 {
        assert Rounds(s1, 0) == s1;
      } else {
        assert s1.shared[i - 1] == s.shared[i];
        AlternateTurn(s1, i - 1);
      }
    } else {
      assert s1.shared[i] == s.shared[i];
      AlternateTurn(s1, i);
    }
  }

  ghost predicate Waits(s: Turns, t: nat)
  {
    t in s.shared && t !in s.local && t != s.cur
  }

  /** With two threads of the own queue, no thread of the shared one ever runs. */
  lemma {:induction false} SharedStarves(s: Turns, t: nat, n: nat)
    requires Owned(s) >= 2 && Waits(s, t)
    ensures Rounds(s, n).cur != t
    decreases n
  {
    if n > 0 {
      SharedStarves(Round(s), t, n - 1);
    }
  }

  ghost predicate RunsWithin(s: Turns, t: nat, n: nat)
  {
    exists i :: 0 < i <= n && Rounds(s, i).cur == t
  }

  /** Every thread is queued once. */
  ghost predicate Distinct(s: Turns)
  {
    NoDup([s.cur] + s.local + s.shared)
  }

  lemma SharedWaits(s: Turns, t: nat)
    requires Distinct(s) && t in s.shared
    ensures Waits(s, t)
  {
    var all := [s.cur] + s.local + s.shared;
    var k :| 0 <= k < |s.shared| && s.shared[k] == t;
    assert all[1 + |s.local| + k] == t && all[0] == s.cur;
    forall i | 0 <= i < |s.local| ensures s.local[i] != t { assert all[1 + i] == s.local[i]; }
  }

  /** With one queue, every waiting thread runs within as many rounds as threads wait. */
  lemma OneQueueFair(s: Turns, t: nat)
    requires s.shared == [] || Owned(s) == 0
    requires t in s.local + s.shared
    ensures RunsWithin(s, t, |s.local| + |s.shared|)
  {
    if t in s.local {
      var i := IndexOf(s.local, t);
      LocalTurn(s, i);
    } else {
      var i := IndexOf(s.shared, t);
      SharedTurn(s, i);
    }
  }

  /** With two queues, every waiting thread gets its turn, and then within twice as many rounds as threads wait, if and only
      if none waits in the shared queue or at most one belongs to the core's own. */
  lemma FairIff(s: Turns)
    requires Distinct(s)
    ensures (forall t :: t in s.local + s.shared ==> RunsWithin(s, t, 2 * (|s.local| + |s.shared|))) <==> s.shared == [] || Owned(s) <= 1
    ensures (forall t :: t in s.local + s.shared ==> exists n :: RunsWithin(s, t, n)) <==> s.shared == [] || Owned(s) <= 1
  {
    if s.shared == [] || Owned(s) <= 1 {
      forall t | t in s.local + s.shared ensures RunsWithin(s, t, 2 * (|s.local| + |s.shared|)) {
        TurnComes(s, t);
      }
    } else {
      var t := s.shared[0];
      SharedWaits(s, t);
      assert t in s.local + s.shared;
      forall n: nat ensures !RunsWithin(s, t, n) {
        forall i: nat ensures Rounds(s, i).cur != t { SharedStarves(s, t, i); }
      }
    }
  }

  lemma TurnComes(s: Turns, t: nat)
    requires t in s.local + s.shared && (s.shared == [] || Owned(s) <= 1)
    ensures RunsWithin(s, t, 2 * (|s.local| + |s.shared|))
  {
    if t in s.local {
      LocalTurn(s, IndexOf(s.local, t));
    } else if Owned(s) == 0 {
      SharedTurn(s, IndexOf(s.shared, t));
    } else {
      AlternateTurn(s, IndexOf(s.shared, t));
    }
  }

  /** Threads 0 and 1 are bound to a core, thread 2 is not, and all have one priority: however often 0 and 1 yield, 2 never
      has the core. */
  lemma TwoBoundStarve(n: nat)
    ensures Rounds(Turns(0, true, [1], [2]), n).cur != 2
  {
    SharedStarves(Turns(0, true, [1], [2]), 2, n);
  }
}
