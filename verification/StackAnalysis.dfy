/** The memoised, recursive search for worst-case stacks. */
module StackAnalysis {
  import opened Lists
  import opened StackModel
  import opened StackMemo

  ghost predicate Unwritten(m: Memo, parents: seq<nat>, i: nat)
    requires i < |parents|
  {
    parents[i] < |m.wcs| && m.wcs[parents[i]] == None
  }

  /** The functions being computed have no entry yet. */
  ghost predicate Open(m: Memo, parents: seq<nat>)
  {
    forall i :: 0 <= i < |parents| ==> Unwritten(m, parents, i)
  }

  ghost predicate FreshAt(g: Graph, m: Memo, parents: seq<nat>, x: nat)
    requires x < |g| && Wide(m, |g|)
  {
    m.wcs[x] == None && x !in parents ==> m.unresolved[x] == g[x].unresolved
  }

  /** Functions not looked at yet have gathered nothing. */
  ghost predicate Fresh(g: Graph, m: Memo, parents: seq<nat>)
  {
    Wide(m, |g|) && forall x :: 0 <= x < |g| ==> FreshAt(g, m, parents, x)
  }

  /** What `parents` have gathered is untouched. */
  ghost predicate Waiting(m: Memo, m': Memo, parents: seq<nat>)
  {
    forall i :: 0 <= i < |parents| ==> WaitingAt(m, m', parents, i)
  }

  ghost predicate WaitingAt(m: Memo, m': Memo, parents: seq<nat>, i: nat)
    requires i < |parents|
  {
    parents[i] < |m.unresolved| == |m'.unresolved| && m'.unresolved[parents[i]] == m.unresolved[parents[i]]
  }

  /** A search for `f` on behalf of `parents` may start. */
  ghost predicate Ready(g: Graph, m: Memo, parents: seq<nat>, f: nat)
  {
    Sound(g, m) && Path(g, parents + [f]) && f < |g| && NoDup(parents) && Open(m, parents) && Fresh(g, m, parents)
  }

  /** What a search for `f` leaves behind; a bound means none of the callers was written. */
  ghost predicate Searched(g: Graph, m: Memo, m': Memo, parents: seq<nat>, f: nat)
  {
    && Sound(g, m') && Grown(m, m') && Fresh(g, m', parents) && Waiting(m, m', parents)
    && f < |g| && m'.wcs[f] != None
    && (Bounded(m', f) ==> Open(m', parents))
  }

  /** In the loop over the callees of `f`, the first `i` of which are bounded. */
  ghost predicate Inside(g: Graph, m: Memo, m': Memo, parents: seq<nat>, f: nat, i: nat)
  {
    && f < |g| && Sound(g, m') && Grown(m, m') && Waiting(m, m', parents)
    && Open(m', parents + [f]) && Fresh(g, m', parents + [f])
    && i <= |g[f].calls| && CalleesOk(m', g[f].calls[..i], m'.clock)
    && m'.unresolved[f] == g[f].unresolved + Gathered(m', g[f].calls[..i])
  }

  function Written(m: Memo, f: nat, w: Wcs): Memo
    requires f < |m.wcs|
  {
    m.(wcs := m.wcs[f := Some(w)])
  }

  /** Writing `unbounded`, for a good reason, ends a search. */
  lemma WroteUnbounded(g: Graph, m: Memo, m': Memo, parents: seq<nat>, f: nat)
    requires f < |g| && Sound(g, m') && Grown(m, m') && Waiting(m, m', parents) && Fresh(g, m', parents + [f])
    requires Unlimited(g, f) && (m'.wcs[f] == None || m'.wcs[f] == Some(Unbounded))
    ensures Searched(g, m, Written(m', f, Unbounded), parents, f)
  {
    var m2 := Written(m', f, Unbounded);
    if m'.wcs[f] == None {
      SoundWrite(g, m', m2, f);
      GrownTrans(m, m', m2);
    } else {
      assert m2 == m';
    }
    forall x | 0 <= x < |g| ensures FreshAt(g, m2, parents, x) {
      assert FreshAt(g, m', parents + [f], x);
    }
    forall i | 0 <= i < |parents| ensures WaitingAt(m, m2, parents, i) {
      assert WaitingAt(m, m', parents, i);
    }
  }

  lemma Already(g: Graph, m: Memo, parents: seq<nat>, f: nat)
    requires Ready(g, m, parents, f) && m.wcs[f] != None
    ensures Searched(g, m, m, parents, f)
  {
    forall i | 0 <= i < |parents| ensures WaitingAt(m, m, parents, i) {
      assert Unwritten(m, parents, i);
    }
  }

  lemma StillFresh(g: Graph, m: Memo, parents: seq<nat>, f: nat)
    requires Ready(g, m, parents, f)
    ensures Fresh(g, m, parents + [f]) && Waiting(m, m, parents)
  {
    forall x | 0 <= x < |g| ensures FreshAt(g, m, parents + [f], x) {
      assert FreshAt(g, m, parents, x);
    }
    forall i | 0 <= i < |parents| ensures WaitingAt(m, m, parents, i) {
      assert Unwritten(m, parents, i);
    }
  }

  lemma PointerUnlimited(g: Graph, m: Memo, parents: seq<nat>, f: nat)
    requires Ready(g, m, parents, f) && m.wcs[f] == None && g[f].pointer
    ensures Searched(g, m, Written(m, f, Unbounded), parents, f)
  {
    assert EntryOk(g, m, f);
    FromOne(g, f);
    assert Endless(g, [f]);
    StillFresh(g, m, parents, f);
    WroteUnbounded(g, m, m, parents, f);
  }

  lemma CycleUnlimited(g: Graph, m: Memo, parents: seq<nat>, f: nat)
    requires Ready(g, m, parents, f) && m.wcs[f] == None && f in parents
    ensures Searched(g, m, Written(m, f, Unbounded), parents, f)
  {
    UnlimitedCycle(g, parents, f);
    StillFresh(g, m, parents, f);
    WroteUnbounded(g, m, m, parents, f);
  }

  lemma Begun(g: Graph, m: Memo, parents: seq<nat>, f: nat)
    requires Ready(g, m, parents, f) && m.wcs[f] == None && f !in parents
    ensures Inside(g, m, m, parents, f, 0) && g[f].manual == None && |parents| < |g| && NoDup(parents + [f])
  {
    assert EntryOk(g, m, f);
    forall i | 0 <= i < |parents| ensures Unwritten(m, parents, i) && WaitingAt(m, m, parents, i) {
      assert Unwritten(m, parents, i);
    }
    forall i | 0 <= i <= |parents| ensures Unwritten(m, parents + [f], i) {
      assert i < |parents| ==> Unwritten(m, parents, i);
    }
    forall x | 0 <= x < |g| ensures FreshAt(g, m, parents + [f], x) {
      assert FreshAt(g, m, parents, x);
    }
    assert FreshAt(g, m, parents, f);
    NoDupSnoc(parents, f);
    Few(parents + [f], |g|);
  }

  lemma CallReady(g: Graph, m: Memo, m': Memo, parents: seq<nat>, f: nat, i: nat)
    requires Inside(g, m, m', parents, f, i) && i < |g[f].calls| && Path(g, parents + [f]) && NoDup(parents + [f]) && g[f].manual == None
    ensures Ready(g, m', parents + [f], g[f].calls[i])
  {
    var c, p := g[f].calls[i], parents + [f];
    assert c in Callees(g, f);
    var q := p + [c];
    forall k | 0 <= k < |q| - 1 ensures CallAt(g, q, k) {
      assert k < |p| - 1 ==> CallAt(g, p, k);
    }
  }

  lemma WaitingTrans(a: Memo, b: Memo, c: Memo, parents: seq<nat>, f: nat)
    requires Waiting(a, b, parents) && Waiting(b, c, parents + [f])
    ensures Waiting(a, c, parents)
  {
    forall i | 0 <= i < |parents| ensures WaitingAt(a, c, parents, i) {
      assert WaitingAt(a, b, parents, i) && WaitingAt(b, c, parents + [f], i);
    }
  }

  /** A callee without a bound. */
  lemma CalledUnbounded(g: Graph, m: Memo, m1: Memo, m2: Memo, parents: seq<nat>, f: nat, i: nat)
    requires Inside(g, m, m1, parents, f, i) && i < |g[f].calls| && g[f].manual == None
    requires Searched(g, m1, m2, parents + [f], g[f].calls[i]) && m2.wcs[g[f].calls[i]] == Some(Unbounded)
    ensures Searched(g, m, Written(m2, f, Unbounded), parents, f)
  {
    var c := g[f].calls[i];
    assert EntryOk(g, m2, c) && c in Callees(g, f);
    UnlimitedCaller(g, f, c);
    GrownTrans(m, m1, m2);
    WaitingTrans(m, m1, m2, parents, f);
    if Bounded(m2, f) {
      MemoRight(g, m2, f);
    }
    WroteUnbounded(g, m, m2, parents, f);
  }

  function Joined(m: Memo, f: nat, c: nat): Memo
    requires f < |m.unresolved| && c < |m.unresolved|
  {
    m.(unresolved := m.unresolved[f := m.unresolved[f] + m.unresolved[c]])
  }

  lemma JoinedSound(g: Graph, m: Memo, parents: seq<nat>, f: nat, c: nat)
    requires f < |g| && c < |g| && Sound(g, m) && m.wcs[f] == None && f !in parents && g[f].manual == None
    requires Open(m, parents + [f]) && Fresh(g, m, parents + [f])
    ensures var m' := Joined(m, f, c); Sound(g, m') && Grown(m, m') && Open(m', parents + [f]) && Fresh(g, m', parents + [f]) && Waiting(m, m', parents)
  {
    var m' := Joined(m, f, c);
    SoundWrite(g, m, m', f);
    forall i | 0 <= i <= |parents| ensures Unwritten(m', parents + [f], i) && (i < |parents| ==> WaitingAt(m, m', parents, i)) {
      assert Unwritten(m, parents + [f], i);
    }
    forall x | 0 <= x < |g| ensures FreshAt(g, m', parents + [f], x) {
      assert FreshAt(g, m, parents + [f], x);
    }
  }

  /** A bounded callee: its unresolved calls are gathered. */
  lemma CalledBounded(g: Graph, m: Memo, m1: Memo, m2: Memo, parents: seq<nat>, f: nat, i: nat)
    requires Inside(g, m, m1, parents, f, i) && i < |g[f].calls| && g[f].manual == None && f !in parents
    requires Searched(g, m1, m2, parents + [f], g[f].calls[i]) && Bounded(m2, g[f].calls[i])
    ensures Inside(g, m, Joined(m2, f, g[f].calls[i]), parents, f, i + 1)
    ensures Below(g[f].calls, |g|) && Peak(Joined(m2, f, g[f].calls[i]), g[f].calls[..i]) == Peak(m1, g[f].calls[..i])
  {
    var calls := g[f].calls;
    var c, m3, cs, cs' := calls[i], Joined(m2, f, calls[i]), calls[..i], calls[..i + 1];
    assert WaitingAt(m1, m2, parents + [f], |parents|) && Unwritten(m2, parents + [f], |parents|);
    JoinedSound(g, m2, parents, f, c);
    GrownTrans(m1, m2, m3);
    GrownTrans(m, m1, m3);
    WaitingTrans(m, m1, m2, parents, f);
    forall k | 0 <= k < |parents| ensures WaitingAt(m, m3, parents, k) {
      assert WaitingAt(m, m2, parents, k) && WaitingAt(m2, m3, parents, k);
    }
    CalleesKept(m1, m3, cs, m1.clock);
    assert EntryOk(g, m3, c);
    assert cs'[..i] == cs;
    forall k | 0 <= k <= i ensures CalleeOk(m3, cs', m3.clock, k) {
      assert k < i ==> CalleeOk(m3, cs, m1.clock, k);
    }
  }

  function Finished(m: Memo, f: nat, b: int): Memo
    requires f < |m.wcs| == |m.rank|
  {
    Memo(m.wcs[f := Some(Bytes(b))], m.unresolved, m.rank[f := m.clock], m.clock + 1)
  }

  /** All callees bounded: the entry is written, and no caller was. */
  lemma Ended(g: Graph, m: Memo, m': Memo, parents: seq<nat>, f: nat, b: int)
    requires f < |g| && Inside(g, m, m', parents, f, |g[f].calls|) && g[f].manual == None && !g[f].pointer && f !in parents
    requires b == Peak(m', g[f].calls) + g[f].frame
    ensures Searched(g, m, Finished(m', f, b), parents, f)
  {
    var calls, m2 := g[f].calls, Finished(m', f, b);
    assert calls[..|calls|] == calls;
    assert Unwritten(m', parents + [f], |parents|);
    assert Grown(m', m2) by {
      forall x | 0 <= x < |g| && m'.wcs[x] != None ensures SameAt(m', m2, x) {
      }
    }
    CalleesKept(m', m2, calls, m'.clock);
    SoundWrite(g, m', m2, f);
    GrownTrans(m, m', m2);
    forall x | 0 <= x < |g| ensures FreshAt(g, m2, parents, x) {
      assert FreshAt(g, m', parents + [f], x);
    }
    forall i | 0 <= i < |parents| ensures WaitingAt(m, m2, parents, i) && Unwritten(m2, parents, i) {
      assert WaitingAt(m, m', parents, i) && Unwritten(m', parents + [f], i);
    }
  }

  /** The entry of `f` is what the call graph says. */
  ghost predicate Right(g: Graph, m: Memo, f: nat)
  {
    && Wide(m, |g|) && f < |g| && m.wcs[f] != None
    && (m.wcs[f] == Some(Unbounded) <==> Unlimited(g, f))
    && (Bounded(m, f) ==> Heaviest(g, f, BytesOf(m.wcs[f])))
    && (Bounded(m, f) ==> forall x :: x in m.unresolved[f] <==> Reaches(g, f, x))
  }

  /** Two searches, in whatever orders, agree on every function both have visited. */
  lemma OrderIrrelevant(g: Graph, a: Memo, b: Memo, f: nat)
    requires Right(g, a, f) && Right(g, b, f)
    ensures a.wcs[f] == b.wcs[f] && (Bounded(a, f) ==> a.unresolved[f] == b.unresolved[f])
  {
    if Bounded(a, f) {
      var p :| From(g, f, p) && Sum(g, p) == BytesOf(a.wcs[f]);
      var q :| From(g, f, q) && Sum(g, q) == BytesOf(b.wcs[f]);
    }
  }

  class Analysis {
    const g: Graph
    var wcs: seq<Option<Wcs>>
    var unresolved: seq<set<nat>>
    ghost var rank: seq<nat>
    ghost var clock: nat

    ghost function M(): Memo
      reads this
    {
      Memo(wcs, unresolved, rank, clock)
    }

    /** Before the search, only functions given by hand have an entry. */
    constructor (g: Graph)
      requires GraphOk(g)
      ensures this.g == g && Sound(g, M()) && Fresh(g, M(), [])
      ensures forall f :: 0 <= f < |g| ==> wcs[f] == if g[f].manual == None then None else Some(Bytes(g[f].manual.value))
    {
      this.g := g;
      wcs := seq(|g|, f requires 0 <= f < |g| => if g[f].manual == None then None else Some(Bytes(g[f].manual.value)));
      unresolved := seq(|g|, f requires 0 <= f < |g| => g[f].unresolved);
      rank, clock := seq(|g|, _ => 0), 1;
      new;
      var m := M();
      forall f | 0 <= f < |g| ensures EntryOk(g, m, f) && FreshAt(g, m, [], f) {
      }
    }

    method Write(f: nat, w: Wcs)
      requires f < |wcs|
      modifies this`wcs
      ensures M() == Written(old(M()), f, w)
    {
      wcs := wcs[f := Some(w)];
    }

    /** Computes the entry of `f`, called through the chain `parents`. */
    method CalcWcs(f: nat, parents: seq<nat>)
      requires Ready(g, M(), parents, f)
      modifies this
      ensures Searched(g, old(M()), M(), parents, f)
      decreases |g| - |parents|
    {
      ghost var m := M();
      if wcs[f] != None {
        Already(g, m, parents, f);
        return;
      }
      if g[f].pointer {
        PointerUnlimited(g, m, parents, f);
        Write(f, Unbounded);
        return;
      }
      if f in parents {
        CycleUnlimited(g, m, parents, f);
        Write(f, Unbounded);
        return;
      }
      Begun(g, m, parents, f);
      var callMax, i := 0, 0;
      while i < |g[f].calls|
        invariant Inside(g, m, M(), parents, f, i) && callMax == Peak(M(), g[f].calls[..i])
      {
        ghost var m1 := M();
        var c := g[f].calls[i];
        CallReady(g, m, m1, parents, f, i);
        CalcWcs(c, parents + [f]);
        ghost var m2 := M();
        if wcs[c] == Some(Unbounded) {
          CalledUnbounded(g, m, m1, m2, parents, f, i);
          Write(f, Unbounded);
          return;
        }
        CalledBounded(g, m, m1, m2, parents, f, i);
        if callMax < wcs[c].value.n {
          callMax := wcs[c].value.n;
        }
        unresolved := unresolved[f := unresolved[f] + unresolved[c]];
        assert g[f].calls[..i + 1][..i] == g[f].calls[..i];
        i := i + 1;
      }
      assert g[f].calls[..i] == g[f].calls;
      Ended(g, m, M(), parents, f, callMax + g[f].frame);
      wcs := wcs[f := Some(Bytes(callMax + g[f].frame))];
      rank, clock := rank[f := clock], clock + 1;
    }

    /** Visits the functions in any order; every visited entry is exactly right. */
    method CalcAll(order: seq<nat>)
      requires Below(order, |g|) && Sound(g, M()) && Fresh(g, M(), [])
      modifies this
      ensures Sound(g, M()) && Fresh(g, M(), [])
      ensures forall i :: 0 <= i < |order| ==> Right(g, M(), order[i])
    {
      var i := 0;
      while i < |order|
        invariant i <= |order| && Sound(g, M()) && Fresh(g, M(), [])
        invariant forall k :: 0 <= k < i ==> wcs[order[k]] != None
      {
        ghost var m := M();
        assert [] + [order[i]] == [order[i]];
        CalcWcs(order[i], []);
        assert forall k :: 0 <= k < i ==> SameAt(m, M(), order[k]);
        i := i + 1;
      }
      forall k | 0 <= k < |order| ensures Right(g, M(), order[k]) {
        MemoRight(g, M(), order[k]);
      }
    }
  }
}
