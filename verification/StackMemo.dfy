/** What the memo of a worst-case stack search holds, and why a finished memo is right. */
module StackMemo {
  import opened Lists
  import opened StackModel

  datatype Wcs = Unbounded | Bytes(n: int)

  /**
   * The worst cases found so far and the unresolved calls gathered for each function.
   * `rank` and `clock` record the order in which bounded functions were finished.
   */
  datatype Memo = Memo(wcs: seq<Option<Wcs>>, unresolved: seq<set<nat>>, rank: seq<nat>, clock: nat)

  function BytesOf(w: Option<Wcs>): int
  {
    if w.Some? && w.value.Bytes? then w.value.n else 0
  }

  ghost predicate Bounded(m: Memo, f: nat)
  {
    f < |m.wcs| && m.wcs[f].Some? && m.wcs[f].value.Bytes?
  }

  /** Enough entries for `n` functions. */
  predicate Wide(m: Memo, n: nat)
  {
    |m.wcs| == |m.unresolved| == |m.rank| == n
  }

  /** The largest worst case among some callees, at least 0. */
  function Peak(m: Memo, cs: seq<nat>): (r: int)
    requires Below(cs, |m.wcs|)
  {
    if cs == [] then 0
    else
      var k := |cs| - 1;
      var b := BytesOf(m.wcs[cs[k]]);
      var rest := Peak(m, cs[..k]);
      if rest < b then b else rest
  }

  /** The unresolved calls gathered by some callees. */
  function Gathered(m: Memo, cs: seq<nat>): (r: set<nat>)
    requires Below(cs, |m.unresolved|)
  {
    if cs == [] then {} else Gathered(m, cs[..|cs| - 1]) + m.unresolved[cs[|cs| - 1]]
  }

  ghost predicate CalleeOk(m: Memo, cs: seq<nat>, limit: nat, i: nat)
    requires i < |cs|
  {
    Bounded(m, cs[i]) && cs[i] < |m.rank| && m.rank[cs[i]] < limit
  }

  ghost predicate CalleesOk(m: Memo, cs: seq<nat>, limit: nat)
  {
    forall i :: 0 <= i < |cs| ==> CalleeOk(m, cs, limit, i)
  }

  /** A bounded entry is one more than its callees' entries, all bounded and finished before. */
  ghost predicate Settled(g: Graph, m: Memo, f: nat)
    requires GraphOk(g) && Wide(m, |g|) && f < |g|
  {
    var cs := Callees(g, f);
    && !CallsPointer(g, f)
    && Below(cs, |g|)
    && CalleesOk(m, cs, m.rank[f])
    && BytesOf(m.wcs[f]) == Weight(g, f) + Peak(m, cs)
    && m.unresolved[f] == g[f].unresolved + Gathered(m, cs)
    && m.rank[f] < m.clock
  }

  ghost predicate EntryOk(g: Graph, m: Memo, f: nat)
    requires GraphOk(g) && Wide(m, |g|) && f < |g|
  {
    && (g[f].manual != None ==> m.wcs[f] != None)
    && (m.wcs[f] == Some(Unbounded) ==> Unlimited(g, f))
    && (Bounded(m, f) ==> Settled(g, m, f))
  }

  ghost predicate Sound(g: Graph, m: Memo)
  {
    GraphOk(g) && Wide(m, |g|) && forall f :: 0 <= f < |g| ==> EntryOk(g, m, f)
  }

  /** The entry of `x` is untouched. */
  ghost predicate SameAt(m: Memo, m': Memo, x: nat)
  {
    && Wide(m, |m.wcs|) && Wide(m', |m.wcs|) && x < |m.wcs|
    && m'.wcs[x] == m.wcs[x] && m'.unresolved[x] == m.unresolved[x] && m'.rank[x] == m.rank[x]
  }

  /** Entries once written stay. */
  ghost predicate Grown(m: Memo, m': Memo)
  {
    && Wide(m, |m.wcs|) && Wide(m', |m.wcs|) && m.clock <= m'.clock
    && forall x :: 0 <= x < |m.wcs| && m.wcs[x] != None ==> SameAt(m, m', x)
  }

  lemma GrownTrans(a: Memo, b: Memo, c: Memo)
    requires Grown(a, b) && Grown(b, c)
    ensures Grown(a, c)
  {
    forall x | 0 <= x < |a.wcs| && a.wcs[x] != None ensures SameAt(a, c, x) {
      assert SameAt(a, b, x) && SameAt(b, c, x);
    }
  }

  lemma {:induction false} CalleesKept(m: Memo, m': Memo, cs: seq<nat>, limit: nat)
    requires Grown(m, m') && Below(cs, |m.wcs|) && CalleesOk(m, cs, limit)
    ensures CalleesOk(m', cs, limit) && Peak(m', cs) == Peak(m, cs) && Gathered(m', cs) == Gathered(m, cs)
  {
    forall i | 0 <= i < |cs| ensures CalleeOk(m', cs, limit, i) {
      assert CalleeOk(m, cs, limit, i) && SameAt(m, m', cs[i]);
    }
    if cs != [] {
      var k := |cs| - 1;
      var cs' := cs[..k];
      forall i | 0 <= i < k ensures CalleeOk(m, cs', limit, i) {
        assert CalleeOk(m, cs, limit, i);
      }
      CalleesKept(m, m', cs', limit);
      assert CalleeOk(m, cs, limit, k) && SameAt(m, m', cs[k]);
    }
  }

  lemma EntryKept(g: Graph, m: Memo, m': Memo, f: nat)
    requires Sound(g, m) && Grown(m, m') && f < |g| && SameAt(m, m', f)
    ensures EntryOk(g, m', f)
  {
    assert EntryOk(g, m, f);
    if Bounded(m, f) {
      CalleesKept(m, m', Callees(g, f), m.rank[f]);
    }
  }

  /** Writing one entry that was not written before keeps the memo sound. */
  lemma SoundWrite(g: Graph, m: Memo, m': Memo, f: nat)
    requires Sound(g, m) && f < |g| && m.wcs[f] == None && Wide(m', |g|) && m.clock <= m'.clock
    requires forall x :: 0 <= x < |g| && x != f ==> SameAt(m, m', x)
    requires EntryOk(g, m', f)
    ensures Sound(g, m') && Grown(m, m')
  {
    forall x | 0 <= x < |g| ensures EntryOk(g, m', x) {
      if x != f {
        EntryKept(g, m, m', x);
      }
    }
  }

  // ----- a bounded entry is right -----

  lemma {:induction false} PeakIs(m: Memo, cs: seq<nat>, i: nat)
    requires Below(cs, |m.wcs|) && Below(cs, |m.unresolved|) && i < |cs|
    ensures BytesOf(m.wcs[cs[i]]) <= Peak(m, cs) && m.unresolved[cs[i]] <= Gathered(m, cs)
    decreases |cs|
  {
    if i < |cs| - 1 {
      PeakIs(m, cs[..|cs| - 1], i);
    }
  }

  lemma {:induction false} PeakAt(m: Memo, cs: seq<nat>)
    requires Below(cs, |m.wcs|)
    ensures Peak(m, cs) == 0 || exists i :: 0 <= i < |cs| && BytesOf(m.wcs[cs[i]]) == Peak(m, cs)
    decreases |cs|
  {
    if cs != [] {
      var k := |cs| - 1;
      PeakAt(m, cs[..k]);
      if Peak(m, cs) != BytesOf(m.wcs[cs[k]]) && Peak(m, cs) != 0 {
        var i :| 0 <= i < k && BytesOf(m.wcs[cs[..k][i]]) == Peak(m, cs[..k]);
        assert cs[i] == cs[..k][i];
      }
    }
  }

  lemma {:induction false} GatheredAt(m: Memo, cs: seq<nat>, x: nat) returns (i: nat)
    requires Below(cs, |m.unresolved|) && x in Gathered(m, cs)
    ensures i < |cs| && x in m.unresolved[cs[i]]
    decreases |cs|
  {
    var k := |cs| - 1;
    if x in m.unresolved[cs[k]] {
      i := k;
    } else {
      i := GatheredAt(m, cs[..k], x);
    }
  }

  /** Every chain of calls from a bounded function ends, within its bound. */
  lemma {:induction false} PathBounded(g: Graph, m: Memo, f: nat, p: seq<nat>)
    requires Sound(g, m) && Bounded(m, f) && From(g, f, p)
    ensures !Endless(g, p) && Sum(g, p) <= BytesOf(m.wcs[f]) && g[p[|p| - 1]].unresolved <= m.unresolved[f]
    ensures forall i :: 0 <= i < |p| ==> m.rank[p[i]] <= m.rank[f]
    decreases |p|
  {
    assert EntryOk(g, m, f);
    var cs := Callees(g, f);
    if |p| == 1 {
      assert p == [f];
      FromOne(g, f);
      PeakAtLeast(m, cs);
    } else {
      FromTail(g, f, p);
      var c, q := p[1], p[1..];
      var i := IndexOf(cs, c);
      assert CalleeOk(m, cs, m.rank[f], i);
      PathBounded(g, m, c, q);
      PeakIs(m, cs, i);
      assert q[|q| - 1] == p[|p| - 1];
      assert f !in q;
      NoDupCons(f, q);
      assert p == [f] + q;
    }
  }

  lemma {:induction false} PeakAtLeast(m: Memo, cs: seq<nat>)
    requires Below(cs, |m.wcs|)
    ensures 0 <= Peak(m, cs)
    decreases |cs|
  {
    if cs != [] {
      PeakAtLeast(m, cs[..|cs| - 1]);
    }
  }

  /** Some chain of calls needs all of the bound. */
  lemma {:induction false} PathAttains(g: Graph, m: Memo, f: nat) returns (p: seq<nat>)
    requires Sound(g, m) && Bounded(m, f)
    ensures From(g, f, p) && Sum(g, p) == BytesOf(m.wcs[f])
    decreases m.rank[f]
  {
    assert EntryOk(g, m, f);
    var cs := Callees(g, f);
    PeakAt(m, cs);
    FromOne(g, f);
    if Peak(m, cs) == 0 {
      p := [f];
    } else {
      var i :| 0 <= i < |cs| && BytesOf(m.wcs[cs[i]]) == Peak(m, cs);
      assert CalleeOk(m, cs, m.rank[f], i);
      var q := PathAttains(g, m, cs[i]);
      FromCons(g, f, q);
      p := [f] + q;
    }
  }

  lemma {:induction false} GatheredReached(g: Graph, m: Memo, f: nat, x: nat) returns (p: seq<nat>)
    requires Sound(g, m) && Bounded(m, f) && x in m.unresolved[f]
    ensures From(g, f, p) && x in g[p[|p| - 1]].unresolved
    decreases m.rank[f]
  {
    assert EntryOk(g, m, f);
    var cs := Callees(g, f);
    FromOne(g, f);
    if x in g[f].unresolved {
      p := [f];
    } else {
      var i := GatheredAt(m, cs, x);
      assert CalleeOk(m, cs, m.rank[f], i);
      var q := GatheredReached(g, m, cs[i], x);
      FromCons(g, f, q);
      p := [f] + q;
    }
  }

  /** Any written entry says exactly what the call graph says, whatever else is written. */
  lemma MemoRight(g: Graph, m: Memo, f: nat)
    requires Sound(g, m) && f < |g| && m.wcs[f] != None
    ensures m.wcs[f] == Some(Unbounded) <==> Unlimited(g, f)
    ensures Bounded(m, f) ==> Heaviest(g, f, BytesOf(m.wcs[f]))
    ensures Bounded(m, f) ==> forall x :: x in m.unresolved[f] <==> Reaches(g, f, x)
  {
    assert EntryOk(g, m, f);
    if Bounded(m, f) {
      forall p | From(g, f, p) ensures !Endless(g, p) && Sum(g, p) <= BytesOf(m.wcs[f]) {
        PathBounded(g, m, f, p);
      }
      var p := PathAttains(g, m, f);
      forall x ensures x in m.unresolved[f] <==> Reaches(g, f, x) {
        if x in m.unresolved[f] {
          var q := GatheredReached(g, m, f, x);
        }
        if Reaches(g, f, x) {
          var q :| From(g, f, q) && x in g[q[|q| - 1]].unresolved;
          PathBounded(g, m, f, q);
        }
      }
    }
  }
}
