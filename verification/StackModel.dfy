/** Call graphs, and what the worst-case stack of a function means. */
module StackModel {
  import opened Lists

  /**
   * A function: the functions it calls, the names it calls that could not be resolved, whether it
   * calls through a pointer, its own frame, and the stack given for it by hand, if any.
   */
  datatype Fn = Fn(calls: seq<nat>, unresolved: set<nat>, pointer: bool, frame: int, manual: Option<int>)

  type Graph = seq<Fn>

  ghost predicate GraphOk(g: Graph)
  {
    forall f :: 0 <= f < |g| ==> Below(g[f].calls, |g|)
  }

  /** A function given by hand is not followed further. */
  function Callees(g: Graph, f: nat): seq<nat>
    requires f < |g|
  {
    if g[f].manual == None then g[f].calls else []
  }

  function Weight(g: Graph, f: nat): int
    requires f < |g|
  {
    if g[f].manual == None then g[f].frame else g[f].manual.value
  }

  ghost predicate CallAt(g: Graph, p: seq<nat>, i: nat)
    requires i + 1 < |p|
  {
    p[i] < |g| && p[i + 1] in Callees(g, p[i])
  }

  /** A chain of calls. */
  ghost predicate Path(g: Graph, p: seq<nat>)
  {
    Below(p, |g|) && forall i :: 0 <= i < |p| - 1 ==> CallAt(g, p, i)
  }

  ghost predicate From(g: Graph, f: nat, p: seq<nat>)
  {
    p != [] && p[0] == f && Path(g, p)
  }

  ghost predicate CallsPointer(g: Graph, f: nat)
    requires f < |g|
  {
    g[f].manual == None && g[f].pointer
  }

  /** The chain recurs, or ends in a call through a pointer. */
  ghost predicate Endless(g: Graph, p: seq<nat>)
    requires p != [] && Below(p, |g|)
  {
    !NoDup(p) || CallsPointer(g, p[|p| - 1])
  }

  /** Some chain of calls from `f` has no known bound. */
  ghost predicate Unlimited(g: Graph, f: nat)
  {
    exists p :: From(g, f, p) && Endless(g, p)
  }

  function Sum(g: Graph, p: seq<nat>): int
    requires Below(p, |g|)
  {
    if p == [] then 0 else Weight(g, p[0]) + Sum(g, p[1..])
  }

  /** The heaviest chain of calls from `f` takes `b` bytes. */
  ghost predicate Heaviest(g: Graph, f: nat, b: int)
  {
    && (forall p :: From(g, f, p) ==> Sum(g, p) <= b)
    && exists p :: From(g, f, p) && Sum(g, p) == b
  }

  /** Some chain of calls from `f` ends in a function with the unresolved call `x`. */
  ghost predicate Reaches(g: Graph, f: nat, x: nat)
  {
    exists p :: From(g, f, p) && x in g[p[|p| - 1]].unresolved
  }

  lemma FromCons(g: Graph, f: nat, p: seq<nat>)
    requires f < |g| && p != [] && Path(g, p) && p[0] in Callees(g, f)
    ensures From(g, f, [f] + p) && Sum(g, [f] + p) == Weight(g, f) + Sum(g, p) && ([f] + p)[|p|] == p[|p| - 1]
  {
    var q := [f] + p;
    assert q[1..] == p;
    forall i | 0 <= i < |q| - 1 ensures CallAt(g, q, i) {
      assert i > 0 ==> CallAt(g, p, i - 1);
    }
  }

  lemma PathFrom(g: Graph, p: seq<nat>, k: nat)
    requires Path(g, p) && k <= |p|
    ensures Path(g, p[k..])
  {
    var q := p[k..];
    forall i | 0 <= i < |q| - 1 ensures CallAt(g, q, i) {
      assert CallAt(g, p, i + k);
    }
  }

  lemma FromTail(g: Graph, f: nat, p: seq<nat>)
    requires From(g, f, p) && |p| > 1
    ensures f < |g| && p[1] in Callees(g, f) && From(g, p[1], p[1..]) && Sum(g, p) == Weight(g, f) + Sum(g, p[1..])
  {
    assert CallAt(g, p, 0);
    PathFrom(g, p, 1);
  }

  lemma FromOne(g: Graph, f: nat)
    requires f < |g|
    ensures From(g, f, [f]) && Sum(g, [f]) == Weight(g, f)
  {
    assert Sum(g, [f][1..]) == 0;
  }

  /** Calling an unlimited function is unlimited. */
  lemma UnlimitedCaller(g: Graph, f: nat, c: nat)
    requires f < |g| && c in Callees(g, f) && Unlimited(g, c)
    ensures Unlimited(g, f)
  {
    var p :| From(g, c, p) && Endless(g, p);
    FromCons(g, f, p);
    var q := [f] + p;
    if !NoDup(p) {
      var i, j :| 0 <= i < j < |p| && p[i] == p[j];
      assert q[i + 1] == q[j + 1];
    }
    assert Endless(g, q);
  }

  /** A call back to a function on the chain of callers is unlimited. */
  lemma UnlimitedCycle(g: Graph, parents: seq<nat>, f: nat)
    requires Path(g, parents + [f]) && f in parents
    ensures Unlimited(g, f)
  {
    var i, q := IndexOf(parents, f), parents + [f];
    PathFrom(g, q, i);
    var p := q[i..];
    assert p[0] == f && p[|p| - 1] == f;
    assert From(g, f, p) && Endless(g, p);
  }
}
