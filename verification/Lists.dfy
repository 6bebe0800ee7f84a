/** Sequences standing for the kernel's intrusive `rt_list_t` lists. */
module Lists {

  datatype Option<+T> = None | Some(value: T)

  ghost predicate NoDup<T(!new)>(s: seq<T>)
  {
    forall i, j :: 0 <= i < j < |s| ==> s[i] != s[j]
  }

  /** Every entry of `s` is a valid index below `n`. */
  ghost predicate Below(s: seq<nat>, n: nat)
  {
    forall i :: 0 <= i < |s| ==> s[i] < n
  }

  /** The list after unlinking `x`; unchanged when `x` is not on it. */
  function Without<T(==)>(s: seq<T>, x: T): (r: seq<T>)
  {
    if s == [] then [] else if s[0] == x then s[1..] else [s[0]] + Without(s[1..], x)
  }

  lemma {:induction false} WithoutSame<T>(s: seq<T>, x: T)
    requires x !in s
    ensures Without(s, x) == s
  {
    if s != [] {
      WithoutSame(s[1..], x);
    }
  }

  lemma {:induction false} WithoutBelow(s: seq<nat>, x: nat, n: nat)
    requires Below(s, n)
    ensures Below(Without(s, x), n)
  {
    if s != [] {
      WithoutBelow(s[1..], x, n);
    }
  }

  lemma {:induction false} WithoutMembers<T(!new)>(s: seq<T>, x: T)
    requires NoDup(s)
    ensures NoDup(Without(s, x))
    ensures forall y :: y in Without(s, x) <==> y in s && y != x
    ensures x in s ==> |Without(s, x)| == |s| - 1
  {
    if s != [] {
      NoDupTail(s);
      WithoutMembers(s[1..], x);
      if s[0] != x {
        NoDupCons(s[0], Without(s[1..], x));
      }
    }
  }

  /** Unlinking takes the first occurrence out, and the others keep their order. */
  lemma {:induction false} WithoutIs<T>(s: seq<T>, x: T)
    requires x in s
    ensures var i := IndexOf(s, x); Without(s, x) == s[..i] + s[i + 1..]
  {
    if s[0] != x {
      WithoutIs(s[1..], x);
      var i := IndexOf(s, x);
      assert s[1..][..i - 1] == s[1..i] && s[1..][i..] == s[i + 1..];
      assert [s[0]] + s[1..i] == s[..i];
    }
  }

  lemma NoDupTail<T(!new)>(s: seq<T>)
    requires NoDup(s) && s != []
    ensures NoDup(s[1..]) && s[0] !in s[1..] && s == [s[0]] + s[1..]
  {
  }

  lemma NoDupCons<T(!new)>(x: T, s: seq<T>)
    requires NoDup(s) && x !in s
    ensures NoDup([x] + s)
  {
  }

  lemma NoDupSnoc<T(!new)>(s: seq<T>, x: T)
    requires NoDup(s) && x !in s
    ensures NoDup(s + [x])
  {
  }

  /** Distinct indices below `n` are at most `n`. */
  lemma {:induction false} Few(s: seq<nat>, n: nat)
    requires NoDup(s) && Below(s, n)
    ensures |s| <= n
    decreases n
  {
    if n == 0 {
      assert s == [];
    } else {
      WithoutMembers<nat>(s, n - 1);
      var s': seq<nat> := Without<nat>(s, n - 1);
      forall i | 0 <= i < |s'| ensures s'[i] < n - 1 {
        assert s'[i] in s';
      }
      Few(s', n - 1);
      if n - 1 !in s {
        WithoutSame<nat>(s, n - 1);
      }
    }
  }

  /** Where `x` is in `s`. */
  function IndexOf<T(==)>(s: seq<T>, x: T): (i: nat)
    requires x in s
    ensures i < |s| && s[i] == x
  {
    if s[0] == x then 0 else 1 + IndexOf(s[1..], x)
  }
}
