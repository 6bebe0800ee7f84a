/** The slab page list: runs of free pages, sorted, apart from each other and fully joined. */
module SlabPages {
  import opened Lists

  /** `struct rt_slab_page`: `len` free pages from page `start` on. */
  datatype Run = Run(start: nat, len: nat)

  predicate In(r: Run, q: nat)
  {
    r.start <= q < r.start + r.len
  }

  /** Page `q` is free. */
  predicate Covers(rs: seq<Run>, q: nat)
  {
    rs != [] && (In(rs[0], q) || Covers(rs[1..], q))
  }

  /** Runs are nonempty, and between two runs there is a page that is not free. */
  predicate Canonical(rs: seq<Run>)
  {
    rs == [] || (rs[0].len > 0 && (|rs| > 1 ==> rs[0].start + rs[0].len < rs[1].start) && Canonical(rs[1..]))
  }

  /** `rt_slab_page_alloc`: the first run with at least `n` pages gives its front. */
  function PageAlloc(rs: seq<Run>, n: nat): (Option<nat>, seq<Run>)
  {
    if n == 0 || rs == [] then (None, rs)
    else if rs[0].len > n then (Some(rs[0].start), [Run(rs[0].start + n, rs[0].len - n)] + rs[1..])
    else if rs[0].len == n then (Some(rs[0].start), rs[1..])
    else var (r, rest) := PageAlloc(rs[1..], n); (r, [rs[0]] + rest)
  }

  /** `rt_slab_page_free` of the `n` pages from `a` on. */
  function PageFree(rs: seq<Run>, a: nat, n: nat): seq<Run>
  {
    if rs == [] then [Run(a, n)]
    else
      var b := rs[0];
      if b.start + b.len == a then
        if |rs| > 1 && a + n == rs[1].start
        then [Run(b.start, b.len + n + rs[1].len)] + rs[2..]
        else [Run(b.start, b.len + n)] + rs[1..]
      else if b.start == a + n then [Run(a, b.len + n)] + rs[1..]
      else if b.start > a + n then [Run(a, n)] + rs
      else [b] + PageFree(rs[1..], a, n)
  }

  // ----- the list as a set of pages -----

  /** Every page of a canonical list is at or after its first run's start. */
  lemma {:induction false} CoversFrom(rs: seq<Run>, q: nat)
    requires Canonical(rs) && Covers(rs, q)
    ensures rs[0].start <= q
  {
    if !In(rs[0], q) {
      CoversFrom(rs[1..], q);
    }
  }

  lemma CoversCons(r: Run, rs: seq<Run>, q: nat)
    ensures Covers([r] + rs, q) <==> In(r, q) || Covers(rs, q)
  {
    assert ([r] + rs)[1..] == rs;
  }

  lemma CanonicalCons(r: Run, rs: seq<Run>)
    ensures Canonical([r] + rs) <==> r.len > 0 && (rs != [] ==> r.start + r.len < rs[0].start) && Canonical(rs)
  {
    assert ([r] + rs)[1..] == rs;
  }

  /** An allocation takes exactly `n` free pages out of the set, and fails only when no run holds them. */
  lemma {:induction false} PageAllocTakes(rs: seq<Run>, n: nat)
    requires Canonical(rs)
    ensures var (r, rs') := PageAlloc(rs, n);
            && Canonical(rs') && (rs' != [] && rs != [] ==> rs[0].start <= rs'[0].start) && |rs'| <= |rs|
            && (r.None? ==> rs' == rs && (n > 0 ==> forall i :: 0 <= i < |rs| ==> rs[i].len < n))
            && (r.Some? ==> n > 0 && forall q :: Covers(rs', q) <==> Covers(rs, q) && !In(Run(r.value, n), q))
            && (r.Some? ==> forall q :: In(Run(r.value, n), q) ==> Covers(rs, q))
  {
    var (r, rs') := PageAlloc(rs, n);
    if n > 0 && rs != [] {
      if rs[0].len >= n {
        if rs[0].len > n {
          CanonicalCons(rs'[0], rs[1..]);
        }
        forall q ensures Covers(rs', q) <==> Covers(rs, q) && !In(Run(r.value, n), q) {
          if rs[0].len > n { CoversCons(rs'[0], rs[1..], q); }
          if Covers(rs[1..], q) { CoversFrom(rs[1..], q); }
        }
      } else {
        PageAllocTakes(rs[1..], n);
        var (r1, rest) := PageAlloc(rs[1..], n);
        CanonicalCons(rs[0], rest);
        if r.None? {
          assert rs' == rs;
        } else {
          forall q ensures Covers(rs', q) <==> Covers(rs, q) && !In(Run(r.value, n), q) {
            CoversCons(rs[0], rest, q);
            if In(Run(r.value, n), q) { CoversFrom(rs[1..], q); }
          }
        }
      }
    }
  }

  /** The pages are the front of the first run that is long enough. */
  ghost predicate FrontOf(rs: seq<Run>, n: nat, a: nat, i: nat)
  {
    i < |rs| && rs[i].start == a && rs[i].len >= n && forall k :: 0 <= k < i ==> rs[k].len < n
  }

  lemma {:induction false} PageAllocFirst(rs: seq<Run>, n: nat)
    requires PageAlloc(rs, n).0.Some?
    ensures exists i: nat :: FrontOf(rs, n, PageAlloc(rs, n).0.value, i)
  {
    var a := PageAlloc(rs, n).0.value;
    if rs[0].len >= n {
      assert FrontOf(rs, n, a, 0);
    } else {
      PageAllocFirst(rs[1..], n);
      var i: nat :| FrontOf(rs[1..], n, a, i);
      assert forall k :: 0 < k < |rs| ==> rs[k] == rs[1..][k - 1];
      assert FrontOf(rs, n, a, i + 1);
    }
  }

  /** No page of [a, a + n) is free. */
  ghost predicate NoneFree(rs: seq<Run>, a: nat, n: nat)
  {
    forall q :: a <= q < a + n ==> !Covers(rs, q)
  }

  /** A free adds exactly the given pages to the set. */
  lemma {:induction false} PageFreeAdds(rs: seq<Run>, a: nat, n: nat)
    requires Canonical(rs) && n > 0 && NoneFree(rs, a, n)
    ensures Canonical(PageFree(rs, a, n)) && PageFree(rs, a, n) != []
    ensures PageFree(rs, a, n)[0].start == if rs != [] && rs[0].start < a then rs[0].start else a
    ensures forall q :: Covers(PageFree(rs, a, n), q) <==> Covers(rs, q) || In(Run(a, n), q)
  {
    var rs' := PageFree(rs, a, n);
    if rs == [] {
    } else {
      var b := rs[0];
      assert In(b, b.start) && Covers(rs, b.start);
      assert a < b.start + b.len ==> a + n <= b.start by {
        if a < b.start + b.len && a + n > b.start {
          var q := if a < b.start then b.start else a;
          assert Covers(rs, q);
        }
      }
      if b.start + b.len == a {
        if |rs| > 1 {
          assert In(rs[1], rs[1].start) && rs[1..][0] == rs[1] && Covers(rs[1..], rs[1].start) && Covers(rs, rs[1].start);
        }
        if |rs| > 1 && a + n == rs[1].start {
          assert rs[1..][1..] == rs[2..];
          CanonicalCons(rs'[0], rs[2..]);
          forall q ensures Covers(rs', q) <==> Covers(rs, q) || In(Run(a, n), q) {
            CoversCons(rs'[0], rs[2..], q);
          }
        } else {
          CanonicalCons(rs'[0], rs[1..]);
          forall q ensures Covers(rs', q) <==> Covers(rs, q) || In(Run(a, n), q) {
            CoversCons(rs'[0], rs[1..], q);
          }
        }
      } else if b.start == a + n {
        CanonicalCons(rs'[0], rs[1..]);
        forall q ensures Covers(rs', q) <==> Covers(rs, q) || In(Run(a, n), q) {
          CoversCons(rs'[0], rs[1..], q);
        }
      } else if b.start > a + n {
        CanonicalCons(rs'[0], rs);
        forall q ensures Covers(rs', q) <==> Covers(rs, q) || In(Run(a, n), q) {
          CoversCons(rs'[0], rs, q);
        }
      } else {
        forall q | a <= q < a + n ensures !Covers(rs[1..], q) { assert !Covers(rs, q); }
        PageFreeAdds(rs[1..], a, n);
        CanonicalCons(b, PageFree(rs[1..], a, n));
        forall q ensures Covers(rs', q) <==> Covers(rs, q) || In(Run(a, n), q) {
          CoversCons(b, PageFree(rs[1..], a, n), q);
        }
      }
    }
  }

  /** A set of pages has only one canonical list. */
  lemma {:induction false} CanonicalUnique(rs: seq<Run>, rs': seq<Run>)
    requires Canonical(rs) && Canonical(rs') && forall q :: Covers(rs, q) <==> Covers(rs', q)
    ensures rs == rs'
  {
    if rs == [] {
      if rs' != [] { assert Covers(rs', rs'[0].start); }
    } else {
      assert Covers(rs, rs[0].start);
      SameHead(rs, rs');
      forall q ensures Covers(rs[1..], q) <==> Covers(rs'[1..], q) {
        TailCovers(rs, q);
        TailCovers(rs', q);
      }
      CanonicalUnique(rs[1..], rs'[1..]);
      assert rs == [rs[0]] + rs[1..] && rs' == [rs'[0]] + rs'[1..];
    }
  }

  lemma TailCovers(rs: seq<Run>, q: nat)
    requires Canonical(rs) && rs != []
    ensures Covers(rs[1..], q) <==> Covers(rs, q) && !In(rs[0], q)
  {
    if Covers(rs[1..], q) { CoversFrom(rs[1..], q); }
  }

  lemma SameHead(rs: seq<Run>, rs': seq<Run>)
    requires Canonical(rs) && Canonical(rs') && rs != [] && rs' != [] && forall q :: Covers(rs, q) <==> Covers(rs', q)
    ensures rs[0] == rs'[0]
  {
    assert Covers(rs, rs[0].start) && Covers(rs', rs'[0].start);
    CoversFrom(rs, rs'[0].start);
    CoversFrom(rs', rs[0].start);
    HeadEnds(rs);
    HeadEnds(rs');
    var e, e' := rs[0].start + rs[0].len, rs'[0].start + rs'[0].len;
    assert !In(rs'[0], e) && !In(rs[0], e');
  }

  lemma HeadEnds(rs: seq<Run>)
    requires Canonical(rs) && rs != []
    ensures !Covers(rs, rs[0].start + rs[0].len)
  {
    var e := rs[0].start + rs[0].len;
    if Covers(rs[1..], e) { CoversFrom(rs[1..], e); }
  }

  /** Freeing what was just allocated restores the list. */
  lemma AllocThenFree(rs: seq<Run>, n: nat)
    requires Canonical(rs) && PageAlloc(rs, n).0.Some?
    ensures PageFree(PageAlloc(rs, n).1, PageAlloc(rs, n).0.value, n) == rs
  {
    PageAllocTakes(rs, n);
    var (r, rs') := PageAlloc(rs, n);
    assert NoneFree(rs', r.value, n) by {
      forall q | r.value <= q < r.value + n ensures !Covers(rs', q) { assert In(Run(r.value, n), q); }
    }
    PageFreeAdds(rs', r.value, n);
    CanonicalUnique(PageFree(rs', r.value, n), rs);
  }

  // ----- the two searches, run by run -----

  /** The search of `PageAlloc` from run `i` on. */
  function AllocAt(rs: seq<Run>, n: nat, i: nat): (Option<nat>, seq<Run>)
    requires i <= |rs|
    decreases |rs| - i
  {
    if i == |rs| then (None, rs)
    else if rs[i].len > n then (Some(rs[i].start), rs[i := Run(rs[i].start + n, rs[i].len - n)])
    else if rs[i].len == n then (Some(rs[i].start), rs[..i] + rs[i + 1..])
    else AllocAt(rs, n, i + 1)
  }

  lemma {:induction false} AllocAtIs(rs: seq<Run>, n: nat, i: nat)
    requires i <= |rs| && n > 0
    ensures AllocAt(rs, n, i) == (PageAlloc(rs[i..], n).0, rs[..i] + PageAlloc(rs[i..], n).1)
    decreases |rs| - i
  {
    if i < |rs| {
      assert rs[i..][1..] == rs[i + 1..];
      if rs[i].len > n {
        Replaced(rs, i, Run(rs[i].start + n, rs[i].len - n));
      } else if rs[i].len < n {
        AllocAtIs(rs, n, i + 1);
        var rest := PageAlloc(rs[i + 1..], n).1;
        assert rs[..i] + ([rs[i]] + rest) == rs[..i + 1] + rest;
      }
    } else {
      assert rs[i..] == [] && rs[..i] + [] == rs;
    }
  }

  /** The search of `PageFree` from run `i` on. */
  function FreeAt(rs: seq<Run>, a: nat, n: nat, i: nat): seq<Run>
    requires i <= |rs|
    decreases |rs| - i
  {
    if i == |rs| then rs[..i] + [Run(a, n)] + rs[i..]
    else
      var b := rs[i];
      if b.start + b.len == a then
        if i + 1 < |rs| && a + n == rs[i + 1].start
        then rs[..i] + [Run(b.start, b.len + n + rs[i + 1].len)] + rs[i + 2..]
        else rs[i := Run(b.start, b.len + n)]
      else if b.start == a + n then rs[i := Run(a, b.len + n)]
      else if b.start > a + n then rs[..i] + [Run(a, n)] + rs[i..]
      else FreeAt(rs, a, n, i + 1)
  }

  lemma {:induction false} FreeAtIs(rs: seq<Run>, a: nat, n: nat, i: nat)
    requires i <= |rs|
    ensures FreeAt(rs, a, n, i) == rs[..i] + PageFree(rs[i..], a, n)
    decreases |rs| - i
  {
    if i < |rs| {
      var b, t := rs[i], rs[i..];
      assert t[0] == b && t[1..] == rs[i + 1..] && (i + 1 < |rs| ==> t[1] == rs[i + 1] && t[2..] == rs[i + 2..]);
      if b.start + b.len == a {
        if i + 1 < |rs| && a + n == rs[i + 1].start {
          var r := Run(b.start, b.len + n + rs[i + 1].len);
          assert rs[..i] + ([r] + rs[i + 2..]) == rs[..i] + [r] + rs[i + 2..];
        } else {
          Replaced(rs, i, Run(b.start, b.len + n));
        }
      } else if b.start == a + n {
        Replaced(rs, i, Run(a, b.len + n));
      } else if b.start < a + n {
        FreeAtIs(rs, a, n, i + 1);
        var rest := PageFree(rs[i + 1..], a, n);
        assert rs[..i] + ([b] + rest) == rs[..i + 1] + rest;
      }
    }
  }

  lemma Replaced(rs: seq<Run>, i: nat, r: Run)
    requires i < |rs|
    ensures rs[..i] + ([r] + rs[i + 1..]) == rs[i := r]
  {
  }

  /** From the first run on, the searches are the operations. */
  lemma SearchesFromStart(rs: seq<Run>, a: nat, n: nat)
    ensures n > 0 ==> AllocAt(rs, n, 0) == PageAlloc(rs, n)
    ensures FreeAt(rs, a, n, 0) == PageFree(rs, a, n)
  {
    assert rs[0..] == rs && rs[..0] == [];
    if n > 0 {
      AllocAtIs(rs, n, 0);
      assert [] + PageAlloc(rs, n).1 == PageAlloc(rs, n).1;
    }
    FreeAtIs(rs, a, n, 0);
    assert [] + PageFree(rs, a, n) == PageFree(rs, a, n);
  }
}
