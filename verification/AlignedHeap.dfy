/** Aligned blocks carved out of ordinary ones, with the ordinary address hidden in the word before. */
module AlignedHeap {
  import opened Lists
  import opened Alignment
  import opened AlignedModel

  /** An aligned block in use: the ordinary block it lies in, and the size asked for. */
  datatype Lent = Lent(base: nat, size: nat)

  ghost predicate ApartAt(live: map<nat, nat>, a: nat, b: nat)
    requires a in live && b in live
  {
    a == b || a + live[a] <= b || b + live[b] <= a
  }

  ghost predicate Apart(live: map<nat, nat>)
  {
    forall a, b :: a in live && b in live ==> ApartAt(live, a, b)
  }

  /** A new block overlaps none in use. */
  ghost predicate Unused(live: map<nat, nat>, ptr: nat, size: nat)
  {
    ptr !in live && forall a :: a in live ==> a + live[a] <= ptr || ptr + size <= a
  }

  /** The aligned block at `u` lies in its ordinary block, behind the word that says where that is. */
  ghost predicate LentOk(w: nat, live: map<nat, nat>, words: map<nat, nat>, lent: map<nat, Lent>, u: nat)
    requires w > 0 && u in lent
  {
    var l := lent[u];
    && l.base in live
    && l.base + w <= u
    && u + RoundUp(l.size, w) <= l.base + live[l.base]
    && u - w in words && words[u - w] == l.base
  }

  ghost predicate OwnBlock(lent: map<nat, Lent>, u: nat, v: nat)
    requires u in lent && v in lent
  {
    u != v ==> lent[u].base != lent[v].base
  }

  ghost predicate Sound(w: nat, live: map<nat, nat>, words: map<nat, nat>, lent: map<nat, Lent>)
  {
    && w > 0
    && Apart(live)
    && (forall u :: u in lent ==> LentOk(w, live, words, lent, u))
    && (forall u, v :: u in lent && v in lent ==> OwnBlock(lent, u, v))
  }

  /** Two aligned blocks in use, with their hidden words, never overlap. */
  lemma LentApart(w: nat, live: map<nat, nat>, words: map<nat, nat>, lent: map<nat, Lent>, u: nat, v: nat)
    requires Sound(w, live, words, lent) && u in lent && v in lent && u != v
    ensures u + RoundUp(lent[u].size, w) <= v - w || v + RoundUp(lent[v].size, w) <= u - w
  {
    assert LentOk(w, live, words, lent, u) && LentOk(w, live, words, lent, v) && OwnBlock(lent, u, v);
    assert ApartAt(live, lent[u].base, lent[v].base);
  }

  /** The size passed to the ordinary allocator. */
  function Total(w: nat, size: nat, align: nat): nat
    requires w > 0
  {
    Up(size, w) + Up(align, w)
  }

  /** Where a request is placed in an ordinary block of that size, for every alignment but 0; aligned for a power of two. */
  lemma Placement(j: nat, size: nat, align: nat, ptr: nat)
    requires align > 0 && ptr % Power(j) == 0
    ensures Up(align, Power(j)) > 0
    ensures var w := Power(j); var u := Placed(ptr, Up(align, w));
            ptr + w <= u && u + RoundUp(size, w) <= ptr + Total(w, size, align) && (IsPower(align) ==> u % align == 0)
  {
    var w := Power(j);
    UpIs(align, j);
    RoundUpIs(align, w);
    UpIs(size, j);
    PlacedInside(ptr, Up(align, w), j);
    if IsPower(align) {
      var i: nat :| align == Power(i);
      var k := RoundedAlign(i, j);
      PlacedIs(ptr, k, j);
      MultipleOf(Placed(ptr, Power(k)), Power(k), align);
    }
  }

  /** Handing out a block keeps every hidden word. */
  lemma LentMore(w: nat, live: map<nat, nat>, words: map<nat, nat>, lent: map<nat, Lent>, ptr: nat, total: nat, u: nat, size: nat)
    requires Sound(w, live, words, lent) && Unused(live, ptr, total)
    requires ptr + w <= u && u + RoundUp(size, w) <= ptr + total
    ensures u !in lent && Sound(w, live[ptr := total], words[u - w := ptr], lent[u := Lent(ptr, size)])
  {
    var live', words', lent' := live[ptr := total], words[u - w := ptr], lent[u := Lent(ptr, size)];
    forall v | v in lent ensures v != u && LentOk(w, live', words', lent, v) && lent[v].base != ptr {
      assert LentOk(w, live, words, lent, v);
    }
    forall a, b | a in live' && b in live' ensures ApartAt(live', a, b) {
      assert a in live && b in live ==> ApartAt(live, a, b);
    }
    forall v | v in lent' ensures LentOk(w, live', words', lent', v) {
      assert v != u ==> LentOk(w, live', words', lent, v);
    }
    forall x, y | x in lent' && y in lent' ensures OwnBlock(lent', x, y) {
      assert x != u && y != u ==> OwnBlock(lent, x, y);
    }
  }

  lemma LentLess(w: nat, live: map<nat, nat>, words: map<nat, nat>, lent: map<nat, Lent>, u: nat)
    requires Sound(w, live, words, lent) && u in lent
    ensures lent[u].base in live && u >= w && u - w in words && words[u - w] == lent[u].base
    ensures Sound(w, live - {lent[u].base}, words, lent - {u})
  {
    assert LentOk(w, live, words, lent, u);
    var live', lent' := live - {lent[u].base}, lent - {u};
    forall a, b | a in live' && b in live' ensures ApartAt(live', a, b) {
      assert ApartAt(live, a, b);
    }
    forall v | v in lent' ensures LentOk(w, live', words, lent', v) {
      assert LentOk(w, live, words, lent, v) && OwnBlock(lent, u, v);
    }
    forall x, y | x in lent' && y in lent' ensures OwnBlock(lent', x, y) {
      assert OwnBlock(lent, x, y);
    }
  }

  /** A word of a user's own block is no hidden word. */
  lemma UserWrites(w: nat, live: map<nat, nat>, words: map<nat, nat>, lent: map<nat, Lent>, u: nat, at: nat, x: nat)
    requires Sound(w, live, words, lent) && u in lent && u <= at && at + w <= u + RoundUp(lent[u].size, w)
    ensures Sound(w, live, words[at := x], lent)
  {
    var words' := words[at := x];
    forall v | v in lent ensures LentOk(w, live, words', lent, v) {
      assert LentOk(w, live, words, lent, v);
      if v != u {
        LentApart(w, live, words, lent, u, v);
      }
    }
  }

  class AlignedHeap {
    /** A pointer takes `Power(j)` bytes. */
    const j: nat
    /** The ordinary blocks in use, with their sizes. */
    var live: map<nat, nat>
    /** Memory, by word. */
    var words: map<nat, nat>
    ghost var lent: map<nat, Lent>

    ghost predicate Valid()
      reads this
    {
      Sound(Power(j), live, words, lent)
    }

    constructor (j: nat)
      ensures Valid() && this.j == j && live == map[] && lent == map[]
    {
      this.j, live, words, lent := j, map[], map[], map[];
    }

    /** `block` is what the ordinary allocator answers to a request of the total size. */
    method MallocAlign(size: nat, align: nat, block: Option<nat>) returns (r: Option<nat>)
      requires Valid() && align > 0
      requires block.Some? ==> block.value % Power(j) == 0 && Unused(live, block.value, Total(Power(j), size, align))
      modifies this
      ensures Valid() && (r == None <==> block == None)
      ensures block == None ==> unchanged(this)
      ensures r.Some? && IsPower(align) ==> r.value % align == 0
      ensures r.Some? ==> r.value !in old(lent) && lent == old(lent)[r.value := Lent(block.value, size)]
      ensures r.Some? ==> live == old(live)[block.value := Total(Power(j), size, align)]
      ensures r.Some? ==> block.value + Power(j) <= r.value && r.value + size <= block.value + live[block.value]
      ensures r.Some? ==> words == old(words)[r.value - Power(j) := block.value]
    {
      var w := Power(j);
      if block == None {
        return None;
      }
      var ptr := block.value;
      var total := Total(w, size, align);
      Placement(j, size, align, ptr);
      var u := Placed(ptr, Up(align, w));
      LentMore(w, live, words, lent, ptr, total, u, size);
      RoundUpIs(size, w);
      live := live[ptr := total];
      words := words[u - w := ptr];
      lent := lent[u := Lent(ptr, size)];
      r := Some(u);
    }

    /** Whatever was written to the user's blocks since, exactly the block of the allocation is released. */
    method FreeAlign(ptr: Option<nat>)
      requires Valid() && (ptr.Some? ==> ptr.value in lent)
      modifies this
      ensures Valid()
      ensures ptr == None ==> unchanged(this)
      ensures ptr.Some? ==> live == old(live) - {old(lent)[ptr.value].base} && lent == old(lent) - {ptr.value} && words == old(words)
    {
      if ptr == None {
        return;
      }
      LentLess(Power(j), live, words, lent, ptr.value);
      var base := words[ptr.value - Power(j)];
      live := live - {base};
      lent := lent - {ptr.value};
    }

    /** A user writes a word of the block it was given. */
    method Write(u: nat, at: nat, x: nat)
      requires Valid() && u in lent && u <= at && at + Power(j) <= u + RoundUp(lent[u].size, Power(j))
      modifies this`words
      ensures Valid() && words == old(words)[at := x]
    {
      UserWrites(Power(j), live, words, lent, u, at, x);
      words := words[at := x];
    }
  }
}
