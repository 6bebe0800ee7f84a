/** Bytes copied inside a heap. */
module Bytes {
  /** `count` bytes from `src` are copied to `dst`, and nothing else changes. */
  ghost predicate Copied(was: seq<bv8>, src: nat, now: seq<bv8>, dst: nat, count: nat)
  {
    src + count <= |was| && dst + count <= |was| && now == was[..dst] + was[src..src + count] + was[dst + count..]
  }

  lemma CopiedInPlace(was: seq<bv8>, at: nat, count: nat)
    requires at + count <= |was|
    ensures Copied(was, at, was, at, count)
  {
  }

  function Smaller(a: nat, b: nat): (r: nat)
    ensures r <= a && r <= b && (r == a || r == b)
  {
    if a < b then a else b
  }
}
