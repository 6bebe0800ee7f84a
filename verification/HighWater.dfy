/** High-water marks: the largest of all values a counter has had. */
module HighWater {

  /** The largest of some values. */
  function Peak(history: seq<int>): int
    requires history != []
  {
    var n := |history| - 1;
    if n == 0 || Peak(history[..n]) < history[n] then history[n] else Peak(history[..n])
  }

  /** It is one of them, and none is larger. */
  lemma {:induction false} PeakIs(history: seq<int>)
    requires history != []
    ensures Peak(history) in history && forall i :: 0 <= i < |history| ==> history[i] <= Peak(history)
  {
    var n := |history| - 1;
    if n > 0 {
      PeakIs(history[..n]);
    }
  }

  /** One more value. */
  lemma PeakMore(history: seq<int>, x: int)
    requires history != []
    ensures Peak(history + [x]) == if Peak(history) < x then x else Peak(history)
  {
    assert (history + [x])[..|history|] == history;
  }

  /** The counter has had the values of `history`, has value `used` now, and `max` is the largest of them. */
  ghost predicate Marked(history: seq<int>, used: int, max: int)
  {
    history != [] && history[|history| - 1] == used && max == Peak(history)
  }

  /** A new value of the counter, and what becomes of the mark; a smaller value leaves it. */
  lemma Logged(history: seq<int>, used: int, max: int, used': int)
    requires Marked(history, used, max)
    ensures Marked(history + [used'], used', if max < used' then used' else max)
    ensures used <= max
  {
    PeakIs(history);
    PeakMore(history, used');
  }

  lemma TwoMore(history: seq<int>, x: int, y: int)
    ensures history + [x] + [y] == history + [x, y]
  {
  }
}
