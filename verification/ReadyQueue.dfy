/** A ready queue: one list per priority, indexed by a bitmap. */
module ReadyQueue {
  import opened Lists
  import Bitmap
  import opened ReadyBits

  datatype Queue = Queue(bits: Bits, lists: seq<seq<nat>>)

  /** Where a ready thread is queued: in which queue, at which priority. */
  datatype Slot = Slot(queue: nat, prio: nat)

  /** The list of priority `p` in queue `b` holds exactly the threads whose slot it is. */
  ghost predicate ListOk(slots: seq<Option<Slot>>, b: nat, q: Queue, p: nat)
    requires p < |q.lists|
  {
    NoDup(q.lists[p]) && forall t: nat :: t in q.lists[p] <==> t < |slots| && slots[t] == Some(Slot(b, p))
  }

  /** The bit of priority `p` says whether its list is not empty. */
  ghost predicate BitOk(q: Queue, p: nat)
    requires Coherent(q.bits) && p < Levels(q.bits) == |q.lists|
  {
    Has(q.bits, p) <==> q.lists[p] != []
  }

  ghost predicate QueueOk(slots: seq<Option<Slot>>, b: nat, q: Queue)
  {
    && Coherent(q.bits) && Levels(q.bits) == |q.lists|
    && (forall p :: 0 <= p < |q.lists| ==> ListOk(slots, b, q, p))
    && (forall p :: 0 <= p < |q.lists| ==> BitOk(q, p))
  }

  /** Linking thread `t` at priority `p`: at the end when its time slice is used up, and otherwise in front. */
  function Enqueue(q: Queue, p: nat, t: nat, last: bool): Queue
    requires Coherent(q.bits) && p < Levels(q.bits) == |q.lists|
  {
    Queue(Marked(q.bits, p), q.lists[p := if last then q.lists[p] + [t] else [t] + q.lists[p]])
  }

  /** Unlinking thread `t` of priority `p`, and clearing the bit of a list left empty. */
  function Dequeue(q: Queue, p: nat, t: nat): Queue
    requires Coherent(q.bits) && p < Levels(q.bits) == |q.lists|
  {
    var list := Without(q.lists[p], t);
    Queue(if list == [] then Unmarked(q.bits, p) else q.bits, q.lists[p := list])
  }

  lemma EnqueueOk(slots: seq<Option<Slot>>, b: nat, q: Queue, p: nat, t: nat, last: bool)
    requires QueueOk(slots, b, q) && p < |q.lists| && t < |slots| && slots[t] == None
    ensures QueueOk(slots[t := Some(Slot(b, p))], b, Enqueue(q, p, t, last))
  {
    var slots', q' := slots[t := Some(Slot(b, p))], Enqueue(q, p, t, last);
    assert ListOk(slots, b, q, p);
    NoDupCons(t, q.lists[p]);
    NoDupSnoc(q.lists[p], t);
    MarkedIs(q.bits, p, p);
    forall r | 0 <= r < |q'.lists| ensures ListOk(slots', b, q', r) && BitOk(q', r) {
      assert ListOk(slots, b, q, r) && BitOk(q, r);
      MarkedIs(q.bits, p, r);
    }
  }

  /** `t` joins the list of priority `p`, behind all threads on it or before all of them, and nothing else moves. */
  ghost predicate Joins(lists: seq<seq<nat>>, lists': seq<seq<nat>>, p: nat, t: nat, last: bool)
  {
    && p < |lists| == |lists'| && (forall r :: 0 <= r < |lists| && r != p ==> lists'[r] == lists[r])
    && lists'[p] == if last then lists[p] + [t] else [t] + lists[p]
  }

  /** `t` leaves the list of priority `p`, and nothing else moves. */
  ghost predicate Leaves(lists: seq<seq<nat>>, lists': seq<seq<nat>>, p: nat, t: nat)
  {
    p < |lists| && lists' == lists[p := Without(lists[p], t)]
  }

  /** Only the list of priority `p` changes: the threads on it keep their order, and `t` comes behind all of them when its
      time slice is used up, and before all of them otherwise. */
  lemma EnqueuePlace(q: Queue, p: nat, t: nat, last: bool)
    requires Coherent(q.bits) && p < Levels(q.bits) == |q.lists|
    ensures var ls, n := Enqueue(q, p, t, last).lists, |q.lists[p]|;
            && |ls| == |q.lists| && (forall r :: 0 <= r < |ls| && r != p ==> ls[r] == q.lists[r]) && |ls[p]| == n + 1
            && (last ==> ls[p][..n] == q.lists[p] && ls[p][n] == t) && (!last ==> ls[p][1..] == q.lists[p] && ls[p][0] == t)
  {
    var l, l' := q.lists[p], Enqueue(q, p, t, last).lists[p];
    assert last ==> l' == l + [t];
    assert !last ==> l' == [t] + l;
  }

  /** Unlinking a thread that is queued here. */
  lemma DequeueOk(slots: seq<Option<Slot>>, b: nat, q: Queue, p: nat, t: nat)
    requires QueueOk(slots, b, q) && p < |q.lists| && t < |slots| && slots[t] == Some(Slot(b, p))
    ensures QueueOk(slots[t := None], b, Dequeue(q, p, t))
  {
    var slots', q' := slots[t := None], Dequeue(q, p, t);
    assert ListOk(slots, b, q, p);
    WithoutMembers(q.lists[p], t);
    UnmarkedIs(q.bits, p, p);
    forall r | 0 <= r < |q'.lists| ensures ListOk(slots', b, q', r) && BitOk(q', r) {
      assert ListOk(slots, b, q, r) && BitOk(q, r);
      UnmarkedIs(q.bits, p, r);
    }
  }

  /** Unlinking a thread that is not queued here changes nothing. */
  lemma DequeueAbsent(slots: seq<Option<Slot>>, b: nat, q: Queue, p: nat, t: nat)
    requires QueueOk(slots, b, q) && p < |q.lists| && t < |slots| && slots[t] != Some(Slot(b, p))
    ensures QueueOk(slots, b, Dequeue(q, p, t)) && Dequeue(q, p, t).lists == q.lists
  {
    var q' := Dequeue(q, p, t);
    assert ListOk(slots, b, q, p) && BitOk(q, p);
    WithoutSame(q.lists[p], t);
    UnmarkedIs(q.bits, p, p);
    assert q'.lists == q.lists;
    forall r | 0 <= r < |q'.lists| ensures ListOk(slots, b, q', r) && BitOk(q', r) {
      assert ListOk(slots, b, q, r) && BitOk(q, r);
      UnmarkedIs(q.bits, p, r);
    }
  }

  /** A change of slot elsewhere does not concern this queue. */
  lemma OtherQueue(slots: seq<Option<Slot>>, b: nat, q: Queue, t: nat, x: Option<Slot>)
    requires QueueOk(slots, b, q) && t < |slots|
    requires (slots[t].Some? ==> slots[t].value.queue != b) && (x.Some? ==> x.value.queue != b)
    ensures QueueOk(slots[t := x], b, q)
  {
    var slots' := slots[t := x];
    forall r | 0 <= r < |q.lists| ensures ListOk(slots', b, q, r) {
      assert ListOk(slots, b, q, r);
    }
  }

  /** The first thread of the highest ready priority, or none. */
  function Top(q: Queue): Option<nat>
    requires Coherent(q.bits) && Levels(q.bits) == |q.lists|
  {
    var h := Highest(q.bits);
    if 0 <= h < |q.lists| && q.lists[h] != [] then Some(q.lists[h][0]) else None
  }

  /** `Top` is queued here, and nobody queued here is more urgent; there is none just when nobody is. */
  lemma TopIs(slots: seq<Option<Slot>>, b: nat, q: Queue)
    requires QueueOk(slots, b, q)
    ensures Top(q).None? <==> q.bits.group == 0
    ensures Top(q).None? ==> forall t :: 0 <= t < |slots| && slots[t].Some? && slots[t].value.queue == b ==> slots[t].value.prio >= |q.lists|
    ensures Top(q).Some? ==> Highest(q.bits) >= 0 && Top(q).value < |slots| && slots[Top(q).value] == Some(Slot(b, Highest(q.bits)))
    ensures Top(q).Some? ==> forall t :: 0 <= t < |slots| && slots[t].Some? && slots[t].value.queue == b ==> slots[t].value.prio >= Highest(q.bits)
  {
    HighestIs(q.bits);
    var h := Highest(q.bits);
    if h >= 0 {
      assert BitOk(q, h) && ListOk(slots, b, q, h);
      assert q.lists[h][0] in q.lists[h];
    }
    forall t | 0 <= t < |slots| && slots[t].Some? && slots[t].value.queue == b && slots[t].value.prio < |q.lists|
      ensures h >= 0 && slots[t].value.prio >= h
    {
      var p := slots[t].value.prio;
      assert ListOk(slots, b, q, p) && BitOk(q, p);
      assert t in q.lists[p];
      assert Has(q.bits, p);
    }
  }

  /** A queue with a clear bitmap and empty lists. */
  function EmptyQueue(two: bool): Queue
  {
    if two then Queue(Two(0, seq(32, _ => 0)), seq(256, _ => [])) else Queue(One(0), seq(32, _ => []))
  }

  lemma EmptyOk(slots: seq<Option<Slot>>, two: bool)
    requires forall t :: 0 <= t < |slots| ==> slots[t] == None
    ensures forall b :: QueueOk(slots, b, EmptyQueue(two))
  {
    var q := EmptyQueue(two);
    if two {
      forall n | 0 <= n < 32 ensures EntryOk(q.bits, n) {
        forall j | 0 <= j < 32 ensures !Bitmap.Bit(0, j) { ZeroBit(j); }
      }
    }
    forall p | 0 <= p < |q.lists| ensures !Has(q.bits, p) { ZeroBit(if two then p % 8 else p); }
    forall b ensures QueueOk(slots, b, q) {
      forall p | 0 <= p < |q.lists| ensures ListOk(slots, b, q, p) && BitOk(q, p) {
      }
    }
  }

  lemma ZeroBit(j: nat)
    requires j < 32
    ensures !Bitmap.Bit(0, j)
  {
  }
}
