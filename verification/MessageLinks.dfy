/** The links of a message queue's nodes: one chain of queued messages, one chain of free nodes. */
module MessageLinks {
  import opened Lists
  import opened MessageQueueModel

  /** The place `i` of a chain, if it has one. */
  function LinkAt(s: seq<nat>, i: nat): Option<nat>
  {
    if i < |s| then Some(s[i]) else None
  }

  function Last(s: seq<nat>): Option<nat>
  {
    if s == [] then None else Some(s[|s| - 1])
  }

  ghost predicate LinkedAt(next: seq<Option<nat>>, s: seq<nat>, i: nat)
    requires i < |s|
  {
    s[i] < |next| && next[s[i]] == LinkAt(s, i + 1)
  }

  /** Following the links from `start` gives exactly `s`. */
  ghost predicate Chain(next: seq<Option<nat>>, start: Option<nat>, s: seq<nat>)
  {
    start == LinkAt(s, 0) && forall i :: 0 <= i < |s| ==> LinkedAt(next, s, i)
  }

  // ----- every node in one place -----

  /** A node is queued, free, or held by a thread between its two locked sections. */
  datatype Place = Queued | Free | Held

  ghost predicate Kind(place: seq<Place>, s: seq<nat>, p: Place, i: nat)
    requires i < |s|
  {
    s[i] < |place| && place[s[i]] == p
  }

  ghost predicate Found(place: seq<Place>, s: seq<nat>, p: Place, n: nat)
    requires n < |place|
  {
    place[n] == p ==> n in s
  }

  ghost predicate Differ(s: seq<nat>, i: nat, j: nat)
    requires i < |s| && j < |s|
  {
    s[i] != s[j]
  }

  /** `s` holds the nodes of kind `p`, each exactly once. */
  ghost predicate Holds(place: seq<Place>, s: seq<nat>, p: Place)
  {
    && (forall i :: 0 <= i < |s| ==> Kind(place, s, p, i))
    && (forall n :: 0 <= n < |place| ==> Found(place, s, p, n))
    && (forall i, j :: 0 <= i < j < |s| ==> Differ(s, i, j))
  }

  lemma HoldsIs(place: seq<Place>, s: seq<nat>, p: Place)
    requires Holds(place, s, p)
    ensures NoDup(s) && Below(s, |place|)
    ensures forall n: nat :: n in s <==> n < |place| && place[n] == p
  {
    forall i, j | 0 <= i < j < |s| ensures s[i] != s[j] {
      assert Differ(s, i, j);
    }
    forall i | 0 <= i < |s| ensures s[i] < |place| && place[s[i]] == p {
      assert Kind(place, s, p, i);
    }
    forall n: nat | n < |place| && place[n] == p ensures n in s {
      assert Found(place, s, p, n);
    }
  }

  lemma HoldsOther(place: seq<Place>, s: seq<nat>, p: Place, n: nat, x: Place)
    requires Holds(place, s, p) && n < |place| && place[n] != p && x != p
    ensures Holds(place[n := x], s, p)
  {
    var place' := place[n := x];
    forall i | 0 <= i < |s| ensures Kind(place', s, p, i) {
      assert Kind(place, s, p, i);
    }
    forall k | 0 <= k < |place'| ensures Found(place', s, p, k) {
      assert Found(place, s, p, k);
    }
  }

  lemma HoldsInsert(place: seq<Place>, s: seq<nat>, p: Place, n: nat, i: nat)
    requires Holds(place, s, p) && n < |place| && place[n] != p && i <= |s|
    ensures Holds(place[n := p], InsertAt(s, i, n), p)
  {
    var place', s' := place[n := p], InsertAt(s, i, n);
    forall k | 0 <= k < |s'| ensures Kind(place', s', p, k) {
      if k != i {
        assert Kind(place, s, p, if k < i then k else k - 1);
      }
    }
    forall k | 0 <= k < |place'| ensures Found(place', s', p, k) {
      assert Found(place, s, p, k) && s'[i] == n;
      if k in s {
        var o := IndexOf(s, k);
        assert s'[if o < i then o else o + 1] == k;
      }
    }
    forall j, k | 0 <= j < k < |s'| ensures Differ(s', j, k) {
      var a, b := if j < i then j else j - 1, if k < i then k else k - 1;
      if j == i {
        assert Kind(place, s, p, b);
      } else if k == i {
        assert Kind(place, s, p, a);
      } else {
        assert Differ(s, a, b);
      }
    }
  }

  lemma HoldsPop(place: seq<Place>, s: seq<nat>, p: Place, x: Place)
    requires Holds(place, s, p) && s != [] && x != p
    ensures s[0] < |place| && place[s[0]] == p && Holds(place[s[0] := x], s[1..], p)
  {
    assert Kind(place, s, p, 0);
    var place', s' := place[s[0] := x], s[1..];
    forall i | 0 <= i < |s'| ensures Kind(place', s', p, i) {
      assert Kind(place, s, p, i + 1) && Differ(s, 0, i + 1);
    }
    forall k | 0 <= k < |place'| ensures Found(place', s', p, k) {
      assert Found(place, s, p, k);
    }
    forall i, j | 0 <= i < j < |s'| ensures Differ(s', i, j) {
      assert Differ(s, i + 1, j + 1);
    }
  }

  // ----- changing one link -----

  lemma ChainKept(next: seq<Option<nat>>, start: Option<nat>, s: seq<nat>, n: nat, x: Option<nat>, place: seq<Place>, p: Place)
    requires Chain(next, start, s) && Holds(place, s, p) && n < |next| && n < |place| && place[n] != p
    ensures Chain(next[n := x], start, s)
  {
    var next' := next[n := x];
    forall i | 0 <= i < |s| ensures LinkedAt(next', s, i) {
      assert LinkedAt(next, s, i) && Kind(place, s, p, i);
    }
  }

  /** The link before place `i` of a chain, where the head is the link before place 0. */
  function Before(s: seq<nat>, i: nat): Option<nat>
    requires i <= |s|
  {
    if i == 0 then None else Some(s[i - 1])
  }

  function Relinked(next: seq<Option<nat>>, prev: Option<nat>, n: nat, node: Option<nat>): (r: seq<Option<nat>>)
    requires n < |next|
    ensures |r| == |next|
  {
    (if prev == None || prev.value >= |next| then next else next[prev.value := Some(n)])[n := node]
  }

  /** Linking `n` in front of place `i`. */
  lemma ChainInsert(next: seq<Option<nat>>, start: Option<nat>, s: seq<nat>, n: nat, i: nat, place: seq<Place>, p: Place)
    requires Chain(next, start, s) && Holds(place, s, p) && n < |next| && n < |place| && place[n] != p && i <= |s|
    ensures Chain(Relinked(next, Before(s, i), n, LinkAt(s, i)), if i == 0 then Some(n) else start, InsertAt(s, i, n))
  {
    var next', s' := Relinked(next, Before(s, i), n, LinkAt(s, i)), InsertAt(s, i, n);
    if i > 0 {
      assert LinkedAt(next, s, i - 1) && Kind(place, s, p, i - 1);
    }
    forall k | 0 <= k < |s'| ensures LinkedAt(next', s', k) {
      if k != i {
        var o := if k < i then k else k - 1;
        assert s'[k] == s[o] && LinkedAt(next, s, o) && Kind(place, s, p, o);
        assert o < i - 1 ==> Differ(s, o, i - 1);
        assert o > i - 1 >= 0 ==> Differ(s, i - 1, o);
      }
    }
  }

  lemma ChainPop(next: seq<Option<nat>>, start: Option<nat>, s: seq<nat>)
    requires Chain(next, start, s) && s != []
    ensures start == Some(s[0]) && s[0] < |next| && Chain(next, next[s[0]], s[1..])
  {
    assert LinkedAt(next, s, 0);
    forall i | 0 <= i < |s[1..]| ensures LinkedAt(next, s[1..], i) {
      assert LinkedAt(next, s, i + 1);
    }
  }

  // ----- both chains at once -----

  /** The pointers of a queue, and the chains and places they stand for. */
  ghost predicate Linked(next: seq<Option<nat>>, head: Option<nat>, tail: Option<nat>, free: Option<nat>,
                         queue: seq<nat>, spare: seq<nat>, place: seq<Place>)
  {
    && |place| == |next|
    && Chain(next, head, queue) && Holds(place, queue, Queued) && tail == Last(queue)
    && Chain(next, free, spare) && Holds(place, spare, Free)
  }

  /** The links of nodes held throughout are the same. */
  ghost predicate HeldKept(before: seq<Option<nat>>, after: seq<Option<nat>>, place: seq<Place>)
  {
    |before| == |after| == |place| && forall n :: 0 <= n < |place| && place[n] == Held ==> before[n] == after[n]
  }

  lemma LinkedInsert(next: seq<Option<nat>>, head: Option<nat>, tail: Option<nat>, free: Option<nat>,
                     queue: seq<nat>, spare: seq<nat>, place: seq<Place>, n: nat, i: nat)
    requires Linked(next, head, tail, free, queue, spare, place) && n < |place| && place[n] == Held && i <= |queue|
    ensures var next' := Relinked(next, Before(queue, i), n, LinkAt(queue, i));
            && Linked(next', if i == 0 then Some(n) else head, if i == |queue| then Some(n) else tail, free, InsertAt(queue, i, n), spare, place[n := Queued])
            && HeldKept(next, next', place[n := Queued])
    ensures i > 0 ==> queue[i - 1] < |next| && queue[i - 1] != n
  {
    ChainInsert(next, head, queue, n, i, place, Queued);
    HoldsInsert(place, queue, Queued, n, i);
    HoldsOther(place, spare, Free, n, Queued);
    var mid := next;
    if i > 0 {
      assert Kind(place, queue, Queued, i - 1);
      ChainKept(next, free, spare, queue[i - 1], Some(n), place, Free);
      mid := next[queue[i - 1] := Some(n)];
    }
    ChainKept(mid, free, spare, n, LinkAt(queue, i), place, Free);
  }

  lemma LinkedPop(next: seq<Option<nat>>, head: Option<nat>, tail: Option<nat>, free: Option<nat>,
                  queue: seq<nat>, spare: seq<nat>, place: seq<Place>)
    requires Linked(next, head, tail, free, queue, spare, place) && queue != []
    ensures head == Some(queue[0]) && queue[0] < |next| && place[queue[0]] == Queued
    ensures Linked(next, next[queue[0]], if tail == head then None else tail, free, queue[1..], spare, place[queue[0] := Held])
  {
    ChainPop(next, head, queue);
    HoldsPop(place, queue, Queued, Held);
    HoldsOther(place, spare, Free, queue[0], Held);
    if |queue| > 1 {
      assert Differ(queue, 0, |queue| - 1);
    }
  }

  lemma LinkedTake(next: seq<Option<nat>>, head: Option<nat>, tail: Option<nat>, free: Option<nat>,
                   queue: seq<nat>, spare: seq<nat>, place: seq<Place>)
    requires Linked(next, head, tail, free, queue, spare, place) && spare != []
    ensures free == Some(spare[0]) && spare[0] < |next| && place[spare[0]] == Free
    ensures Linked(next, head, tail, next[spare[0]], queue, spare[1..], place[spare[0] := Held])
  {
    ChainPop(next, free, spare);
    HoldsPop(place, spare, Free, Held);
    HoldsOther(place, queue, Queued, spare[0], Held);
  }

  lemma LinkedGive(next: seq<Option<nat>>, head: Option<nat>, tail: Option<nat>, free: Option<nat>,
                   queue: seq<nat>, spare: seq<nat>, place: seq<Place>, n: nat)
    requires Linked(next, head, tail, free, queue, spare, place) && n < |place| && place[n] == Held
    ensures Linked(next[n := free], head, tail, Some(n), queue, [n] + spare, place[n := Free])
    ensures HeldKept(next, next[n := free], place[n := Free])
  {
    ChainInsert(next, free, spare, n, 0, place, Free);
    HoldsInsert(place, spare, Free, n, 0);
    assert InsertAt(spare, 0, n) == [n] + spare;
    HoldsOther(place, queue, Queued, n, Free);
    ChainKept(next, head, queue, n, free, place, Queued);
  }

  lemma LinkedHeld(next: seq<Option<nat>>, head: Option<nat>, tail: Option<nat>, free: Option<nat>,
                   queue: seq<nat>, spare: seq<nat>, place: seq<Place>, n: nat, x: Option<nat>)
    requires Linked(next, head, tail, free, queue, spare, place) && n < |place| && place[n] == Held
    ensures n !in queue && Linked(next[n := x], head, tail, free, queue, spare, place)
  {
    HoldsIs(place, queue, Queued);
    ChainKept(next, head, queue, n, x, place, Queued);
    ChainKept(next, free, spare, n, x, place, Free);
  }

  /** While a node is held, the queue has not used them all. */
  lemma Room(place: seq<Place>, q: seq<nat>, x: nat)
    requires Holds(place, q, Queued) && x < |place| && place[x] == Held
    ensures |q| < |place|
  {
    HoldsIs(place, q, Queued);
    NoDupCons(x, q);
    Few([x] + q, |place|);
  }

  // ----- messages of a chain -----

  function MessageOf(msgs: seq<Message>, n: nat): Message
  {
    if n < |msgs| then msgs[n] else Message(0, [])
  }

  function Contents(msgs: seq<Message>, q: seq<nat>): (c: seq<Message>)
    ensures |c| == |q| && forall i :: 0 <= i < |c| ==> c[i] == MessageOf(msgs, q[i])
  {
    seq(|q|, i requires 0 <= i < |q| => MessageOf(msgs, q[i]))
  }

  lemma ContentsKept(msgs: seq<Message>, q: seq<nat>, n: nat, m: Message)
    requires n !in q && n < |msgs|
    ensures Contents(msgs[n := m], q) == Contents(msgs, q)
  {
  }

  lemma ContentsInsert(msgs: seq<Message>, q: seq<nat>, k: nat, n: nat)
    requires k <= |q| && n < |msgs|
    ensures Contents(msgs, InsertAt(q, k, n)) == InsertAt(Contents(msgs, q), k, msgs[n])
  {
  }

  lemma ContentsFront(msgs: seq<Message>, q: seq<nat>, n: nat)
    requires n < |msgs|
    ensures Contents(msgs, [n] + q) == [msgs[n]] + Contents(msgs, q)
  {
  }

  lemma ContentsPop(msgs: seq<Message>, q: seq<nat>)
    requires q != []
    ensures Contents(msgs, q)[0] == MessageOf(msgs, q[0]) && Contents(msgs, q[1..]) == Contents(msgs, q)[1..]
    ensures Ordered(Contents(msgs, q)) ==> Ordered(Contents(msgs, q[1..]))
  {
    if Ordered(Contents(msgs, q)) {
      OrderedTail(Contents(msgs, q));
    }
  }
}
