/** A message queue on linked nodes. Each method is one locked section, so threads may interleave between any two. */
module MessageQueue {
  import opened Lists
  import opened Alignment
  import opened MessageQueueModel
  import opened MessageLinks

  /** `max_msgs` and `entry` are 16 bits wide. */
  const ENTRY_MAX: nat := 0xFFFF

  /** How one turn of a send or receive loop ends. */
  datatype Turn = Got(node: nat) | Refused | Waiting | TooLong

  ghost predicate Scattered(s: seq<nat>)
  {
    forall i, j :: 0 <= i < j < |s| ==> Differ(s, i, j)
  }

  /** On one side, `waiting` threads sleep and `woken` ones have been taken off the list and have not run since; they
      are all different. While any sleep, each thing to take has a woken thread on its way to it. */
  ghost predicate NoneForgotten(waiting: seq<nat>, woken: seq<nat>, available: nat)
  {
    Scattered(waiting + woken) && (waiting != [] ==> available <= |woken|)
  }

  lemma ScatteredIs(a: seq<nat>, b: seq<nat>)
    ensures Scattered(a + b) <==> NoDup(a) && NoDup(b) && forall x :: !(x in a && x in b)
  {
    var s := a + b;
    if Scattered(s) {
      forall i, j | 0 <= i < j < |a| ensures a[i] != a[j] {
        assert Differ(s, i, j);
      }
      forall i, j | 0 <= i < j < |b| ensures b[i] != b[j] {
        assert Differ(s, |a| + i, |a| + j);
      }
      forall i, j | 0 <= i < |a| && 0 <= j < |b| ensures a[i] != b[j] {
        assert Differ(s, i, |a| + j);
      }
    }
    if NoDup(a) && NoDup(b) && forall x :: !(x in a && x in b) {
      forall i, j | 0 <= i < j < |s| ensures Differ(s, i, j) {
        if i < |a| <= j {
          assert s[i] in a && s[j] in b;
        }
      }
    }
  }

  lemma InsertedMembers(s: seq<nat>, at: nat, t: nat)
    requires NoDup(s) && at <= |s| && t !in s
    ensures NoDup(InsertAt(s, at, t)) && forall x :: x in InsertAt(s, at, t) <==> x == t || x in s
  {
    var s' := InsertAt(s, at, t);
    forall x ensures x in s' <==> x == t || x in s {
      if x in s {
        var i := IndexOf(s, x);
        assert s'[if i < at then i else i + 1] == x;
      }
      assert s'[at] == t;
    }
  }

  /** A thread, woken or not, that finds nothing to take may sleep. */
  lemma Slept(waiting: seq<nat>, woken: seq<nat>, at: nat, t: nat)
    requires NoneForgotten(waiting, woken, 0) && at <= |waiting| && t !in waiting
    ensures NoneForgotten(InsertAt(waiting, at, t), Without(woken, t), 0)
  {
    ScatteredIs(waiting, woken);
    WithoutMembers(woken, t);
    InsertedMembers(waiting, at, t);
    ScatteredIs(InsertAt(waiting, at, t), Without(woken, t));
  }

  /** A thread, woken or not, that runs and takes one thing, or finds none, forgets nobody. */
  lemma Ran(waiting: seq<nat>, woken: seq<nat>, available: nat, t: nat, available': nat)
    requires NoneForgotten(waiting, woken, available) && available' == if available == 0 then 0 else available - 1
    ensures NoneForgotten(waiting, Without(woken, t), available')
  {
    ScatteredIs(waiting, woken);
    WithoutMembers(woken, t);
    if t !in woken { WithoutSame(woken, t); }
    ScatteredIs(waiting, Without(woken, t));
  }

  /** One thing more, and one thread woken for it if any sleeps. */
  lemma WokeOne(waiting: seq<nat>, woken: seq<nat>, available: nat)
    requires NoneForgotten(waiting, woken, available)
    ensures waiting == [] ==> NoneForgotten(waiting, woken, available + 1)
    ensures waiting != [] ==> NoneForgotten(waiting[1..], woken + [waiting[0]], available + 1)
  {
    if waiting != [] {
      ScatteredIs(waiting, woken);
      NoDupTail(waiting);
      assert waiting[0] in waiting;
      NoDupSnoc(woken, waiting[0]);
      ScatteredIs(waiting[1..], woken + [waiting[0]]);
    }
  }

  lemma TimedOut(waiting: seq<nat>, woken: seq<nat>, available: nat, t: nat)
    requires NoneForgotten(waiting, woken, available)
    ensures NoneForgotten(Without(waiting, t), woken, available)
  {
    ScatteredIs(waiting, woken);
    WithoutMembers(waiting, t);
    ScatteredIs(Without(waiting, t), woken);
  }

  function Capacity(poolSize: nat, slot: nat): (max: nat)
    requires 0 < slot
    ensures max <= ENTRY_MAX
  {
    (poolSize / slot) % 0x1_0000
  }

  /** The bytes of one node: its header and room for a message, rounded up. */
  function SlotSize(msgSize: nat, align: nat, hdr: nat): nat
    requires align > 0
  {
    RoundUp(msgSize, align) + hdr
  }

  /** The nodes fit in the pool.  One more would not, if and only if the pool is too small for 65536 nodes; a larger pool
      is cut to 16 bits, so one for exactly 65536 nodes gets none. */
  lemma CapacityIs(poolSize: nat, slot: nat)
    requires 0 < slot
    ensures Capacity(poolSize, slot) * slot <= poolSize
    ensures poolSize < (Capacity(poolSize, slot) + 1) * slot <==> poolSize < 0x1_0000 * slot
    ensures 0x1_0000 * slot <= poolSize < 0x1_0001 * slot ==> Capacity(poolSize, slot) == 0
  {
    var n, m := poolSize / slot, Capacity(poolSize, slot);
    Quotient(poolSize, slot, m);
    Quotient(poolSize, slot, m + 1);
    Quotient(poolSize, slot, 0x1_0000);
    Quotient(poolSize, slot, 0x1_0001);
  }

  /** A pool of 1 MiB for nodes of 16 bytes. */
  lemma FullPoolRefused()
    ensures Capacity(0x10_0000, 16) == 0
  {
    CapacityIs(0x10_0000, 16);
  }

  /** Node `k`, with a message of full size, ends inside the pool and before the next node. */
  lemma NodeFits(poolSize: nat, msgSize: nat, align: nat, hdr: nat, k: nat)
    requires align > 0 && hdr > 0 && k < Capacity(poolSize, SlotSize(msgSize, align, hdr))
    ensures var slot := SlotSize(msgSize, align, hdr);
            k * slot + hdr + msgSize <= (k + 1) * slot <= poolSize
  {
    var slot := SlotSize(msgSize, align, hdr);
    RoundUpIs(msgSize, align);
    Quotient(poolSize, slot, k + 1);
    assert (k + 1) * slot == k * slot + slot;
  }

  lemma {:induction false} AheadNext(c: seq<Message>, prio: int, i: nat)
    requires i < |c| && i <= Ahead(c, prio)
    ensures Ahead(c, prio) == i <==> c[i].prio < prio
  {
  }

  /** Inserting by priority keeps the queue of messages ordered. */
  lemma SentMessages(msgs: seq<Message>, q: seq<nat>, c: seq<Message>, n: nat)
    requires n < |msgs| && c == Contents(msgs, q)
    ensures Contents(msgs, InsertAt(q, Ahead(c, msgs[n].prio), n)) == Sent(true, c, msgs[n])
    ensures Ordered(c) ==> Ordered(Contents(msgs, InsertAt(q, Ahead(c, msgs[n].prio), n)))
  {
    ContentsInsert(msgs, q, Ahead(c, msgs[n].prio), n);
    if Ordered(c) {
      SentOrdered(c, msgs[n]);
    }
  }

  /** The nodes below `k` are free, the others held. */
  ghost predicate FreeBelow(place: seq<Place>, k: nat)
  {
    forall n :: 0 <= n < |place| ==> place[n] == if n < k then Free else Held
  }

  ghost predicate Draining(before: seq<Place>, after: seq<Place>)
  {
    |before| == |after| && forall n :: 0 <= n < |after| ==> after[n] == before[n] || (after[n] == Free && before[n] == Queued)
  }

  /** Queued nodes became free; held ones stay held. */
  ghost predicate Drained(before: seq<Place>, after: seq<Place>)
  {
    |before| == |after| && forall n :: 0 <= n < |after| ==> after[n] == if before[n] == Held then Held else Free
  }

  lemma NoneQueued(before: seq<Place>, after: seq<Place>)
    requires Draining(before, after) && Holds(after, [], Queued)
    ensures Drained(before, after)
  {
    forall n | 0 <= n < |after| ensures after[n] == if before[n] == Held then Held else Free {
      assert Found(after, [], Queued, n);
    }
  }

  class MessageQueue {
    const byPrio: bool
    const msgSize: nat
    var next: seq<Option<nat>>
    var msgs: seq<Message>
    var head: Option<nat>
    var tail: Option<nat>
    var free: Option<nat>
    var entry: nat
    var receivers: seq<nat>
    var senders: seq<nat>

    ghost var queue: seq<nat>
    ghost var spare: seq<nat>
    ghost var place: seq<Place>
    /** Threads taken off the two lists that have not run since. */
    ghost var wokenReceivers: seq<nat>
    ghost var wokenSenders: seq<nat>
    /** Whether the queue may hold an urgent message. */
    ghost var urgent: bool

    ghost predicate Nodes()
      reads this
    {
      && |msgs| == |next| <= ENTRY_MAX
      && Linked(next, head, tail, free, queue, spare, place)
    }

    ghost predicate Ranked()
      reads this
    {
      byPrio && !urgent ==> Ordered(Contents(msgs, queue))
    }

    ghost predicate Valid()
      reads this
    {
      && Nodes()
      && Ranked()
      && entry == |queue|
      && NoneForgotten(receivers, wokenReceivers, entry)
      && NoneForgotten(senders, wokenSenders, |spare|)
    }

    ghost predicate Holding(n: nat)
      reads this
    {
      n < |place| && place[n] == Held
    }

    constructor (byPrio: bool, msgSize: nat, slot: nat, poolSize: nat)
      requires 0 < slot
      ensures Valid() && this.byPrio == byPrio && this.msgSize == msgSize
      ensures queue == [] && |spare| == |place| == Capacity(poolSize, slot) && FreeBelow(place, |place|)
      ensures receivers == [] && senders == []
    {
      this.byPrio, this.msgSize := byPrio, msgSize;
      var max := Capacity(poolSize, slot);
      next, msgs := seq(max, _ => None), seq(max, _ => Message(0, []));
      head, tail, free, entry := None, None, None, 0;
      receivers, senders := [], [];
      queue, spare, place, wokenReceivers, wokenSenders, urgent := [], [], seq(max, _ => Held), [], [], false;
      new;
      FreeNodes();
    }

    /** `rt_mq_init`, which refuses a pool without room for a node. */
    static method Create(byPrio: bool, msgSize: nat, align: nat, hdr: nat, poolSize: nat) returns (r: MessageQueue?)
      requires align > 0 && hdr > 0
      ensures r == null <==> Capacity(poolSize, SlotSize(msgSize, align, hdr)) == 0
      ensures r != null ==> fresh(r) && r.Valid() && r.byPrio == byPrio && r.msgSize == msgSize && r.queue == []
      ensures r != null ==> |r.spare| == |r.place| == Capacity(poolSize, SlotSize(msgSize, align, hdr))
    {
      var slot := SlotSize(msgSize, align, hdr);
      if Capacity(poolSize, slot) == 0 {
        return null;
      }
      r := new MessageQueue(byPrio, msgSize, slot, poolSize);
    }

    /** Pushes every node, in address order, on the free list. */
    method FreeNodes()
      requires Nodes() && FreeBelow(place, 0) && spare == []
      modifies this`next, this`free, this`spare, this`place
      ensures Nodes() && |place| == |spare| == old(|place|) && FreeBelow(place, |place|)
    {
      var temp := 0;
      while temp < |next|
        invariant temp <= |next| == |place| == old(|place|) && Nodes() && |spare| == temp && FreeBelow(place, temp)
      {
        GiveFree(temp);
        temp := temp + 1;
      }
    }

    // ----- pieces shared by the sections -----

    method TakeFree() returns (n: nat)
      requires Nodes() && free != None
      modifies this`free, this`spare, this`place
      ensures Nodes() && old(spare) != [] && n == old(spare)[0] < |place| && old(place)[n] == Free
      ensures spare == old(spare)[1..] && place == old(place)[n := Held]
    {
      LinkedTake(next, head, tail, free, queue, spare, place);
      n := free.value;
      place, spare := place[n := Held], spare[1..];
      free := next[n];
    }

    method GiveFree(n: nat)
      requires Nodes() && Holding(n)
      modifies this`next, this`free, this`spare, this`place
      ensures Nodes() && spare == [n] + old(spare) && place == old(place)[n := Free] && HeldKept(old(next), next, place)
    {
      LinkedGive(next, head, tail, free, queue, spare, place, n);
      place, spare := place[n := Free], [n] + spare;
      next := next[n := free];
      free := Some(n);
    }

    method TakeHead() returns (n: nat)
      requires Nodes() && queue != []
      modifies this`head, this`tail, this`queue, this`place
      ensures Nodes() && n == old(queue)[0] < |place| && old(place)[n] == Queued
      ensures queue == old(queue)[1..] && place == old(place)[n := Held]
    {
      LinkedPop(next, head, tail, free, queue, spare, place);
      n := head.value;
      place, queue := place[n := Held], queue[1..];
      if tail == head {
        tail := None;
      }
      head := next[n];
    }

    // ----- linking a filled node into the queue -----

    /** Stores new queue pointers. */
    method Put(next': seq<Option<nat>>, head': Option<nat>, tail': Option<nat>, ghost queue': seq<nat>, ghost place': seq<Place>)
      requires |msgs| == |next'| <= ENTRY_MAX && Linked(next', head', tail', free, queue', spare, place')
      modifies this`next, this`head, this`tail, this`queue, this`place
      ensures Nodes() && next == next' && head == head' && tail == tail' && queue == queue' && place == place'
    {
      next, head, tail := next', head', tail';
      queue, place := queue', place';
    }

    method LinkFirst(n: nat)
      requires Nodes() && Holding(n)
      modifies this`next, this`head, this`tail, this`queue, this`place
      ensures Nodes() && queue == [n] + old(queue) && place == old(place)[n := Queued] && HeldKept(old(next), next, place)
    {
      LinkedInsert(next, head, tail, free, queue, spare, place, n, 0);
      assert InsertAt(queue, 0, n) == [n] + queue;
      var links := next[n := head];
      Put(links, Some(n), if tail == None then Some(n) else tail, [n] + queue, place[n := Queued]);
    }

    method LinkLast(n: nat)
      requires Nodes() && Holding(n) && next[n] == None
      modifies this`next, this`head, this`tail, this`queue, this`place
      ensures Nodes() && queue == old(queue) + [n] && place == old(place)[n := Queued] && HeldKept(old(next), next, place)
    {
      LinkedInsert(next, head, tail, free, queue, spare, place, n, |queue|);
      assert InsertAt(queue, |queue|, n) == queue + [n];
      var links := if tail == None then next else next[tail.value := Some(n)];
      assert links == Relinked(next, tail, n, None);
      Put(links, if head == None then Some(n) else head, Some(n), queue + [n], place[n := Queued]);
    }

    /** Links `n` in front of `node`, found behind `prev`. */
    method LinkBefore(n: nat, prev: Option<nat>, node: nat, ghost i: nat)
      requires Nodes() && Holding(n) && i < |queue| && queue[i] == node && prev == Before(queue, i)
      modifies this`next, this`head, this`tail, this`queue, this`place
      ensures Nodes() && queue == InsertAt(old(queue), i, n) && place == old(place)[n := Queued] && HeldKept(old(next), next, place)
    {
      LinkedInsert(next, head, tail, free, queue, spare, place, n, i);
      var links := if prev == None then next else next[prev.value := Some(n)];
      links := links[n := Some(node)];
      Put(links, if prev == None then Some(n) else head, tail, InsertAt(queue, i, n), place[n := Queued]);
    }

    /** Walks to the first less urgent message, or past the end. */
    method FindSpot(prio: int) returns (prev: Option<nat>, node: Option<nat>, ghost i: nat)
      requires Nodes()
      ensures i == Ahead(Contents(msgs, queue), prio)
      ensures node == LinkAt(queue, Ahead(Contents(msgs, queue), prio)) && prev == Before(queue, Ahead(Contents(msgs, queue), prio))
    {
      ghost var c := Contents(msgs, queue);
      prev, node, i := None, head, 0;
      while node != None
        invariant i <= Ahead(c, prio) && node == LinkAt(queue, i) && prev == Before(queue, i)
        decreases |queue| - i
      {
        assert LinkedAt(next, queue, i);
        AheadNext(c, prio, i);
        if msgs[node.value].prio < prio {
          break;
        }
        prev := node;
        node := next[node.value];
        i := i + 1;
      }
    }

    method LinkByPrio(n: nat)
      requires Nodes() && Holding(n) && next[n] == None
      modifies this`next, this`head, this`tail, this`queue, this`place
      ensures Nodes() && place == old(place)[n := Queued] && HeldKept(old(next), next, place)
      ensures queue == InsertAt(old(queue), Ahead(Contents(msgs, old(queue)), msgs[n].prio), n)
    {
      var prev, node, i := FindSpot(msgs[n].prio);
      if node == None {
        assert InsertAt(queue, i, n) == queue + [n];
        LinkLast(n);
      } else {
        LinkBefore(n, prev, node.value, i);
      }
    }

    method SetPrio(n: nat, prio: int)
      requires Nodes() && Ranked() && Holding(n)
      modifies this`msgs
      ensures Nodes() && Ranked()
      ensures msgs == old(msgs)[n := old(msgs)[n].(prio := prio)] && Contents(msgs, queue) == old(Contents(msgs, queue))
    {
      HoldsIs(place, queue, Queued);
      ContentsKept(msgs, queue, n, msgs[n].(prio := prio));
      msgs := msgs[n := msgs[n].(prio := prio)];
    }

    method EnqueueByPrio(n: nat, prio: int)
      requires Nodes() && Ranked() && byPrio && Holding(n) && next[n] == None
      modifies this`next, this`msgs, this`head, this`tail, this`queue, this`place
      ensures Nodes() && Ranked() && place == old(place)[n := Queued] && HeldKept(old(next), next, place)
      ensures msgs == old(msgs)[n := old(msgs)[n].(prio := prio)]
      ensures |queue| == |old(queue)| + 1 && Contents(msgs, queue) == Sent(true, old(Contents(msgs, queue)), msgs[n])
    {
      SetPrio(n, prio);
      LinkRanked(n);
    }

    method LinkRanked(n: nat)
      requires Nodes() && Ranked() && Holding(n) && next[n] == None
      modifies this`next, this`head, this`tail, this`queue, this`place
      ensures Nodes() && Ranked() && place == old(place)[n := Queued] && HeldKept(old(next), next, place)
      ensures |queue| == |old(queue)| + 1 && Contents(msgs, queue) == Sent(true, old(Contents(msgs, queue)), msgs[n])
    {
      SentMessages(msgs, queue, Contents(msgs, queue), n);
      LinkByPrio(n);
    }

    /** Links the filled node, in priority order or last. */
    method Enqueue(n: nat, prio: int)
      requires Nodes() && Ranked() && Holding(n) && next[n] == None
      modifies this`next, this`msgs, this`head, this`tail, this`queue, this`place
      ensures Nodes() && Ranked() && place == old(place)[n := Queued] && HeldKept(old(next), next, place)
      ensures msgs == if byPrio then old(msgs)[n := old(msgs)[n].(prio := prio)] else old(msgs)
      ensures |queue| == |old(queue)| + 1 && Contents(msgs, queue) == Sent(byPrio, old(Contents(msgs, queue)), msgs[n])
    {
      if byPrio {
        EnqueueByPrio(n, prio);
      } else {
        assert InsertAt(queue, |queue|, n) == queue + [n];
        ContentsInsert(msgs, queue, |queue|, n);
        LinkLast(n);
      }
    }

    /** Counts one more message, unless the 16-bit count is full, and wakes a receiver for it. */
    method Counted() returns (ok: bool)
      requires NoneForgotten(receivers, wokenReceivers, entry)
      modifies this`entry, this`receivers, this`wokenReceivers
      ensures ok == (old(entry) < ENTRY_MAX)
      ensures ok ==> entry == old(entry) + 1 && NoneForgotten(receivers, wokenReceivers, entry)
      ensures ok ==> receivers == if old(receivers) == [] then [] else old(receivers)[1..]
      ensures ok ==> wokenReceivers == if old(receivers) == [] then old(wokenReceivers) else old(wokenReceivers) + [old(receivers)[0]]
    {
      WokeOne(receivers, wokenReceivers, entry);
      ok := entry < ENTRY_MAX;
      if ok {
        entry := entry + 1;
        if receivers != [] {
          receivers, wokenReceivers := receivers[1..], wokenReceivers + [receivers[0]];
        }
      }
    }

    // ----- sending -----

    /** With no free node: `t` waits, at some place of the list, or gives up. */
    method WaitToSend(t: nat, timeout: int, at: nat) returns (r: Turn)
      requires NoneForgotten(senders, wokenSenders, 0) && t !in senders && at <= |senders|
      modifies this`senders, this`wokenSenders
      ensures NoneForgotten(senders, wokenSenders, 0) && wokenSenders == Without(old(wokenSenders), t)
      ensures r == if timeout == 0 then Refused else Waiting
      ensures senders == if timeout == 0 then old(senders) else InsertAt(old(senders), at, t)
    {
      if timeout == 0 {
        Ran(senders, wokenSenders, 0, t, 0);
        r := Refused;
      } else {
        Slept(senders, wokenSenders, at, t);
        senders := InsertAt(senders, at, t);
        r := Waiting;
      }
      wokenSenders := Without(wokenSenders, t);
    }

    /** With a free node: `t`, woken for it or not, takes it. */
    method TakeToSend(t: nat) returns (n: nat)
      requires Valid() && free != None
      modifies this`free, this`spare, this`place, this`wokenSenders
      ensures Valid() && old(spare) != [] && n == old(spare)[0] < |place| && old(place)[n] == Free
      ensures spare == old(spare)[1..] && place == old(place)[n := Held] && wokenSenders == Without(old(wokenSenders), t)
    {
      ghost var k := |spare|;
      n := TakeFree();
      Ran(senders, wokenSenders, k, t, |spare|);
      wokenSenders := Without(wokenSenders, t);
    }

    /** One turn of the send loop by the running thread `t`: it takes a free node, waits for one, or gives up. */
    method SendBegin(t: nat, size: nat, timeout: int, at: nat) returns (r: Turn)
      requires Valid() && t !in senders && at <= |senders| && (t in wokenSenders ==> size <= msgSize)
      modifies this`free, this`spare, this`place, this`senders, this`wokenSenders
      ensures Valid() && wokenSenders == Without(old(wokenSenders), t)
      ensures r == if size > msgSize then TooLong else if old(spare) != [] then Got(old(spare)[0]) else if timeout == 0 then Refused else Waiting
      ensures r.Got? ==> r.node < |place| && old(place)[r.node] == Free && place == old(place)[r.node := Held] && spare == old(spare)[1..]
      ensures !r.Got? ==> place == old(place) && spare == old(spare)
      ensures senders == if r.Waiting? then InsertAt(old(senders), at, t) else old(senders)
    {
      if size > msgSize {
        WithoutSame(wokenSenders, t);
        return TooLong;
      }
      if free == None {
        r := WaitToSend(t, timeout, at);
      } else {
        var n := TakeToSend(t);
        r := Got(n);
      }
    }

    /** Outside the lock, the sender fills the node it holds; a plain send also clears its link. */
    method Fill(n: nat, data: seq<bv8>, plain: bool)
      requires Valid() && Holding(n) && |data| <= msgSize
      modifies this`next, this`msgs
      ensures Valid() && (plain ==> next[n] == None) && next == old(next)[n := next[n]]
      ensures msgs == old(msgs)[n := old(msgs)[n].(data := data)] && Contents(msgs, queue) == old(Contents(msgs, queue))
    {
      LinkedHeld(next, head, tail, free, queue, spare, place, n, if plain then None else next[n]);
      ContentsKept(msgs, queue, n, msgs[n].(data := data));
      next := next[n := if plain then None else next[n]];
      msgs := msgs[n := msgs[n].(data := data)];
    }

    /** The second locked section of a send: the message is queued and counted, and a receiver woken. */
    method SendEnd(n: nat, prio: int) returns (ok: bool)
      requires Valid() && Holding(n) && next[n] == None
      modifies this`next, this`msgs, this`head, this`tail, this`entry, this`receivers, this`queue, this`place, this`wokenReceivers
      ensures ok && Valid() && place == old(place)[n := Queued] && HeldKept(old(next), next, place)
      ensures msgs == if byPrio then old(msgs)[n := old(msgs)[n].(prio := prio)] else old(msgs)
      ensures Contents(msgs, queue) == Sent(byPrio, old(Contents(msgs, queue)), msgs[n])
      ensures receivers == if old(receivers) == [] then [] else old(receivers)[1..]
      ensures wokenReceivers == if old(receivers) == [] then old(wokenReceivers) else old(wokenReceivers) + [old(receivers)[0]]
    {
      Room(place, queue, n);
      Enqueue(n, prio);
      ok := Counted();
    }

    /** The first locked section of an urgent send never waits. */
    method UrgentBegin(size: nat) returns (r: Turn)
      requires Valid()
      modifies this`free, this`spare, this`place
      ensures Valid()
      ensures r == if size > msgSize then TooLong else if old(spare) != [] then Got(old(spare)[0]) else Refused
      ensures r.Got? ==> r.node < |place| && old(place)[r.node] == Free && place == old(place)[r.node := Held] && spare == old(spare)[1..]
      ensures !r.Got? ==> place == old(place) && spare == old(spare)
    {
      if size > msgSize {
        return TooLong;
      }
      if free == None {
        return Refused;
      }
      var n := TakeFree();
      r := Got(n);
    }

    /** An urgent message goes first, whatever the priorities. */
    method UrgentEnd(n: nat) returns (ok: bool)
      requires Valid() && Holding(n)
      modifies this`next, this`head, this`tail, this`entry, this`receivers, this`queue, this`place, this`wokenReceivers, this`urgent
      ensures ok && Valid() && place == old(place)[n := Queued] && HeldKept(old(next), next, place) && urgent
      ensures Contents(msgs, queue) == [msgs[n]] + old(Contents(msgs, queue))
      ensures receivers == if old(receivers) == [] then [] else old(receivers)[1..]
      ensures wokenReceivers == if old(receivers) == [] then old(wokenReceivers) else old(wokenReceivers) + [old(receivers)[0]]
    {
      Room(place, queue, n);
      urgent := true;
      ContentsFront(msgs, queue, n);
      LinkFirst(n);
      ok := Counted();
    }

    // ----- receiving -----

    /** The first message leaves the queue with its node. */
    method Dequeue() returns (n: nat)
      requires Nodes() && Ranked() && entry == |queue| > 0
      modifies this`head, this`tail, this`entry, this`queue, this`place, this`urgent
      ensures Nodes() && Ranked() && n == old(queue)[0] < |place| && old(place)[n] == Queued && place == old(place)[n := Held]
      ensures entry == |queue| == old(entry) - 1 && urgent == (old(urgent) && queue != [])
      ensures msgs[n] == old(Contents(msgs, queue))[0] && Contents(msgs, queue) == old(Contents(msgs, queue))[1..]
    {
      ContentsPop(msgs, queue);
      urgent := urgent && |queue| > 1;
      n := TakeHead();
      entry := entry - 1;
    }

    /** With no message: `t` waits, at some place of the list, or gives up. */
    method WaitToReceive(t: nat, timeout: int, at: nat) returns (r: Turn)
      requires NoneForgotten(receivers, wokenReceivers, 0) && t !in receivers && at <= |receivers|
      modifies this`receivers, this`wokenReceivers
      ensures NoneForgotten(receivers, wokenReceivers, 0) && wokenReceivers == Without(old(wokenReceivers), t)
      ensures r == if timeout == 0 then Refused else Waiting
      ensures receivers == if timeout == 0 then old(receivers) else InsertAt(old(receivers), at, t)
    {
      if timeout == 0 {
        Ran(receivers, wokenReceivers, 0, t, 0);
        r := Refused;
      } else {
        Slept(receivers, wokenReceivers, at, t);
        receivers := InsertAt(receivers, at, t);
        r := Waiting;
      }
      wokenReceivers := Without(wokenReceivers, t);
    }

    /** With a message: `t`, woken for it or not, takes it. */
    method TakeMessage(t: nat) returns (n: nat)
      requires Valid() && entry > 0
      modifies this`head, this`tail, this`entry, this`queue, this`place, this`wokenReceivers, this`urgent
      ensures Valid() && old(queue) != [] && n == old(queue)[0] < |place| && old(place)[n] == Queued && place == old(place)[n := Held]
      ensures urgent == (old(urgent) && queue != []) && wokenReceivers == Without(old(wokenReceivers), t)
      ensures msgs[n] == old(Contents(msgs, queue))[0] && Contents(msgs, queue) == old(Contents(msgs, queue))[1..]
    {
      Ran(receivers, wokenReceivers, entry, t, entry - 1);
      n := Dequeue();
      wokenReceivers := Without(wokenReceivers, t);
    }

    /** One turn of the receive loop by the running thread `t`: it takes the first message, waits, or gives up. */
    method ReceiveBegin(t: nat, timeout: int, at: nat) returns (r: Turn)
      requires Valid() && t !in receivers && at <= |receivers|
      modifies this`head, this`tail, this`entry, this`queue, this`place, this`receivers, this`wokenReceivers, this`urgent
      ensures Valid() && wokenReceivers == Without(old(wokenReceivers), t)
      ensures r == if old(queue) != [] then Got(old(queue)[0]) else if timeout == 0 then Refused else Waiting
      ensures r.Got? ==> r.node < |place| && old(place)[r.node] == Queued && place == old(place)[r.node := Held]
      ensures r.Got? ==> msgs[r.node] == old(Contents(msgs, queue))[0] && Contents(msgs, queue) == old(Contents(msgs, queue))[1..]
      ensures !r.Got? ==> place == old(place) && queue == old(queue)
      ensures receivers == if r.Waiting? then InsertAt(old(receivers), at, t) else old(receivers)
      ensures urgent == (old(urgent) && (r.Got? ==> queue != []))
    {
      if entry == 0 {
        r := WaitToReceive(t, timeout, at);
      } else {
        var n := TakeMessage(t);
        r := Got(n);
      }
    }

    /** Outside the lock, as much of the message as fits is copied out. */
    method Copy(n: nat, size: nat) returns (data: seq<bv8>, prio: int)
      requires Valid() && Holding(n)
      ensures |data| == if |msgs[n].data| <= size then |msgs[n].data| else size
      ensures data <= msgs[n].data && prio == msgs[n].prio
    {
      var len := |msgs[n].data|;
      if len > size {
        len := size;
      }
      data, prio := msgs[n].data[..len], msgs[n].prio;
    }

    /** The node goes back to the free list, and a sender is woken for it. */
    method ReceiveEnd(n: nat)
      requires Valid() && Holding(n)
      modifies this`next, this`free, this`spare, this`place, this`senders, this`wokenSenders
      ensures Valid() && spare == [n] + old(spare) && place == old(place)[n := Free] && HeldKept(old(next), next, place)
      ensures senders == if old(senders) == [] then [] else old(senders)[1..]
      ensures wokenSenders == if old(senders) == [] then old(wokenSenders) else old(wokenSenders) + [old(senders)[0]]
    {
      WokeOne(senders, wokenSenders, |spare|);
      GiveFree(n);
      if senders != [] {
        senders, wokenSenders := senders[1..], wokenSenders + [senders[0]];
      }
    }

    // ----- waits that end early, and reset -----

    method ReceiverTimesOut(t: nat)
      requires Valid()
      modifies this`receivers
      ensures Valid() && receivers == Without(old(receivers), t)
    {
      TimedOut(receivers, wokenReceivers, entry, t);
      receivers := Without(receivers, t);
    }

    method SenderTimesOut(t: nat)
      requires Valid()
      modifies this`senders
      ensures Valid() && senders == Without(old(senders), t)
    {
      TimedOut(senders, wokenSenders, |spare|, t);
      senders := Without(senders, t);
    }

    method Drain()
      requires Nodes()
      modifies this`next, this`head, this`tail, this`free, this`queue, this`spare, this`place
      ensures Nodes() && queue == [] && |place| == old(|place|) && HeldKept(old(next), next, place)
      ensures Drained(old(place), place)
    {
      while head != None
        invariant Nodes() && |place| == old(|place|) && Draining(old(place), place) && HeldKept(old(next), next, place)
        decreases |queue|
      {
        var n := TakeHead();
        GiveFree(n);
      }
      NoneQueued(old(place), place);
    }

    /** Everybody is taken off both lists with an error; those woken before go on. */
    method ResetWaiting()
      requires NoneForgotten(receivers, wokenReceivers, entry) && NoneForgotten(senders, wokenSenders, |spare|)
      modifies this`receivers, this`senders
      ensures receivers == [] && senders == []
      ensures forall k :: NoneForgotten(receivers, wokenReceivers, k) && NoneForgotten(senders, wokenSenders, k)
    {
      ScatteredIs(receivers, wokenReceivers);
      ScatteredIs(senders, wokenSenders);
      receivers, senders := [], [];
      ScatteredIs(receivers, wokenReceivers);
      ScatteredIs(senders, wokenSenders);
    }

    /** Wakes everybody and frees every queued node; nodes held by others stay theirs. */
    method Reset()
      requires Valid()
      modifies this
      ensures Valid() && receivers == [] && senders == [] && queue == [] && msgs == old(msgs) && !urgent
      ensures HeldKept(old(next), next, place) && Drained(old(place), place)
    {
      ResetWaiting();
      Drain();
      urgent := false;
      entry := 0;
    }
  }
}
