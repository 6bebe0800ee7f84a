/** What a message queue delivers, and in which order, over whole runs. */
module MessageQueueModel {

  datatype Message = Message(prio: int, data: seq<bv8>)

  /** How many leading messages a message of priority `prio` goes behind: all before the first less urgent one. */
  function Ahead(c: seq<Message>, prio: int): (k: nat)
    ensures k <= |c|
    ensures forall i :: 0 <= i < k ==> c[i].prio >= prio
    ensures k < |c| ==> c[k].prio < prio
  {
    if c == [] || c[0].prio < prio then 0 else 1 + Ahead(c[1..], prio)
  }

  /** `byPrio` is whether the build orders messages by priority. */
  function Spot(byPrio: bool, c: seq<Message>, prio: int): (k: nat)
    ensures k <= |c|
  {
    if byPrio then Ahead(c, prio) else |c|
  }

  function InsertAt<T>(c: seq<T>, k: nat, m: T): seq<T>
    requires k <= |c|
  {
    c[..k] + [m] + c[k..]
  }

  function Sent(byPrio: bool, c: seq<Message>, m: Message): seq<Message>
  {
    InsertAt(c, Spot(byPrio, c, m.prio), m)
  }

  predicate InOrder(c: seq<Message>, i: nat, j: nat)
    requires i < |c| && j < |c|
  {
    c[i].prio >= c[j].prio
  }

  /** No message is queued behind a less urgent one. */
  ghost predicate Ordered(c: seq<Message>)
  {
    forall i, j :: 0 <= i < j < |c| ==> InOrder(c, i, j)
  }

  /** The messages of one priority, in order. */
  function Class(c: seq<Message>, p: int): seq<Message>
  {
    if c == [] then [] else (if c[0].prio == p then [c[0]] else []) + Class(c[1..], p)
  }

  lemma Assoc(x: seq<Message>, y: seq<Message>, z: seq<Message>)
    ensures x + (y + z) == x + y + z
    ensures y == [] || z == [] ==> x + y + z == x + z + y
  {
    if y == [] {
      assert x + y == x && x + z + y == x + z;
    } else if z == [] {
      assert x + z == x && x + y + z == x + y;
    }
  }

  lemma {:induction false} ClassConcat(a: seq<Message>, b: seq<Message>, p: int)
    ensures Class(a + b, p) == Class(a, p) + Class(b, p)
  {
    if a == [] {
      assert a + b == b;
    } else {
      assert (a + b)[1..] == a[1..] + b;
      ClassConcat(a[1..], b, p);
      Assoc(if a[0].prio == p then [a[0]] else [], Class(a[1..], p), Class(b, p));
    }
  }

  lemma {:induction false} ClassNone(c: seq<Message>, p: int)
    requires forall i :: 0 <= i < |c| ==> c[i].prio != p
    ensures Class(c, p) == []
  {
    if c != [] {
      ClassNone(c[1..], p);
    }
  }

  lemma ClassOne(m: Message, p: int)
    ensures Class([m], p) == if m.prio == p then [m] else []
  {
    assert Class([m][1..], p) == [];
  }

  /** Sending keeps the queue in priority order. */
  lemma SentOrdered(c: seq<Message>, m: Message)
    requires Ordered(c)
    ensures Ordered(Sent(true, c, m))
  {
    var k, c' := Ahead(c, m.prio), Sent(true, c, m);
    forall i, j | 0 <= i < j < |c'| ensures InOrder(c', i, j) {
      var a, b := if i < k then i else i - 1, if j < k then j else j - 1;
      if i == k {
        assert k < b ==> InOrder(c, k, b);
      } else if j != k {
        assert InOrder(c, a, b);
      }
    }
  }

  lemma NoneBehind(c: seq<Message>, k: nat, p: int)
    requires Ordered(c) && k <= |c| && (k < |c| ==> c[k].prio < p)
    ensures Class(c[k..], p) == []
  {
    var b := c[k..];
    forall i | 0 <= i < |b| ensures b[i].prio != p {
      assert b[i] == c[k + i] && (0 < i ==> InOrder(c, k, k + i));
    }
    ClassNone(b, p);
  }

  lemma ClassAmid(a: seq<Message>, m: Message, b: seq<Message>, p: int)
    requires m.prio == p ==> Class(b, p) == []
    ensures Class(a + [m] + b, p) == Class(a + b, p) + Class([m], p)
  {
    ClassConcat(a, b, p);
    ClassConcat(a + [m], b, p);
    ClassConcat(a, [m], p);
    ClassOne(m, p);
    Assoc(Class(a, p), Class([m], p), Class(b, p));
  }

  /** A message goes last among those of its own priority, and moves no message of another. */
  lemma SentClass(c: seq<Message>, m: Message, p: int)
    requires Ordered(c)
    ensures Class(Sent(true, c, m), p) == Class(c, p) + Class([m], p)
  {
    var k := Ahead(c, m.prio);
    NoneBehind(c, k, m.prio);
    ClassAmid(c[..k], m, c[k..], p);
    assert c[..k] + c[k..] == c;
  }

  lemma OrderedTail(c: seq<Message>)
    requires Ordered(c) && c != []
    ensures Ordered(c[1..]) && forall i :: 0 <= i < |c[1..]| ==> c[1..][i].prio <= c[0].prio
  {
    var c' := c[1..];
    forall i, j | 0 <= i < j < |c'| ensures InOrder(c', i, j) {
      assert InOrder(c, i + 1, j + 1);
    }
    forall i | 0 <= i < |c'| ensures c'[i].prio <= c[0].prio {
      assert InOrder(c, 0, i + 1);
    }
  }

  datatype Op = Send(msg: Message) | Urgent(msg: Message) | Receive | Reset

  /** What is queued, and what has been received so far. */
  datatype Run = Run(queued: seq<Message>, received: seq<Message>)

  function Do(byPrio: bool, r: Run, op: Op): Run
  {
    match op
    case Send(m) => r.(queued := Sent(byPrio, r.queued, m))
    case Urgent(m) => r.(queued := [m] + r.queued)
    case Receive => if r.queued == [] then r else Run(r.queued[1..], r.received + [r.queued[0]])
    case Reset => r.(queued := [])
  }

  function DoAll(byPrio: bool, r: Run, ops: seq<Op>): Run
    decreases |ops|
  {
    if ops == [] then r else DoAll(byPrio, Do(byPrio, r, ops[0]), ops[1..])
  }

  predicate Plain(op: Op)
  {
    op.Send? || op.Receive?
  }

  /** Everything sent, in the order it was sent. */
  function AllSent(ops: seq<Op>): seq<Message>
  {
    if ops == [] then [] else (if ops[0].Send? then [ops[0].msg] else []) + AllSent(ops[1..])
  }

  lemma StepInOrder(r: Run, op: Op)
    requires Plain(op)
    ensures var e := Do(false, r, op); e.received + e.queued == r.received + r.queued + (if op.Send? then [op.msg] else [])
  {
    if op.Send? {
      Assoc(r.received, r.queued, [op.msg]);
      assert Sent(false, r.queued, op.msg) == r.queued + [op.msg];
    } else if r.queued != [] {
      Assoc(r.received, [r.queued[0]], r.queued[1..]);
      assert r.queued == [r.queued[0]] + r.queued[1..];
    }
  }

  /** Without priorities: what was queued, then what was sent, comes out unchanged and in order, or is still queued. */
  lemma {:induction false} FirstInFirstOut(r: Run, ops: seq<Op>)
    requires forall i :: 0 <= i < |ops| ==> Plain(ops[i])
    ensures var e := DoAll(false, r, ops); e.received + e.queued == r.received + r.queued + AllSent(ops)
    decreases |ops|
  {
    if ops != [] {
      StepInOrder(r, ops[0]);
      FirstInFirstOut(Do(false, r, ops[0]), ops[1..]);
      Assoc(r.received + r.queued, if ops[0].Send? then [ops[0].msg] else [], AllSent(ops[1..]));
    }
  }

  lemma StepWithinPriority(r: Run, op: Op, p: int)
    requires Ordered(r.queued) && Plain(op)
    ensures var e := Do(true, r, op);
            Ordered(e.queued) && Class(e.received, p) + Class(e.queued, p) == Class(r.received, p) + Class(r.queued, p) + (if op.Send? then Class([op.msg], p) else [])
  {
    if op.Send? {
      SentOrdered(r.queued, op.msg);
      SentClass(r.queued, op.msg, p);
      Assoc(Class(r.received, p), Class(r.queued, p), Class([op.msg], p));
    } else if r.queued != [] {
      var m, rest := r.queued[0], r.queued[1..];
      OrderedTail(r.queued);
      ClassConcat(r.received, [m], p);
      assert Class(r.queued, p) == Class([m], p) + Class(rest, p) by { ClassOne(m, p); }
      Assoc(Class(r.received, p), Class([m], p), Class(rest, p));
    }
  }

  /** With priorities: the same within every priority, and the queue stays ordered. */
  lemma {:induction false} FifoWithinPriority(r: Run, ops: seq<Op>, p: int)
    requires Ordered(r.queued) && forall i :: 0 <= i < |ops| ==> Plain(ops[i])
    ensures var e := DoAll(true, r, ops);
            Ordered(e.queued) && Class(e.received, p) + Class(e.queued, p) == Class(r.received, p) + Class(r.queued, p) + Class(AllSent(ops), p)
    decreases |ops|
  {
    if ops != [] {
      StepWithinPriority(r, ops[0], p);
      FifoWithinPriority(Do(true, r, ops[0]), ops[1..], p);
      var one, rest := if ops[0].Send? then [ops[0].msg] else [], AllSent(ops[1..]);
      ClassConcat(one, rest, p);
      Assoc(Class(r.received, p) + Class(r.queued, p), Class(one, p), Class(rest, p));
    }
  }

  /** With priorities, nothing still queued is more urgent than what a receive takes. */
  lemma ReceivesMostUrgent(r: Run, ops: seq<Op>)
    requires Ordered(r.queued) && forall i :: 0 <= i < |ops| ==> Plain(ops[i])
    ensures var e := DoAll(true, r, ops);
            e.queued != [] ==> var e' := Do(true, e, Receive);
            e'.received == e.received + [e.queued[0]] && forall i :: 0 <= i < |e'.queued| ==> e'.queued[i].prio <= e.queued[0].prio
  {
    FifoWithinPriority(r, ops, 0);
    var e := DoAll(true, r, ops);
    if e.queued != [] {
      OrderedTail(e.queued);
    }
  }

  /** One urgent message, whatever priority its node happens to carry, can break the order. */
  lemma UrgentBreaksOrder(c: seq<Message>, m: Message)
    requires Ordered(c)
    ensures Ordered(Do(true, Run(c, []), Urgent(m)).queued) <==> (c == [] || c[0].prio <= m.prio)
  {
    var c' := [m] + c;
    if c != [] {
      assert InOrder(c', 0, 1) <==> c[0].prio <= m.prio;
    }
    if c == [] || c[0].prio <= m.prio {
      forall i, j | 0 <= i < j < |c'| ensures InOrder(c', i, j) {
        assert j > 1 ==> InOrder(c, if i == 0 then 0 else i - 1, j - 1);
      }
    }
  }

  lemma TwoSteps(byPrio: bool, r: Run, a: Op, b: Op)
    ensures DoAll(byPrio, r, [a, b]) == Do(byPrio, Do(byPrio, r, a), b)
  {
    var e := Do(byPrio, r, a);
    assert [a, b][1..] == [b] && [b][1..] == [];
    assert DoAll(byPrio, e, [b]) == DoAll(byPrio, Do(byPrio, e, b), []);
  }

  /** A run: a message of priority 5 is sent, then an urgent one in a node that carries priority 0. The queue is out of
      order, and a receive takes the 0 with the 5 still queued. */
  lemma UrgentOvertakes(d: seq<bv8>, u: seq<bv8>)
    ensures var e := DoAll(true, Run([], []), [Send(Message(5, d)), Urgent(Message(0, u))]);
            && e.queued == [Message(0, u), Message(5, d)] && !Ordered(e.queued)
            && Do(true, e, Receive) == Run([Message(5, d)], [Message(0, u)])
  {
    var m, n := Message(5, d), Message(0, u);
    TwoSteps(true, Run([], []), Send(m), Urgent(n));
    assert Sent(true, [], m) == [m] && [n] + [m] == [n, m];
    assert !InOrder([n, m], 0, 1);
    assert [n, m][1..] == [m] && [] + [n] == [n];
  }
}
