/** Timers ordered by wrapping 32-bit ticks. */
module TimerOrder {
  import opened Lists

  const WRAP: nat := 0x1_0000_0000
  /** RT_TICK_MAX / 2. */
  const HALF: nat := 0x7FFF_FFFF

  datatype Timer = Timer(init: nat, timeout: nat, active: bool, periodic: bool, processing: bool)

  /** 32-bit subtraction. */
  function Sub32(x: nat, y: nat): int
  {
    if x >= y then x - y else x - y + WRAP
  }

  /** The comparison of `_timer_start`: a timer at tick `t` stays behind one inserted at tick `x`. */
  predicate Later(t: nat, x: nat)
  {
    t != x && Sub32(t, x) < HALF
  }

  /** The comparison of `_timer_check`: a timer at tick `t` is due at tick `now`. */
  predicate Due(now: nat, t: nat)
  {
    Sub32(now, t) < HALF
  }

  /** Ticks counted from `b`. */
  function Key(b: nat, t: nat): int
  {
    Sub32(t, b)
  }

  /** Tick `t` lies in the window of half the tick range that starts at `b`. */
  predicate InWindow(b: nat, t: nat)
  {
    b < WRAP && t < WRAP && Key(b, t) < HALF
  }

  /** The two comparisons, on 32-bit ticks: less than half the tick range behind, and less than half ahead. */
  lemma TickTests(x: nat, y: nat)
    requires x < WRAP && y < WRAP
    ensures Due(x, y) <==> (x + WRAP - y) % WRAP < 0x7FFF_FFFF
    ensures Later(x, y) <==> 0 < (x + WRAP - y) % WRAP < 0x7FFF_FFFF
  {
    assert (x + WRAP - y) % WRAP == if x >= y then x - y else x + WRAP - y;
  }

  /** Inside a window the two comparisons are the order of ticks counted from its start. */
  lemma WindowOrder(b: nat, x: nat, y: nat)
    requires InWindow(b, x) && InWindow(b, y)
    ensures Later(x, y) <==> Key(b, x) > Key(b, y)
    ensures Due(x, y) <==> Key(b, y) <= Key(b, x)
    ensures x == y <==> Key(b, x) == Key(b, y)
  {
  }

  ghost predicate Ids(ts: seq<Timer>, row: seq<nat>)
  {
    Below(row, |ts|) && NoDup(row)
  }

  /** The row is ordered by timeout, counted from `b`, all inside the window. */
  ghost predicate Ordered(ts: seq<Timer>, b: nat, row: seq<nat>)
    requires Below(row, |ts|)
  {
    forall i, j :: 0 <= i <= j < |row| ==> OrderedAt(ts, b, row, i, j)
  }

  ghost predicate OrderedAt(ts: seq<Timer>, b: nat, row: seq<nat>, i: nat, j: nat)
    requires Below(row, |ts|) && i <= j < |row|
  {
    && InWindow(b, ts[row[i]].timeout) && InWindow(b, ts[row[j]].timeout)
    && Key(b, ts[row[i]].timeout) <= Key(b, ts[row[j]].timeout)
  }

  /** `u` put into the row in front of the first timer that is later. */
  function Insert(ts: seq<Timer>, row: seq<nat>, u: nat): seq<nat>
    requires Below(row, |ts|) && u < |ts|
  {
    if row == [] || Later(ts[row[0]].timeout, ts[u].timeout) then [u] + row
    else [row[0]] + Insert(ts, row[1..], u)
  }

  /** `a` is `b` with some timers left out. */
  predicate Thins(a: seq<nat>, b: seq<nat>)
  {
    if b == [] then a == []
    else if a != [] && a[0] == b[0] then Thins(a[1..], b[1..])
    else Thins(a, b[1..])
  }

  // ----- where an insertion lands -----

  /** In an ordered row a timer lands behind all that are not later and in front of all that are. */
  lemma {:induction false} InsertAt(ts: seq<Timer>, row: seq<nat>, u: nat, p: nat)
    requires Below(row, |ts|) && u < |ts| && p <= |row|
    requires forall i :: 0 <= i < p ==> !Later(ts[row[i]].timeout, ts[u].timeout)
    requires p < |row| ==> Later(ts[row[p]].timeout, ts[u].timeout)
    ensures Insert(ts, row, u) == row[..p] + [u] + row[p..]
  {
    if p > 0 {
      InsertAt(ts, row[1..], u, p - 1);
      assert row[..p] == [row[0]] + row[1..][..p - 1] && row[1..][p - 1..] == row[p..];
    }
  }

  lemma {:induction false} InsertIds(ts: seq<Timer>, row: seq<nat>, u: nat)
    requires Ids(ts, row) && u < |ts| && u !in row
    ensures Ids(ts, Insert(ts, row, u)) && forall v :: v in Insert(ts, row, u) <==> v in row || v == u
  {
    if row == [] || Later(ts[row[0]].timeout, ts[u].timeout) {
      NoDupCons(u, row);
    } else {
      NoDupTail(row);
      InsertIds(ts, row[1..], u);
      NoDupCons(row[0], Insert(ts, row[1..], u));
    }
  }

  lemma {:induction false} InsertOrdered(ts: seq<Timer>, b: nat, row: seq<nat>, u: nat)
    requires Ids(ts, row) && Ordered(ts, b, row) && u < |ts| && u !in row && InWindow(b, ts[u].timeout)
    ensures Below(Insert(ts, row, u), |ts|) && Ordered(ts, b, Insert(ts, row, u))
    ensures row != [] && Key(b, ts[row[0]].timeout) <= Key(b, ts[u].timeout) ==> Insert(ts, row, u)[0] == row[0]
  {
    InsertIds(ts, row, u);
    if row == [] {
    } else if Later(ts[row[0]].timeout, ts[u].timeout) {
      assert OrderedAt(ts, b, row, 0, 0);
      WindowOrder(b, ts[row[0]].timeout, ts[u].timeout);
      forall j | 0 <= j < |row| ensures InWindow(b, ts[row[j]].timeout) && Key(b, ts[u].timeout) <= Key(b, ts[row[j]].timeout) {
        assert OrderedAt(ts, b, row, 0, j);
      }
      OrderedCons(ts, b, u, row);
    } else {
      assert OrderedAt(ts, b, row, 0, 0);
      WindowOrder(b, ts[row[0]].timeout, ts[u].timeout);
      NoDupTail(row);
      OrderedTail(ts, b, row);
      InsertOrdered(ts, b, row[1..], u);
      var rest := Insert(ts, row[1..], u);
      InsertIds(ts, row[1..], u);
      forall j | 0 <= j < |rest| ensures InWindow(b, ts[rest[j]].timeout) && Key(b, ts[row[0]].timeout) <= Key(b, ts[rest[j]].timeout) {
        assert rest[j] in rest;
        if rest[j] != u {
          var i :| 0 <= i < |row[1..]| && row[1..][i] == rest[j];
          assert OrderedAt(ts, b, row, 0, i + 1);
        }
      }
      OrderedCons(ts, b, row[0], rest);
    }
  }

  lemma OrderedTail(ts: seq<Timer>, b: nat, row: seq<nat>)
    requires Below(row, |ts|) && Ordered(ts, b, row) && row != []
    ensures Ordered(ts, b, row[1..])
  {
    forall i, j | 0 <= i <= j < |row[1..]| ensures OrderedAt(ts, b, row[1..], i, j) {
      assert OrderedAt(ts, b, row, i + 1, j + 1);
    }
  }

  lemma OrderedCons(ts: seq<Timer>, b: nat, v: nat, row: seq<nat>)
    requires Below(row, |ts|) && Ordered(ts, b, row) && v < |ts| && InWindow(b, ts[v].timeout)
    requires forall j :: 0 <= j < |row| ==> InWindow(b, ts[row[j]].timeout) && Key(b, ts[v].timeout) <= Key(b, ts[row[j]].timeout)
    ensures Ordered(ts, b, [v] + row)
  {
    var row' := [v] + row;
    forall i, j | 0 <= i <= j < |row'| ensures OrderedAt(ts, b, row', i, j) {
      if i > 0 { assert OrderedAt(ts, b, row, i - 1, j - 1); } else if j > 0 { assert row'[j] == row[j - 1]; }
    }
  }

  /** Everybody else keeps its place. */
  lemma {:induction false} InsertWithout(ts: seq<Timer>, row: seq<nat>, u: nat)
    requires Ids(ts, row) && u < |ts| && u !in row
    ensures Without(Insert(ts, row, u), u) == row
  {
    if row != [] && !Later(ts[row[0]].timeout, ts[u].timeout) {
      NoDupTail(row);
      InsertWithout(ts, row[1..], u);
    }
  }

  // ----- thinner rows -----

  lemma {:induction false} ThinsMembers(a: seq<nat>, b: seq<nat>, v: nat)
    requires Thins(a, b) && v in a
    ensures v in b
  {
    if a[0] == b[0] {
      if v != a[0] { ThinsMembers(a[1..], b[1..], v); }
    } else {
      ThinsMembers(a, b[1..], v);
    }
  }

  /** Behind a later timer all are later. */
  lemma LaterToo(ts: seq<Timer>, b: nat, row: seq<nat>, u: nat, v: nat)
    requires Below(row, |ts|) && Ordered(ts, b, row) && u < |ts| && InWindow(b, ts[u].timeout) && v in row
    requires Later(ts[row[0]].timeout, ts[u].timeout)
    ensures Later(ts[v].timeout, ts[u].timeout)
  {
    var j :| 0 <= j < |row| && row[j] == v;
    assert OrderedAt(ts, b, row, 0, j);
    WindowOrder(b, ts[row[0]].timeout, ts[u].timeout);
    WindowOrder(b, ts[row[j]].timeout, ts[u].timeout);
  }

  /** Inserting into both rows, or only into the fuller one, keeps one thinner than the other. */
  lemma {:induction false} InsertThins(ts: seq<Timer>, b: nat, a: seq<nat>, row: seq<nat>, u: nat)
    requires Ids(ts, row) && Ordered(ts, b, row) && u < |ts| && u !in row && InWindow(b, ts[u].timeout)
    requires Thins(a, row) && Below(a, |ts|)
    ensures Thins(Insert(ts, a, u), Insert(ts, row, u)) && Thins(a, Insert(ts, row, u))
  {
    if row != [] {
      NoDupTail(row);
      OrderedTail(ts, b, row);
      if Later(ts[row[0]].timeout, ts[u].timeout) {
        if a != [] {
          ThinsMembers(a, row, a[0]);
          LaterToo(ts, b, row, u, a[0]);
        }
        assert ([u] + row)[1..] == row && ([u] + a)[1..] == a;
      } else if a != [] && a[0] == row[0] {
        InsertThins(ts, b, a[1..], row[1..], u);
        assert ([a[0]] + Insert(ts, a[1..], u))[1..] == Insert(ts, a[1..], u);
        assert ([row[0]] + Insert(ts, row[1..], u))[1..] == Insert(ts, row[1..], u);
      } else {
        InsertThins(ts, b, a, row[1..], u);
        assert ([row[0]] + Insert(ts, row[1..], u))[1..] == Insert(ts, row[1..], u);
      }
    }
  }

  lemma {:induction false} WithoutIn(s: seq<nat>, u: nat, v: nat)
    requires v in Without(s, u)
    ensures v in s
  {
    if s[0] != u && v != s[0] { WithoutIn(s[1..], u, v); }
  }

  lemma {:induction false} WithoutThins(a: seq<nat>, b: seq<nat>, u: nat)
    requires Thins(a, b) && NoDup(b)
    ensures Thins(Without(a, u), Without(b, u))
  {
    if b != [] {
      NoDupTail(b);
      if a != [] && a[0] == b[0] {
        WithoutThins(a[1..], b[1..], u);
      } else {
        WithoutThins(a, b[1..], u);
        if b[0] == u {
          if u in a { ThinsMembers(a, b[1..], u); }
          WithoutSame(a, u);
        } else if Without(a, u) != [] {
          WithoutIn(a, u, Without(a, u)[0]);
          ThinsMembers(a, b[1..], Without(a, u)[0]);
        }
      }
    }
  }

  lemma {:induction false} ThinsIds(ts: seq<Timer>, a: seq<nat>, b: seq<nat>)
    requires Thins(a, b) && Ids(ts, b)
    ensures Ids(ts, a)
  {
    if b != [] {
      NoDupTail(b);
      if a != [] && a[0] == b[0] {
        ThinsIds(ts, a[1..], b[1..]);
        if a[0] in a[1..] { ThinsMembers(a[1..], b[1..], a[0]); }
        NoDupCons(a[0], a[1..]);
        assert a == [a[0]] + a[1..];
      } else {
        ThinsIds(ts, a, b[1..]);
      }
    }
  }

  lemma {:induction false} ThinsOrdered(ts: seq<Timer>, k: nat, a: seq<nat>, b: seq<nat>)
    requires Thins(a, b) && Ids(ts, b) && Ordered(ts, k, b)
    ensures Below(a, |ts|) && Ordered(ts, k, a)
  {
    ThinsIds(ts, a, b);
    if b != [] {
      NoDupTail(b);
      OrderedTail(ts, k, b);
      if a != [] && a[0] == b[0] {
        ThinsOrdered(ts, k, a[1..], b[1..]);
        var rest := a[1..];
        forall j | 0 <= j < |rest| ensures InWindow(k, ts[rest[j]].timeout) && Key(k, ts[a[0]].timeout) <= Key(k, ts[rest[j]].timeout) {
          ThinsMembers(rest, b[1..], rest[j]);
          var i :| 0 <= i < |b[1..]| && b[1..][i] == rest[j];
          assert OrderedAt(ts, k, b, 0, i + 1);
        }
        assert OrderedAt(ts, k, b, 0, 0) && a == [a[0]] + rest;
        OrderedCons(ts, k, a[0], rest);
      } else {
        ThinsOrdered(ts, k, a, b[1..]);
      }
    }
  }

  lemma {:induction false} WithoutOrdered(ts: seq<Timer>, b: nat, row: seq<nat>, u: nat)
    requires Ids(ts, row) && Ordered(ts, b, row)
    ensures Ids(ts, Without(row, u)) && Ordered(ts, b, Without(row, u))
  {
    WithoutItself(row, u);
    ThinsOrdered(ts, b, Without(row, u), row);
    ThinsIds(ts, Without(row, u), row);
  }

  lemma {:induction false} WithoutItself(row: seq<nat>, u: nat)
    requires NoDup(row)
    ensures Thins(Without(row, u), row)
  {
    if row != [] {
      NoDupTail(row);
      if row[0] == u {
        ThinsSelf(row[1..]);
      } else {
        WithoutItself(row[1..], u);
      }
    }
  }

  lemma {:induction false} ThinsSelf(row: seq<nat>)
    ensures Thins(row, row)
  {
    if row != [] { ThinsSelf(row[1..]); }
  }

  /** Only timeouts matter for where a timer lands. */
  lemma {:induction false} InsertSame(ts: seq<Timer>, ts': seq<Timer>, row: seq<nat>, u: nat)
    requires Below(row, |ts|) && u < |ts| == |ts'| && forall v :: 0 <= v < |ts| ==> ts'[v].timeout == ts[v].timeout
    ensures Insert(ts', row, u) == Insert(ts, row, u)
  {
    if row != [] { InsertSame(ts, ts', row[1..], u); }
  }
}
