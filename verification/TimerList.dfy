/** The timer skip list, changed in place, proved against one ordered row. */
module TimerList {
  import opened Lists
  import opened TimerOrder
  import opened TimerModel
  import opened TimerCheck
  import opened TimerRuns

  ghost predicate ThinAt(rows: seq<seq<nat>>, i: nat)
    requires i + 1 < |rows|
  {
    Thins(rows[i], rows[i + 1])
  }

  /** Every row leaves out some timers of the row below; the last row has them all. */
  ghost predicate RowsOk(ts: seq<Timer>, rows: seq<seq<nat>>)
  {
    && rows != [] && Ids(ts, rows[|rows| - 1])
    && forall i :: 0 <= i < |rows| - 1 ==> ThinAt(rows, i)
  }

  ghost predicate Sorted(ts: seq<Timer>, b: nat, rows: seq<seq<nat>>)
  {
    RowsOk(ts, rows) && Ordered(ts, b, rows[|rows| - 1])
  }

  /** A row thins every row below it. */
  lemma {:induction false} RowThins(ts: seq<Timer>, rows: seq<seq<nat>>, i: nat, j: nat)
    requires RowsOk(ts, rows) && i <= j < |rows|
    ensures Thins(rows[i], rows[j])
    decreases j - i
  {
    if i == j {
      ThinsSelf(rows[i]);
    } else {
      RowThins(ts, rows, i, j - 1);
      assert ThinAt(rows, j - 1);
      ThinsTrans(rows[i], rows[j - 1], rows[j]);
    }
  }

  lemma RowIds(ts: seq<Timer>, rows: seq<seq<nat>>, i: nat)
    requires RowsOk(ts, rows) && i < |rows|
    ensures Ids(ts, rows[i])
  {
    RowThins(ts, rows, i, |rows| - 1);
    ThinsIds(ts, rows[i], rows[|rows| - 1]);
  }

  /** Every row is ordered when the last one is. */
  lemma RowOrdered(ts: seq<Timer>, b: nat, rows: seq<seq<nat>>, i: nat)
    requires RowsOk(ts, rows) && Ordered(ts, b, rows[|rows| - 1]) && i < |rows|
    ensures Ids(ts, rows[i]) && Ordered(ts, b, rows[i])
  {
    RowIds(ts, rows, i);
    RowThins(ts, rows, i, |rows| - 1);
    ThinsOrdered(ts, b, rows[i], rows[|rows| - 1]);
  }

  /** Changing a timer that is not pending, or not its timeout, leaves the rows in order. */
  lemma RowsKept(ts: seq<Timer>, b: nat, rows: seq<seq<nat>>, u: nat, x: Timer)
    requires RowsOk(ts, rows) && Ordered(ts, b, rows[|rows| - 1]) && u < |ts|
    requires u !in rows[|rows| - 1] || x.timeout == ts[u].timeout
    ensures RowsOk(ts[u := x], rows) && Ordered(ts[u := x], b, rows[|rows| - 1])
  {
    var ts', row := ts[u := x], rows[|rows| - 1];
    forall i | 0 <= i < |row| ensures ts'[row[i]].timeout == ts[row[i]].timeout { assert row[i] in row; }
    OrderedSame(ts, ts', b, row);
  }

  /** The first `n` rows without `u`. */
  function Removed(rows: seq<seq<nat>>, u: nat, n: nat): (r: seq<seq<nat>>)
    requires n <= |rows|
    ensures |r| == |rows| && forall i :: 0 <= i < |rows| ==> r[i] == if i < n then Without(rows[i], u) else rows[i]
  {
    seq(|rows|, i requires 0 <= i < |rows| => if i < n then Without(rows[i], u) else rows[i])
  }

  lemma RemovedOk(ts: seq<Timer>, rows: seq<seq<nat>>, u: nat)
    requires RowsOk(ts, rows)
    ensures RowsOk(ts, Removed(rows, u, |rows|)) && u !in Removed(rows, u, |rows|)[|rows| - 1]
  {
    var rows' := Removed(rows, u, |rows|);
    WithoutMembers(rows[|rows| - 1], u);
    WithoutBelow(rows[|rows| - 1], u, |ts|);
    forall i | 0 <= i < |rows| - 1 ensures ThinAt(rows', i) {
      assert ThinAt(rows, i);
      RowIds(ts, rows, i + 1);
      WithoutThins(rows[i], rows[i + 1], u);
    }
  }

  /** The first `p` timers of the row are not later than `u`. */
  ghost predicate Passed(ts: seq<Timer>, row: seq<nat>, u: nat, p: nat)
  {
    && Below(row, |ts|) && u < |ts| && p <= |row|
    && forall i :: 0 <= i < p ==> !Later(ts[row[i]].timeout, ts[u].timeout)
  }

  /** `x >> n`, one bit at a time. */
  function Shr(x: bv32, n: nat): bv32
    decreases n
  {
    if n == 0 then x else Shr(x >> 1, n - 1)
  }

  predicate MaskedOut(x: bv32, mask: bv32)
  {
    x & mask == 0
  }

  /** How many of at most `n` rows above the last one a timer joins: one for each group of counter bits that is clear. */
  function Climb(tst: bv32, mask: bv32, shift: nat, n: nat): (k: nat)
    ensures k <= n
    decreases n
  {
    if n == 0 || !MaskedOut(tst, mask) then 0 else 1 + Climb(Shr(tst, shift), mask, shift, n - 1)
  }

  /** The counter with its first `j` groups of bits shifted out. */
  function Left(tst: bv32, shift: nat, j: nat): bv32
    decreases j
  {
    if j == 0 then tst else Left(Shr(tst, shift), shift, j - 1)
  }

  /** The groups of counter bits before the number of rows joined are clear, and the next one, if there is a row for it, is not. */
  lemma {:induction false} ClimbIs(tst: bv32, mask: bv32, shift: nat, n: nat)
    ensures var k := Climb(tst, mask, shift, n);
            && (forall j :: 0 <= j < k ==> MaskedOut(Left(tst, shift, j), mask))
            && (k < n ==> !MaskedOut(Left(tst, shift, k), mask))
    decreases n
  {
    if n > 0 && MaskedOut(tst, mask) {
      var x, k := Shr(tst, shift), Climb(tst, mask, shift, n);
      ClimbIs(x, mask, shift, n - 1);
      forall j | 0 <= j < k ensures MaskedOut(Left(tst, shift, j), mask) {
        assert j > 0 ==> Left(tst, shift, j) == Left(x, shift, j - 1);
      }
      assert Left(tst, shift, k) == Left(x, shift, k - 1);
    }
  }

  /** `p` timers of the row are not later than `u`, and those behind them are. */
  ghost predicate Place(ts: seq<Timer>, row: seq<nat>, u: nat, p: nat)
  {
    Passed(ts, row, u, p) && (p < |row| ==> Later(ts[row[p]].timeout, ts[u].timeout))
  }

  ghost predicate PlaceAt(ts: seq<Timer>, rows: seq<seq<nat>>, u: nat, place: seq<nat>, i: nat)
    requires i < |rows| && i < |place|
  {
    Place(ts, rows[i], u, place[i])
  }

  /** `u` inserted into the rows from `h` on. */
  function Inserted(ts: seq<Timer>, rows: seq<seq<nat>>, u: nat, h: nat): (r: seq<seq<nat>>)
    requires u < |ts| && RowsOk(ts, rows)
    ensures |r| == |rows|
  {
    AllIds(ts, rows);
    seq(|rows|, i requires 0 <= i < |rows| => if i >= h then Insert(ts, rows[i], u) else rows[i])
  }

  lemma InsertedAt(ts: seq<Timer>, rows: seq<seq<nat>>, u: nat, h: nat, i: nat)
    requires u < |ts| && RowsOk(ts, rows) && i < |rows|
    ensures Below(rows[i], |ts|) && Inserted(ts, rows, u, h)[i] == if i >= h then Insert(ts, rows[i], u) else rows[i]
  {
    AllIds(ts, rows);
  }

  lemma InsertedNone(ts: seq<Timer>, rows: seq<seq<nat>>, u: nat)
    requires u < |ts| && RowsOk(ts, rows)
    ensures Inserted(ts, rows, u, |rows|) == rows
  {
    var rows' := Inserted(ts, rows, u, |rows|);
    forall i | 0 <= i < |rows| ensures rows'[i] == rows[i] {
      InsertedAt(ts, rows, u, |rows|, i);
    }
  }

  /** One more row gets `u`, at its place. */
  lemma InsertedRow(ts: seq<Timer>, rows: seq<seq<nat>>, u: nat, r: nat, p: nat)
    requires u < |ts| && RowsOk(ts, rows) && r < |rows| && Place(ts, rows[r], u, p)
    ensures Inserted(ts, rows, u, r + 1)[r] == rows[r]
    ensures Inserted(ts, rows, u, r) == Inserted(ts, rows, u, r + 1)[r := rows[r][..p] + [u] + rows[r][p..]]
  {
    var a, b := Inserted(ts, rows, u, r), Inserted(ts, rows, u, r + 1);
    InsertedAt(ts, rows, u, r + 1, r);
    InsertAt(ts, rows[r], u, p);
    forall i | 0 <= i < |rows| ensures a[i] == if i == r then Insert(ts, rows[r], u) else b[i] {
      InsertedAt(ts, rows, u, r, i);
      InsertedAt(ts, rows, u, r + 1, i);
    }
  }

  lemma AllIds(ts: seq<Timer>, rows: seq<seq<nat>>)
    requires RowsOk(ts, rows)
    ensures forall i :: 0 <= i < |rows| ==> Below(rows[i], |ts|)
  {
    forall i | 0 <= i < |rows| ensures Below(rows[i], |ts|) { RowIds(ts, rows, i); }
  }

  lemma RowLacks(ts: seq<Timer>, rows: seq<seq<nat>>, u: nat, i: nat)
    requires RowsOk(ts, rows) && i < |rows| && u !in rows[|rows| - 1]
    ensures u !in rows[i]
  {
    RowThins(ts, rows, i, |rows| - 1);
    if u in rows[i] {
      ThinsMembers(rows[i], rows[|rows| - 1], u);
    }
  }

  lemma InsertedThin(ts: seq<Timer>, b: nat, rows: seq<seq<nat>>, u: nat, h: nat, i: nat)
    requires RowsOk(ts, rows) && Ordered(ts, b, rows[|rows| - 1]) && u < |ts| && InWindow(b, ts[u].timeout)
    requires i + 1 < |rows| && u !in rows[|rows| - 1]
    ensures ThinAt(Inserted(ts, rows, u, h), i)
  {
    assert ThinAt(rows, i);
    RowIds(ts, rows, i);
    RowOrdered(ts, b, rows, i + 1);
    RowLacks(ts, rows, u, i + 1);
    InsertedAt(ts, rows, u, h, i);
    InsertedAt(ts, rows, u, h, i + 1);
    InsertThins(ts, b, rows[i], rows[i + 1], u);
  }

  lemma InsertedLast(ts: seq<Timer>, b: nat, rows: seq<seq<nat>>, row: seq<nat>, u: nat, row': seq<nat>)
    requires Sorted(ts, b, rows) && row == rows[|rows| - 1] && u < |ts| && InWindow(b, ts[u].timeout) && u !in row
    requires Below(row, |ts|) && row' == Insert(ts, row, u)
    ensures Ids(ts, row') && Below(row', |ts|) && Ordered(ts, b, row')
  {
    InsertIds(ts, row, u);
    InsertOrdered(ts, b, row, u);
  }

  lemma InsertedThins(ts: seq<Timer>, b: nat, rows: seq<seq<nat>>, u: nat, h: nat, rows': seq<seq<nat>>)
    requires Sorted(ts, b, rows) && u < |ts| && InWindow(b, ts[u].timeout)
    requires h < |rows| && u !in rows[|rows| - 1] && rows' == Inserted(ts, rows, u, h)
    ensures |rows'| == |rows| && forall i :: 0 <= i < |rows'| - 1 ==> ThinAt(rows', i)
  {
    forall i | 0 <= i < |rows'| - 1 ensures ThinAt(rows', i) {
      InsertedThin(ts, b, rows, u, h, i);
    }
  }

  lemma SortedFrom(ts: seq<Timer>, b: nat, rows: seq<seq<nat>>, row: seq<nat>)
    requires rows != [] && row == rows[|rows| - 1] && Ids(ts, row) && Ordered(ts, b, row)
    requires forall i :: 0 <= i < |rows| - 1 ==> ThinAt(rows, i)
    ensures Sorted(ts, b, rows)
  {
  }

  lemma InsertedSorted(ts: seq<Timer>, b: nat, rows: seq<seq<nat>>, u: nat, h: nat, rows': seq<seq<nat>>, row: seq<nat>, row': seq<nat>)
    requires Sorted(ts, b, rows) && u < |ts| && InWindow(b, ts[u].timeout)
    requires h < |rows| && row == rows[|rows| - 1] && u !in row && rows' == Inserted(ts, rows, u, h) && row' == rows'[|rows| - 1]
    requires Below(row, |ts|) && row' == Insert(ts, row, u)
    ensures Sorted(ts, b, rows')
  {
    InsertedThins(ts, b, rows, u, h, rows');
    InsertedLast(ts, b, rows, row, u, row');
    SortedFrom(ts, b, rows', row');
  }

  lemma InsertedOk(ts: seq<Timer>, b: nat, rows: seq<seq<nat>>, u: nat, h: nat, rows': seq<seq<nat>>, row: seq<nat>, row': seq<nat>)
    requires Sorted(ts, b, rows) && u < |ts| && InWindow(b, ts[u].timeout)
    requires h < |rows| && row == rows[|rows| - 1] && u !in row && rows' == Inserted(ts, rows, u, h) && row' == rows'[|rows| - 1]
    ensures |rows'| == |rows| && Sorted(ts, b, rows')
    ensures Below(row, |ts|) && row' == Insert(ts, row, u)
  {
    InsertedAt(ts, rows, u, h, |rows| - 1);
    InsertedSorted(ts, b, rows, u, h, rows', row, row');
  }

  /** Going down a row at a timer that is passed, everything before it is passed too. */
  lemma PassedBefore(ts: seq<Timer>, b: nat, row: seq<nat>, u: nat, p: nat, i: nat)
    requires Below(row, |ts|) && Ordered(ts, b, row) && u < |ts| && InWindow(b, ts[u].timeout) && i <= p < |row|
    requires !Later(ts[row[p]].timeout, ts[u].timeout)
    ensures !Later(ts[row[i]].timeout, ts[u].timeout)
  {
    assert OrderedAt(ts, b, row, i, p);
    WindowOrder(b, ts[row[p]].timeout, ts[u].timeout);
    WindowOrder(b, ts[row[i]].timeout, ts[u].timeout);
  }

  /** A start sets the active flag whatever it was. */
  lemma StartAnew(s: State, now: nat, u: nat)
    requires Fits(s) && u < |s.ts|
    ensures !s.ts[u].processing ==>
              StartTimer(SetTimer(s, u, s.ts[u].(active := false)), now, u) == StartTimer(s, now, u)
  {
    var s1 := SetTimer(s, u, s.ts[u].(active := false));
    var x := s.ts[u].(active := true, timeout := (now + s.ts[u].init) % WRAP);
    assert s1.ts[u := x] == s.ts[u := x];
  }

  /** The outcome of a check that goes on after `fired`. */
  ghost function Ahead(fired: seq<nat>, rest: (State, seq<nat>)): (State, seq<nat>)
  {
    (rest.0, fired + rest.1)
  }

  lemma AheadStarts(s: State, now: nat, scripts: seq<seq<Act>>)
    requires Fits(s) && forall i :: 0 <= i < |scripts| ==> ActsIn(scripts[i], |s.ts|)
    ensures scripts[0..] == scripts && Ahead([], Check(s, now, scripts)) == Check(s, now, scripts)
  {
    var rest := Check(s, now, scripts);
    assert [] + rest.1 == rest.1;
  }

  lemma AheadEnds(s: State, now: nat, scripts: seq<seq<Act>>, fired: seq<nat>)
    requires Fits(s) && forall i :: 0 <= i < |scripts| ==> ActsIn(scripts[i], |s.ts|)
    requires s.row == [] || !Due(now, s.ts[s.row[0]].timeout)
    ensures Ahead(fired, Check(s, now, scripts)) == (s, fired)
  {
    assert fired + [] == fired;
  }

  /** Before a turn of a check: a fair callback for each timer that is due. */
  ghost predicate LoopOk(b: nat, now: nat, s: State, scripts: seq<seq<Act>>)
  {
    During(b, now, s, None) && FairRunOk(b, now, s, scripts) && |DueList(s.ts, now, s.row)| <= |scripts|
  }

  /** One turn of a check, as its loop sees it. */
  lemma TurnKeeps(b: nat, now: nat, s: State, scripts: seq<seq<Act>>, fired: seq<nat>)
    requires LoopOk(b, now, s, scripts) && s.row != [] && Due(now, s.ts[s.row[0]].timeout)
    ensures scripts != [] && ActsIn(scripts[0], |s.ts|) && Fits(Begin(s)) && FairAll(b, now, Begin(s), scripts[0])
    ensures var s' := Fire(s, now, scripts[0]);
            && LoopOk(b, now, s', scripts[1..]) && |s'.ts| == |s.ts|
            && |DueList(s'.ts, now, s'.row)| < |DueList(s.ts, now, s.row)|
            && Ahead(fired, Check(s, now, scripts)) == Ahead(fired + [s.row[0]], Check(s', now, scripts[1..]))
  {
    DueHead(b, now, s.ts, s.row);
    BeginFits(s);
    BeginKeeps(b, now, s);
    FireFits(s, now, scripts[0]);
    FireKeeps(b, now, s, scripts[0]);
    UnmentionedShorter(DueList(s.ts, now, s.row)[1..], scripts[0]);
    assert forall i :: 0 <= i < |scripts[1..]| ==> scripts[1..][i] == scripts[i + 1];
    var rest := Check(Fire(s, now, scripts[0]), now, scripts[1..]).1;
    assert fired + ([s.row[0]] + rest) == fired + [s.row[0]] + rest;
  }

  class TimerList {
    const mask: bv32
    const shift: nat
    var ts: seq<Timer>
    var rows: seq<seq<nat>>
    /** The list on the stack of a check: the timer whose callback runs. */
    var held: seq<nat>
    /** `random_nr`. */
    var counter: bv32

    ghost function Abs(): State
      requires rows != []
      reads this
    {
      State(ts, rows[|rows| - 1], held)
    }

    ghost predicate Valid(b: nat)
      reads this
    {
      rows != [] && Sorted(ts, b, rows) && Below(held, |ts|)
    }

    /** `rt_system_timer_init` and `_timer_init` of `n` timers, for any number of rows. */
    constructor (levels: nat, mask: bv32, shift: nat, inits: seq<nat>, periodic: seq<bool>)
      requires levels > 0 && |periodic| == |inits|
      ensures forall b :: Valid(b)
      ensures |ts| == |inits| && rows == seq(levels, _ => []) && held == []
      ensures forall u :: 0 <= u < |ts| ==> ts[u] == Timer(inits[u], 0, false, periodic[u], false)
    {
      this.mask := mask;
      this.shift := shift;
      ts := seq(|inits|, u requires 0 <= u < |inits| => Timer(inits[u], 0, false, periodic[u], false));
      rows := seq(levels, _ => []);
      held := [];
      counter := 0;
    }

    /** `_timer_remove`. */
    method Remove(u: nat)
      requires rows != []
      modifies `rows, `held
      ensures rows == Removed(old(rows), u, |old(rows)|) && held == Without(old(held), u)
    {
      for i := 0 to |rows|
        invariant rows == Removed(old(rows), u, i) && held == old(held)
      {
        rows := rows[i := Without<nat>(rows[i], u)];
      }
      held := Without<nat>(held, u);
    }

    /** The search of `_timer_start`: down the rows, in each from the timer found in the row above. */
    method Search(u: nat, ghost b: nat) returns (place: seq<nat>)
      requires Valid(b) && u < |ts| && InWindow(b, ts[u].timeout)
      ensures |place| == |rows|
      ensures forall i :: 0 <= i < |rows| ==> PlaceAt(ts, rows, u, place, i)
    {
      RowOrdered(ts, b, rows, 0);
      place := [];
      var p: nat := 0;
      var lvl := 0;
      while lvl < |rows|
        invariant lvl <= |rows| && |place| == lvl
        invariant forall i :: 0 <= i < lvl ==> PlaceAt(ts, rows, u, place, i)
        invariant lvl < |rows| ==> Passed(ts, rows[lvl], u, p)
      {
        while p < |rows[lvl]| && !Later(ts[rows[lvl][p]].timeout, ts[u].timeout)
          invariant Passed(ts, rows[lvl], u, p)
        {
          p := p + 1;
        }
        ghost var above := place;
        place := place + [p];
        forall i | 0 <= i <= lvl ensures PlaceAt(ts, rows, u, place, i) {
          assert i < lvl ==> PlaceAt(ts, rows, u, above, i);
        }
        if lvl + 1 < |rows| {
          p := Descend(lvl, p, u, b);
        }
        lvl := lvl + 1;
      }
    }

    /** From the timer in front of place `p` of row `lvl` to the same timer in the row below. */
    method Descend(lvl: nat, p: nat, u: nat, ghost b: nat) returns (q: nat)
      requires Valid(b) && u < |ts| && InWindow(b, ts[u].timeout) && lvl + 1 < |rows|
      requires Passed(ts, rows[lvl], u, p)
      ensures Passed(ts, rows[lvl + 1], u, q)
    {
      RowOrdered(ts, b, rows, lvl + 1);
      if p == 0 { return 0; }
      var x, row := rows[lvl][p - 1], rows[lvl + 1];
      assert ThinAt(rows, lvl);
      ThinsMembers(rows[lvl], row, x);
      q := IndexOf<nat>(row, x) + 1;
      forall i | 0 <= i < q ensures !Later(ts[row[i]].timeout, ts[u].timeout) {
        PassedBefore(ts, b, row, u, q - 1, i);
      }
    }

    /** Linking `u` into one more row. */
    method LinkRow(ghost was: seq<seq<nat>>, u: nat, place: seq<nat>, r: nat)
      requires RowsOk(ts, was) && u < |ts| && r < |was| == |place| && PlaceAt(ts, was, u, place, r)
      requires rows == Inserted(ts, was, u, r + 1)
      modifies `rows
      ensures rows == Inserted(ts, was, u, r)
    {
      InsertedRow(ts, was, u, r, place[r]);
      rows := rows[r := rows[r][..place[r]] + [u] + rows[r][place[r]..]];
    }

    /** How many of `n` rows above the last the bits of the next counter value give. */
    method RowsToJoin(n: nat) returns (k: nat)
      modifies `counter
      ensures counter == old(counter) + 1 && k == Climb(counter, mask, shift, n)
    {
      counter := counter + 1;
      var tst := counter;
      k := 0;
      while k < n && MaskedOut(tst, mask)
        invariant k <= n && counter == old(counter) + 1 && Climb(counter, mask, shift, n) == k + Climb(tst, mask, shift, n - k)
      {
        tst := Shr(tst, shift);
        k := k + 1;
      }
    }

    /** Linking `u` into the last row, and into more rows as long as the bits of the counter say so. */
    method Link(u: nat, place: seq<nat>) returns (ghost h: nat)
      requires RowsOk(ts, rows) && u < |ts| && |place| == |rows|
      requires forall i :: 0 <= i < |rows| ==> PlaceAt(ts, rows, u, place, i)
      modifies `rows, `counter
      ensures counter == old(counter) + 1 && h == |old(rows)| - 1 - Climb(counter, mask, shift, |old(rows)| - 1)
      ensures rows == Inserted(ts, old(rows), u, h)
    {
      ghost var was := rows;
      var last := |rows| - 1;
      var k := RowsToJoin(last);
      ghost var next := counter;
      InsertedNone(ts, was, u);
      LinkRow(was, u, place, last);
      var j := 0;
      while j < k
        invariant j <= k && rows == Inserted(ts, was, u, last - j) && counter == next
      {
        j := j + 1;
        LinkRow(was, u, place, last - j);
      }
      h := last - k;
    }

    /** Changes one timer that is not pending, or not its timeout. */
    method Amend(u: nat, x: Timer, ghost b: nat)
      requires Valid(b) && u < |ts| && (u !in rows[|rows| - 1] || x.timeout == ts[u].timeout)
      modifies `ts
      ensures Valid(b) && ts == old(ts)[u := x]
    {
      RowsKept(ts, b, rows, u, x);
      ts := ts[u := x];
    }

    /** Linking `u` at the places found keeps the rows in order. */
    method LinkIn(u: nat, place: seq<nat>, ghost b: nat)
      requires Valid(b) && u < |ts| && InWindow(b, ts[u].timeout) && u !in rows[|rows| - 1] && |place| == |rows|
      requires forall i :: 0 <= i < |rows| ==> PlaceAt(ts, rows, u, place, i)
      modifies `rows, `counter
      ensures Valid(b) && |rows| == |old(rows)|
      ensures Below(old(rows)[|rows| - 1], |ts|) && rows[|rows| - 1] == Insert(ts, old(rows)[|rows| - 1], u)
    {
      ghost var base := rows;
      ghost var h := Link(u, place);
      InsertedOk(ts, b, base, u, h, rows, base[|base| - 1], rows[|rows| - 1]);
    }

    /** `_timer_start`. */
    method Start(now: nat, u: nat, ghost b: nat) returns (ok: bool)
      requires Valid(b) && u < |ts|
      requires ts[u].processing || InWindow(b, (now + ts[u].init) % WRAP)
      modifies `ts, `rows, `held, `counter
      ensures Valid(b) && |rows| == |old(rows)| && ok == !old(ts[u].processing)
      ensures Abs() == StartTimer(old(Abs()), now, u)
      ensures ok ==> ts == old(ts)[u := old(ts[u]).(active := true, timeout := (now + old(ts[u].init)) % WRAP)]
      ensures ok ==> u in rows[|rows| - 1]
    {
      if ts[u].processing { return false; }
      ghost var was := ts;
      TakeOff(u, b);
      Amend(u, ts[u].(active := false), b);
      ghost var row := rows[|rows| - 1];
      PutOn(u, (now + ts[u].init) % WRAP, b);
      ghost var ticked := ts;
      Amend(u, ts[u].(active := true), b);
      InsertSame(ticked, ts, row, u);
      InsertIds(ts, row, u);
      assert ts == was[u := was[u].(active := true, timeout := (now + was[u].init) % WRAP)];
      ok := true;
    }

    /** `_timer_remove` keeps the rows in order. */
    method TakeOff(u: nat, ghost b: nat)
      requires Valid(b) && u < |ts|
      modifies `rows, `held
      ensures Valid(b) && |rows| == |old(rows)|
      ensures rows[|rows| - 1] == Without(old(rows)[|rows| - 1], u) && held == Without(old(held), u)
      ensures u !in rows[|rows| - 1]
    {
      RemovedOk(ts, rows, u);
      RowIds(ts, rows, |rows| - 1);
      WithoutOrdered(ts, b, rows[|rows| - 1], u);
      WithoutBelow(held, u, |ts|);
      Remove(u);
    }

    /** The rest of `_timer_start`: the new timeout, the search and the linking. */
    method PutOn(u: nat, tick: nat, ghost b: nat)
      requires Valid(b) && u < |ts| && InWindow(b, tick) && u !in rows[|rows| - 1]
      modifies `ts, `rows, `counter
      ensures Valid(b) && |rows| == |old(rows)| && ts == old(ts)[u := old(ts)[u].(timeout := tick)]
      ensures Below(old(rows)[|rows| - 1], |ts|) && rows[|rows| - 1] == Insert(ts, old(rows)[|rows| - 1], u)
    {
      Amend(u, ts[u].(timeout := tick), b);
      var place := Search(u, b);
      LinkIn(u, place, b);
    }

    lemma OffRows(u: nat)
      requires rows != [] && RowsOk(ts, rows) && u !in rows[|rows| - 1]
      ensures forall i :: 0 <= i < |rows| ==> u !in rows[i]
    {
      forall i | 0 <= i < |rows| ensures u !in rows[i] { RowLacks(ts, rows, u, i); }
    }

    /** `rt_timer_stop`. */
    method Stop(u: nat, ghost b: nat) returns (ok: bool)
      requires Valid(b) && u < |ts|
      modifies `ts, `rows, `held
      ensures Valid(b) && |rows| == |old(rows)| && ok == old(ts[u].active)
      ensures Abs() == StopTimer(old(Abs()), u)
      ensures ok ==> ts == old(ts)[u := old(ts[u]).(active := false)] && forall i :: 0 <= i < |rows| ==> u !in rows[i]
      ensures ok && NoDup(old(held)) ==> u !in held
    {
      if !ts[u].active { return false; }
      if NoDup(held) { WithoutMembers(held, u); }
      TakeOff(u, b);
      OffRows(u);
      Amend(u, ts[u].(active := false), b);
      ok := true;
    }

    /** `rt_timer_control` with RT_TIMER_CTRL_SET_TIME. */
    method SetTime(u: nat, ticks: nat, ghost b: nat)
      requires Valid(b) && u < |ts| && ticks < HALF
      modifies `ts, `rows, `held
      ensures Valid(b) && |rows| == |old(rows)| && Abs() == SetTimerTicks(old(Abs()), u, ticks)
      ensures ts == old(ts)[u := old(ts[u]).(active := false, init := ticks)]
      ensures old(ts[u].active) ==> forall i :: 0 <= i < |rows| ==> u !in rows[i]
      ensures old(ts[u].active) && NoDup(old(held)) ==> u !in held
    {
      if ts[u].active {
        var ok := Stop(u, b);
      }
      Amend(u, ts[u].(init := ticks), b);
    }

    method Act(a: Act, now: nat, ghost b: nat)
      requires Valid(b) && Fits(Abs()) && Fair(b, now, Abs(), a)
      modifies `ts, `rows, `held, `counter
      ensures Valid(b) && |rows| == |old(rows)| && Abs() == Do(old(Abs()), now, a)
    {
      match a
      case Start(u) => var ok := Start(now, u, b);
      case Stop(u) => var ok := Stop(u, b);
      case SetTime(u, ticks) => SetTime(u, ticks, b);
    }

    /** A callback that does `acts`. */
    method Callback(acts: seq<Act>, now: nat, ghost b: nat)
      requires Valid(b) && Fits(Abs()) && FairAll(b, now, Abs(), acts) && ActsIn(acts, |ts|)
      modifies `ts, `rows, `held, `counter
      ensures Valid(b) && |rows| == |old(rows)| && Abs() == DoAll(old(Abs()), now, acts)
    {
      ghost var s := Abs();
      assert acts[0..] == acts;
      for i := 0 to |acts|
        invariant Valid(b) && |rows| == |old(rows)| && Fits(Abs()) && |ts| == |s.ts|
        invariant FairAll(b, now, Abs(), acts[i..]) && ActsIn(acts[i..], |ts|)
        invariant DoAll(s, now, acts) == DoAll(Abs(), now, acts[i..])
      {
        assert acts[i..][0] == acts[i] && acts[i..][1..] == acts[i + 1..];
        DoFits(Abs(), now, acts[i]);
        Act(acts[i], now, b);
      }
    }

    /** Taking the first timer off the rows for its callback. */
    method BeginFire(ghost b: nat) returns (t: nat)
      requires Valid(b) && Fits(Abs()) && rows[|rows| - 1] != []
      modifies `ts, `rows, `held
      ensures Valid(b) && |rows| == |old(rows)| && t == old(rows)[|rows| - 1][0]
      ensures Abs() == Begin(old(Abs()))
    {
      t := rows[|rows| - 1][0];
      ghost var was := ts;
      TakeOff(t, b);
      ghost var x := ts[t].(active := ts[t].active && ts[t].periodic, processing := true);
      RowsKept(ts, b, rows, t, x);
      if !ts[t].periodic {
        ts := ts[t := ts[t].(active := false)];
      }
      ts := ts[t := ts[t].(processing := true)];
      assert ts == was[t := x];
      held := [t];
    }

    /** What `_timer_check` does after the callback of `t`. */
    method EndFire(t: nat, now: nat, ghost b: nat)
      requires Valid(b) && During(b, now, Abs(), Some(t))
      modifies `ts, `rows, `held, `counter
      ensures Valid(b) && |rows| == |old(rows)| && Abs() == End(old(Abs()), now, t)
    {
      ghost var s := Abs();
      assert TimerOk(b, now, ts, rows[|rows| - 1], Some(t), t);
      RowsKept(ts, b, rows, t, ts[t].(processing := false));
      ts := ts[t := ts[t].(processing := false)];
      assert Abs() == SetTimer(s, t, s.ts[t].(processing := false));
      if held == [] { return; }
      held := Without<nat>(held, t);
      if ts[t].periodic && ts[t].active {
        StartAnew(Abs(), now, t);
        RowsKept(ts, b, rows, t, ts[t].(active := false));
        ts := ts[t := ts[t].(active := false)];
        var ok := Start(now, t, b);
      }
    }

    /** One turn of the check. */
    method FireFirst(acts: seq<Act>, now: nat, ghost b: nat) returns (t: nat)
      requires Valid(b) && During(b, now, Abs(), None) && rows[|rows| - 1] != []
      requires Due(now, ts[rows[|rows| - 1][0]].timeout) && Fits(Begin(Abs())) && FairAll(b, now, Begin(Abs()), acts) && ActsIn(acts, |ts|)
      modifies `ts, `rows, `held, `counter
      ensures Valid(b) && |rows| == |old(rows)| && t == old(rows)[|rows| - 1][0]
      ensures Abs() == Fire(old(Abs()), now, acts)
    {
      ghost var s := Abs();
      BeginKeeps(b, now, s);
      t := BeginFire(b);
      DoAllKeeps(b, now, Abs(), t, acts);
      Callback(acts, now, b);
      EndFire(t, now, b);
    }

    /** The loop of `_timer_check` at tick `now`, with a callback for each timer that is due. */
    method CheckLoop(now: nat, scripts: seq<seq<Act>>, ghost b: nat) returns (fired: seq<nat>)
      requires Valid(b) && LoopOk(b, now, Abs(), scripts)
      modifies `ts, `rows, `held, `counter
      ensures Valid(b) && |rows| == |old(rows)| && (Abs(), fired) == TimerCheck.Check(old(Abs()), now, scripts)
    {
      ghost var s := Abs();
      fired := [];
      var k := 0;
      AheadStarts(s, now, scripts);
      while rows[|rows| - 1] != [] && Due(now, ts[rows[|rows| - 1][0]].timeout)
        invariant Valid(b) && |rows| == |old(rows)| && |ts| == |s.ts| && k <= |scripts| && LoopOk(b, now, Abs(), scripts[k..])
        invariant TimerCheck.Check(s, now, scripts) == Ahead(fired, TimerCheck.Check(Abs(), now, scripts[k..]))
        decreases |DueList(ts, now, rows[|rows| - 1])|
      {
        TurnKeeps(b, now, Abs(), scripts[k..], fired);
        assert scripts[k..][0] == scripts[k] && scripts[k..][1..] == scripts[k + 1..];
        var t := FireFirst(scripts[k], now, b);
        fired := fired + [t];
        k := k + 1;
      }
      AheadEnds(Abs(), now, scripts[k..], fired);
    }

    /** `_timer_check` at tick `now`: it fires the expected timers and leaves none due. */
    method Check(now: nat, scripts: seq<seq<Act>>, ghost b: nat) returns (fired: seq<nat>)
      requires Valid(b) && During(b, now, Abs(), None) && FairRunOk(b, now, Abs(), scripts)
      requires |DueList(ts, now, rows[|rows| - 1])| <= |scripts|
      modifies `ts, `rows, `held, `counter
      ensures Valid(b) && |rows| == |old(rows)| && During(b, now, Abs(), None)
      ensures (Abs(), fired) == TimerCheck.Check(old(Abs()), now, scripts)
      ensures fired == Expected(DueList(old(Abs()).ts, now, old(Abs()).row), scripts)
      ensures DueList(ts, now, rows[|rows| - 1]) == []
    {
      CheckFires(b, now, Abs(), scripts);
      fired := CheckLoop(now, scripts, b);
    }

    // ----- over runs of any length -----

    /** At tick `now`, with the last check at tick `b`, at most `gap` ticks ago. */
    ghost predicate Serving(gap: nat, b: nat, now: nat)
      reads this
    {
      Valid(b) && Steady(gap, b, now, Abs())
    }

    /** The rows are in order in every window that holds the pending timeouts. */
    lemma Rebased(b: nat, b': nat, row: seq<nat>)
      requires Valid(b) && row == rows[|rows| - 1] && forall i :: 0 <= i < |row| ==> InWindow(b', ts[row[i]].timeout)
      ensures Valid(b')
    {
      OrderedShift(ts, b, b', row);
    }

    /** A start, stop or new time at any tick, with no condition on the window. */
    method Request(a: Act, now: nat, ghost gap: nat, ghost b: nat)
      requires Serving(gap, b, now) && ActOk(a, |ts|, HALF - gap)
      modifies `ts, `rows, `held, `counter
      ensures Serving(gap, b, now) && Abs() == Do(old(Abs()), now, a)
    {
      ActFair(gap, b, now, Abs(), a);
      ActKeeps(gap, b, now, Abs(), a);
      Act(a, now, b);
    }

    /** One turn of a check at the tick it reads; the tick may be later at the next turn. */
    method Turn(acts: seq<Act>, now: nat, ghost gap: nat, ghost b: nat) returns (t: nat)
      requires Serving(gap, b, now) && rows[|rows| - 1] != [] && Due(now, ts[rows[|rows| - 1][0]].timeout) && ActsOk(acts, |ts|, HALF - gap)
      modifies `ts, `rows, `held, `counter
      ensures Serving(gap, b, now) && t == old(rows[|rows| - 1][0]) && ActsIn(acts, old(|ts|)) && Abs() == Fire(old(Abs()), now, acts)
    {
      TurnSteady(gap, b, now, Abs(), acts);
      t := FireFirst(acts, now, b);
    }

    /** A whole check at one tick; it starts a new window there. */
    method Serve(now: nat, scripts: seq<seq<Act>>, ghost gap: nat, ghost b: nat) returns (fired: seq<nat>)
      requires Serving(gap, b, now) && ScriptsOk(scripts, |ts|, HALF - gap) && |DueList(ts, now, rows[|rows| - 1])| <= |scripts|
      modifies `ts, `rows, `held, `counter
      ensures Serving(gap, now, now) && DueList(ts, now, rows[|rows| - 1]) == []
      ensures fired == Expected(DueList(old(Abs()).ts, now, old(Abs()).row), scripts)
    {
      CheckSteady(gap, b, now, Abs(), scripts);
      fired := Check(now, scripts, b);
      DueHead(b, now, ts, rows[|rows| - 1]);
      DoneSteady(gap, b, now, Abs());
    }
  }
}
