/** The timer list as one ordered row, and one check of it at a fixed tick. */
module TimerModel {
  import opened Lists
  import opened TimerOrder

  /** The timers, the row of pending ones, and the one taken out for its callback. */
  datatype State = State(ts: seq<Timer>, row: seq<nat>, held: seq<nat>)

  /** What a callback can do. */
  datatype Act = Start(u: nat) | Stop(u: nat) | SetTime(u: nat, ticks: nat)

  ghost predicate Fits(s: State)
  {
    Ids(s.ts, s.row) && Below(s.held, |s.ts|)
  }

  function SetTimer(s: State, u: nat, t: Timer): State
    requires u < |s.ts|
  {
    s.(ts := s.ts[u := t])
  }

  /** `_timer_remove`. */
  function Unlink(s: State, u: nat): State
  {
    s.(row := Without(s.row, u), held := Without(s.held, u))
  }

  /** `_timer_start`. */
  function StartTimer(s: State, now: nat, u: nat): State
    requires Fits(s) && u < |s.ts|
  {
    if s.ts[u].processing then s
    else
      WithoutBelow(s.row, u, |s.ts|);
      var ts := s.ts[u := s.ts[u].(active := true, timeout := (now + s.ts[u].init) % WRAP)];
      State(ts, Insert(ts, Without(s.row, u), u), Without(s.held, u))
  }

  /** `rt_timer_stop`. */
  function StopTimer(s: State, u: nat): State
    requires u < |s.ts|
  {
    if s.ts[u].active then SetTimer(Unlink(s, u), u, s.ts[u].(active := false)) else s
  }

  /** `rt_timer_control` with RT_TIMER_CTRL_SET_TIME. */
  function SetTimerTicks(s: State, u: nat, ticks: nat): State
    requires u < |s.ts|
  {
    var s1 := StopTimer(s, u);
    SetTimer(s1, u, s1.ts[u].(init := ticks))
  }

  function Do(s: State, now: nat, a: Act): State
    requires Fits(s) && a.u < |s.ts|
  {
    match a
    case Start(u) => StartTimer(s, now, u)
    case Stop(u) => StopTimer(s, u)
    case SetTime(u, ticks) => SetTimerTicks(s, u, ticks)
  }

  // ----- what holds before, during and after a callback -----

  /** The timer, started at tick `now`, is pending inside the window and not due. */
  predicate Startable(b: nat, now: nat, t: Timer)
  {
    0 < t.init < HALF && InWindow(b, (now + t.init) % WRAP)
  }

  ghost predicate TimerOk(b: nat, now: nat, ts: seq<Timer>, row: seq<nat>, t: Option<nat>, u: nat)
    requires u < |ts|
  {
    && (u in row ==> ts[u].active)
    && (ts[u].active && ts[u].periodic ==> Startable(b, now, ts[u]))
    && ts[u].processing == (t == Some(u))
  }

  /** The row is ordered inside a window that holds the current tick; the timer `t` is out for its callback. */
  ghost predicate During(b: nat, now: nat, s: State, t: Option<nat>)
  {
    && Fits(s) && Ordered(s.ts, b, s.row) && InWindow(b, now)
    && (forall u :: 0 <= u < |s.ts| ==> TimerOk(b, now, s.ts, s.row, t, u))
    && (t.None? ==> s.held == [])
    && (t.Some? ==> t.value < |s.ts| && t.value !in s.row && HeldOk(s, t.value))
  }

  /** The timer is held until it is stopped; it is still active just when it is held and periodic. */
  ghost predicate HeldOk(s: State, t: nat)
    requires t < |s.ts|
  {
    (s.held == [t] || s.held == []) && (s.ts[t].active <==> s.held == [t] && s.ts[t].periodic)
  }

  /** A callback starts only timers with a delay, and sets only ticks the control call accepts. */
  predicate Fair(b: nat, now: nat, s: State, a: Act)
  {
    && a.u < |s.ts|
    && (a.Start? ==> s.ts[a.u].processing || Startable(b, now, s.ts[a.u]))
    && (a.SetTime? ==> a.ticks < HALF)
  }

  /** The pending timers that are due, in the order of the row. */
  function DueList(ts: seq<Timer>, now: nat, row: seq<nat>): seq<nat>
    requires Below(row, |ts|)
  {
    if row == [] then []
    else if Due(now, ts[row[0]].timeout) then [row[0]] + DueList(ts, now, row[1..])
    else DueList(ts, now, row[1..])
  }

  // ----- the due timers under each operation -----

  lemma {:induction false} DueWithout(ts: seq<Timer>, now: nat, row: seq<nat>, u: nat)
    requires Ids(ts, row)
    ensures Below(Without(row, u), |ts|) && DueList(ts, now, Without(row, u)) == Without(DueList(ts, now, row), u)
  {
    WithoutBelow(row, u, |ts|);
    if row != [] {
      NoDupTail(row);
      DueWithout(ts, now, row[1..], u);
      if row[0] == u {
        DueMembers(ts, now, row[1..], u);
        if !Due(now, ts[u].timeout) { WithoutSame(DueList(ts, now, row[1..]), u); }
        var d := DueList(ts, now, row[1..]);
        assert ([u] + d)[1..] == d;
      } else {
        assert ([row[0]] + Without(row[1..], u))[1..] == Without(row[1..], u);
        assert ([row[0]] + DueList(ts, now, row[1..]))[1..] == DueList(ts, now, row[1..]);
      }
    }
  }

  lemma {:induction false} DueMembers(ts: seq<Timer>, now: nat, row: seq<nat>, u: nat)
    requires Below(row, |ts|)
    ensures u in DueList(ts, now, row) <==> u in row && Due(now, ts[u].timeout)
  {
    if row != [] { DueMembers(ts, now, row[1..], u); }
  }

  lemma {:induction false} DueInsert(ts: seq<Timer>, now: nat, row: seq<nat>, u: nat)
    requires Ids(ts, row) && u < |ts| && u !in row && !Due(now, ts[u].timeout)
    ensures Below(Insert(ts, row, u), |ts|) && DueList(ts, now, Insert(ts, row, u)) == DueList(ts, now, row)
  {
    InsertIds(ts, row, u);
    if row == [] || Later(ts[row[0]].timeout, ts[u].timeout) {
      assert ([u] + row)[1..] == row;
    } else {
      NoDupTail(row);
      DueInsert(ts, now, row[1..], u);
      assert ([row[0]] + Insert(ts, row[1..], u))[1..] == Insert(ts, row[1..], u);
    }
  }

  /** Only the timers in the row matter. */
  lemma {:induction false} DueSame(ts: seq<Timer>, ts': seq<Timer>, now: nat, row: seq<nat>)
    requires Below(row, |ts|) && |ts'| == |ts| && forall i :: 0 <= i < |row| ==> ts'[row[i]].timeout == ts[row[i]].timeout
    ensures DueList(ts', now, row) == DueList(ts, now, row)
  {
    if row != [] {
      forall i | 0 <= i < |row[1..]| ensures ts'[row[1..][i]].timeout == ts[row[1..][i]].timeout {
        assert row[1..][i] == row[i + 1];
      }
      DueSame(ts, ts', now, row[1..]);
    }
  }

  lemma OrderedSame(ts: seq<Timer>, ts': seq<Timer>, b: nat, row: seq<nat>)
    requires Below(row, |ts|) && |ts'| == |ts| && forall i :: 0 <= i < |row| ==> ts'[row[i]].timeout == ts[row[i]].timeout
    ensures Below(row, |ts'|) && (Ordered(ts', b, row) <==> Ordered(ts, b, row))
  {
    if Ordered(ts, b, row) {
      forall i, j | 0 <= i <= j < |row| ensures OrderedAt(ts', b, row, i, j) { assert OrderedAt(ts, b, row, i, j); }
    }
    if Ordered(ts', b, row) {
      forall i, j | 0 <= i <= j < |row| ensures OrderedAt(ts, b, row, i, j) { assert OrderedAt(ts', b, row, i, j); }
    }
  }

  /** A timer started now with a delay below half the tick range is not due. */
  lemma StartedNotDue(now: nat, init: nat)
    requires 0 < init < HALF && now < WRAP
    ensures !Due(now, (now + init) % WRAP)
  {
    assert (now + init) % WRAP == if now + init < WRAP then now + init else now + init - WRAP;
  }

  // ----- one action of a callback -----

  /** The row after timer `u` is started: it is ordered, and `u` is on it but not due. */
  lemma StartRow(b: nat, now: nat, ts: seq<Timer>, ts': seq<Timer>, row: seq<nat>, u: nat, x: Timer)
    requires Ids(ts, row) && Ordered(ts, b, row) && u < |ts| && ts' == ts[u := x]
    requires InWindow(b, x.timeout) && !Due(now, x.timeout)
    ensures Below(Without(row, u), |ts'|)
    ensures var row' := Insert(ts', Without(row, u), u);
            && Ids(ts', row') && Ordered(ts', b, row') && DueList(ts', now, row') == Without(DueList(ts, now, row), u)
            && forall v :: v in row' <==> v in row || v == u
  {
    var row1 := Without(row, u);
    StopRow(b, now, ts, ts', row, u, x);
    InsertIds(ts', row1, u);
    InsertOrdered(ts', b, row1, u);
    DueInsert(ts', now, row1, u);
  }

  lemma StartKeeps(b: nat, now: nat, s: State, t: Option<nat>, u: nat)
    requires During(b, now, s, t) && u < |s.ts| && !s.ts[u].processing && Startable(b, now, s.ts[u])
    ensures During(b, now, StartTimer(s, now, u), t) && StartTimer(s, now, u).held == s.held
    ensures DueList(StartTimer(s, now, u).ts, now, StartTimer(s, now, u).row) == Without(DueList(s.ts, now, s.row), u)
  {
    var s' := StartTimer(s, now, u);
    assert TimerOk(b, now, s.ts, s.row, t, u);
    StartedNotDue(now, s.ts[u].init);
    StartRow(b, now, s.ts, s'.ts, s.row, u, s'.ts[u]);
    WithoutSame(s.held, u);
    forall v | 0 <= v < |s'.ts| ensures TimerOk(b, now, s'.ts, s'.row, t, v) {
      assert TimerOk(b, now, s.ts, s.row, t, v);
    }
  }

  /** The row after timer `u` is taken off it. */
  lemma StopRow(b: nat, now: nat, ts: seq<Timer>, ts': seq<Timer>, row: seq<nat>, u: nat, x: Timer)
    requires Ids(ts, row) && Ordered(ts, b, row) && u < |ts| && ts' == ts[u := x]
    ensures Ids(ts', Without(row, u)) && Ordered(ts', b, Without(row, u)) && u !in Without(row, u)
    ensures DueList(ts', now, Without(row, u)) == Without(DueList(ts, now, row), u)
    ensures forall v :: v in Without(row, u) <==> v in row && v != u
  {
    var row1 := Without(row, u);
    WithoutOrdered(ts, b, row, u);
    WithoutMembers(row, u);
    DueWithout(ts, now, row, u);
    forall i | 0 <= i < |row1| ensures ts'[row1[i]].timeout == ts[row1[i]].timeout { assert row1[i] in row1; }
    OrderedSame(ts, ts', b, row1);
    DueSame(ts, ts', now, row1);
  }

  /** Unlinking an active timer and changing its delay. */
  lemma StopKeeps(b: nat, now: nat, s: State, s': State, t: Option<nat>, u: nat, init: nat)
    requires During(b, now, s, t) && u < |s.ts| && s.ts[u].active
    requires s' == SetTimer(Unlink(s, u), u, s.ts[u].(active := false, init := init))
    ensures During(b, now, s', t) && DueList(s'.ts, now, s'.row) == Without(DueList(s.ts, now, s.row), u)
    ensures s'.held == if t == Some(u) then [] else s.held
  {
    StopRow(b, now, s.ts, s'.ts, s.row, u, s'.ts[u]);
    if t != Some(u) { WithoutSame(s.held, u); }
    forall v | 0 <= v < |s'.ts| ensures TimerOk(b, now, s'.ts, s'.row, t, v) {
      assert TimerOk(b, now, s.ts, s.row, t, v);
    }
  }

  /** The delay of a timer that is not active changes nothing else. */
  lemma DelayKeeps(b: nat, now: nat, s: State, s': State, t: Option<nat>, u: nat, init: nat)
    requires During(b, now, s, t) && u < |s.ts| && !s.ts[u].active
    requires s' == SetTimer(s, u, s.ts[u].(init := init))
    ensures During(b, now, s', t) && DueList(s'.ts, now, s'.row) == DueList(s.ts, now, s.row) && u !in s.row
  {
    assert TimerOk(b, now, s.ts, s.row, t, u);
    OrderedSame(s.ts, s'.ts, b, s'.row);
    DueSame(s.ts, s'.ts, now, s'.row);
    forall v | 0 <= v < |s'.ts| ensures TimerOk(b, now, s'.ts, s'.row, t, v) {
      assert TimerOk(b, now, s.ts, s.row, t, v);
    }
  }

  /** A stop or a new time for `u`. */
  predicate Ends(a: Act, u: nat)
  {
    !a.Start? && a.u == u
  }

  /** An action takes its timer off the due ones, adds none, and lets the timer in its callback go only
      when it ends that timer. */
  lemma DoKeeps(b: nat, now: nat, s: State, t: nat, a: Act)
    requires During(b, now, s, Some(t)) && Fair(b, now, s, a)
    ensures During(b, now, Do(s, now, a), Some(t)) && |Do(s, now, a).ts| == |s.ts|
    ensures DueList(Do(s, now, a).ts, now, Do(s, now, a).row) == Without(DueList(s.ts, now, s.row), a.u)
    ensures Do(s, now, a).held == if Ends(a, t) && s.ts[t].active then [] else s.held
    ensures Do(s, now, a).ts[t].periodic == s.ts[t].periodic
    ensures !Ends(a, t) ==> Do(s, now, a).ts[t] == s.ts[t]
  {
    var u, s' := a.u, Do(s, now, a);
    var init := if a.SetTime? then a.ticks else s.ts[u].init;
    DueMembers(s.ts, now, s.row, u);
    assert TimerOk(b, now, s.ts, s.row, Some(t), u);
    if a.Start? {
      if s.ts[u].processing {
        WithoutSame(DueList(s.ts, now, s.row), u);
      } else {
        StartKeeps(b, now, s, Some(t), u);
      }
    } else if s.ts[u].active {
      StopKeeps(b, now, s, s', Some(t), u, init);
    } else {
      assert s' == SetTimer(s, u, s.ts[u].(init := init));
      DelayKeeps(b, now, s, s', Some(t), u, init);
      WithoutSame(DueList(s.ts, now, s.row), u);
    }
  }
}
