/** One timer check at a fixed tick, with callbacks that start, stop and set timers. */
module TimerCheck {
  import opened Lists
  import opened TimerOrder
  import opened TimerModel

  predicate ActsIn(acts: seq<Act>, n: nat)
  {
    forall i :: 0 <= i < |acts| ==> acts[i].u < n
  }

  lemma DoFits(s: State, now: nat, a: Act)
    requires Fits(s) && a.u < |s.ts|
    ensures Fits(Do(s, now, a)) && |Do(s, now, a).ts| == |s.ts|
  {
    WithoutBelow(s.row, a.u, |s.ts|);
    WithoutBelow(s.held, a.u, |s.ts|);
    WithoutMembers(s.row, a.u);
    if a.Start? && !s.ts[a.u].processing {
      InsertIds(Do(s, now, a).ts, Without(s.row, a.u), a.u);
    }
  }

  /** A whole callback. */
  function DoAll(s: State, now: nat, acts: seq<Act>): State
    requires Fits(s) && ActsIn(acts, |s.ts|)
    decreases |acts|
  {
    if acts == [] then s
    else
      DoFits(s, now, acts[0]);
      DoAll(Do(s, now, acts[0]), now, acts[1..])
  }

  /** Taking the first timer off the row for its callback; a one-shot timer is no longer active. */
  function Begin(s: State): State
    requires Fits(s) && s.row != []
  {
    var t := s.row[0];
    State(s.ts[t := s.ts[t].(active := s.ts[t].active && s.ts[t].periodic, processing := true)], Without(s.row, t), [t])
  }

  /** After the callback of `t`: a periodic timer that is still held and active starts again. */
  function End(s: State, now: nat, t: nat): State
    requires Fits(s) && t < |s.ts|
  {
    var s1 := SetTimer(s, t, s.ts[t].(processing := false));
    if s.held == [] then s1
    else
      var s2 := s1.(held := Without(s.held, t));
      WithoutBelow(s.held, t, |s.ts|);
      if s.ts[t].periodic && s.ts[t].active then StartTimer(s2, now, t) else s2
  }

  lemma BeginFits(s: State)
    requires Fits(s) && s.row != []
    ensures Fits(Begin(s)) && |Begin(s).ts| == |s.ts|
  {
    WithoutBelow(s.row, s.row[0], |s.ts|);
    WithoutMembers(s.row, s.row[0]);
  }

  lemma {:induction false} DoAllFits(s: State, now: nat, acts: seq<Act>)
    requires Fits(s) && ActsIn(acts, |s.ts|)
    ensures Fits(DoAll(s, now, acts)) && |DoAll(s, now, acts).ts| == |s.ts|
    decreases |acts|
  {
    if acts != [] {
      DoFits(s, now, acts[0]);
      DoAllFits(Do(s, now, acts[0]), now, acts[1..]);
    }
  }

  /** One turn of the check: the first timer, with callback `acts`. */
  function Fire(s: State, now: nat, acts: seq<Act>): State
    requires Fits(s) && s.row != [] && ActsIn(acts, |s.ts|)
  {
    BeginFits(s);
    DoAllFits(Begin(s), now, acts);
    End(DoAll(Begin(s), now, acts), now, s.row[0])
  }

  lemma FireFits(s: State, now: nat, acts: seq<Act>)
    requires Fits(s) && s.row != [] && ActsIn(acts, |s.ts|)
    ensures Fits(Fire(s, now, acts)) && |Fire(s, now, acts).ts| == |s.ts|
  {
    BeginFits(s);
    DoAllFits(Begin(s), now, acts);
    var s1 := DoAll(Begin(s), now, acts);
    var t := s.row[0];
    WithoutBelow(s1.held, t, |s.ts|);
    if s1.held != [] && s1.ts[t].periodic && s1.ts[t].active {
      var s2 := SetTimer(s1, t, s1.ts[t].(processing := false)).(held := Without(s1.held, t));
      DoFits(s2, now, Start(t));
    }
  }

  /** `_timer_check` with the callbacks `scripts`, one per timer that fires: the state it leaves and
      the timers it fired. */
  function Check(s: State, now: nat, scripts: seq<seq<Act>>): (State, seq<nat>)
    requires Fits(s) && forall i :: 0 <= i < |scripts| ==> ActsIn(scripts[i], |s.ts|)
    decreases |scripts|
  {
    if s.row == [] || !Due(now, s.ts[s.row[0]].timeout) || scripts == [] then (s, [])
    else
      FireFits(s, now, scripts[0]);
      var (s', fired) := Check(Fire(s, now, scripts[0]), now, scripts[1..]);
      (s', [s.row[0]] + fired)
  }

  // ----- what a callback does to the due timers -----

  predicate Mentions(acts: seq<Act>, u: nat)
  {
    exists i :: 0 <= i < |acts| && acts[i].u == u
  }

  /** The callback stops `u` or sets its time. */
  predicate EndsTimer(acts: seq<Act>, u: nat)
  {
    exists i :: 0 <= i < |acts| && Ends(acts[i], u)
  }

  /** The timers a callback leaves alone. */
  function Unmentioned(d: seq<nat>, acts: seq<Act>): seq<nat>
    decreases |acts|
  {
    if acts == [] then d else Unmentioned(Without(d, acts[0].u), acts[1..])
  }

  /** Every action is fair in the state it is done in. */
  predicate FairAll(b: nat, now: nat, s: State, acts: seq<Act>)
    requires Fits(s)
    decreases |acts|
  {
    acts == [] || (Fair(b, now, s, acts[0]) && (DoFits(s, now, acts[0]); FairAll(b, now, Do(s, now, acts[0]), acts[1..])))
  }

  lemma {:induction false} FairIn(b: nat, now: nat, s: State, acts: seq<Act>)
    requires Fits(s) && FairAll(b, now, s, acts)
    ensures ActsIn(acts, |s.ts|)
    decreases |acts|
  {
    if acts != [] {
      DoFits(s, now, acts[0]);
      FairIn(b, now, Do(s, now, acts[0]), acts[1..]);
      assert forall i :: 0 < i < |acts| ==> acts[i] == acts[1..][i - 1];
    }
  }

  lemma {:induction false} DoAllKeeps(b: nat, now: nat, s: State, t: nat, acts: seq<Act>)
    requires During(b, now, s, Some(t)) && FairAll(b, now, s, acts) && ActsIn(acts, |s.ts|)
    ensures var s' := DoAll(s, now, acts);
            && During(b, now, s', Some(t)) && |s'.ts| == |s.ts|
            && DueList(s'.ts, now, s'.row) == Unmentioned(DueList(s.ts, now, s.row), acts)
            && s'.held == (if EndsTimer(acts, t) && s.ts[t].active then [] else s.held)
            && s'.ts[t].periodic == s.ts[t].periodic && (!EndsTimer(acts, t) ==> s'.ts[t] == s.ts[t])
    decreases |acts|
  {
    if acts != [] {
      var s1 := Do(s, now, acts[0]);
      DoKeeps(b, now, s, t, acts[0]);
      DoAllKeeps(b, now, s1, t, acts[1..]);
      EndsTimerCons(acts, t);
    }
  }

  lemma EndsTimerCons(acts: seq<Act>, u: nat)
    requires acts != []
    ensures EndsTimer(acts, u) <==> Ends(acts[0], u) || EndsTimer(acts[1..], u)
  {
    if EndsTimer(acts[1..], u) {
      var i :| 0 <= i < |acts[1..]| && Ends(acts[1..][i], u);
      assert Ends(acts[i + 1], u);
    }
    if EndsTimer(acts, u) && !Ends(acts[0], u) {
      var i :| 0 <= i < |acts| && Ends(acts[i], u);
      assert Ends(acts[1..][i - 1], u);
    }
  }

  // ----- one turn -----

  lemma BeginKeeps(b: nat, now: nat, s: State)
    requires During(b, now, s, None) && s.row != [] && Due(now, s.ts[s.row[0]].timeout)
    ensures During(b, now, Begin(s), Some(s.row[0])) && |Begin(s).ts| == |s.ts|
    ensures DueList(s.ts, now, s.row) != [] && DueList(s.ts, now, s.row)[0] == s.row[0]
    ensures DueList(Begin(s).ts, now, Begin(s).row) == DueList(s.ts, now, s.row)[1..]
  {
    var t, s' := s.row[0], Begin(s);
    StopRow(b, now, s.ts, s'.ts, s.row, t, s'.ts[t]);
    assert TimerOk(b, now, s.ts, s.row, None, t);
    forall v | 0 <= v < |s'.ts| ensures TimerOk(b, now, s'.ts, s'.row, Some(t), v) {
      assert TimerOk(b, now, s.ts, s.row, None, v);
    }
  }

  lemma EndKeeps(b: nat, now: nat, s: State, t: nat)
    requires During(b, now, s, Some(t))
    ensures var s', again := End(s, now, t), s.held != [] && s.ts[t].periodic;
            && During(b, now, s', None) && |s'.ts| == |s.ts| && DueList(s'.ts, now, s'.row) == DueList(s.ts, now, s.row)
            && (t in s'.row <==> again) && s'.ts[t].active == again
            && (again ==> s'.ts[t].timeout == (now + s.ts[t].init) % WRAP)
  {
    var s2 := SetTimer(s, t, s.ts[t].(processing := false)).(held := []);
    ReleaseKeeps(b, now, s, t);
    assert s.held != [] ==> Without(s.held, t) == [];
    if s.held != [] && s.ts[t].periodic {
      assert TimerOk(b, now, s.ts, s.row, Some(t), t);
      AgainKeeps(b, now, s2, t);
    }
  }

  /** The timer is no longer in its callback. */
  lemma ReleaseKeeps(b: nat, now: nat, s: State, t: nat)
    requires During(b, now, s, Some(t))
    ensures var s2 := SetTimer(s, t, s.ts[t].(processing := false)).(held := []);
            During(b, now, s2, None) && DueList(s2.ts, now, s2.row) == DueList(s.ts, now, s.row)
  {
    var s2 := SetTimer(s, t, s.ts[t].(processing := false)).(held := []);
    OrderedSame(s.ts, s2.ts, b, s.row);
    DueSame(s.ts, s2.ts, now, s.row);
    forall v | 0 <= v < |s2.ts| ensures TimerOk(b, now, s2.ts, s2.row, None, v) {
      assert TimerOk(b, now, s.ts, s.row, Some(t), v);
    }
  }

  /** Starting a timer that is not on the row adds nothing due. */
  lemma AgainKeeps(b: nat, now: nat, s: State, t: nat)
    requires During(b, now, s, None) && t < |s.ts| && t !in s.row && Startable(b, now, s.ts[t])
    ensures var s' := StartTimer(s, now, t);
            && During(b, now, s', None) && |s'.ts| == |s.ts| && DueList(s'.ts, now, s'.row) == DueList(s.ts, now, s.row)
            && t in s'.row && s'.ts[t].active && s'.ts[t].timeout == (now + s.ts[t].init) % WRAP
  {
    assert TimerOk(b, now, s.ts, s.row, None, t);
    StartKeeps(b, now, s, None, t);
    DueMembers(s.ts, now, s.row, t);
    WithoutSame(DueList(s.ts, now, s.row), t);
    WithoutSame(s.row, t);
    InsertIds(StartTimer(s, now, t).ts, s.row, t);
  }

  /** One turn fires the first due timer, takes the timers its callback mentions off the due ones, adds none,
      and starts the fired timer again just when it is periodic and its callback does not end it. */
  lemma FireKeeps(b: nat, now: nat, s: State, acts: seq<Act>)
    requires During(b, now, s, None) && s.row != [] && Due(now, s.ts[s.row[0]].timeout) && Fits(Begin(s))
    requires FairAll(b, now, Begin(s), acts) && ActsIn(acts, |s.ts|)
    ensures var t, s' := s.row[0], Fire(s, now, acts); var again := s.ts[t].periodic && !EndsTimer(acts, t);
            && During(b, now, s', None) && |s'.ts| == |s.ts|
            && DueList(s'.ts, now, s'.row) == Unmentioned(DueList(s.ts, now, s.row)[1..], acts)
            && (t in s'.row <==> again) && s'.ts[t].active == again
            && (again ==> s'.ts[t].timeout == (now + s.ts[t].init) % WRAP)
  {
    var t := s.row[0];
    assert TimerOk(b, now, s.ts, s.row, None, t);
    BeginFits(s);
    BeginKeeps(b, now, s);
    DoAllKeeps(b, now, Begin(s), t, acts);
    EndKeeps(b, now, DoAll(Begin(s), now, acts), t);
  }

  // ----- a whole check -----

  /** Each callback is fair in the state it runs in. */
  predicate FairRun(b: nat, now: nat, s: State, scripts: seq<seq<Act>>)
    requires Fits(s) && forall i :: 0 <= i < |scripts| ==> ActsIn(scripts[i], |s.ts|)
    decreases |scripts|
  {
    s.row == [] || !Due(now, s.ts[s.row[0]].timeout) || scripts == []
    || (BeginFits(s); FireFits(s, now, scripts[0]);
        FairAll(b, now, Begin(s), scripts[0]) && FairRun(b, now, Fire(s, now, scripts[0]), scripts[1..]))
  }

  /** Which of the due timers `d` fire: the first, then those that its callback does not mention, and so on. */
  function Expected(d: seq<nat>, scripts: seq<seq<Act>>): seq<nat>
    decreases |scripts|
  {
    if d == [] || scripts == [] then [] else [d[0]] + Expected(Unmentioned(d[1..], scripts[0]), scripts[1..])
  }

  lemma {:induction false} UnmentionedShorter(d: seq<nat>, acts: seq<Act>)
    ensures |Unmentioned(d, acts)| <= |d|
    decreases |acts|
  {
    if acts != [] {
      WithoutShorter(d, acts[0].u);
      UnmentionedShorter(Without(d, acts[0].u), acts[1..]);
    }
  }

  lemma {:induction false} WithoutShorter(d: seq<nat>, u: nat)
    ensures |Without(d, u)| <= |d|
  {
    if d != [] && d[0] != u { WithoutShorter(d[1..], u); }
  }

  lemma DueHead(b: nat, now: nat, ts: seq<Timer>, row: seq<nat>)
    requires Ids(ts, row) && Ordered(ts, b, row) && InWindow(b, now)
    ensures DueList(ts, now, row) == [] <==> row == [] || !Due(now, ts[row[0]].timeout)
  {
    if row != [] && !Due(now, ts[row[0]].timeout) {
      assert OrderedAt(ts, b, row, 0, 0);
      WindowOrder(b, now, ts[row[0]].timeout);
      forall i | 0 <= i < |row| ensures !Due(now, ts[row[i]].timeout) {
        assert OrderedAt(ts, b, row, 0, i);
        WindowOrder(b, now, ts[row[i]].timeout);
      }
      NothingDue(ts, now, row);
    }
  }

  lemma {:induction false} NothingDue(ts: seq<Timer>, now: nat, row: seq<nat>)
    requires Below(row, |ts|) && forall i :: 0 <= i < |row| ==> !Due(now, ts[row[i]].timeout)
    ensures DueList(ts, now, row) == []
  {
    if row != [] {
      assert forall i :: 0 <= i < |row[1..]| ==> row[1..][i] == row[i + 1];
      NothingDue(ts, now, row[1..]);
    }
  }

  /** One check fires exactly the expected timers, in the order of the row, and when there is a callback for
      each due timer it ends with nothing due. */
  lemma {:induction false} CheckFires(b: nat, now: nat, s: State, scripts: seq<seq<Act>>)
    requires During(b, now, s, None) && forall i :: 0 <= i < |scripts| ==> ActsIn(scripts[i], |s.ts|)
    requires FairRun(b, now, s, scripts)
    ensures var (s', fired) := Check(s, now, scripts);
            && During(b, now, s', None) && |s'.ts| == |s.ts|
            && fired == Expected(DueList(s.ts, now, s.row), scripts)
            && (|scripts| >= |DueList(s.ts, now, s.row)| ==> DueList(s'.ts, now, s'.row) == [])
    decreases |scripts|
  {
    DueHead(b, now, s.ts, s.row);
    if s.row != [] && Due(now, s.ts[s.row[0]].timeout) && scripts != [] {
      BeginFits(s);
      BeginKeeps(b, now, s);
      FireFits(s, now, scripts[0]);
      FireKeeps(b, now, s, scripts[0]);
      var s1 := Fire(s, now, scripts[0]);
      assert forall i :: 0 <= i < |scripts[1..]| ==> scripts[1..][i] == scripts[i + 1];
      CheckFires(b, now, s1, scripts[1..]);
      UnmentionedShorter(DueList(s.ts, now, s.row)[1..], scripts[0]);
    }
  }

  // ----- what the expected timers are -----

  lemma {:induction false} ThinsTrans(a: seq<nat>, b: seq<nat>, d: seq<nat>)
    requires Thins(a, b) && Thins(b, d)
    ensures Thins(a, d)
  {
    if d != [] {
      if b != [] && b[0] == d[0] {
        if a != [] && a[0] == b[0] { ThinsTrans(a[1..], b[1..], d[1..]); } else { ThinsTrans(a, b[1..], d[1..]); }
      } else {
        ThinsTrans(a, b, d[1..]);
        if a != [] && a[0] == d[0] { ThinsTail(a, d[1..]); }
      }
    }
  }

  lemma {:induction false} ThinsTail(a: seq<nat>, b: seq<nat>)
    requires Thins(a, b) && a != []
    ensures Thins(a[1..], b)
  {
    if a[0] == b[0] {
      ThinsSkip(a[1..], b);
    } else {
      ThinsTail(a, b[1..]);
      if |a| > 1 && a[1] == b[0] { ThinsTail(a[1..], b[1..]); }
    }
  }

  lemma {:induction false} ThinsSkip(a: seq<nat>, b: seq<nat>)
    requires b != [] && Thins(a, b[1..])
    ensures Thins(a, b)
  {
    if a != [] && a[0] == b[0] { ThinsTail(a, b[1..]); }
  }

  lemma {:induction false} UnmentionedThins(d: seq<nat>, acts: seq<Act>)
    requires NoDup(d)
    ensures Thins(Unmentioned(d, acts), d) && NoDup(Unmentioned(d, acts))
    decreases |acts|
  {
    if acts == [] {
      ThinsSelf(d);
    } else {
      var d1 := Without(d, acts[0].u);
      WithoutItself(d, acts[0].u);
      WithoutMembers(d, acts[0].u);
      UnmentionedThins(d1, acts[1..]);
      ThinsTrans(Unmentioned(d, acts), d1, d);
    }
  }

  lemma {:induction false} UnmentionedMembers(d: seq<nat>, acts: seq<Act>, u: nat)
    requires NoDup(d)
    ensures u in Unmentioned(d, acts) <==> u in d && !Mentions(acts, u)
    decreases |acts|
  {
    if acts != [] {
      WithoutMembers(d, acts[0].u);
      UnmentionedMembers(Without(d, acts[0].u), acts[1..], u);
      if Mentions(acts[1..], u) {
        var i :| 0 <= i < |acts[1..]| && acts[1..][i].u == u;
        assert acts[i + 1].u == u;
      }
      if Mentions(acts, u) && acts[0].u != u {
        var i :| 0 <= i < |acts| && acts[i].u == u;
        assert acts[1..][i - 1].u == u;
      }
    }
  }

  /** The expected timers are due ones in the order of the row, each once. */
  lemma {:induction false} ExpectedThins(d: seq<nat>, scripts: seq<seq<Act>>)
    requires NoDup(d)
    ensures Thins(Expected(d, scripts), d) && |Expected(d, scripts)| <= |scripts|
    decreases |scripts|
  {
    if d != [] && scripts != [] {
      NoDupTail(d);
      var d1 := Unmentioned(d[1..], scripts[0]);
      UnmentionedThins(d[1..], scripts[0]);
      ExpectedThins(d1, scripts[1..]);
      ThinsTrans(Expected(d1, scripts[1..]), d1, d[1..]);
      assert ([d[0]] + Expected(d1, scripts[1..]))[1..] == Expected(d1, scripts[1..]);
    } else {
      EmptyThins(d);
    }
  }

  lemma {:induction false} EmptyThins(d: seq<nat>)
    ensures Thins([], d)
  {
    if d != [] { EmptyThins(d[1..]); }
  }

  /** No callback before the `k`-th mentions the timer that fires then. */
  lemma {:induction false} FiredUnmentioned(d: seq<nat>, scripts: seq<seq<Act>>, k: nat, j: nat)
    requires NoDup(d) && k < |Expected(d, scripts)| && j < k && |Expected(d, scripts)| <= |scripts|
    ensures !Mentions(scripts[j], Expected(d, scripts)[k])
    decreases |scripts|
  {
    NoDupTail(d);
    var d1 := Unmentioned(d[1..], scripts[0]);
    var rest := Expected(d1, scripts[1..]);
    UnmentionedThins(d[1..], scripts[0]);
    if j == 0 {
      ExpectedThins(d1, scripts[1..]);
      assert Expected(d, scripts)[k] == rest[k - 1];
      ThinsMembers(rest, d1, rest[k - 1]);
      UnmentionedMembers(d[1..], scripts[0], rest[k - 1]);
    } else {
      FiredUnmentioned(d1, scripts[1..], k - 1, j - 1);
    }
  }

  /** With a callback for each due timer, one that does not fire was mentioned by a callback that ran. */
  lemma {:induction false} UnfiredMentioned(d: seq<nat>, scripts: seq<seq<Act>>, u: nat) returns (j: nat)
    requires NoDup(d) && u in d && u !in Expected(d, scripts) && |d| <= |scripts|
    ensures j < |Expected(d, scripts)| && j < |scripts| && Mentions(scripts[j], u)
    decreases |scripts|
  {
    NoDupTail(d);
    var d1 := Unmentioned(d[1..], scripts[0]);
    assert u != d[0] by { assert d[0] == Expected(d, scripts)[0]; }
    UnmentionedThins(d[1..], scripts[0]);
    UnmentionedShorter(d[1..], scripts[0]);
    UnmentionedMembers(d[1..], scripts[0], u);
    if Mentions(scripts[0], u) {
      j := 0;
    } else {
      assert u !in Expected(d1, scripts[1..]);
      j := UnfiredMentioned(d1, scripts[1..], u);
      j := j + 1;
    }
  }

  lemma {:induction false} DueThins(ts: seq<Timer>, now: nat, row: seq<nat>)
    requires Ids(ts, row)
    ensures Thins(DueList(ts, now, row), row)
  {
    if row != [] {
      NoDupTail(row);
      var d := DueList(ts, now, row[1..]);
      DueThins(ts, now, row[1..]);
      assert ([row[0]] + d)[1..] == d;
      if !Due(now, ts[row[0]].timeout) { ThinsSkip(d, row); }
    }
  }

  /** The timers that fire do so in timeout order, and among equal timeouts in the order they were started. */
  lemma FiredInOrder(b: nat, now: nat, s: State, scripts: seq<seq<Act>>)
    requires During(b, now, s, None) && FairRunOk(b, now, s, scripts)
    ensures var fired := Check(s, now, scripts).1; Thins(fired, s.row) && Ids(s.ts, fired) && Ordered(s.ts, b, fired)
  {
    var d, fired := DueList(s.ts, now, s.row), Check(s, now, scripts).1;
    CheckFires(b, now, s, scripts);
    DueThins(s.ts, now, s.row);
    ThinsIds(s.ts, d, s.row);
    ExpectedThins(d, scripts);
    ThinsTrans(fired, d, s.row);
    ThinsIds(s.ts, fired, s.row);
    ThinsOrdered(s.ts, b, fired, s.row);
  }

  predicate FairRunOk(b: nat, now: nat, s: State, scripts: seq<seq<Act>>)
    requires Fits(s)
  {
    (forall i :: 0 <= i < |scripts| ==> ActsIn(scripts[i], |s.ts|)) && FairRun(b, now, s, scripts)
  }
}
