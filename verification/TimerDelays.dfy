/** What becomes of one timer: every call does to it what it says, and to no other timer anything. */
module TimerDelays {
  import opened Lists
  import opened TimerOrder
  import opened TimerModel
  import opened TimerCheck
  import opened TimerRuns

  /** Timer `v` is as it was, and pending and held just when it was. */
  ghost predicate Untouched(s: State, s': State, v: nat)
  {
    && v < |s.ts| == |s'.ts| && s'.ts[v] == s.ts[v]
    && (v in s'.row <==> v in s.row) && (v in s'.held <==> v in s.held)
  }

  /** Every timer but `u` is untouched, and the pending ones keep their order. */
  ghost predicate OnlyTimer(s: State, s': State, u: nat)
  {
    && |s'.ts| == |s.ts| && (forall v :: 0 <= v < |s.ts| && v != u ==> Untouched(s, s', v))
    && Without(s'.row, u) == Without(s.row, u)
  }

  // ----- one call -----

  lemma {:induction false} WithoutTwice(d: seq<nat>, u: nat)
    requires NoDup(d)
    ensures Without(Without(d, u), u) == Without(d, u)
  {
    WithoutMembers(d, u);
    WithoutSame(Without(d, u), u);
  }

  ghost predicate HeldOnce(s: State)
  {
    Fits(s) && NoDup(s.held)
  }

  /** A start makes the timer pending, with its delay counted from now; in its own callback it is refused. */
  lemma StartTells(s: State, now: nat, u: nat)
    requires HeldOnce(s) && u < |s.ts|
    ensures var s' := StartTimer(s, now, u);
            && HeldOnce(s') && OnlyTimer(s, s', u) && (s.ts[u].processing ==> s' == s)
            && (!s.ts[u].processing ==>
                  && u in s'.row && u !in s'.held
                  && s'.ts[u] == s.ts[u].(active := true, timeout := (now + s.ts[u].init) % WRAP))
  {
    var s', row := StartTimer(s, now, u), Without(s.row, u);
    if !s.ts[u].processing {
      WithoutBelow(s.row, u, |s.ts|);
      WithoutBelow(s.held, u, |s.ts|);
      WithoutMembers(s.row, u);
      WithoutMembers(s.held, u);
      InsertIds(s'.ts, row, u);
      InsertWithout(s'.ts, row, u);
    }
  }

  /** A stop takes an active timer off the row and leaves an inactive one alone. */
  lemma StopTells(s: State, u: nat)
    requires HeldOnce(s) && u < |s.ts|
    ensures var s' := StopTimer(s, u);
            && HeldOnce(s') && OnlyTimer(s, s', u) && (!s.ts[u].active ==> s' == s)
            && (s.ts[u].active ==> u !in s'.row && u !in s'.held && s'.ts[u] == s.ts[u].(active := false))
  {
    WithoutBelow(s.row, u, |s.ts|);
    WithoutBelow(s.held, u, |s.ts|);
    WithoutMembers(s.row, u);
    WithoutMembers(s.held, u);
    WithoutTwice(s.row, u);
  }

  /** A new time is stored, and the timer is no longer active; if it was, it is neither pending nor held. */
  lemma SetTimeTells(s: State, u: nat, ticks: nat)
    requires HeldOnce(s) && u < |s.ts|
    ensures var s' := SetTimerTicks(s, u, ticks);
            && HeldOnce(s') && OnlyTimer(s, s', u) && s'.ts[u] == s.ts[u].(active := false, init := ticks)
            && (s.ts[u].active ==> u !in s'.row && u !in s'.held)
            && (!s.ts[u].active ==> (u in s'.row <==> u in s.row) && (u in s'.held <==> u in s.held))
  {
    var s1, s' := StopTimer(s, u), SetTimerTicks(s, u, ticks);
    StopTells(s, u);
    forall v | 0 <= v < |s.ts| && v != u ensures Untouched(s, s', v) {
      assert Untouched(s, s1, v);
    }
  }

  /** A call changes its timer alone. */
  lemma DoTells(s: State, now: nat, a: Act)
    requires HeldOnce(s) && a.u < |s.ts|
    ensures HeldOnce(Do(s, now, a)) && OnlyTimer(s, Do(s, now, a), a.u)
  {
    match a
    case Start(u) => StartTells(s, now, u);
    case Stop(u) => StopTells(s, u);
    case SetTime(u, ticks) => SetTimeTells(s, u, ticks);
  }

  /** A new time and then a start: the timer is pending, with the new time counted from the start. */
  lemma SetThenStart(s: State, now: nat, u: nat, n: nat)
    requires HeldOnce(s) && u < |s.ts| && !s.ts[u].processing
    ensures var s1 := SetTimerTicks(s, u, n);
            && Fits(s1) && u < |s1.ts|
            && var s' := StartTimer(s1, now, u);
               u in s'.row && s'.ts[u] == s.ts[u].(init := n, active := true, timeout := (now + n) % WRAP)
  {
    SetTimeTells(s, u, n);
    StartTells(SetTimerTicks(s, u, n), now, u);
  }

  // ----- a callback -----

  /** The last thing a callback does to `u`. */
  function LastOn(acts: seq<Act>, u: nat): Option<Act>
  {
    if acts == [] then None
    else if LastOn(acts[1..], u).Some? then LastOn(acts[1..], u)
    else if acts[0].u == u then Some(acts[0]) else None
  }

  /** The last time a callback sets for `u`, or `d`. */
  function LastSet(acts: seq<Act>, u: nat, d: nat): nat
    decreases |acts|
  {
    if acts == [] then d else LastSet(acts[1..], u, if acts[0].SetTime? && acts[0].u == u then acts[0].ticks else d)
  }

  /** What `last`, the last call on `u` before `s'`, leaves. */
  ghost predicate Left(now: nat, s': State, u: nat, last: Act)
  {
    && u < |s'.ts|
    && if last.Start? then u in s'.row && s'.ts[u].active && s'.ts[u].timeout == (now + s'.ts[u].init) % WRAP
       else u !in s'.row && !s'.ts[u].active
  }

  lemma DoLeft(b: nat, now: nat, s: State, t: nat, a: Act)
    requires During(b, now, s, Some(t)) && Fair(b, now, s, a)
    ensures var s' := Do(s, now, a);
            && During(b, now, s', Some(t)) && OnlyTimer(s, s', a.u)
            && s'.ts[a.u].init == (if a.SetTime? then a.ticks else s.ts[a.u].init)
            && (a.Start? && a.u == t ==> s' == s)
            && (!(a.Start? && a.u == t) ==> Left(now, s', a.u, a))
  {
    var u := a.u;
    DoKeeps(b, now, s, t, a);
    DoTells(s, now, a);
    assert TimerOk(b, now, s.ts, s.row, Some(t), u);
    match a
    case Start(_) => StartTells(s, now, u);
    case Stop(_) => StopTells(s, u);
    case SetTime(_, ticks) => SetTimeTells(s, u, ticks);
  }

  /** A callback leaves each timer as its last call on it says, with the last delay set for it. */
  lemma {:induction false} DoAllLeft(b: nat, now: nat, s: State, t: nat, acts: seq<Act>, u: nat)
    requires During(b, now, s, Some(t)) && FairAll(b, now, s, acts) && ActsIn(acts, |s.ts|) && u < |s.ts|
    ensures var s', last := DoAll(s, now, acts), LastOn(acts, u);
            && During(b, now, s', Some(t)) && |s'.ts| == |s.ts| && s'.ts[u].init == LastSet(acts, u, s.ts[u].init)
            && (last.None? ==> Untouched(s, s', u))
            && (last.Some? && !(last.value.Start? && u == t) ==> Left(now, s', u, last.value))
    decreases |acts|
  {
    if acts != [] {
      var s1 := Do(s, now, acts[0]);
      DoLeft(b, now, s, t, acts[0]);
      DoAllLeft(b, now, s1, t, acts[1..], u);
      if acts[0].u != u { assert Untouched(s, s1, u); }
    }
  }

  // ----- a turn of a check -----

  lemma BeginLeaves(b: nat, now: nat, s: State, u: nat)
    requires During(b, now, s, None) && s.row != [] && u < |s.ts|
    ensures Begin(s).ts[u].init == s.ts[u].init && (u != s.row[0] ==> Untouched(s, Begin(s), u))
  {
    WithoutMembers(s.row, s.row[0]);
  }

  lemma EndLeaves(b: nat, now: nat, s: State, t: nat, u: nat)
    requires During(b, now, s, Some(t)) && u < |s.ts|
    ensures End(s, now, t).ts[u].init == s.ts[u].init && (u != t ==> Untouched(s, End(s, now, t), u))
  {
    var s1 := SetTimer(s, t, s.ts[t].(processing := false));
    if s.held != [] {
      assert Without(s.held, t) == [];
      var s2 := s1.(held := []);
      StartTells(s2, now, t);
      if u != t { assert Untouched(s2, StartTimer(s2, now, t), u); }
    }
  }

  lemma FireOther(b: nat, now: nat, s: State, acts: seq<Act>, s1: State, u: nat)
    requires During(b, now, s, None) && s.row != [] && Due(now, s.ts[s.row[0]].timeout) && Fits(Begin(s)) && u < |s.ts|
    requires FairAll(b, now, Begin(s), acts) && ActsIn(acts, |s.ts|) && s1 == DoAll(Begin(s), now, acts)
    ensures var s', last := Fire(s, now, acts), LastOn(acts, u);
            && |s'.ts| == |s.ts| && s'.ts[u].init == LastSet(acts, u, s.ts[u].init)
            && (u != s.row[0] && last.None? ==> Untouched(s, s', u))
            && (u != s.row[0] && last.Some? ==> Left(now, s', u, last.value))
  {
    BeginKeeps(b, now, s);
    BeginLeaves(b, now, s, u);
    DoAllLeft(b, now, Begin(s), s.row[0], acts, u);
    EndLeaves(b, now, s1, s.row[0], u);
  }

  /** A call that ends the fired timer in its own callback holds: it does not start again. */
  lemma FireSelf(b: nat, now: nat, s: State, acts: seq<Act>, s1: State)
    requires During(b, now, s, None) && s.row != [] && Due(now, s.ts[s.row[0]].timeout) && Fits(Begin(s))
    requires FairAll(b, now, Begin(s), acts) && ActsIn(acts, |s.ts|) && s1 == DoAll(Begin(s), now, acts)
    ensures var t, s' := s.row[0], Fire(s, now, acts);
            LastOn(acts, t).Some? && !LastOn(acts, t).value.Start? ==> Left(now, s', t, LastOn(acts, t).value)
  {
    BeginKeeps(b, now, s);
    DoAllLeft(b, now, Begin(s), s.row[0], acts, s.row[0]);
    EndKeeps(b, now, s1, s.row[0]);
  }

  /** One turn of a check leaves each timer but the one it fires as the last call of the callback says; a call that ends the
      fired timer holds for it too. */
  lemma FireLeft(b: nat, now: nat, s: State, acts: seq<Act>, u: nat)
    requires During(b, now, s, None) && s.row != [] && Due(now, s.ts[s.row[0]].timeout) && Fits(Begin(s)) && u < |s.ts|
    requires FairAll(b, now, Begin(s), acts) && ActsIn(acts, |s.ts|)
    ensures var t, s', last := s.row[0], Fire(s, now, acts), LastOn(acts, u);
            && |s'.ts| == |s.ts| && s'.ts[u].init == LastSet(acts, u, s.ts[u].init)
            && (u != t && last.None? ==> Untouched(s, s', u))
            && (u != t && last.Some? ==> Left(now, s', u, last.value))
            && (u == t && last.Some? && !last.value.Start? ==> Left(now, s', u, last.value))
  {
    BeginFits(s);
    FireOther(b, now, s, acts, DoAll(Begin(s), now, acts), u);
    FireSelf(b, now, s, acts, DoAll(Begin(s), now, acts));
  }

  // ----- over runs -----

  /** The last call on `u` in an event, and the delay of `u` after it. */
  function LastCall(ev: Event, u: nat): Option<Act>
  {
    match ev
    case Call(a) => LastOn([a], u)
    case Turn(acts) => LastOn(acts, u)
    case _ => None
  }

  function DelayAfter(ev: Event, u: nat, d: nat): nat
  {
    match ev
    case Call(a) => LastSet([a], u, d)
    case Turn(acts) => LastSet(acts, u, d)
    case _ => d
  }

  ghost predicate Fires(c: Clock, ev: Event, u: nat)
  {
    ev.Turn? && c.s.row != [] && c.s.row[0] == u
  }

  /** An event leaves each timer as its last call on it says, and a timer it does not call and does not fire alone. */
  lemma NextLeft(gap: nat, c: Clock, ev: Event, u: nat)
    requires Steady(gap, c.b, c.now, c.s) && Enabled(gap, c, ev) && u < |c.s.ts|
    ensures var c', last := Next(gap, c, ev), LastCall(ev, u);
            && |c'.s.ts| == |c.s.ts| && c'.s.ts[u].init == DelayAfter(ev, u, c.s.ts[u].init)
            && (!Fires(c, ev, u) && last.None? ==> Untouched(c.s, c'.s, u))
            && (last.Some? && !(Fires(c, ev, u) && last.value.Start?) ==> Left(c.now, c'.s, u, last.value))
  {
    match ev
    case Tick =>
    case Done =>
    case Call(a) => CallLeft(gap, c, a, u);
    case Turn(acts) =>
      TurnSteady(gap, c.b, c.now, c.s, acts);
      FireLeft(c.b, c.now, c.s, acts, u);
  }

  lemma CallLeft(gap: nat, c: Clock, a: Act, u: nat)
    requires Steady(gap, c.b, c.now, c.s) && ActOk(a, |c.s.ts|, HALF - gap) && u < |c.s.ts|
    ensures var s', last := Do(c.s, c.now, a), LastOn([a], u);
            && |s'.ts| == |c.s.ts| && s'.ts[u].init == LastSet([a], u, c.s.ts[u].init)
            && (last.None? ==> Untouched(c.s, s', u)) && (last.Some? ==> Left(c.now, s', u, last.value))
  {
    assert TimerOk(c.b, c.now, c.s.ts, c.s.row, None, a.u);
    assert [a][1..] == [];
    DoTells(c.s, c.now, a);
    if a.u != u { assert Untouched(c.s, Do(c.s, c.now, a), u); }
    match a
    case Start(v) => StartTells(c.s, c.now, v);
    case Stop(v) => StopTells(c.s, v);
    case SetTime(v, ticks) => SetTimeTells(c.s, v, ticks);
  }

  /** The last delay set for `u` in the first `i` events, or `d`. */
  function DelaySet(evs: seq<Event>, i: nat, u: nat, d: nat): nat
    requires i <= |evs|
  {
    if i == 0 then d else DelayAfter(evs[i - 1], u, DelaySet(evs, i - 1, u, d))
  }

  /** In every run, every timer has the delay last set for it, in a callback or outside. */
  lemma {:induction false} RunDelays(gap: nat, cs: seq<Clock>, evs: seq<Event>, i: nat, u: nat)
    requires Run(gap, cs, evs) && i < |cs| && u < |cs[0].s.ts|
    ensures |cs[i].s.ts| == |cs[0].s.ts| && cs[i].s.ts[u].init == DelaySet(evs, i, u, cs[0].s.ts[u].init)
  {
    if i > 0 {
      RunDelays(gap, cs, evs, i - 1, u);
      RunSteady(gap, cs, evs, i - 1);
      assert LeadsAt(gap, cs, evs, i - 1);
      NextLeft(gap, cs[i - 1], evs[i - 1], u);
    }
  }

  /** In every run, a timer that is started, in a callback or outside, is pending with the delay last set for it, counted
      from the tick of the start. */
  lemma RunStarts(gap: nat, cs: seq<Clock>, evs: seq<Event>, i: nat, u: nat)
    requires Run(gap, cs, evs) && i < |evs| && u < |cs[0].s.ts| && LastCall(evs[i], u) == Some(Start(u)) && !Fires(cs[i], evs[i], u)
    ensures |cs[i + 1].s.ts| == |cs[0].s.ts| && u in cs[i + 1].s.row && cs[i + 1].s.ts[u].active
    ensures cs[i + 1].s.ts[u].timeout == (cs[i].now + DelaySet(evs, i + 1, u, cs[0].s.ts[u].init)) % WRAP
  {
    RunDelays(gap, cs, evs, i, u);
    RunDelays(gap, cs, evs, i + 1, u);
    RunSteady(gap, cs, evs, i);
    assert LeadsAt(gap, cs, evs, i);
    NextLeft(gap, cs[i], evs[i], u);
  }
}
