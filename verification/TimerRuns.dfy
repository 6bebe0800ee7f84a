/** Timers over runs of any length, across any number of wrap-arounds of the tick. */
module TimerRuns {
  import opened Lists
  import opened TimerOrder
  import opened TimerModel
  import opened TimerCheck

  ghost predicate DelayOk(ts: seq<Timer>, m: nat, u: nat)
    requires u < |ts|
  {
    0 < ts[u].init < m
  }

  ghost predicate DelaysOk(ts: seq<Timer>, m: nat)
  {
    forall u :: 0 <= u < |ts| ==> DelayOk(ts, m, u)
  }

  /** At tick `now`, at most `gap` ticks after the tick `b` of the last check: the pending timers are in order in the window
      from `b` on, and every delay is short enough that no timeout can leave it before the next check. */
  ghost predicate Steady(gap: nat, b: nat, now: nat, s: State)
  {
    gap < HALF && During(b, now, s, None) && Key(b, now) <= gap && DelaysOk(s.ts, HALF - gap)
  }

  lemma StartableNow(gap: nat, b: nat, now: nat, t: Timer)
    requires gap < HALF && InWindow(b, now) && Key(b, now) <= gap && 0 < t.init < HALF - gap
    ensures Startable(b, now, t)
  {
    assert (now + t.init) % WRAP == if now + t.init < WRAP then now + t.init else now + t.init - WRAP;
  }

  /** The order of a row does not depend on the window it is looked at in. */
  lemma OrderedShift(ts: seq<Timer>, b: nat, b': nat, row: seq<nat>)
    requires Below(row, |ts|) && Ordered(ts, b, row) && forall i :: 0 <= i < |row| ==> InWindow(b', ts[row[i]].timeout)
    ensures Ordered(ts, b', row)
  {
    forall i, j | 0 <= i <= j < |row| ensures OrderedAt(ts, b', row, i, j) {
      assert OrderedAt(ts, b, row, i, j) && OrderedAt(ts, b, row, j, j);
      var x, y := ts[row[i]].timeout, ts[row[j]].timeout;
      WindowOrder(b, x, y);
      WindowOrder(b', x, y);
    }
  }

  /** A tick, at most `gap` after the last check. */
  lemma TickKeeps(gap: nat, b: nat, now: nat, s: State)
    requires Steady(gap, b, now, s) && Key(b, now) < gap
    ensures Steady(gap, b, (now + 1) % WRAP, s)
  {
    var now' := (now + 1) % WRAP;
    assert now' == if now + 1 < WRAP then now + 1 else 0;
    forall u | 0 <= u < |s.ts| ensures TimerOk(b, now', s.ts, s.row, None, u) {
      assert TimerOk(b, now, s.ts, s.row, None, u) && DelayOk(s.ts, HALF - gap, u);
      StartableNow(gap, b, now', s.ts[u]);
    }
  }

  /** The timer exists, and a new delay is short enough. */
  predicate ActOk(a: Act, n: nat, m: nat)
  {
    a.u < n && (a.SetTime? ==> 0 < a.ticks < m)
  }

  predicate ActsOk(acts: seq<Act>, n: nat, m: nat)
  {
    forall i :: 0 <= i < |acts| ==> ActOk(acts[i], n, m)
  }

  lemma DoDelays(s: State, now: nat, a: Act, m: nat)
    requires Fits(s) && DelaysOk(s.ts, m) && ActOk(a, |s.ts|, m)
    ensures DelaysOk(Do(s, now, a).ts, m)
  {
    var ts' := Do(s, now, a).ts;
    forall u | 0 <= u < |ts'| ensures DelayOk(ts', m, u) {
      assert DelayOk(s.ts, m, u);
    }
  }

  lemma ActFair(gap: nat, b: nat, now: nat, s: State, a: Act)
    requires gap < HALF && InWindow(b, now) && Key(b, now) <= gap && DelaysOk(s.ts, HALF - gap) && ActOk(a, |s.ts|, HALF - gap)
    ensures Fair(b, now, s, a)
  {
    assert DelayOk(s.ts, HALF - gap, a.u);
    StartableNow(gap, b, now, s.ts[a.u]);
  }

  /** A start, a stop or a new time from outside any callback. */
  lemma ActKeeps(gap: nat, b: nat, now: nat, s: State, a: Act)
    requires Steady(gap, b, now, s) && ActOk(a, |s.ts|, HALF - gap)
    ensures Steady(gap, b, now, Do(s, now, a))
  {
    var u, s' := a.u, Do(s, now, a);
    var init := if a.SetTime? then a.ticks else s.ts[u].init;
    ActFair(gap, b, now, s, a);
    DoDelays(s, now, a, HALF - gap);
    assert TimerOk(b, now, s.ts, s.row, None, u);
    if a.Start? {
      StartKeeps(b, now, s, None, u);
    } else if s.ts[u].active {
      StopKeeps(b, now, s, s', None, u, init);
    } else {
      assert s' == SetTimer(s, u, s.ts[u].(init := init));
      DelayKeeps(b, now, s, s', None, u, init);
    }
  }

  lemma ActsOkTail(acts: seq<Act>, n: nat, m: nat)
    requires ActsOk(acts, n, m)
    ensures ActsIn(acts, n) && (acts != [] ==> ActOk(acts[0], n, m) && ActsOk(acts[1..], n, m))
  {
    forall i | 0 <= i < |acts| ensures acts[i].u < n {
      assert ActOk(acts[i], n, m);
    }
  }

  /** A callback with short delays does only what it may, whatever the tick. */
  lemma {:induction false} CallbackFair(gap: nat, b: nat, now: nat, s: State, t: nat, acts: seq<Act>)
    requires gap < HALF && During(b, now, s, Some(t)) && Key(b, now) <= gap && DelaysOk(s.ts, HALF - gap) && ActsOk(acts, |s.ts|, HALF - gap)
    ensures FairAll(b, now, s, acts) && ActsIn(acts, |s.ts|) && DelaysOk(DoAll(s, now, acts).ts, HALF - gap)
    decreases |acts|
  {
    ActsOkTail(acts, |s.ts|, HALF - gap);
    if acts != [] {
      ActFair(gap, b, now, s, acts[0]);
      DoKeeps(b, now, s, t, acts[0]);
      DoDelays(s, now, acts[0], HALF - gap);
      CallbackFair(gap, b, now, Do(s, now, acts[0]), t, acts[1..]);
    }
  }

  lemma BeginDelays(s: State, m: nat)
    requires Fits(s) && s.row != [] && DelaysOk(s.ts, m)
    ensures DelaysOk(Begin(s).ts, m)
  {
    var ts' := Begin(s).ts;
    forall u | 0 <= u < |ts'| ensures DelayOk(ts', m, u) {
      assert DelayOk(s.ts, m, u);
    }
  }

  lemma EndDelays(s: State, now: nat, t: nat, m: nat)
    requires Fits(s) && t < |s.ts| && DelaysOk(s.ts, m)
    ensures DelaysOk(End(s, now, t).ts, m)
  {
    var ts' := End(s, now, t).ts;
    forall u | 0 <= u < |ts'| ensures DelayOk(ts', m, u) {
      assert DelayOk(s.ts, m, u);
    }
  }

  /** One turn of a check, at the tick it reads. */
  lemma TurnSteady(gap: nat, b: nat, now: nat, s: State, acts: seq<Act>)
    requires Steady(gap, b, now, s) && s.row != [] && Due(now, s.ts[s.row[0]].timeout) && ActsOk(acts, |s.ts|, HALF - gap)
    ensures ActsIn(acts, |s.ts|) && Steady(gap, b, now, Fire(s, now, acts))
    ensures Fits(Begin(s)) && FairAll(b, now, Begin(s), acts)
  {
    var t := s.row[0];
    BeginFits(s);
    BeginKeeps(b, now, s);
    BeginDelays(s, HALF - gap);
    CallbackFair(gap, b, now, Begin(s), t, acts);
    FireKeeps(b, now, s, acts);
    DoAllFits(Begin(s), now, acts);
    EndDelays(DoAll(Begin(s), now, acts), now, t, HALF - gap);
  }

  /** A check that finds nothing due starts a new window at its tick. */
  lemma DoneSteady(gap: nat, b: nat, now: nat, s: State)
    requires Steady(gap, b, now, s) && (s.row == [] || !Due(now, s.ts[s.row[0]].timeout))
    ensures Steady(gap, now, now, s)
  {
    forall i | 0 <= i < |s.row| ensures InWindow(now, s.ts[s.row[i]].timeout) {
      assert OrderedAt(s.ts, b, s.row, 0, i);
      WindowOrder(b, now, s.ts[s.row[0]].timeout);
    }
    OrderedShift(s.ts, b, now, s.row);
    forall u | 0 <= u < |s.ts| ensures TimerOk(now, now, s.ts, s.row, None, u) {
      assert TimerOk(b, now, s.ts, s.row, None, u) && DelayOk(s.ts, HALF - gap, u);
      StartableNow(gap, now, now, s.ts[u]);
    }
  }

  ghost predicate ScriptsOk(scripts: seq<seq<Act>>, n: nat, m: nat)
  {
    forall i :: 0 <= i < |scripts| ==> ActsOk(scripts[i], n, m)
  }

  lemma ScriptsIn(scripts: seq<seq<Act>>, n: nat, m: nat)
    requires ScriptsOk(scripts, n, m)
    ensures forall i :: 0 <= i < |scripts| ==> ActsIn(scripts[i], n)
  {
    forall i | 0 <= i < |scripts| ensures ActsIn(scripts[i], n) {
      ActsOkTail(scripts[i], n, m);
    }
  }

  /** A whole check at one tick does only what it may, and is followed by a new window at its tick. */
  lemma {:induction false} CheckSteady(gap: nat, b: nat, now: nat, s: State, scripts: seq<seq<Act>>)
    requires Steady(gap, b, now, s) && ScriptsOk(scripts, |s.ts|, HALF - gap)
    ensures (forall i :: 0 <= i < |scripts| ==> ActsIn(scripts[i], |s.ts|)) && FairRun(b, now, s, scripts)
    ensures Steady(gap, b, now, Check(s, now, scripts).0)
    decreases |scripts|
  {
    ScriptsIn(scripts, |s.ts|, HALF - gap);
    if s.row != [] && Due(now, s.ts[s.row[0]].timeout) && scripts != [] {
      var rest := scripts[1..];
      TurnSteady(gap, b, now, s, scripts[0]);
      FireFits(s, now, scripts[0]);
      assert forall i :: 0 <= i < |rest| ==> rest[i] == scripts[i + 1];
      CheckSteady(gap, b, now, Fire(s, now, scripts[0]), rest);
    }
  }

  // ----- runs -----

  /** `Turn` and `Done` are the two ways a turn of a check goes; the tick may advance between turns. */
  datatype Event = Tick | Call(act: Act) | Turn(acts: seq<Act>) | Done

  /** The tick of the last check that ended, the tick, and the timers. */
  datatype Clock = Clock(b: nat, now: nat, s: State)

  /** Checks end at least every `gap` ticks, and delays stay below half the tick range less `gap`. */
  ghost predicate Enabled(gap: nat, c: Clock, ev: Event)
  {
    && gap < HALF && Fits(c.s)
    && match ev
       case Tick => Key(c.b, c.now) < gap
       case Call(a) => ActOk(a, |c.s.ts|, HALF - gap)
       case Turn(acts) => c.s.row != [] && Due(c.now, c.s.ts[c.s.row[0]].timeout) && ActsOk(acts, |c.s.ts|, HALF - gap)
       case Done => c.s.row == [] || !Due(c.now, c.s.ts[c.s.row[0]].timeout)
  }

  function Next(gap: nat, c: Clock, ev: Event): Clock
    requires Enabled(gap, c, ev)
  {
    match ev
    case Tick => c.(now := (c.now + 1) % WRAP)
    case Call(a) => c.(s := Do(c.s, c.now, a))
    case Turn(acts) => ActsOkTail(acts, |c.s.ts|, HALF - gap); c.(s := Fire(c.s, c.now, acts))
    case Done => c.(b := c.now)
  }

  /** After a check the tick can go on for `gap` ticks, so runs go on without end. */
  lemma DoneGoesOn(gap: nat, c: Clock)
    requires Enabled(gap, c, Done)
    ensures var c' := Next(gap, c, Done); c'.now == c.now && c'.s == c.s && Key(c'.b, c'.now) == 0 && (gap > 0 ==> Enabled(gap, c', Tick))
  {
  }

  ghost predicate Leads(gap: nat, c: Clock, ev: Event, c': Clock)
  {
    Enabled(gap, c, ev) && Next(gap, c, ev) == c'
  }

  lemma NextSteady(gap: nat, c: Clock, ev: Event)
    requires Steady(gap, c.b, c.now, c.s) && Enabled(gap, c, ev)
    ensures var c' := Next(gap, c, ev); Steady(gap, c'.b, c'.now, c'.s)
  {
    match ev
    case Tick => TickKeeps(gap, c.b, c.now, c.s);
    case Call(a) => ActKeeps(gap, c.b, c.now, c.s, a);
    case Turn(acts) => TurnSteady(gap, c.b, c.now, c.s, acts);
    case Done => DoneSteady(gap, c.b, c.now, c.s);
  }

  /** No timer is active. */
  ghost predicate Fresh(gap: nat, c: Clock)
  {
    && gap < HALF && c.b == c.now < WRAP && c.s.row == [] && c.s.held == [] && DelaysOk(c.s.ts, HALF - gap)
    && forall u :: 0 <= u < |c.s.ts| ==> !c.s.ts[u].active && !c.s.ts[u].processing
  }

  ghost predicate Run(gap: nat, cs: seq<Clock>, evs: seq<Event>)
  {
    |cs| == |evs| + 1 && Fresh(gap, cs[0]) && forall i :: 0 <= i < |evs| ==> LeadsAt(gap, cs, evs, i)
  }

  ghost predicate LeadsAt(gap: nat, cs: seq<Clock>, evs: seq<Event>, i: nat)
    requires |cs| == |evs| + 1 && i < |evs|
  {
    Leads(gap, cs[i], evs[i], cs[i + 1])
  }

  /** In every state of every run, however often the tick has wrapped: the pending timers are in order of their timeouts
      in the window that starts at the last check, and so the first one is the first to be due. */
  lemma {:induction false} RunSteady(gap: nat, cs: seq<Clock>, evs: seq<Event>, i: nat)
    requires Run(gap, cs, evs) && i < |cs|
    ensures Steady(gap, cs[i].b, cs[i].now, cs[i].s)
  {
    if i > 0 {
      RunSteady(gap, cs, evs, i - 1);
      assert LeadsAt(gap, cs, evs, i - 1);
      NextSteady(gap, cs[i - 1], evs[i - 1]);
    } else {
      var c := cs[0];
      forall u | 0 <= u < |c.s.ts| ensures TimerOk(c.b, c.now, c.s.ts, c.s.row, None, u) {
        assert !c.s.ts[u].active;
      }
    }
  }
}
