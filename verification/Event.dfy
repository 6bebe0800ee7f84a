/** Event sets: sending, receiving at once or later, and clearing. */
module Event {
  import opened Lists
  import opened Bitmap
  import opened WordBits

  /** What a thread waits for, or, once it is woken, what it got. */
  datatype Wait = Wait(flags: bv32, all: bool, any: bool, clear: bool)

  /** The option asks for all or for any of the flags, as the receive call demands. */
  predicate OptionOk(w: Wait)
  {
    w.flags != 0 && (w.all || w.any)
  }

  /** The event set `e` satisfies the wait: RT_EVENT_FLAG_AND goes before RT_EVENT_FLAG_OR. */
  predicate Satisfied(w: Wait, e: bv32)
  {
    if w.all then And(w.flags, e) == w.flags else Test(w.flags, e)
  }

  /** The flags a satisfied wait receives. */
  function Got(w: Wait, e: bv32): bv32
  {
    And(w.flags, e)
  }

  // ----- bits -----

  /** All bits asked for are set, or, in a wait for any, one of them is. */
  ghost predicate Meets(w: Wait, e: bv32)
  {
    if w.all then forall i: nat :: i < 32 && Bit(w.flags, i) ==> Bit(e, i)
    else exists i: nat :: i < 32 && Bit(w.flags, i) && Bit(e, i)
  }

  /** The bits of `r` are those that both `a` and `b` have. */
  ghost predicate Shared(r: bv32, a: bv32, b: bv32)
  {
    forall i: nat :: i < 32 ==> (Bit(r, i) <==> Bit(a, i) && Bit(b, i))
  }

  /** The tests of the two options are what they are called. */
  lemma SatisfiedIs(w: Wait, e: bv32)
    ensures Satisfied(w, e) <==> Meets(w, e)
    ensures Shared(Got(w, e), w.flags, e)
  {
    CoversIs(w.flags, e);
    MeetsIs(w.flags, e);
    forall i: nat | i < 32 ensures Bit(Got(w, e), i) <==> Bit(w.flags, i) && Bit(e, i) { AndBit(w.flags, e, i); }
  }

  /** Thread `t` of those that waited is met by `e` and clears bit `i`. */
  ghost predicate Clears(info: seq<Wait>, waiters: seq<nat>, e: bv32, i: nat, t: nat)
    requires i < 32
  {
    t < |info| && t in waiters && Meets(info[t], e) && info[t].clear && Bit(info[t].flags, i)
  }

  lemma ClearsCons(info: seq<Wait>, waiters: seq<nat>, e: bv32, i: nat)
    requires i < 32 && waiters != []
    ensures (exists t :: Clears(info, waiters, e, i, t)) <==> Clears(info, waiters, e, i, waiters[0]) || exists t :: Clears(info, waiters[1..], e, i, t)
  {
    if exists t :: Clears(info, waiters, e, i, t) {
      var t :| Clears(info, waiters, e, i, t);
      assert t != waiters[0] ==> Clears(info, waiters[1..], e, i, t);
    }
    if exists t :: Clears(info, waiters[1..], e, i, t) {
      var t :| Clears(info, waiters[1..], e, i, t);
      assert Clears(info, waiters, e, i, t);
    }
  }

  lemma {:induction false} ToClearIs(info: seq<Wait>, waiters: seq<nat>, e: bv32, i: nat)
    requires Below(waiters, |info|) && i < 32 && Bit(e, i)
    ensures Bit(ToClear(info, waiters, e), i) <==> exists t :: Clears(info, waiters, e, i, t)
  {
    if waiters == [] {
      NoBit(i);
    } else {
      var w, rest, ws := info[waiters[0]], ToClear(info, waiters[1..], e), waiters[1..];
      ToClearIs(info, ws, e, i);
      SatisfiedIs(w, e);
      OrBit(Got(w, e), rest, i);
      ClearsCons(info, waiters, e, i);
    }
  }

  /** What a send of `s` means, bit by bit: a thread waits on just when the flags there were and those sent do not meet its
      wait; the others are told which of their flags were there; and the flags any of them clears are gone. */
  ghost predicate SendTells(flags: bv32, s: bv32, info: seq<Wait>, waiters: seq<nat>, flags': bv32, info': seq<Wait>, waiters': seq<nat>)
  {
    && |info'| == |info| && Below(waiters, |info|)
    && exists e :: (forall i: nat :: i < 32 ==> (Bit(e, i) <==> Bit(flags, i) || Bit(s, i))) && SentTo(e, info, waiters, flags', info', waiters')
  }

  ghost predicate SentTo(e: bv32, info: seq<Wait>, waiters: seq<nat>, flags': bv32, info': seq<Wait>, waiters': seq<nat>)
    requires |info'| == |info| && Below(waiters, |info|)
  {
    && (forall t :: t in waiters' <==> t in waiters && !Meets(info[t], e))
    && (forall t :: 0 <= t < |info| ==> TellsOne(e, info, waiters, info', t))
    && (forall i: nat :: i < 32 ==> (Bit(flags', i) <==> Bit(e, i) && !exists t :: Clears(info, waiters, e, i, t)))
  }

  ghost predicate TellsOne(e: bv32, info: seq<Wait>, waiters: seq<nat>, info': seq<Wait>, t: nat)
    requires t < |info| == |info'|
  {
    if t in waiters && Meets(info[t], e) then info'[t] == info[t].(flags := info'[t].flags) && Shared(info'[t].flags, info[t].flags, e)
    else info'[t] == info[t]
  }

  lemma SendMeans(flags: bv32, s: bv32, info: seq<Wait>, waiters: seq<nat>, flags': bv32, info': seq<Wait>, waiters': seq<nat>, e: bv32)
    requires Below(waiters, |info|) && NoDup(waiters) && |info'| == |info| && e == Or(flags, s)
    requires waiters' == Unsatisfied(info, waiters, e) && flags' == AndNot(e, ToClear(info, waiters, e))
    requires forall t :: 0 <= t < |info| ==>
               info'[t] == if t in waiters && Satisfied(info[t], e) then info[t].(flags := Got(info[t], e)) else info[t]
    ensures SendTells(flags, s, info, waiters, flags', info', waiters')
  {
    UnsatisfiedIs(info, waiters, e);
    forall t | 0 <= t < |info| ensures (Satisfied(info[t], e) <==> Meets(info[t], e)) && TellsOne(e, info, waiters, info', t) {
      SatisfiedIs(info[t], e);
    }
    forall i: nat | i < 32
      ensures Bit(e, i) <==> Bit(flags, i) || Bit(s, i)
      ensures Bit(flags', i) <==> Bit(e, i) && !exists t :: Clears(info, waiters, e, i, t)
    {
      OrBit(flags, s, i);
      AndNotBit(e, ToClear(info, waiters, e), i);
      if Bit(e, i) { ToClearIs(info, waiters, e, i); }
    }
    forall t ensures t in waiters' <==> t in waiters && !Meets(info[t], e) {
      if t in waiters { SatisfiedIs(info[t], e); }
    }
    assert SentTo(e, info, waiters, flags', info', waiters');
  }

  /** Clearing flags satisfies nobody. */
  lemma ClearingSatisfiesNone(w: Wait, e: bv32, c: bv32)
    requires !Satisfied(w, e)
    ensures !Satisfied(w, AndNot(e, c))
  {
    if w.all { AllShrinks(w.flags, e, c); } else { AnyShrinks(w.flags, e, c); }
  }

  lemma AllShrinks(s: bv32, e: bv32, c: bv32)
    requires And(s, e) != s
    ensures And(s, AndNot(e, c)) != s
  {
  }

  lemma AnyShrinks(s: bv32, e: bv32, c: bv32)
    requires !Test(s, e)
    ensures !Test(s, AndNot(e, c))
  {
  }

  /** Clearing all flags asked for, as a receipt at once does, and clearing those received, as a later receipt
      does, leave the same set. */
  lemma SameBitsCleared(w: Wait, e: bv32)
    ensures AndNot(e, w.flags) == AndNot(e, Got(w, e))
  {
  }

  lemma NothingToClear(e: bv32)
    ensures AndNot(e, 0) == e
  {
  }

  // ----- the waiters -----

  function Unsatisfied(info: seq<Wait>, waiters: seq<nat>, e: bv32): seq<nat>
    requires Below(waiters, |info|)
  {
    if waiters == [] then []
    else if Satisfied(info[waiters[0]], e) then Unsatisfied(info, waiters[1..], e)
    else [waiters[0]] + Unsatisfied(info, waiters[1..], e)
  }

  /** The flags that the satisfied waiters clear. */
  function ToClear(info: seq<Wait>, waiters: seq<nat>, e: bv32): bv32
    requires Below(waiters, |info|)
  {
    if waiters == [] then 0
    else
      var w := info[waiters[0]];
      var rest := ToClear(info, waiters[1..], e);
      if Satisfied(w, e) && w.clear then Or(Got(w, e), rest) else rest
  }

  ghost predicate WaiterOk(info: seq<Wait>, e: bv32, t: nat)
    requires t < |info|
  {
    OptionOk(info[t]) && !Satisfied(info[t], e)
  }

  /** Nobody waits for what is already there. */
  ghost predicate NoneSatisfied(info: seq<Wait>, waiters: seq<nat>, e: bv32)
  {
    Below(waiters, |info|) && NoDup(waiters) && forall i :: 0 <= i < |waiters| ==> WaiterOk(info, e, waiters[i])
  }

  lemma {:induction false} UnsatisfiedIs(info: seq<Wait>, waiters: seq<nat>, e: bv32)
    requires Below(waiters, |info|) && NoDup(waiters)
    ensures var rest := Unsatisfied(info, waiters, e);
            && Below(rest, |info|) && NoDup(rest)
            && forall t :: t in rest <==> t in waiters && !Satisfied(info[t], e)
  {
    if waiters != [] {
      NoDupTail(waiters);
      UnsatisfiedIs(info, waiters[1..], e);
      NoDupCons(waiters[0], Unsatisfied(info, waiters[1..], e));
    }
  }

  lemma OrThree(a: bv32, b: bv32, d: bv32)
    ensures Or(Or(a, b), d) == Or(a, Or(b, d)) && Or(0, a) == a && Or(a, 0) == a
  {
  }

  /** A wait for all flags, once satisfied, got what it asked for. */
  lemma GotAll(w: Wait, e: bv32)
    requires w.all && Satisfied(w, e)
    ensures Got(w, e) == w.flags
  {
  }

  /** What thread `t` has been told when the threads `all` waited and `left` still do. */
  ghost predicate ToldOne(was: seq<Wait>, info: seq<Wait>, all: seq<nat>, left: seq<nat>, e: bv32, t: nat)
    requires t < |was| == |info|
  {
    && (t in left ==> t in all) && (t in all && t !in left ==> Satisfied(was[t], e))
    && info[t] == if t in all && t !in left then was[t].(flags := Got(was[t], e)) else was[t]
  }

  ghost predicate Told(was: seq<Wait>, info: seq<Wait>, all: seq<nat>, left: seq<nat>, e: bv32)
  {
    |info| == |was| && forall t :: 0 <= t < |was| ==> ToldOne(was, info, all, left, e, t)
  }

  lemma SendStarts(was: seq<Wait>, all: seq<nat>, e: bv32)
    requires Below(all, |was|)
    ensures all[0..] == all && Unsatisfied(was, all, e) == all[..0] + Unsatisfied(was, all[0..], e)
    ensures ToClear(was, all, e) == Or(0, ToClear(was, all[0..], e)) && Told(was, was, all, all, e)
  {
    assert all[0..] == all && all[..0] == [];
    OrThree(ToClear(was, all, e), 0, 0);
    forall t | 0 <= t < |was| ensures ToldOne(was, was, all, all, e, t) { }
  }

  /** Who is still on the list has not been told anything, and its option is in order. */
  lemma StillWaits(was: seq<Wait>, info: seq<Wait>, all: seq<nat>, left: seq<nat>, e: bv32, t: nat)
    requires Told(was, info, all, left, e) && t in left && t < |was| && Below(all, |was|)
    requires forall i :: 0 <= i < |all| ==> OptionOk(was[all[i]])
    ensures info[t] == was[t] && OptionOk(was[t])
  {
    assert ToldOne(was, info, all, left, e, t);
    var k :| 0 <= k < |all| && all[k] == t;
  }

  /** One turn of the loop in `Send`, on the values its result is compared with. */
  lemma SendStep(was: seq<Wait>, ws: seq<nat>, i: nat, e: bv32, need: bv32)
    requires Below(ws, |was|) && NoDup(ws) && i < |ws|
    ensures var t, rest, ws' := ws[i], ws[i + 1..], ws[..i] + ws[i + 1..];
            && Below(rest, |was|) && Below(ws', |was|) && NoDup(ws') && ws'[i..] == rest && ws'[..i] == ws[..i]
            && (Satisfied(was[t], e) ==>
                  && Unsatisfied(was, ws[i..], e) == Unsatisfied(was, rest, e)
                  && Or(need, ToClear(was, ws[i..], e))
                       == Or(if was[t].clear then Or(need, Got(was[t], e)) else need, ToClear(was, rest, e)))
            && (!Satisfied(was[t], e) ==>
                  && ws[..i] + Unsatisfied(was, ws[i..], e) == ws[..i + 1] + Unsatisfied(was, rest, e)
                  && ToClear(was, ws[i..], e) == ToClear(was, rest, e))
  {
    var t, rest := ws[i], ws[i + 1..];
    assert ws[i..][1..] == rest && ws[i..][0] == t;
    OrThree(need, Got(was[t], e), ToClear(was, rest, e));
    if !Satisfied(was[t], e) {
      var u := Unsatisfied(was, rest, e);
      assert ws[..i] + ([t] + u) == ws[..i + 1] + u;
    }
  }

  lemma ToldMore(was: seq<Wait>, before: seq<Wait>, info: seq<Wait>, all: seq<nat>, left: seq<nat>, left': seq<nat>, e: bv32, i: nat)
    requires Told(was, before, all, left, e) && i < |left| && NoDup(left) && Below(left, |was|) && left' == left[..i] + left[i + 1..]
    requires Satisfied(was[left[i]], e) && info == before[left[i] := was[left[i]].(flags := Got(was[left[i]], e))]
    ensures Told(was, info, all, left', e)
  {
    assert left[i] in left && ToldOne(was, before, all, left, e, left[i]);
    forall t | 0 <= t < |was| ensures ToldOne(was, info, all, left', e, t) {
      assert t in left' <==> t in left && t != left[i] by { OneLess(left, i, t); }
      assert ToldOne(was, before, all, left, e, t);
    }
  }

  lemma OneLess(s: seq<nat>, i: nat, t: nat)
    requires i < |s| && NoDup(s)
    ensures t in s[..i] + s[i + 1..] <==> t in s && t != s[i]
  {
    if t in s && t != s[i] {
      var k :| 0 <= k < |s| && s[k] == t;
      assert (s[..i] + s[i + 1..])[if k < i then k else k - 1] == t;
    }
  }

  ghost predicate OptionsOk(was: seq<Wait>, all: seq<nat>)
  {
    Below(all, |was|) && forall i :: 0 <= i < |all| ==> OptionOk(was[all[i]])
  }

  /** In the walk over the threads `all`, before its turn at place `i` of those left, `ws`. */
  ghost predicate Walk(was: seq<Wait>, info: seq<Wait>, all: seq<nat>, ws: seq<nat>, i: nat, e: bv32, need: bv32)
  {
    && i <= |ws| && |info| == |was| && Below(all, |was|) && Below(ws, |was|) && NoDup(ws)
    && Unsatisfied(was, all, e) == ws[..i] + Unsatisfied(was, ws[i..], e)
    && ToClear(was, all, e) == Or(need, ToClear(was, ws[i..], e))
    && Told(was, info, all, ws, e)
  }

  lemma WalkStarts(was: seq<Wait>, all: seq<nat>, e: bv32)
    requires Below(all, |was|) && NoDup(all)
    ensures Walk(was, was, all, all, 0, e, 0)
  {
    SendStarts(was, all, e);
  }

  lemma WalkWakes(was: seq<Wait>, told: seq<Wait>, info: seq<Wait>, all: seq<nat>, ws: seq<nat>, ws': seq<nat>, i: nat, e: bv32, need: bv32, need': bv32)
    requires Walk(was, told, all, ws, i, e, need) && i < |ws| && ws' == ws[..i] + ws[i + 1..] && Satisfied(was[ws[i]], e)
    requires info == told[ws[i] := was[ws[i]].(flags := Got(was[ws[i]], e))]
    requires need' == if was[ws[i]].clear then Or(need, Got(was[ws[i]], e)) else need
    ensures Walk(was, info, all, ws', i, e, need')
  {
    SendStep(was, ws, i, e, need);
    ToldMore(was, told, info, all, ws, ws', e, i);
  }

  lemma WalkPasses(was: seq<Wait>, info: seq<Wait>, all: seq<nat>, ws: seq<nat>, i: nat, e: bv32, need: bv32)
    requires Walk(was, info, all, ws, i, e, need) && i < |ws| && !Satisfied(was[ws[i]], e)
    ensures Walk(was, info, all, ws, i + 1, e, need)
  {
    SendStep(was, ws, i, e, need);
  }

  lemma WalkEnds(was: seq<Wait>, info: seq<Wait>, all: seq<nat>, ws: seq<nat>, i: nat, e: bv32, need: bv32)
    requires Walk(was, info, all, ws, i, e, need) && i == |ws|
    ensures ws == Unsatisfied(was, all, e) && need == ToClear(was, all, e) && Told(was, info, all, ws, e)
  {
    OrThree(need, 0, 0);
    assert ws[i..] == [] && ws[..i] == ws;
  }

  /** After the loop of `Send`: who waits on, what they were told, and that clearing satisfies nobody. */
  lemma SendEnds(was: seq<Wait>, info: seq<Wait>, all: seq<nat>, left: seq<nat>, e: bv32, need: bv32)
    requires Below(all, |was|) && NoDup(all) && left == Unsatisfied(was, all, e) && Told(was, info, all, left, e)
    requires forall i :: 0 <= i < |all| ==> OptionOk(was[all[i]])
    ensures forall t :: 0 <= t < |info| ==>
              info[t] == if t in all && Satisfied(was[t], e) then was[t].(flags := Got(was[t], e)) else was[t]
    ensures NoneSatisfied(info, left, AndNot(e, need)) && (need == 0 ==> AndNot(e, need) == e)
  {
    UnsatisfiedIs(was, all, e);
    NothingToClear(e);
    forall t | 0 <= t < |info| ensures info[t] == if t in all && Satisfied(was[t], e) then was[t].(flags := Got(was[t], e)) else was[t] {
      assert ToldOne(was, info, all, left, e, t);
    }
    forall i | 0 <= i < |left| ensures WaiterOk(info, AndNot(e, need), left[i]) {
      var t := left[i];
      assert t in left && ToldOne(was, info, all, left, e, t);
      var k :| 0 <= k < |all| && all[k] == t;
      ClearingSatisfiesNone(was[t], e, need);
    }
  }

  /** Those who wait go on waiting when somebody else takes flags away. */
  lemma KeepWaiting(was: seq<Wait>, info: seq<Wait>, waiters: seq<nat>, e: bv32, t: nat, c: bv32)
    requires NoneSatisfied(was, waiters, e) && t < |was| && t !in waiters && |info| == |was| && info == was[t := info[t]]
    ensures NoneSatisfied(info, waiters, AndNot(e, c))
  {
    forall i | 0 <= i < |waiters| ensures WaiterOk(info, AndNot(e, c), waiters[i]) {
      assert waiters[i] in waiters && WaiterOk(was, e, waiters[i]);
      ClearingSatisfiesNone(was[waiters[i]], e, c);
    }
  }

  lemma StartWaiting(was: seq<Wait>, info: seq<Wait>, waiters: seq<nat>, e: bv32, t: nat, at: nat)
    requires NoneSatisfied(was, waiters, e) && t < |was| == |info| && t !in waiters && at <= |waiters|
    requires info == was[t := info[t]] && OptionOk(info[t]) && !Satisfied(info[t], e)
    ensures NoneSatisfied(info, waiters[..at] + [t] + waiters[at..], e)
  {
    var ws := waiters[..at] + [t] + waiters[at..];
    forall i | 0 <= i < |ws| ensures ws[i] < |info| && WaiterOk(info, e, ws[i]) {
      if i != at {
        var k := if i < at then i else i - 1;
        assert ws[i] == waiters[k] && waiters[k] in waiters && WaiterOk(was, e, waiters[k]);
      }
    }
  }

  lemma ReceiveMeans(w: Wait, e: bv32)
    ensures (Satisfied(w, e) <==> Meets(w, e)) && Shared(Got(w, e), w.flags, e)
    ensures forall i: nat :: i < 32 ==> (Bit(AndNot(e, w.flags), i) <==> Bit(e, i) && !Bit(w.flags, i))
  {
    SatisfiedIs(w, e);
    forall i: nat | i < 32 ensures Bit(AndNot(e, w.flags), i) <==> Bit(e, i) && !Bit(w.flags, i) { AndNotBit(e, w.flags, i); }
  }

  /** How a receive call ends. */
  datatype Outcome = Received(flags: bv32) | Failed | TimedOut | Waiting

  class Event {
    /** The flags that are set. */
    var flags: bv32
    var waiters: seq<nat>
    /** Per thread, `event_set` and `event_info`. */
    var info: seq<Wait>

    ghost predicate Valid()
      reads this
    {
      NoneSatisfied(info, waiters, flags)
    }

    /** Whether the flags satisfy thread `t`, which is then told what it got. Its option always names all or any,
        so the error return of the third branch is never taken. */
    method Compare(t: nat) returns (satisfied: bool)
      requires t < |info| && OptionOk(info[t])
      modifies `info
      ensures satisfied == Satisfied(old(info)[t], flags)
      ensures info == if satisfied then old(info)[t := old(info)[t].(flags := Got(old(info)[t], flags))] else old(info)
    {
      satisfied := false;
      if info[t].all {
        if And(info[t].flags, flags) == info[t].flags {
          GotAll(info[t], flags);
          assert info == info[t := info[t].(flags := Got(info[t], flags))];
          satisfied := true;
        }
      } else if info[t].any {
        if Test(info[t].flags, flags) {
          info := info[t := info[t].(flags := And(info[t].flags, flags))];
          satisfied := true;
        }
      } else {
        assert false;
      }
    }

    /** `rt_event_send`. The waiters are all compared with the same set, the old one with `s` added; those it
        satisfies are woken with what they got, and only then the flags they clear are taken away. */
    method Send(s: bv32) returns (ok: bool)
      requires Valid()
      modifies `flags, `waiters, `info
      ensures Valid() && ok == (s != 0) && |info| == |old(info)|
      ensures !ok ==> unchanged(`flags, `waiters, `info)
      ensures ok ==>
                var e := Or(old(flags), s);
                && waiters == Unsatisfied(old(info), old(waiters), e)
                && flags == AndNot(e, ToClear(old(info), old(waiters), e))
                && forall t :: 0 <= t < |info| ==>
                     info[t] == if t in old(waiters) && Satisfied(old(info)[t], e)
                                then old(info)[t].(flags := Got(old(info)[t], e)) else old(info)[t]
      ensures ok ==> SendTells(old(flags), s, old(info), old(waiters), flags, info, waiters)
    {
      if s == 0 { return false; }
      ghost var was, all, before := info, waiters, flags;
      flags := Or(flags, s);
      forall i | 0 <= i < |all| ensures OptionOk(was[all[i]]) { assert WaiterOk(was, before, all[i]); }
      var needClear := WakeSatisfied();
      SendEnds(was, info, all, waiters, flags, needClear);
      ghost var e := flags;
      Clear(needClear);
      SendMeans(before, s, was, all, flags, info, waiters, e);
      return true;
    }

    /** Comparing thread `t`, and collecting what it clears. */
    method Tell(t: nat, need: bv32) returns (satisfied: bool, need': bv32)
      requires t < |info| && OptionOk(info[t])
      modifies `info
      ensures satisfied == Satisfied(old(info)[t], flags)
      ensures info == if satisfied then old(info)[t := old(info)[t].(flags := Got(old(info)[t], flags))] else old(info)
      ensures need' == if satisfied && old(info)[t].clear then Or(need, Got(old(info)[t], flags)) else need
    {
      satisfied := Compare(t);
      need' := need;
      if satisfied && info[t].clear {
        need' := Or(need, info[t].flags);
      }
    }

    /** The thread at place `i`, which was told, leaves the list. */
    method Leave(i: nat, ghost was: seq<Wait>, ghost told: seq<Wait>, ghost all: seq<nat>, ghost need: bv32, ghost need': bv32)
      requires Walk(was, told, all, waiters, i, flags, need) && i < |waiters| && Satisfied(was[waiters[i]], flags)
      requires info == told[waiters[i] := was[waiters[i]].(flags := Got(was[waiters[i]], flags))]
      requires need' == if was[waiters[i]].clear then Or(need, Got(was[waiters[i]], flags)) else need
      modifies `waiters
      ensures Walk(was, info, all, waiters, i, flags, need') && |waiters| == |old(waiters)| - 1
    {
      ghost var ws := waiters;
      waiters := waiters[..i] + waiters[i + 1..];
      WalkWakes(was, told, info, all, ws, waiters, i, flags, need, need');
    }

    /** One turn of the walk over the suspend list, at its `i`-th thread. */
    method WakeOne(i: nat, need: bv32, ghost was: seq<Wait>, ghost all: seq<nat>) returns (i': nat, need': bv32)
      requires OptionsOk(was, all) && Walk(was, info, all, waiters, i, flags, need) && i < |waiters|
      modifies `waiters, `info
      ensures Walk(was, info, all, waiters, i', flags, need') && |waiters| - i' == |old(waiters)| - i - 1
    {
      var t := waiters[i];
      assert t in waiters;
      StillWaits(was, info, all, waiters, flags, t);
      ghost var told := info;
      var satisfied;
      satisfied, need' := Tell(t, need);
      i' := i;
      if satisfied {
        Leave(i, was, told, all, need, need');
      } else {
        i' := i + 1;
        WalkPasses(was, info, all, waiters, i, flags, need);
      }
    }

    /** The walk over the suspend list: every satisfied thread is told and leaves it. */
    method WakeSatisfied() returns (needClear: bv32)
      requires Below(waiters, |info|) && NoDup(waiters) && forall i :: 0 <= i < |waiters| ==> OptionOk(info[waiters[i]])
      modifies `waiters, `info
      ensures Told(old(info), info, old(waiters), waiters, flags)
      ensures waiters == Unsatisfied(old(info), old(waiters), flags)
      ensures needClear == ToClear(old(info), old(waiters), flags)
    {
      ghost var was, all := info, waiters;
      WalkStarts(was, all, flags);
      needClear := 0;
      var i: nat := 0;
      while i < |waiters|
        invariant OptionsOk(was, all) && Walk(was, info, all, waiters, i, flags, needClear)
        decreases |waiters| - i
      {
        i, needClear := WakeOne(i, needClear, was, all);
      }
      WalkEnds(was, info, all, waiters, i, flags, needClear);
    }

    method Clear(needClear: bv32)
      requires NoneSatisfied(info, waiters, AndNot(flags, needClear)) && (needClear == 0 ==> AndNot(flags, needClear) == flags)
      modifies `flags
      ensures Valid() && flags == AndNot(old(flags), needClear)
    {
      if needClear != 0 {
        flags := AndNot(flags, needClear);
      }
    }

    constructor (n: nat)
      ensures Valid() && flags == 0 && waiters == [] && |info| == n
    {
      flags := 0;
      waiters := [];
      info := seq(n, _ => Wait(0, false, false, false));
    }

    /** `_rt_event_recv` by thread `t`, which is not waiting, up to where it returns or is suspended; `at` is
        the place the suspend list gives it. */
    method Receive(t: nat, w: Wait, timeout: int, at: nat) returns (r: Outcome)
      requires Valid() && t < |info| && t !in waiters && at <= |waiters| && (w.all || w.any)
      modifies `flags, `waiters, `info
      ensures Valid() && |info| == |old(info)|
      ensures w.flags == 0 ==> r == Failed && unchanged(`flags, `waiters, `info)
      ensures w.flags != 0 && Satisfied(w, old(flags)) ==>
                && r == Received(Got(w, old(flags))) && waiters == old(waiters)
                && info == old(info)[t := w.(flags := Got(w, old(flags)))]
                && flags == if w.clear then AndNot(old(flags), w.flags) else old(flags)
      ensures w.flags != 0 && !Satisfied(w, old(flags)) && timeout == 0 ==> r == TimedOut && unchanged(`flags, `waiters, `info)
      ensures w.flags != 0 && !Satisfied(w, old(flags)) && timeout != 0 ==>
                && r == Waiting && flags == old(flags) && info == old(info)[t := w]
                && waiters == old(waiters)[..at] + [t] + old(waiters)[at..]
      ensures w.flags != 0 ==> (r.Received? <==> Meets(w, old(flags))) && (r.Received? ==> Shared(r.flags, w.flags, old(flags)))
      ensures r.Received? ==> forall i: nat :: i < 32 ==> (Bit(flags, i) <==> Bit(old(flags), i) && !(w.clear && Bit(w.flags, i)))
    {
      ReceiveMeans(w, flags);
      if w.flags == 0 { return Failed; }
      ghost var was := info;
      var satisfied := false;
      if w.all {
        satisfied := And(w.flags, flags) == w.flags;
      } else if w.any {
        satisfied := Test(w.flags, flags);
      }
      if satisfied {
        r := Received(And(w.flags, flags));
        info := info[t := w.(flags := And(w.flags, flags))];
        KeepWaiting(was, info, waiters, flags, t, if w.clear then w.flags else 0);
        NothingToClear(flags);
        if w.clear {
          flags := AndNot(flags, w.flags);
        }
      } else if timeout == 0 {
        r := TimedOut;
      } else {
        info := info[t := w];
        StartWaiting(was, info, waiters, flags, t, at);
        waiters := waiters[..at] + [t] + waiters[at..];
        r := Waiting;
      }
    }

    /** The timeout of a waiting thread. */
    method TimeOut(t: nat)
      requires Valid()
      modifies `waiters
      ensures Valid() && waiters == Without(old(waiters), t)
    {
      WithoutMembers(waiters, t);
      WithoutBelow(waiters, t, |info|);
      ghost var rest := Without(waiters, t);
      forall i | 0 <= i < |rest| ensures WaiterOk(info, flags, rest[i]) {
        assert rest[i] in rest;
        var k :| 0 <= k < |waiters| && waiters[k] == rest[i];
        assert WaiterOk(info, flags, waiters[k]);
      }
      waiters := Without<nat>(waiters, t);
    }

    /** `rt_event_control` with RT_IPC_CMD_RESET. */
    method Reset()
      requires Valid()
      modifies `flags, `waiters
      ensures Valid() && flags == 0 && waiters == []
    {
      waiters := [];
      flags := 0;
    }
  }
}
