/** What iot_button_get_event returns between ticks: the event field, told by the events raised, the debounced
    level, and whether the sessions of the stream are over. */
module ButtonShown {
  import opened Button
  import opened ButtonDebounce
  import opened ButtonRuns
  import opened ButtonSessions

  /** Every session of the list is over. */
  predicate AllOver(ss: seq<Session>) {
    ss == [] || ss[|ss| - 1].Closed()
  }

  lemma OverFront(s: Session, ss: seq<Session>)
    ensures AllOver([s] + ss) <==> if ss == [] then s.Closed() else AllOver(ss)
  {
  }

  // ---------- The machine is idle iff the sessions are over ----------

  lemma FinalRelease(t: Ticks, m: Machine, gap: nat, ps: seq<bool>)
    requires gap > 0
    ensures Final(t, m, Rep(false, gap) + ps) == Final(t, Advance(t, m, false).machine, Rep(false, gap - 1) + ps)
  {
    RepFront(false, gap);
    assert (Rep(false, gap) + ps)[1..] == Rep(false, gap - 1) + ps;
  }

  lemma NoGap(t: Ticks, m: Machine)
    ensures Final(t, m, Rep(false, 0) + Expand([])) == m
  {
    assert Rep(false, 0) + Expand([]) == [];
  }

  lemma NoSessions(t: Ticks)
    ensures IdleSessions(t, []) == []
  {
  }

  lemma {:induction false} IdleEnds(t: Ticks, m: Machine, runs: seq<Run>)
    requires t.Valid() && m.state == 0 && Alternating(runs)
    ensures Final(t, m, Expand(runs)).state == 0 <==> AllOver(IdleSessions(t, runs))
    decreases |runs|, 0
  {
    if runs != [] {
      hide Final, Trace, Expand, AllOver, FirstSessions;
      var held := runs[0].held;
      AlternatingTail(runs);
      ExpandFront(runs);
      TraceConcat(t, m, Rep(true, held), AfterPress(runs), 0);
      PressFromIdle(t, m, held, 0);
      FirstEnds(t, Final(t, m, Rep(true, held)), held, runs[0].gap, runs[1..]);
    }
  }

  lemma {:induction false} FirstEnds(t: Ticks, m: Machine, held: nat, gap: nat, runs: seq<Run>)
    requires t.Valid() && Alternating(runs) && (gap == 0 ==> runs == [])
    requires if held >= t.long + 2 then m.state == 5 else m.state == 1 && m.repeat == 1
    ensures Final(t, m, Rep(false, gap) + Expand(runs)).state == 0 <==> AllOver(FirstSessions(t, held, gap, runs))
    decreases |runs|, 3
  {
    hide Final, Expand, ChainSessions, IdleSessions;
    if gap == 0 {
      NoGap(t, m);
      NoSessions(t);
    } else if held >= t.long + 2 {
      IdleAgain(t, m, gap, runs);
      OverFront(Long(held - t.long - 2, true), IdleSessions(t, runs));
    } else {
      FinalRelease(t, m, gap, Expand(runs));
      ChainEnds(t, Advance(t, m, false).machine, 1, gap, runs);
    }
  }

  lemma {:induction false} IdleAgain(t: Ticks, m: Machine, gap: nat, runs: seq<Run>)
    requires t.Valid() && Alternating(runs) && gap > 0 && Advance(t, m, false).machine.state == 0
    ensures Final(t, m, Rep(false, gap) + Expand(runs)).state == 0 <==> AllOver(IdleSessions(t, runs))
    decreases |runs|, 1
  {
    hide Final, Trace, Expand, AllOver, IdleSessions, Advance;
    var up := Advance(t, m, false).machine;
    FinalRelease(t, m, gap, Expand(runs));
    TraceConcat(t, up, Rep(false, gap - 1), Expand(runs), 0);
    StaysIdle(t, up, gap - 1, 0);
    IdleEnds(t, Final(t, up, Rep(false, gap - 1)), runs);
  }

  lemma {:induction false} ChainEnds(t: Ticks, m: Machine, n: nat, gap: nat, runs: seq<Run>)
    requires t.Valid() && Alternating(runs) && gap > 0 && n > 0
    requires m.state == 2 && m.ticks == 0 && m.repeat == n % 0x100
    ensures Final(t, m, Rep(false, gap - 1) + Expand(runs)).state == 0 <==> AllOver(ChainSessions(t, n, gap, runs))
    decreases |runs|, 1
  {
    hide Final, Trace, Expand, IdleSessions, RepeatSessions;
    TraceConcat(t, m, Rep(false, gap - 1), Expand(runs), 0);
    Waiting(t, m, gap - 1, 0);
    var after := Final(t, m, Rep(false, gap - 1));
    if gap >= t.short + 2 {
      IdleEnds(t, after, runs);
      OverFront(Clicks(n, TimedOut), IdleSessions(t, runs));
    } else if runs == [] {
      ExpandStarts(runs);
      TraceOfNothing(t, after, 0);
    } else {
      var held := runs[0].held;
      AlternatingTail(runs);
      ExpandFront(runs);
      TraceConcat(t, after, Rep(true, held), AfterPress(runs), 0);
      PressFromChain(t, after, held, 0);
      RepeatEnds(t, Final(t, after, Rep(true, held)), n + 1, held, runs[0].gap, runs[1..]);
    }
  }

  lemma {:induction false} RepeatEnds(t: Ticks, m: Machine, n: nat, held: nat, gap: nat, runs: seq<Run>)
    requires t.Valid() && Alternating(runs) && (gap == 0 ==> runs == []) && n > 1
    requires m.state == 3 && m.repeat == n % 0x100 && (m.ticks + 1) % 0x1_0000 == held % 0x1_0000
    ensures Final(t, m, Rep(false, gap) + Expand(runs)).state == 0 <==> AllOver(RepeatSessions(t, n, held, gap, runs))
    decreases |runs|, 3
  {
    hide Final, Expand, ChainSessions, IdleSessions;
    if gap == 0 {
      NoGap(t, m);
    } else if held % 0x1_0000 < t.short {
      FinalRelease(t, m, gap, Expand(runs));
      ChainEnds(t, Advance(t, m, false).machine, n, gap, runs);
    } else {
      IdleAgain(t, m, gap, runs);
      OverFront(Clicks(n, TooSlow), IdleSessions(t, runs));
    }
  }

  lemma {:induction false} HandlerFinal(t: Ticks, b: Button, readings: seq<bool>)
    ensures HandleAll(t, b, readings).button.machine
         == Final(t, b.machine, Levels(t.debounce, b.debouncer, b.active, readings))
    decreases |readings|
  {
    if readings != [] {
      HandlerFinal(t, Handle(t, b, readings[0]).button, readings[1..]);
      var ps := Levels(t.debounce, b.debouncer, b.active, readings);
      assert ps[1..] == Levels(t.debounce, Sample(t.debounce, b.debouncer, readings[0]), b.active, readings[1..]);
    }
  }

  /** After every run of readings on a new button the machine is idle iff the sessions of its events are over. */
  lemma IdleIffOver(t: Ticks, active: bool, readings: seq<bool>)
    requires t.Valid()
    ensures HandleAll(t, Created(active), readings).button.machine.state == 0
       <==> AllOver(SessionsOf(t, active, readings))
  {
    hide Final, Trace, Expand, AllOver, IdleSessions, Levels;
    var b := Created(active);
    var ps := Levels(t.debounce, b.debouncer, active, readings);
    var lead := Lead(ps, false);
    HandlerFinal(t, b, readings);
    assert ps == Rep(false, lead) + ps[lead..];
    TraceConcat(t, b.machine, Rep(false, lead), ps[lead..], 0);
    StaysIdle(t, b.machine, lead, 0);
    IdleEnds(t, Final(t, b.machine, Rep(false, lead)), RunsOf(ps[lead..]));
  }

  // ---------- The event field ----------

  /** The last event raised, as the field holds it: PRESS_DOWN stands for PRESS_REPEAT. */
  function LastShown(es: seq<Event>): Event {
    if es == [] then NonePress
    else if es[|es| - 1] == PressRepeat then PressDown
    else es[|es| - 1]
  }

  /** One tick: idle and not pressed it clears the field; otherwise the field follows the events raised, if any. */
  lemma TickShown(t: Ticks, m: Machine, pressed: bool)
    ensures var o := Advance(t, m, pressed);
            o.machine.event == if m.state == 0 && !pressed then NonePress
                               else if o.events == [] then m.event
                               else LastShown(o.events)
  {
  }

  lemma LastShownConcat(a: seq<Event>, b: seq<Event>)
    ensures LastShown(a + b) == if b == [] then LastShown(a) else LastShown(b)
  {
    if b == [] {
      assert a + b == a;
    } else {
      assert (a + b)[|a + b| - 1] == b[|b| - 1];
    }
  }

  /** While the machine is busy, the field holds the last event raised. */
  lemma {:induction false} BusyShows(t: Ticks, active: bool, readings: seq<bool>)
    ensures var h := HandleAll(t, Created(active), readings);
            h.button.machine.state != 0 ==> h.button.machine.event == LastShown(h.events)
    ensures HandleAll(t, Created(active), readings).button.active == active
    decreases |readings|
  {
    HandleAllKeepsActive(t, Created(active), readings);
    if readings != [] {
      hide HandleAll, Advance, LastShown, Sample;
      var before, last := readings[..|readings| - 1], readings[|readings| - 1];
      assert readings == before + [last];
      HandleAllSnoc(t, Created(active), before, last);
      BusyShows(t, active, before);
      var h := HandleAll(t, Created(active), before);
      StepShows(t, h.button, h.events, last);
    }
  }

  lemma StepShows(t: Ticks, b: Button, es: seq<Event>, reading: bool)
    requires b.machine.state != 0 ==> b.machine.event == LastShown(es)
    ensures var h := Handle(t, b, reading);
            h.button.machine.event == if b.machine.state == 0 && h.button.debouncer.level != b.active then NonePress
                                      else LastShown(es + h.events)
    ensures var h := Handle(t, b, reading);
            b.machine.state == 0 && h.button.debouncer.level != b.active ==> h.button.machine.state == 0
  {
    hide LastShown;
    var pressed := Sample(t.debounce, b.debouncer, reading).level == b.active;
    TickShown(t, b.machine, pressed);
    LastShownConcat(es, Advance(t, b.machine, pressed).events);
    assert b.machine.state == 0 && pressed ==> Advance(t, b.machine, pressed).events != [];
  }

  lemma {:induction false} LevelAfter(t: Ticks, b: Button, readings: seq<bool>)
    ensures HandleAll(t, b, readings).button.debouncer == Debounced(t.debounce, b.debouncer, readings)
    decreases |readings|
  {
    if readings != [] {
      assert readings == [readings[0]] + readings[1..];
      DebouncedFront(t.debounce, b.debouncer, readings[0], readings[1..]);
      LevelAfter(t, Handle(t, b, readings[0]).button, readings[1..]);
    }
  }

  /** After every run on a new button, iot_button_get_event returns NONE_PRESS if the last tick found the sessions
      over and the debounced level inactive, or if there was no tick; and otherwise the last event raised. */
  lemma EventField(t: Ticks, active: bool, readings: seq<bool>)
    requires t.Valid()
    ensures var h := HandleAll(t, Created(active), readings);
            h.button.machine.event ==
              if readings == [] then NonePress
              else if AllOver(SessionsOf(t, active, readings[..|readings| - 1]))
                      && Debounced(t.debounce, Created(active).debouncer, readings).level != active then NonePress
              else LastShown(h.events)
  {
    if readings != [] {
      hide HandleAll, Handle, LastShown, AllOver, Debounced, SessionsOf;
      var before, last := readings[..|readings| - 1], readings[|readings| - 1];
      assert readings == before + [last];
      HandleAllSnoc(t, Created(active), before, last);
      BusyShows(t, active, before);
      var h := HandleAll(t, Created(active), before);
      StepShows(t, h.button, h.events, last);
      IdleIffOver(t, active, before);
      LevelAfter(t, Created(active), readings);
    }
  }
}
