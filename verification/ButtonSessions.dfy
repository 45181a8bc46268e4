/** The grammar of a button's event stream: a list of sessions, of which only the last may
    still be open. */
module ButtonSessions {
  import opened Button
  import opened ButtonRuns

  /** How a chain of clicks stands: its last press or last gap is still open, it timed out, or its last
      press was too slow to go on. */
  datatype Ending = InPress | InGap | TimedOut | TooSlow

  datatype Session =
    | Long(holds: nat, released: bool)
    | Clicks(presses: nat, ending: Ending)
  {
    predicate Valid() {
      Clicks? ==> presses > 0 && (ending == TooSlow ==> presses > 1)
    }

    predicate Closed() {
      if Long? then released else ending == TimedOut || ending == TooSlow
    }
  }

  function Repeat(e: Event, n: nat): seq<Event> {
    if n == 0 then [] else [e] + Repeat(e, n - 1)
  }

  /** n presses, the last of them released. */
  function Presses(n: nat): seq<Event> {
    if n == 0 then []
    else if n == 1 then [PressDown, PressUp]
    else Presses(n - 1) + [PressDown, PressRepeat, PressUp]
  }

  function Render(s: Session): seq<Event>
    requires s.Valid()
  {
    match s
    case Long(holds, released) =>
      [PressDown, LongPressStart] + Repeat(LongPressHold, holds) + (if released then [PressUp] else [])
    case Clicks(n, InPress) =>
      if n == 1 then [PressDown] else Presses(n - 1) + [PressDown, PressRepeat]
    case Clicks(n, TimedOut) =>
      Presses(n) + Click(n)
    case Clicks(n, _) =>
      Presses(n)
  }

  /** A list of sessions in which every one but the last is over. */
  predicate Grammatical(ss: seq<Session>) {
    && (forall i :: 0 <= i < |ss| ==> ss[i].Valid())
    && (forall i :: 0 <= i < |ss| - 1 ==> ss[i].Closed())
  }

  function RenderAll(ss: seq<Session>): seq<Event>
    requires forall i :: 0 <= i < |ss| ==> ss[i].Valid()
  {
    if ss == [] then [] else Render(ss[0]) + RenderAll(ss[1..])
  }

  // ---------- The sessions of a run list ----------

  function IdleSessions(t: Ticks, runs: seq<Run>): (ss: seq<Session>)
    requires Alternating(runs)
    ensures Grammatical(ss)
    decreases |runs|, 0
  {
    if runs == [] then []
    else
      AlternatingTail(runs);
      FirstSessions(t, runs[0].held, runs[0].gap, runs[1..])
  }

  /** The sessions from a first press on. */
  function FirstSessions(t: Ticks, held: nat, gap: nat, runs: seq<Run>): (ss: seq<Session>)
    requires Alternating(runs) && (gap == 0 ==> runs == [])
    ensures Grammatical(ss)
    decreases |runs|, 2
  {
    if held >= t.long + 2 then [Long(held - t.long - 2, gap > 0)] + IdleSessions(t, runs)
    else if gap == 0 then [Clicks(1, InPress)]
    else ChainSessions(t, 1, gap, runs)
  }

  /** The sessions from a chain of n released presses on. */
  function ChainSessions(t: Ticks, n: nat, gap: nat, runs: seq<Run>): (ss: seq<Session>)
    requires Alternating(runs) && n > 0
    ensures Grammatical(ss)
    decreases |runs|, 1
  {
    if gap >= t.short + 2 then
      [Clicks(n, TimedOut)] + IdleSessions(t, runs)
    else if runs == [] then
      [Clicks(n, InGap)]
    else
      AlternatingTail(runs);
      RepeatSessions(t, n + 1, runs[0].held, runs[0].gap, runs[1..])
  }

  /** The sessions from the n-th press of a chain on. */
  function RepeatSessions(t: Ticks, n: nat, held: nat, gap: nat, runs: seq<Run>): (ss: seq<Session>)
    requires Alternating(runs) && n > 1
    ensures Grammatical(ss)
    decreases |runs|, 2
  {
    if gap == 0 then [Clicks(n, InPress)]
    else if held % 0x1_0000 < t.short then ChainSessions(t, n, gap, runs)
    else [Clicks(n, TooSlow)] + IdleSessions(t, runs)
  }

  lemma RenderOne(s: Session)
    requires s.Valid()
    ensures RenderAll([s]) == Render(s)
  {
    assert RenderAll([s]) == Render(s) + RenderAll([]);
  }

  lemma RenderFront(s: Session, ss: seq<Session>)
    requires s.Valid() && forall i :: 0 <= i < |ss| ==> ss[i].Valid()
    ensures forall i :: 0 <= i < |[s] + ss| ==> ([s] + ss)[i].Valid()
    ensures RenderAll([s] + ss) == Render(s) + RenderAll(ss)
  {
    assert ([s] + ss)[1..] == ss;
  }

  lemma {:induction false} UntimedHolds(from: nat, n: nat)
    ensures Untimed(Holds(from, n)) == Repeat(LongPressHold, n)
    decreases n
  {
    if n > 0 {
      UntimedHolds(from + 1, n - 1);
      assert Holds(from, n)[1..] == Holds(from + 1, n - 1);
    }
  }

  lemma UntimedFront(x: Timed, rest: seq<Timed>)
    ensures Untimed([x] + rest) == [x.event] + Untimed(rest)
  {
    assert ([x] + rest)[1..] == rest;
  }

  lemma UntimedNothing()
    ensures Untimed([]) == []
  {
  }

  lemma UntimedFirstPress(t: Ticks, held: nat, k: nat)
    ensures Untimed(FirstPress(t, held, k))
         == if held >= t.long + 2
            then [PressDown, LongPressStart] + Repeat(LongPressHold, held - t.long - 2)
            else [PressDown]
  {
    if held >= t.long + 2 {
      var holds := Holds(k + t.long + 2, held - t.long - 2);
      UntimedHolds(k + t.long + 2, held - t.long - 2);
      UntimedFront(At(k + t.long + 1, LongPressStart), holds);
      UntimedFront(At(k, PressDown), [At(k + t.long + 1, LongPressStart)] + holds);
    } else {
      UntimedFront(At(k, PressDown), []);
    }
  }

  lemma {:induction false} IdleRenders(t: Ticks, runs: seq<Run>, k: nat)
    requires Alternating(runs)
    ensures Untimed(IdleEvents(t, runs, k)) == RenderAll(IdleSessions(t, runs))
    decreases |runs|, 0
  {
    if runs == [] {
      UntimedNothing();
    } else {
      hide Untimed, RenderAll, FirstPress, AfterFirst, FirstSessions;
      var held, gap, rest := runs[0].held, runs[0].gap, runs[1..];
      AlternatingTail(runs);
      UntimedConcat(FirstPress(t, held, k), AfterFirst(t, held, gap, rest, k + held));
      FirstRenders(t, held, gap, rest, k);
    }
  }

  lemma {:induction false} FirstRenders(t: Ticks, held: nat, gap: nat, runs: seq<Run>, k: nat)
    requires Alternating(runs) && (gap == 0 ==> runs == [])
    ensures Untimed(FirstPress(t, held, k)) + Untimed(AfterFirst(t, held, gap, runs, k + held))
         == RenderAll(FirstSessions(t, held, gap, runs))
    decreases |runs|, 3
  {
    hide Untimed, RenderAll, FirstPress, ChainSessions, IdleSessions;
    UntimedFirstPress(t, held, k);
    if held >= t.long + 2 {
      LongRenders(t, held, gap, runs, k);
    } else if gap == 0 {
      UntimedNothing();
      RenderOne(Clicks(1, InPress));
    } else {
      ShortRenders(t, held, gap, runs, k + held);
    }
  }

  lemma {:induction false} ShortRenders(t: Ticks, held: nat, gap: nat, runs: seq<Run>, k: nat)
    requires Alternating(runs) && held < t.long + 2 && gap > 0
    ensures [PressDown] + Untimed(AfterFirst(t, held, gap, runs, k)) == RenderAll(ChainSessions(t, 1, gap, runs))
    decreases |runs|, 2
  {
    hide Untimed, RenderAll, ChainEvents, ChainSessions;
    var tail := ChainEvents(t, 1, gap, runs, k);
    UntimedFront(At(k, PressUp), tail);
    ChainRenders(t, 1, gap, runs, k);
    Associate([PressDown], [PressUp], Untimed(tail));
    assert Presses(1) == [PressDown] + [PressUp];
  }

  lemma {:induction false} LongRenders(t: Ticks, held: nat, gap: nat, runs: seq<Run>, k: nat)
    requires Alternating(runs) && held >= t.long + 2 && (gap == 0 ==> runs == [])
    ensures [PressDown, LongPressStart] + Repeat(LongPressHold, held - t.long - 2)
            + Untimed(AfterFirst(t, held, gap, runs, k + held))
         == RenderAll([Long(held - t.long - 2, gap > 0)] + IdleSessions(t, runs))
    decreases |runs|, 1
  {
    hide Untimed, RenderAll, Repeat;
    var s := Long(held - t.long - 2, gap > 0);
    var front := [PressDown, LongPressStart] + Repeat(LongPressHold, held - t.long - 2);
    RenderFront(s, IdleSessions(t, runs));
    if gap == 0 {
      UntimedNothing();
      RenderOne(s);
      assert [s] + IdleSessions(t, runs) == [s];
    } else {
      var tail := IdleEvents(t, runs, k + held + gap);
      UntimedFront(At(k + held, PressUp), tail);
      IdleRenders(t, runs, k + held + gap);
      Associate(front, [PressUp], Untimed(tail));
    }
  }

  lemma {:induction false} ChainRenders(t: Ticks, n: nat, gap: nat, runs: seq<Run>, k: nat)
    requires Alternating(runs) && n > 0
    ensures Presses(n) + Untimed(ChainEvents(t, n, gap, runs, k)) == RenderAll(ChainSessions(t, n, gap, runs))
    decreases |runs|, 1
  {
    hide Untimed, RenderAll, Presses;
    if gap >= t.short + 2 {
      UntimedConcat(Stamp(Click(n), k + t.short + 1), IdleEvents(t, runs, k + gap));
      UntimedStamp(Click(n), k + t.short + 1);
      IdleRenders(t, runs, k + gap);
      RenderFront(Clicks(n, TimedOut), IdleSessions(t, runs));
      Associate(Presses(n), Click(n), Untimed(IdleEvents(t, runs, k + gap)));
    } else if runs == [] {
      UntimedNothing();
      RenderOne(Clicks(n, InGap));
    } else {
      var held, next, rest := runs[0].held, runs[0].gap, runs[1..];
      AlternatingTail(runs);
      var tail := AfterRepeat(t, n + 1, held, next, rest, k + gap + held);
      UntimedRepeat(k + gap, tail);
      Associate(Presses(n), [PressDown, PressRepeat], Untimed(tail));
      RepeatRenders(t, n + 1, held, next, rest, k + gap + held);
    }
  }

  lemma UntimedRepeat(k: nat, tail: seq<Timed>)
    ensures Untimed([At(k, PressDown), At(k, PressRepeat)] + tail) == [PressDown, PressRepeat] + Untimed(tail)
  {
    UntimedConcat([At(k, PressDown), At(k, PressRepeat)], tail);
    UntimedFront(At(k, PressDown), [At(k, PressRepeat)]);
    UntimedFront(At(k, PressRepeat), []);
    assert [At(k, PressDown), At(k, PressRepeat)] == [At(k, PressDown)] + [At(k, PressRepeat)];
  }

  lemma Associate(a: seq<Event>, b: seq<Event>, c: seq<Event>)
    ensures a + b + c == a + (b + c)
  {
  }

  lemma PressesStep(n: nat, tail: seq<Event>)
    requires n > 1
    ensures Presses(n - 1) + [PressDown, PressRepeat] + ([PressUp] + tail) == Presses(n) + tail
  {
  }

  lemma {:induction false} RepeatRenders(t: Ticks, n: nat, held: nat, gap: nat, runs: seq<Run>, k: nat)
    requires Alternating(runs) && n > 1
    ensures Presses(n - 1) + [PressDown, PressRepeat] + Untimed(AfterRepeat(t, n, held, gap, runs, k))
         == RenderAll(RepeatSessions(t, n, held, gap, runs))
    decreases |runs|, 2
  {
    hide Untimed, RenderAll, Presses;
    if gap == 0 {
      RenderOne(Clicks(n, InPress));
      UntimedNothing();
    } else if held % 0x1_0000 < t.short {
      var tail := ChainEvents(t, n, gap, runs, k);
      UntimedFront(At(k, PressUp), tail);
      PressesStep(n, Untimed(tail));
      ChainRenders(t, n, gap, runs, k);
    } else {
      var tail := IdleEvents(t, runs, k + gap);
      UntimedFront(At(k, PressUp), tail);
      PressesStep(n, Untimed(tail));
      IdleRenders(t, runs, k + gap);
      RenderFront(Clicks(n, TooSlow), IdleSessions(t, runs));
    }
  }

  /** The sessions of a run of readings on a new button. */
  function SessionsOf(t: Ticks, active: bool, readings: seq<bool>): (ss: seq<Session>)
    ensures Grammatical(ss)
  {
    var ps := Levels(t.debounce, Created(active).debouncer, active, readings);
    IdleSessions(t, RunsOf(ps[Lead(ps, false)..]))
  }

  /** The event grammar: the callbacks of every run are those of a list of sessions, each one either a
      long press, or a chain of presses closed by a time-out (with a single or double click exactly
      when the count of presses is 1 or 2 modulo 256) or by a slow press; only the last is open. */
  lemma EventGrammar(t: Ticks, active: bool, readings: seq<bool>)
    requires t.Valid()
    ensures HandleAll(t, Created(active), readings).events == RenderAll(SessionsOf(t, active, readings))
  {
    var b := Created(active);
    var ps := Levels(t.debounce, b.debouncer, active, readings);
    HandleAllIsTrace(t, b, readings, 0);
    HandlerMeetsClosedForm(t, active, readings);
    IdleRenders(t, RunsOf(ps[Lead(ps, false)..]), Lead(ps, false));
  }
}
