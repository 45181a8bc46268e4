/** Which presses a build can register at all, and what a chain of quick presses comes to. */
module ButtonTaps {
  import opened Button
  import opened ButtonCalls
  import opened ButtonDebounce
  import opened ButtonRuns
  import opened ButtonSessions

  // ---------- Levels of steady readings ----------

  lemma {:induction false} LevelsConcat(debounce: nat, d: Debouncer, active: bool, a: seq<bool>, b: seq<bool>)
    ensures Levels(debounce, d, active, a + b)
         == Levels(debounce, d, active, a) + Levels(debounce, Debounced(debounce, d, a), active, b)
    ensures Debounced(debounce, d, a + b) == Debounced(debounce, Debounced(debounce, d, a), b)
    decreases |a|
  {
    hide Debounced, Sample;
    NothingRead(debounce, d);
    if a == [] {
      assert a + b == b;
    } else {
      var next := Sample(debounce, d, a[0]);
      assert a + b == [a[0]] + (a[1..] + b) && (a + b)[1..] == a[1..] + b && a == [a[0]] + a[1..];
      DebouncedFront(debounce, d, a[0], a[1..] + b);
      DebouncedFront(debounce, d, a[0], a[1..]);
      LevelsConcat(debounce, next, active, a[1..], b);
    }
  }

  lemma NothingRead(debounce: nat, d: Debouncer)
    ensures Debounced(debounce, d, []) == d
  {
  }

  lemma LevelsFront(debounce: nat, d: Debouncer, active: bool, v: bool, n: nat)
    requires n > 0
    ensures var next := Sample(debounce, d, v);
            && Levels(debounce, d, active, Rep(v, n))
               == [next.level == active] + Levels(debounce, next, active, Rep(v, n - 1))
            && Debounced(debounce, d, Rep(v, n)) == Debounced(debounce, next, Rep(v, n - 1))
  {
    RepFront(v, n);
    DebouncedFront(debounce, d, v, Rep(v, n - 1));
  }

  /** The readings that complete a streak flip the level at the last of them. */
  lemma {:induction false} StreakFlips(debounce: nat, d: Debouncer, active: bool, n: nat)
    requires debounce <= 7 && n > 0 && d.cnt + n == debounce
    ensures Levels(debounce, d, active, Rep(!d.level, n)) == Rep(d.level == active, n - 1) + [d.level != active]
    ensures Debounced(debounce, d, Rep(!d.level, n)) == Debouncer(!d.level, 0)
    decreases n
  {
    hide Levels, Debounced;
    LevelsFront(debounce, d, active, !d.level, n);
    var next := Sample(debounce, d, !d.level);
    if n == 1 {
      assert Rep(!d.level, 0) == [];
      NothingRead(debounce, next);
      assert Levels(debounce, next, active, []) == [];
    } else {
      StreakFlips(debounce, next, active, n - 1);
    }
  }

  lemma {:induction false} SteadyStays(debounce: nat, level: bool, active: bool, n: nat)
    ensures Levels(debounce, Debouncer(level, 0), active, Rep(level, n)) == Rep(level == active, n)
    ensures Debounced(debounce, Debouncer(level, 0), Rep(level, n)) == Debouncer(level, 0)
    decreases n
  {
    hide Debounced;
    if n == 0 {
      NothingRead(debounce, Debouncer(level, 0));
      assert Rep(level, 0) == [];
    } else {
      LevelsFront(debounce, Debouncer(level, 0), active, level, n);
      SteadyStays(debounce, level, active, n - 1);
    }
  }

  // ---------- Which builds can register a press ----------

  lemma SessionsFromLead(t: Ticks, active: bool, readings: seq<bool>, lead: nat, runs: seq<Run>)
    requires Alternating(runs)
    requires Levels(t.debounce, Created(active).debouncer, active, readings) == Rep(false, lead) + Expand(runs)
    ensures SessionsOf(t, active, readings) == IdleSessions(t, runs)
  {
    hide Lead, RunsOf, IdleSessions, Expand;
    ExpandStarts(runs);
    LeadOfRep(false, lead, Expand(runs));
    RunsOfExpanded(runs);
  }

  /** With a setting of 8 a button raises no event at all, over any run. */
  lemma EightIsMute(t: Ticks, active: bool, readings: seq<bool>)
    requires t.Valid() && t.debounce == 8
    ensures HandleAll(t, Created(active), readings).events == []
  {
    var d := Created(active).debouncer;
    var ps := Levels(t.debounce, d, active, readings);
    forall i | 0 <= i < |ps| ensures !ps[i] {
      LevelIsDebounced(t.debounce, d, active, readings, i);
      EightNeverFlips(t.debounce, d, readings[..i + 1]);
    }
    assert Expand([]) == [];
    assert ps == Rep(false, |ps|) + Expand([]);
    SessionsFromLead(t, active, readings, |ps|, []);
    EventGrammar(t, active, readings);
  }

  /** As many active readings as the setting asks for press the button. */
  lemma SteadyPresses(t: Ticks, active: bool)
    requires t.Valid() && t.debounce <= 7
    ensures HandleAll(t, Created(active), Rep(active, t.debounce)).events == [PressDown]
  {
    var runs := [Run(1, 0)];
    StreakFlips(t.debounce, Created(active).debouncer, active, t.debounce);
    assert runs[1..] == [] && Expand(runs) == Rep(true, 1) + Rep(false, 0) + Expand([]);
    assert Expand(runs) == [true];
    SessionsFromLead(t, active, Rep(active, t.debounce), t.debounce - 1, runs);
    EventGrammar(t, active, Rep(active, t.debounce));
    RenderOne(Clicks(1, InPress));
  }

  /** A build registers presses at all iff its debounce setting is not the maximum, 8. */
  lemma RegistersPressesIff(t: Ticks, active: bool)
    requires t.Valid()
    ensures t.debounce <= 7 <==> exists readings :: PressDown in HandleAll(t, Created(active), readings).events
  {
    if t.debounce <= 7 {
      SteadyPresses(t, active);
      assert PressDown in HandleAll(t, Created(active), Rep(active, t.debounce)).events;
    } else {
      forall readings ensures HandleAll(t, Created(active), readings).events == [] {
        EightIsMute(t, active, readings);
      }
    }
  }

  // ---------- Chains of quick presses ----------

  /** n times d active readings and d inactive ones. */
  function Taps(active: bool, d: nat, n: nat): seq<bool> {
    if n == 0 then [] else Rep(active, d) + Rep(!active, d) + Taps(active, d, n - 1)
  }

  /** The runs of n taps of d calls with d calls between, the last release lasting `last` calls. */
  function TapRuns(d: nat, n: nat, last: nat): (runs: seq<Run>)
    requires n > 0 && d > 0
    ensures Alternating(runs)
  {
    if n == 1 then [Run(d, last)] else [Run(d, d)] + TapRuns(d, n - 1, last)
  }

  lemma TapLevels(d: nat, active: bool)
    requires 1 <= d <= 7
    ensures Levels(d, Debouncer(!active, 0), active, Rep(active, d) + Rep(!active, d))
         == Rep(false, d - 1) + Rep(true, d) + [false]
    ensures Debounced(d, Debouncer(!active, 0), Rep(active, d) + Rep(!active, d)) == Debouncer(!active, 0)
  {
    hide Levels, Debounced;
    LevelsConcat(d, Debouncer(!active, 0), active, Rep(active, d), Rep(!active, d));
    StreakFlips(d, Debouncer(!active, 0), active, d);
    StreakFlips(d, Debouncer(active, 0), active, d);
    assert [true] + Rep(true, d - 1) == Rep(true, d);
  }

  lemma {:induction false} TapsLevels(d: nat, active: bool, n: nat, quiet: nat)
    requires 1 <= d <= 7 && n > 0
    ensures Levels(d, Debouncer(!active, 0), active, Taps(active, d, n) + Rep(!active, quiet))
         == Rep(false, d - 1) + Expand(TapRuns(d, n, quiet + 1))
    decreases n
  {
    hide Levels, Debounced, Expand, Rep;
    var idle, tap := Debouncer(!active, 0), Rep(active, d) + Rep(!active, d);
    var rest, runs := Taps(active, d, n - 1) + Rep(!active, quiet), TapRuns(d, n, quiet + 1);
    assert Taps(active, d, n) + Rep(!active, quiet) == tap + rest;
    LevelsConcat(d, idle, active, tap, rest);
    TapLevels(d, active);
    ExpandFront(runs);
    if n == 1 {
      assert rest == Rep(!active, quiet);
      SteadyStays(d, !active, active, quiet);
      LastGap(d, quiet, runs);
    } else {
      TapsLevels(d, active, n - 1, quiet);
      assert runs[1..] == TapRuns(d, n - 1, quiet + 1);
      NextTap(d, runs[1..]);
    }
  }

  lemma LastGap(d: nat, quiet: nat, runs: seq<Run>)
    requires d > 0 && runs == [Run(d, quiet + 1)]
    ensures Rep(false, d - 1) + Rep(true, d) + [false] + Rep(false, quiet) == Rep(false, d - 1) + Expand(runs)
  {
    assert runs[1..] == [];
    assert [false] + Rep(false, quiet) == Rep(false, quiet + 1);
  }

  lemma NextTap(d: nat, runs: seq<Run>)
    requires d > 0
    ensures Rep(false, d - 1) + Rep(true, d) + [false] + (Rep(false, d - 1) + Expand(runs))
         == Rep(false, d - 1) + (Rep(true, d) + (Rep(false, d) + Expand(runs)))
  {
    assert [false] + Rep(false, d - 1) == Rep(false, d);
  }

  /** A long gap closes a chain. */
  lemma TimesOut(t: Ticks, n: nat, gap: nat)
    requires n > 0 && gap >= t.short + 2
    ensures ChainSessions(t, n, gap, []) == [Clicks(n, TimedOut)]
  {
    assert IdleSessions(t, []) == [];
  }

  lemma {:induction false} TapSessions(t: Ticks, d: nat, k: nat, n: nat, last: nat)
    requires 0 < d < t.short && d <= 7 && last >= t.short + 2 && k > 0 && n > 0
    ensures ChainSessions(t, k, d, TapRuns(d, n, last)) == [Clicks(k + n, TimedOut)]
    decreases n
  {
    var runs := TapRuns(d, n, last);
    AlternatingTail(runs);
    assert ChainSessions(t, k, d, runs) == RepeatSessions(t, k + 1, d, runs[0].gap, runs[1..]);
    assert RepeatSessions(t, k + 1, d, runs[0].gap, runs[1..]) == ChainSessions(t, k + 1, runs[0].gap, runs[1..]);
    if n > 1 {
      assert runs[1..] == TapRuns(d, n - 1, last);
      TapSessions(t, d, k + 1, n - 1, last);
    } else {
      assert runs[1..] == [];
      TimesOut(t, k + 1, last);
    }
  }

  lemma TapRunsSessions(t: Ticks, d: nat, n: nat, last: nat)
    requires 0 < d <= 7 && d <= t.long + 1 && n > 0 && (n > 1 ==> d < t.short) && last >= t.short + 2
    ensures IdleSessions(t, TapRuns(d, n, last)) == [Clicks(n, TimedOut)]
  {
    hide ChainSessions;
    var runs := TapRuns(d, n, last);
    AlternatingTail(runs);
    assert IdleSessions(t, runs) == ChainSessions(t, 1, runs[0].gap, runs[1..]);
    if n > 1 {
      assert runs[1..] == TapRuns(d, n - 1, last);
      TapSessions(t, d, 1, n - 1, last);
    } else {
      assert runs[1..] == [];
      TimesOut(t, 1, last);
    }
  }

  lemma CountsOnce(count: nat)
    ensures CountAfter([PressDown, PressUp], count) == 1
    ensures CountAfter([PressDown, PressRepeat, PressUp], count) == (count + 1) % 0x100
  {
    assert [PressUp][1..] == [];
    assert CountAfter([PressUp], 1) == CountAfter([], 1) == 1;
    assert [PressDown, PressUp][1..] == [PressUp];
    var es := [PressDown, PressRepeat, PressUp];
    assert es[1..] == [PressRepeat, PressUp] && es[1..][1..] == [PressUp];
    assert CountAfter([PressUp], (count + 1) % 0x100) == CountAfter([], (count + 1) % 0x100);
    assert CountAfter(es[1..], count) == CountAfter([PressUp], (count + 1) % 0x100);
  }

  lemma {:induction false} PressesCount(n: nat)
    requires n > 0
    ensures CountAfter(Presses(n), 0) == n % 0x100
    ensures Presses(n)[0] != PressRepeat
  {
    if n == 1 {
      CountsOnce(0);
    } else {
      PressesCount(n - 1);
      CallsConcat(Presses(n - 1), [PressDown, PressRepeat, PressUp], 0, {});
      CountsOnce((n - 1) % 0x100);
    }
  }

  lemma ClickKeepsCount(n: nat, count: nat)
    ensures CountAfter(Click(n), count) == count
    ensures Click(n) == [] || Click(n)[0] != PressRepeat
  {
    if Click(n) != [] {
      assert Click(n)[1..] == [];
    }
  }

  /** n quick presses and a gap longer than SHORT_TICKS are one chain of n presses, whatever n: its events are
      those presses and the click of the 8-bit count, which is also the count it leaves. */
  lemma TapsAreOneChain(t: Ticks, active: bool, n: nat, quiet: nat)
    requires t.Valid() && t.debounce <= 7 && t.debounce <= t.long + 1
    requires n > 0 && (n > 1 ==> t.debounce < t.short) && quiet > t.short
    ensures var readings := Taps(active, t.debounce, n) + Rep(!active, quiet);
            var h := HandleAll(t, Created(active), readings);
            && SessionsOf(t, active, readings) == [Clicks(n, TimedOut)]
            && h.events == Presses(n) + Click(n)
            && h.button.machine.repeat == n % 0x100
  {
    hide Levels, Expand, TapRuns, Taps, Rep, IdleSessions, SessionsOf, HandleAll, RenderAll, Presses, Click;
    var d, readings := t.debounce, Taps(active, t.debounce, n) + Rep(!active, quiet);
    TapsLevels(d, active, n, quiet);
    SessionsFromLead(t, active, readings, d - 1, TapRuns(d, n, quiet + 1));
    TapRunsSessions(t, d, n, quiet + 1);
    EventGrammar(t, active, readings);
    RenderOne(Clicks(n, TimedOut));
    ChainCount(t, active, readings, n);
  }

  lemma ChainCount(t: Ticks, active: bool, readings: seq<bool>, n: nat)
    requires n > 0 && HandleAll(t, Created(active), readings).events == Presses(n) + Click(n)
    ensures HandleAll(t, Created(active), readings).button.machine.repeat == n % 0x100
  {
    hide HandleAll, CountAfter, Presses, Click;
    CallsOfStream(t, Created(active), readings, {});
    PressesCount(n);
    ClickKeepsCount(n, n % 0x100);
    CallsConcat(Presses(n), Click(n), 0, {});
  }

  /** 257 quick presses end in a single click, and iot_button_get_repeat reports one press. */
  lemma ManyPressesSingleClick(t: Ticks, active: bool, quiet: nat)
    requires t.Valid() && t.debounce <= 7 && t.debounce <= t.long + 1 && t.debounce < t.short && quiet > t.short
    ensures var readings := Taps(active, t.debounce, 257) + Rep(!active, quiet);
            var h := HandleAll(t, Created(active), readings);
            && SessionsOf(t, active, readings) == [Clicks(257, TimedOut)]
            && h.events == Presses(257) + [SingleClick] && h.button.machine.repeat == 1
  {
    hide Taps, Presses, HandleAll, SessionsOf, Rep;
    TapsAreOneChain(t, active, 257, quiet);
  }
}
