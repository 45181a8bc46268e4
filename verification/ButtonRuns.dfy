/** The event stream of a button as a function of how long it is held and released, with no
    tick counter: the press machine refines it on every input. */
module ButtonRuns {
  import opened Button
  import opened ButtonDebounce

  /** An event and the index of the handler call that raises it. */
  datatype Timed = At(call: nat, event: Event)

  function Stamp(es: seq<Event>, k: nat): seq<Timed> {
    if es == [] then [] else [At(k, es[0])] + Stamp(es[1..], k)
  }

  /** The machine fed with debounced levels, one per call, the first call being number k. */
  function Trace(t: Ticks, m: Machine, ps: seq<bool>, k: nat): seq<Timed>
    decreases |ps|
  {
    if ps == [] then []
    else
      var out := Advance(t, m, ps[0]);
      Stamp(out.events, k) + Trace(t, out.machine, ps[1..], k + 1)
  }

  lemma TraceOfNothing(t: Ticks, m: Machine, k: nat)
    ensures Trace(t, m, [], k) == []
    ensures Final(t, m, []) == m
  {
  }

  lemma NoCalls(t: Ticks, m: Machine, v: bool, k: nat)
    ensures Trace(t, m, Rep(v, 0), k) == []
    ensures Final(t, m, Rep(v, 0)) == m
  {
    assert Rep(v, 0) == [];
  }

  function Final(t: Ticks, m: Machine, ps: seq<bool>): Machine
    decreases |ps|
  {
    if ps == [] then m else Final(t, Advance(t, m, ps[0]).machine, ps[1..])
  }

  lemma {:induction false} TraceConcat(t: Ticks, m: Machine, a: seq<bool>, b: seq<bool>, k: nat)
    ensures Trace(t, m, a + b, k) == Trace(t, m, a, k) + Trace(t, Final(t, m, a), b, k + |a|)
    ensures Final(t, m, a + b) == Final(t, Final(t, m, a), b)
    decreases |a|
  {
    if a == [] {
      assert a + b == b;
    } else {
      assert (a + b)[1..] == a[1..] + b;
      TraceConcat(t, Advance(t, m, a[0]).machine, a[1..], b, k + 1);
    }
  }

  // ---------- The closed form ----------

  /** The button held for `held` calls and then released for `gap` calls. */
  datatype Run = Run(held: nat, gap: nat)

  /** Alternating runs: only the last release may be missing. */
  predicate Alternating(runs: seq<Run>) {
    && (forall i :: 0 <= i < |runs| ==> runs[i].held > 0)
    && (forall i :: 0 <= i < |runs| - 1 ==> runs[i].gap > 0)
  }

  function Expand(runs: seq<Run>): seq<bool> {
    if runs == [] then []
    else Rep(true, runs[0].held) + Rep(false, runs[0].gap) + Expand(runs[1..])
  }

  function Holds(from: nat, n: nat): seq<Timed>
    decreases n
  {
    if n == 0 then [] else [At(from, LongPressHold)] + Holds(from + 1, n - 1)
  }

  /** A first press of `held` calls, the first at call k: it turns long on its LONG_TICKS + 2-nd call,
      and every later call of it is a HOLD. */
  function FirstPress(t: Ticks, held: nat, k: nat): seq<Timed> {
    [At(k, PressDown)] +
    if held >= t.long + 2 then
      [At(k + t.long + 1, LongPressStart)] + Holds(k + t.long + 2, held - t.long - 2)
    else []
  }

  /** The click that ends a chain of n presses: the press count is a byte. */
  function Click(n: nat): seq<Event> {
    if n % 0x100 == 1 then [SingleClick]
    else if n % 0x100 == 2 then [DoubleClick]
    else []
  }

  /** The events of runs that begin with the button idle, the first call being number k. */
  function IdleEvents(t: Ticks, runs: seq<Run>, k: nat): seq<Timed>
    decreases |runs|, 0
  {
    if runs == [] then []
    else
      var held, gap := runs[0].held, runs[0].gap;
      FirstPress(t, held, k) + AfterFirst(t, held, gap, runs[1..], k + held)
  }

  /** From the release at call k of a first press: a long press ends the session, a shorter one opens
      a chain. */
  function AfterFirst(t: Ticks, held: nat, gap: nat, runs: seq<Run>, k: nat): seq<Timed>
    decreases |runs|, 2
  {
    if gap == 0 then []
    else if held >= t.long + 2 then [At(k, PressUp)] + IdleEvents(t, runs, k + gap)
    else [At(k, PressUp)] + ChainEvents(t, 1, gap, runs, k)
  }

  /** After n quick presses, released at call k: the chain times out iff the gap lasts SHORT_TICKS + 2
      calls, and then ends in a click; otherwise the next press repeats. */
  function ChainEvents(t: Ticks, n: nat, gap: nat, runs: seq<Run>, k: nat): seq<Timed>
    decreases |runs|, 1
  {
    if gap >= t.short + 2 then
      Stamp(Click(n), k + t.short + 1) + IdleEvents(t, runs, k + gap)
    else if runs == [] then []
    else
      var held, next := runs[0].held, runs[0].gap;
      [At(k + gap, PressDown), At(k + gap, PressRepeat)]
      + AfterRepeat(t, n + 1, held, next, runs[1..], k + gap + held)
  }

  /** From the release at call k of the n-th press of a chain: the chain goes on iff the 16-bit count
      of that press is below SHORT_TICKS, and otherwise ends without a click. */
  function AfterRepeat(t: Ticks, n: nat, held: nat, gap: nat, runs: seq<Run>, k: nat): seq<Timed>
    decreases |runs|, 2
  {
    if gap == 0 then []
    else if held % 0x1_0000 < t.short then [At(k, PressUp)] + ChainEvents(t, n, gap, runs, k)
    else [At(k, PressUp)] + IdleEvents(t, runs, k + gap)
  }

  // ---------- One run in one state ----------

  lemma RepFront(v: bool, n: nat)
    requires n > 0
    ensures Rep(v, n) == [v] + Rep(v, n - 1)
    ensures Rep(v, n)[0] == v && Rep(v, n)[1..] == Rep(v, n - 1)
  {
  }

  /** One call, then the rest. */
  lemma FirstCall(t: Ticks, m: Machine, v: bool, n: nat, k: nat)
    requires n > 0
    ensures var out := Advance(t, m, v);
            && Trace(t, m, Rep(v, n), k) == Stamp(out.events, k) + Trace(t, out.machine, Rep(v, n - 1), k + 1)
            && Final(t, m, Rep(v, n)) == Final(t, out.machine, Rep(v, n - 1))
  {
    RepFront(v, n);
  }

  lemma {:induction false} StaysIdle(t: Ticks, m: Machine, n: nat, k: nat)
    requires m.state == 0
    ensures Trace(t, m, Rep(false, n), k) == []
    ensures Final(t, m, Rep(false, n)).state == 0
    decreases n
  {
    hide Trace, Final;
    if n == 0 {
      NoCalls(t, m, false, k);
    } else {
      FirstCall(t, m, false, n, k);
      StaysIdle(t, Advance(t, m, false).machine, n - 1, k + 1);
    }
  }

  lemma {:induction false} Holding(t: Ticks, m: Machine, n: nat, k: nat)
    requires m.state == 5
    ensures Trace(t, m, Rep(true, n), k) == Holds(k, n)
    ensures Final(t, m, Rep(true, n)).state == 5
    decreases n
  {
    hide Trace, Final;
    if n == 0 {
      NoCalls(t, m, true, k);
    } else {
      FirstCall(t, m, true, n, k);
      var out := Advance(t, m, true);
      assert Stamp(out.events, k) == [At(k, LongPressHold)] + Stamp([], k);
      Holding(t, out.machine, n - 1, k + 1);
    }
  }

  lemma {:induction false} HeldDown(t: Ticks, m: Machine, n: nat, k: nat)
    requires t.Valid() && m.state == 1 && m.ticks <= t.long
    ensures m.ticks + n <= t.long ==>
              && Trace(t, m, Rep(true, n), k) == []
              && Final(t, m, Rep(true, n)) == m.(ticks := m.ticks + n)
    ensures m.ticks + n > t.long ==>
              var left := t.long - m.ticks;
              && Trace(t, m, Rep(true, n), k)
                 == [At(k + left, LongPressStart)] + Holds(k + left + 1, n - left - 1)
              && Final(t, m, Rep(true, n)).state == 5
    decreases n
  {
    hide Trace, Final;
    if n == 0 {
      NoCalls(t, m, true, k);
    } else {
      FirstCall(t, m, true, n, k);
      var out := Advance(t, m, true);
      if m.ticks == t.long {
        assert Stamp(out.events, k) == [At(k, LongPressStart)] + Stamp([], k);
        Holding(t, out.machine, n - 1, k + 1);
      } else {
        HeldDown(t, out.machine, n - 1, k + 1);
      }
    }
  }

  lemma {:induction false} Waiting(t: Ticks, m: Machine, n: nat, k: nat)
    requires t.Valid() && m.state == 2 && m.ticks <= t.short
    ensures m.ticks + n <= t.short ==>
              && Trace(t, m, Rep(false, n), k) == []
              && Final(t, m, Rep(false, n)) == m.(ticks := m.ticks + n)
    ensures m.ticks + n > t.short && m.repeat < 0x100 ==>
              && Trace(t, m, Rep(false, n), k) == Stamp(Click(m.repeat), k + t.short - m.ticks)
              && Final(t, m, Rep(false, n)).state == 0
    decreases n
  {
    hide Trace, Final;
    if n == 0 {
      NoCalls(t, m, false, k);
    } else {
      FirstCall(t, m, false, n, k);
      var out := Advance(t, m, false);
      if m.ticks == t.short {
        StaysIdle(t, out.machine, n - 1, k + 1);
      } else {
        Waiting(t, out.machine, n - 1, k + 1);
      }
    }
  }

  lemma WrapStep(ticks: nat, n: nat)
    requires n > 0 && ticks < 0x1_0000
    ensures ((ticks + 1) % 0x1_0000 + (n - 1)) % 0x1_0000 == (ticks + n) % 0x1_0000
  {
  }

  lemma {:induction false} RepeatHeld(t: Ticks, m: Machine, n: nat, k: nat)
    requires m.state == 3 && m.ticks < 0x1_0000
    ensures Trace(t, m, Rep(true, n), k) == []
    ensures Final(t, m, Rep(true, n)) == m.(ticks := (m.ticks + n) % 0x1_0000)
    decreases n
  {
    hide Trace, Final;
    if n == 0 {
      NoCalls(t, m, true, k);
    } else {
      FirstCall(t, m, true, n, k);
      RepeatHeld(t, Advance(t, m, true).machine, n - 1, k + 1);
      WrapStep(m.ticks, n);
    }
  }

  // ---------- A press, a release ----------

  lemma PressFromIdle(t: Ticks, m: Machine, held: nat, k: nat)
    requires t.Valid() && m.state == 0 && held > 0
    ensures Trace(t, m, Rep(true, held), k) == FirstPress(t, held, k)
    ensures var f := Final(t, m, Rep(true, held));
            if held >= t.long + 2 then f.state == 5
            else f.state == 1 && f.ticks <= t.long && f.repeat == 1
  {
    hide Trace, Final;
    FirstCall(t, m, true, held, k);
    var out := Advance(t, m, true);
    assert Stamp(out.events, k) == [At(k, PressDown)] + Stamp([], k);
    HeldDown(t, out.machine, held - 1, k + 1);
  }

  lemma PressFromChain(t: Ticks, m: Machine, held: nat, k: nat)
    requires m.state == 2 && held > 0
    ensures Trace(t, m, Rep(true, held), k) == [At(k, PressDown), At(k, PressRepeat)]
    ensures var f := Final(t, m, Rep(true, held));
            f.state == 3 && f.ticks == (held - 1) % 0x1_0000 && f.repeat == (m.repeat + 1) % 0x100
  {
    hide Trace, Final;
    FirstCall(t, m, true, held, k);
    var out := Advance(t, m, true);
    assert Stamp(out.events, k) == [At(k, PressDown)] + Stamp([PressRepeat], k);
    assert Stamp([PressRepeat], k) == [At(k, PressRepeat)] + Stamp([], k);
    RepeatHeld(t, out.machine, held - 1, k + 1);
  }

  // ---------- Whole runs ----------

  lemma ExpandFront(runs: seq<Run>)
    requires runs != []
    ensures Expand(runs) == Rep(true, runs[0].held) + (Rep(false, runs[0].gap) + Expand(runs[1..]))
  {
  }

  lemma AlternatingTail(runs: seq<Run>)
    requires Alternating(runs) && runs != []
    ensures Alternating(runs[1..])
    ensures runs[0].gap == 0 ==> runs[1..] == []
  {
    var rest := runs[1..];
    forall i | 0 <= i < |rest| ensures rest[i].held > 0 {
      assert rest[i] == runs[i + 1];
    }
    forall i | 0 <= i < |rest| - 1 ensures rest[i].gap > 0 {
      assert rest[i] == runs[i + 1];
    }
  }

  /** The levels of a run list after its first press. */
  function AfterPress(runs: seq<Run>): seq<bool>
    requires runs != []
  {
    Rep(false, runs[0].gap) + Expand(runs[1..])
  }

  /** Cutting a run list after its first press. */
  lemma CutPress(t: Ticks, m: Machine, runs: seq<Run>, k: nat)
    requires runs != []
    ensures Trace(t, m, Expand(runs), k)
         == Trace(t, m, Rep(true, runs[0].held), k)
            + Trace(t, Final(t, m, Rep(true, runs[0].held)), AfterPress(runs), k + runs[0].held)
  {
    ExpandFront(runs);
    TraceConcat(t, m, Rep(true, runs[0].held), AfterPress(runs), k);
  }

  /** Cutting a release after its first call, the one that reports it. */
  lemma CutRelease(t: Ticks, m: Machine, gap: nat, ps: seq<bool>, k: nat)
    requires gap > 0 && Advance(t, m, false).events == [PressUp]
    ensures Trace(t, m, Rep(false, gap) + ps, k)
         == [At(k, PressUp)] + Trace(t, Advance(t, m, false).machine, Rep(false, gap - 1) + ps, k + 1)
  {
    RepFront(false, gap);
    assert (Rep(false, gap) + ps)[1..] == Rep(false, gap - 1) + ps;
    assert Stamp([PressUp], k) == [At(k, PressUp)] + Stamp([], k);
  }

  /** Idle at call k, the press machine emits exactly the closed form. */
  lemma {:induction false} IdleRuns(t: Ticks, m: Machine, runs: seq<Run>, k: nat)
    requires t.Valid() && m.state == 0 && Alternating(runs)
    ensures Trace(t, m, Expand(runs), k) == IdleEvents(t, runs, k)
    decreases |runs|, 0
  {
    if runs != [] {
      CutPress(t, m, runs, k);
      IdlePress(t, m, runs, k);
    }
  }

  lemma {:induction false} IdlePress(t: Ticks, m: Machine, runs: seq<Run>, k: nat)
    requires t.Valid() && m.state == 0 && Alternating(runs) && runs != []
    ensures Trace(t, m, Rep(true, runs[0].held), k) == FirstPress(t, runs[0].held, k)
    ensures Trace(t, Final(t, m, Rep(true, runs[0].held)), AfterPress(runs), k + runs[0].held)
         == AfterFirst(t, runs[0].held, runs[0].gap, runs[1..], k + runs[0].held)
    decreases |runs| - 1, 4
  {
    hide Trace, Final;
    var held := runs[0].held;
    AlternatingTail(runs);
    PressFromIdle(t, m, held, k);
    FirstReleased(t, Final(t, m, Rep(true, held)), held, runs[0].gap, runs[1..], k + held);
  }

  lemma {:induction false} ChainPress(t: Ticks, m: Machine, n: nat, runs: seq<Run>, k: nat)
    requires t.Valid() && Alternating(runs) && runs != []
    requires m.state == 2 && m.repeat == n % 0x100
    ensures Trace(t, m, Rep(true, runs[0].held), k) == [At(k, PressDown), At(k, PressRepeat)]
    ensures Trace(t, Final(t, m, Rep(true, runs[0].held)), AfterPress(runs), k + runs[0].held)
         == AfterRepeat(t, n + 1, runs[0].held, runs[0].gap, runs[1..], k + runs[0].held)
    decreases |runs| - 1, 4
  {
    hide Trace, Final;
    var held := runs[0].held;
    AlternatingTail(runs);
    PressFromChain(t, m, held, k);
    RepeatReleased(t, Final(t, m, Rep(true, held)), n + 1, held, runs[0].gap, runs[1..], k + held);
  }

  lemma {:induction false} FirstReleased(t: Ticks, m: Machine, held: nat, gap: nat, runs: seq<Run>, k: nat)
    requires t.Valid() && Alternating(runs) && (gap == 0 ==> runs == [])
    requires if held >= t.long + 2 then m.state == 5 else m.state == 1 && m.repeat == 1
    ensures Trace(t, m, Rep(false, gap) + Expand(runs), k) == AfterFirst(t, held, gap, runs, k)
    decreases |runs|, 3
  {
    if gap > 0 {
      if held >= t.long + 2 {
        ReleasedToIdle(t, m, gap, runs, k);
      } else {
        ReleasedToChain(t, m, 1, gap, runs, k);
      }
    }
  }

  lemma {:induction false} RepeatReleased(t: Ticks, m: Machine, n: nat, held: nat, gap: nat, runs: seq<Run>, k: nat)
    requires t.Valid() && Alternating(runs) && (gap == 0 ==> runs == [])
    requires m.state == 3 && m.repeat == n % 0x100 && (m.ticks + 1) % 0x1_0000 == held % 0x1_0000
    ensures Trace(t, m, Rep(false, gap) + Expand(runs), k) == AfterRepeat(t, n, held, gap, runs, k)
    decreases |runs|, 3
  {
    if gap > 0 {
      if held % 0x1_0000 < t.short {
        ReleasedToChain(t, m, n, gap, runs, k);
      } else {
        ReleasedToIdle(t, m, gap, runs, k);
      }
    }
  }

  lemma {:induction false} ReleasedToIdle(t: Ticks, m: Machine, gap: nat, runs: seq<Run>, k: nat)
    requires t.Valid() && Alternating(runs) && gap > 0
    requires Advance(t, m, false).events == [PressUp] && Advance(t, m, false).machine.state == 0
    ensures Trace(t, m, Rep(false, gap) + Expand(runs), k) == [At(k, PressUp)] + IdleEvents(t, runs, k + gap)
    decreases |runs|, 2
  {
    hide Trace, Final;
    var up := Advance(t, m, false).machine;
    CutRelease(t, m, gap, Expand(runs), k);
    TraceConcat(t, up, Rep(false, gap - 1), Expand(runs), k + 1);
    StaysIdle(t, up, gap - 1, k + 1);
    IdleRuns(t, Final(t, up, Rep(false, gap - 1)), runs, k + gap);
  }

  lemma {:induction false} ReleasedToChain(t: Ticks, m: Machine, n: nat, gap: nat, runs: seq<Run>, k: nat)
    requires t.Valid() && Alternating(runs) && gap > 0
    requires Advance(t, m, false).events == [PressUp]
    requires var up := Advance(t, m, false).machine; up.state == 2 && up.ticks == 0 && up.repeat == n % 0x100
    ensures Trace(t, m, Rep(false, gap) + Expand(runs), k) == [At(k, PressUp)] + ChainEvents(t, n, gap, runs, k)
    decreases |runs|, 2
  {
    hide Trace, Final;
    var up := Advance(t, m, false).machine;
    CutRelease(t, m, gap, Expand(runs), k);
    ChainRuns(t, up, n, gap, runs, k);
  }

  /** From the state right after the release at call k of the n-th quick press. */
  lemma {:induction false} ChainRuns(t: Ticks, m: Machine, n: nat, gap: nat, runs: seq<Run>, k: nat)
    requires t.Valid() && Alternating(runs) && gap > 0
    requires m.state == 2 && m.ticks == 0 && m.repeat == n % 0x100
    ensures Trace(t, m, Rep(false, gap - 1) + Expand(runs), k + 1) == ChainEvents(t, n, gap, runs, k)
    decreases |runs|, 1
  {
    hide Trace, Final;
    TraceConcat(t, m, Rep(false, gap - 1), Expand(runs), k + 1);
    Waiting(t, m, gap - 1, k + 1);
    var after := Final(t, m, Rep(false, gap - 1));
    if gap >= t.short + 2 {
      IdleRuns(t, after, runs, k + gap);
    } else if runs == [] {
      TraceOfNothing(t, after, k + gap);
    } else {
      CutPress(t, after, runs, k + gap);
      ChainPress(t, after, n, runs, k + gap);
    }
  }

  // ---------- Every input ----------

  /** How many levels at the front are v. */
  function Lead(ps: seq<bool>, v: bool): (n: nat)
    ensures n <= |ps| && ps[..n] == Rep(v, n) && (n < |ps| ==> ps[n] != v)
  {
    if ps == [] || ps[0] != v then 0
    else
      var n := Lead(ps[1..], v);
      assert ps[..n + 1] == [v] + ps[1..][..n];
      n + 1
  }

  /** The runs of a sequence of levels that begins with a press. */
  function RunsOf(ps: seq<bool>): (runs: seq<Run>)
    requires ps != [] ==> ps[0]
    ensures Alternating(runs) && Expand(runs) == ps
    ensures runs == [] <==> ps == []
    decreases |ps|
  {
    if ps == [] then []
    else
      var held := Lead(ps, true);
      var gap := Lead(ps[held..], false);
      var rest := RunsOf(ps[held + gap..]);
      RunInFront(ps, held, gap, rest);
      [Run(held, gap)] + rest
  }

  lemma RunInFront(ps: seq<bool>, held: nat, gap: nat, rest: seq<Run>)
    requires 0 < held && held + gap <= |ps| && Alternating(rest) && (rest != [] ==> gap > 0)
    requires ps[..held] == Rep(true, held) && ps[held..][..gap] == Rep(false, gap)
    requires Expand(rest) == ps[held + gap..]
    ensures Alternating([Run(held, gap)] + rest) && Expand([Run(held, gap)] + rest) == ps
  {
    var runs := [Run(held, gap)] + rest;
    assert runs[1..] == rest;
    assert ps == ps[..held] + ps[held..][..gap] + ps[held + gap..];
  }

  lemma LeadIs(ps: seq<bool>, v: bool, n: nat)
    requires n <= |ps| && ps[..n] == Rep(v, n) && (n < |ps| ==> ps[n] != v)
    ensures Lead(ps, v) == n
  {
    forall i | 0 <= i < n ensures ps[i] == v {
      assert ps[i] == ps[..n][i];
    }
    forall i | 0 <= i < Lead(ps, v) ensures ps[i] == v {
      assert ps[i] == ps[..Lead(ps, v)][i];
    }
  }

  lemma ExpandStarts(runs: seq<Run>)
    requires Alternating(runs)
    ensures runs == [] <==> Expand(runs) == []
    ensures runs != [] ==> Expand(runs)[0]
  {
    if runs != [] {
      assert Rep(true, runs[0].held)[0];
    }
  }

  /** The first run can be read off the levels. */
  lemma LeadsOf(runs: seq<Run>)
    requires Alternating(runs) && runs != []
    ensures var ps, held, gap := Expand(runs), runs[0].held, runs[0].gap;
            && Lead(ps, true) == held && Lead(ps[held..], false) == gap
            && held + gap <= |ps| && ps[held + gap..] == Expand(runs[1..])
  {
    hide Lead, Expand, Alternating;
    var held, gap, rest := runs[0].held, runs[0].gap, Expand(runs[1..]);
    AlternatingTail(runs);
    ExpandStarts(runs[1..]);
    ExpandFront(runs);
    LeadOfRep(true, held, Rep(false, gap) + rest);
    LeadOfRep(false, gap, rest);
  }

  lemma LeadOfRep(v: bool, n: nat, rest: seq<bool>)
    requires rest != [] ==> rest[0] != v
    ensures var ps := Rep(v, n) + rest; Lead(ps, v) == n && n <= |ps| && ps[n..] == rest
  {
    hide Lead;
    var ps := Rep(v, n) + rest;
    assert ps[..n] == Rep(v, n);
    LeadIs(ps, v, n);
  }

  lemma {:induction false} ExpandInjective(a: seq<Run>, b: seq<Run>)
    requires Alternating(a) && Alternating(b) && Expand(a) == Expand(b)
    ensures a == b
    decreases |a|
  {
    hide Expand, Lead, Alternating;
    ExpandStarts(a);
    ExpandStarts(b);
    if a != [] {
      AlternatingTail(a);
      AlternatingTail(b);
      LeadsOf(a);
      LeadsOf(b);
      ExpandInjective(a[1..], b[1..]);
      assert a == [a[0]] + a[1..] && b == [b[0]] + b[1..];
    }
  }

  /** Run lists and sequences of levels that begin with a press are the same thing. */
  lemma RunsOfExpanded(runs: seq<Run>)
    requires Alternating(runs)
    ensures (Expand(runs) != [] ==> Expand(runs)[0]) && RunsOf(Expand(runs)) == runs
  {
    ExpandStarts(runs);
    ExpandInjective(RunsOf(Expand(runs)), runs);
  }

  /** What the press machine emits for a sequence of levels, by run lengths alone. */
  function EventsOf(t: Ticks, ps: seq<bool>): seq<Timed> {
    var lead := Lead(ps, false);
    IdleEvents(t, RunsOf(ps[lead..]), lead)
  }

  /** On every sequence of levels the press machine emits exactly the closed form. */
  lemma MachineMeetsClosedForm(t: Ticks, m: Machine, ps: seq<bool>)
    requires t.Valid() && m.state == 0
    ensures Trace(t, m, ps, 0) == EventsOf(t, ps)
  {
    hide Trace, Final, IdleEvents, Expand;
    var lead := Lead(ps, false);
    assert ps == Rep(false, lead) + ps[lead..];
    TraceConcat(t, m, Rep(false, lead), ps[lead..], 0);
    StaysIdle(t, m, lead, 0);
    IdleRuns(t, Final(t, m, Rep(false, lead)), RunsOf(ps[lead..]), lead);
  }

  // ---------- Debouncer and machine together ----------

  function HandlerTrace(t: Ticks, b: Button, readings: seq<bool>, k: nat): seq<Timed>
    decreases |readings|
  {
    if readings == [] then []
    else
      var first := Handle(t, b, readings[0]);
      Stamp(first.events, k) + HandlerTrace(t, first.button, readings[1..], k + 1)
  }

  /** Call by call, whether the debounced level is the active one. */
  function Levels(debounce: nat, d: Debouncer, active: bool, readings: seq<bool>): (ps: seq<bool>)
    ensures |ps| == |readings|
    decreases |readings|
  {
    if readings == [] then []
    else
      var next := Sample(debounce, d, readings[0]);
      [next.level == active] + Levels(debounce, next, active, readings[1..])
  }

  lemma {:induction false} DebouncedFront(debounce: nat, d: Debouncer, reading: bool, readings: seq<bool>)
    ensures Debounced(debounce, d, [reading] + readings)
         == Debounced(debounce, Sample(debounce, d, reading), readings)
    decreases |readings|
  {
    var all := [reading] + readings;
    if readings == [] {
      assert all[..0] == [];
    } else {
      assert all[..|all| - 1] == [reading] + readings[..|readings| - 1];
      DebouncedFront(debounce, d, reading, readings[..|readings| - 1]);
    }
  }

  /** The levels the machine sees are those of the debouncer after each reading. */
  lemma {:induction false} LevelIsDebounced(debounce: nat, d: Debouncer, active: bool, readings: seq<bool>, i: nat)
    requires i < |readings|
    ensures Levels(debounce, d, active, readings)[i]
         == (Debounced(debounce, d, readings[..i + 1]).level == active)
    decreases |readings|
  {
    var next := Sample(debounce, d, readings[0]);
    assert readings[..i + 1] == [readings[0]] + readings[1..][..i];
    DebouncedFront(debounce, d, readings[0], readings[1..][..i]);
    if i == 0 {
      assert readings[1..][..0] == [];
    } else {
      LevelIsDebounced(debounce, next, active, readings[1..], i - 1);
    }
  }

  lemma {:induction false} HandlerIsMachineOnLevels(t: Ticks, b: Button, readings: seq<bool>, k: nat)
    ensures HandlerTrace(t, b, readings, k)
         == Trace(t, b.machine, Levels(t.debounce, b.debouncer, b.active, readings), k)
    decreases |readings|
  {
    if readings != [] {
      HandlerIsMachineOnLevels(t, Handle(t, b, readings[0]).button, readings[1..], k + 1);
      var ps := Levels(t.debounce, b.debouncer, b.active, readings);
      assert ps[1..] == Levels(t.debounce, Sample(t.debounce, b.debouncer, readings[0]), b.active, readings[1..]);
    }
  }

  /** The driver's whole behaviour: for every build, active level and run of readings, a new button
      raises exactly the events, at exactly the calls, that the run lengths of its debounced
      level determine. */
  lemma HandlerMeetsClosedForm(t: Ticks, active: bool, readings: seq<bool>)
    requires t.Valid()
    ensures var b := Created(active);
            HandlerTrace(t, b, readings, 0) == EventsOf(t, Levels(t.debounce, b.debouncer, active, readings))
  {
    var b := Created(active);
    HandlerIsMachineOnLevels(t, b, readings, 0);
    MachineMeetsClosedForm(t, b.machine, Levels(t.debounce, b.debouncer, active, readings));
  }

  // ---------- Forgetting the time ----------

  function Untimed(trace: seq<Timed>): seq<Event> {
    if trace == [] then [] else [trace[0].event] + Untimed(trace[1..])
  }

  lemma {:induction false} UntimedConcat(a: seq<Timed>, b: seq<Timed>)
    ensures Untimed(a + b) == Untimed(a) + Untimed(b)
  {
    if a == [] {
      assert a + b == b;
    } else {
      assert (a + b)[1..] == a[1..] + b;
      UntimedConcat(a[1..], b);
    }
  }

  lemma {:induction false} UntimedStamp(es: seq<Event>, k: nat)
    ensures Untimed(Stamp(es, k)) == es
  {
    if es != [] {
      UntimedStamp(es[1..], k);
      assert Stamp(es, k)[1..] == Stamp(es[1..], k);
    }
  }

  lemma {:induction false} HandleAllIsTrace(t: Ticks, b: Button, readings: seq<bool>, k: nat)
    ensures HandleAll(t, b, readings).events == Untimed(HandlerTrace(t, b, readings, k))
    decreases |readings|
  {
    if readings != [] {
      var first := Handle(t, b, readings[0]);
      UntimedConcat(Stamp(first.events, k), HandlerTrace(t, first.button, readings[1..], k + 1));
      UntimedStamp(first.events, k);
      HandleAllIsTrace(t, first.button, readings[1..], k + 1);
    }
  }
}
