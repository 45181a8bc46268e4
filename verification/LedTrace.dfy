/** What the LED actually shows, told from the log of commands and executed steps alone: priorities,
    preemption and resumption, with no step counter. */
module LedTrace {
  import opened LedBlink

  /** The steps executed for blink b since it was last started. */
  function Since(log: seq<Entry>, b: nat): seq<nat> {
    if log == [] then [] else SinceNext(Since(log[..|log| - 1], b), log[|log| - 1], b)
  }

  function SinceNext(since: seq<nat>, e: Entry, b: nat): seq<nat> {
    if e.blink != b || e.Halted? then since
    else if e.Started? then []
    else since + [e.step]
  }

  predicate IsStop(table: seq<Program>, b: nat, step: nat) {
    b < |table| && step < |table[b]| && table[b][step].Stop?
  }

  /** Started, and neither halted by command nor run to a STOP since. */
  predicate Playing(table: seq<Program>, log: seq<Entry>, b: nat) {
    log != [] && PlayingNext(table, Playing(table, log[..|log| - 1], b), log[|log| - 1], b)
  }

  predicate PlayingNext(table: seq<Program>, playing: bool, e: Entry, b: nat) {
    if e.blink != b then playing
    else e.Started? || (e.Ran? && playing && !IsStop(table, b, e.step))
  }

  /** The number of steps of a program, its terminator included. */
  function Length(p: Program): (n: nat)
    ensures n > 0
  {
    Terminator(p) + 1
  }

  /** The last HOLD executed decides the lamp. */
  function LampOf(table: seq<Program>, log: seq<Entry>): bool {
    if log == [] then false
    else
      var last := log[|log| - 1];
      if last.Ran? && last.blink < |table| && last.step < |table[last.blink]| && table[last.blink][last.step].Hold?
      then table[last.blink][last.step].on
      else LampOf(table, log[..|log| - 1])
  }

  /** An executed step must be the next one, cyclically, of the playing blink with the highest priority. */
  ghost predicate LegalEntry(table: seq<Program>, log: seq<Entry>, e: Entry) {
    e.Ran? ==>
      && e.blink < |table|
      && Playing(table, log, e.blink)
      && (forall c :: 0 <= c < e.blink ==> !Playing(table, log, c))
      && e.step == |Since(log, e.blink)| % Length(table[e.blink])
  }

  ghost predicate Legal(table: seq<Program>, log: seq<Entry>) {
    forall i :: 0 <= i < |log| ==> LegalEntry(table, log[..i], log[i])
  }

  // ---------- From the log alone: each blink plays its own program ----------

  /** The first n steps of a program: its cycle over and over. */
  function Unroll(p: Program, n: nat): seq<nat> {
    seq(n, i => i % Length(p))
  }

  lemma LegalPrefix(table: seq<Program>, log: seq<Entry>)
    requires log != [] && Legal(table, log)
    ensures Legal(table, log[..|log| - 1])
  {
    var before := log[..|log| - 1];
    forall i | 0 <= i < |before| ensures LegalEntry(table, before[..i], before[i]) {
      assert before[..i] == log[..i] && before[i] == log[i];
    }
  }

  /** Projection: whatever preempted it, the steps executed for a blink since its last start are a
      contiguous prefix of its own program, repeated if the program loops and at most one pass if it
      stops; so a preempted blink resumes at the step after its last executed one. */
  lemma {:induction false} PlaysOwnProgram(table: seq<Program>, log: seq<Entry>, b: nat)
    requires WellFormedTable(table) && b < |table| && Legal(table, log)
    ensures Since(log, b) == Unroll(table[b], |Since(log, b)|)
    ensures table[b][Terminator(table[b])].Stop? ==>
              && |Since(log, b)| <= Length(table[b])
              && (Playing(table, log, b) ==> |Since(log, b)| < Length(table[b]))
  {
    if log != [] {
      var before, last := log[..|log| - 1], log[|log| - 1];
      LegalPrefix(table, log);
      PlaysOwnProgram(table, before, b);
      if last.Ran? && last.blink == b {
        assert LegalEntry(table, before, last);
        UnrollStep(table[b], |Since(before, b)|);
        if table[b][Terminator(table[b])].Stop? {
          SmallMod(|Since(before, b)|, Length(table[b]));
        }
      }
    }
  }

  lemma SmallMod(n: nat, m: nat)
    requires n < m
    ensures n % m == n
  {
  }

  lemma UnrollStep(p: Program, n: nat)
    ensures Unroll(p, n + 1) == Unroll(p, n) + [n % Length(p)]
  {
  }

  // ---------- The scheduler's logs are legal ----------

  /** The counters say what the log says. */
  ghost predicate Agrees(table: seq<Program>, s: Led) {
    && Inv(table, s)
    && Legal(table, s.log)
    && (forall b :: 0 <= b < |table| ==> Tracks(table, s, b))
    && s.lit == LampOf(table, s.log)
  }

  ghost predicate Tracks(table: seq<Program>, s: Led, b: nat)
    requires b < |table| && b < |s.steps|
  {
    && (s.steps[b] != STOPPED <==> Playing(table, s.log, b))
    && (s.steps[b] != STOPPED ==> s.steps[b] == |Since(s.log, b)| % Length(table[b]))
  }

  lemma LegalSnoc(table: seq<Program>, log: seq<Entry>, e: Entry)
    requires Legal(table, log) && LegalEntry(table, log, e)
    ensures Legal(table, log + [e])
  {
    var all := log + [e];
    forall i | 0 <= i < |all| ensures LegalEntry(table, all[..i], all[i]) {
      if i < |log| {
        assert all[..i] == log[..i] && all[i] == log[i];
      } else {
        assert all[..i] == log;
      }
    }
  }

  lemma SinceSnoc(log: seq<Entry>, e: Entry, b: nat)
    ensures Since(log + [e], b) == SinceNext(Since(log, b), e, b)
  {
    assert (log + [e])[..|log|] == log;
  }

  lemma PlayingSnoc(table: seq<Program>, log: seq<Entry>, e: Entry, b: nat)
    ensures Playing(table, log + [e], b) == PlayingNext(table, Playing(table, log, b), e, b)
  {
    assert (log + [e])[..|log|] == log;
  }

  lemma ModStep(n: nat, m: nat)
    requires m > 0
    ensures (n + 1) % m == if n % m == m - 1 then 0 else n % m + 1
  {
    var q := n / m;
    assert n == q * m + n % m;
    if n % m == m - 1 {
      assert n + 1 == (q + 1) * m;
      ModMultiple(q + 1, m);
    } else {
      ModUnique(n + 1, m, q, n % m + 1);
    }
  }

  lemma ModMultiple(q: nat, m: nat)
    requires m > 0
    ensures (q * m) % m == 0
  {
    ModUnique(q * m, m, q, 0);
  }

  lemma ModUnique(n: nat, m: nat, q: nat, r: nat)
    requires m > 0 && n == q * m + r && r < m
    ensures n % m == r
  {
    var p, u := n / m, n % m;
    assert n == p * m + u;
    SameQuotient(p, u, q, r, m);
  }

  lemma SameQuotient(p: int, u: nat, q: int, r: nat, m: nat)
    requires p * m + u == q * m + r && u < m && r < m
    ensures p == q && u == r
  {
    assert (p - q) * m == r - u;
    MultipleIsFar(p - q, m);
  }

  lemma MultipleIsFar(d: int, m: nat)
    ensures d >= 1 ==> d * m >= m
    ensures d <= -1 ==> d * m + m <= 0
  {
    if d >= 1 {
      assert d * m == (d - 1) * m + m;
      assert (d - 1) * m >= 0;
    } else if d <= -1 {
      assert d * m + m == (d + 1) * m;
      assert (d + 1) * m <= 0;
    }
  }

  /** One pass of the runner keeps the counter of every blink in step with the log. */
  lemma RunOneTracks(table: seq<Program>, s: Led, c: nat)
    requires Agrees(table, s) && s.active != -1 && c < |table|
    ensures Tracks(table, RunOne(table, s).led, c)
  {
    hide Since, Playing, Legal, LampOf;
    var b := s.active;
    var e := Ran(b, s.steps[b]);
    assert Tracks(table, s, b) && Tracks(table, s, c);
    SinceSnoc(s.log, e, c);
    PlayingSnoc(table, s.log, e, c);
    ModStep(|Since(s.log, b)|, Length(table[b]));
  }

  /** One pass of the runner executes the next step of the highest playing blink. */
  lemma RunOneAgrees(table: seq<Program>, s: Led)
    requires Agrees(table, s) && s.active != -1
    ensures Agrees(table, RunOne(table, s).led)
  {
    hide Since, Playing, Legal, LampOf;
    RunOneKeepsInv(table, s);
    var b := s.active;
    var e := Ran(b, s.steps[b]);
    assert Tracks(table, s, b);
    forall c | 0 <= c < b ensures !Playing(table, s.log, c) {
      assert Tracks(table, s, c);
    }
    LegalSnoc(table, s.log, e);
    forall c | 0 <= c < |table| ensures Tracks(table, RunOne(table, s).led, c) {
      RunOneTracks(table, s, c);
    }
    LampSnoc(table, s.log, e);
  }

  lemma LampSnoc(table: seq<Program>, log: seq<Entry>, e: Entry)
    ensures LampOf(table, log + [e])
         == if e.Ran? && e.blink < |table| && e.step < |table[e.blink]| && table[e.blink][e.step].Hold?
            then table[e.blink][e.step].on
            else LampOf(table, log)
  {
    assert (log + [e])[..|log|] == log;
  }

  lemma {:induction false} RunnerAgrees(table: seq<Program>, s: Led)
    requires Agrees(table, s)
    ensures Agrees(table, Runner(table, s))
    decreases Live(s.steps), Lap(table, s), ToTerminator(table, s)
  {
    if s.active != -1 {
      RunOneAgrees(table, s);
      if !RunOne(table, s).leave {
        PassProgress(table, s);
        RunnerAgrees(table, RunOne(table, s).led);
      }
    }
  }

  /** Recording a start or a halt, and switching to the first playing blink. */
  lemma CommandAgrees(table: seq<Program>, s: Led, b: nat, start: bool)
    requires Agrees(table, s) && b < |table|
    ensures var n, e := if start then 0 else STOPPED, if start then Started(b) else Halted(b);
            var steps := s.steps[b := n];
            Agrees(table, s.(steps := steps, active := First(steps), log := s.log + [e]))
  {
    var n, e := if start then 0 else STOPPED, if start then Started(b) else Halted(b);
    var steps := s.steps[b := n];
    var t := s.(steps := steps, active := First(steps), log := s.log + [e]);
    SetCounterKeepsInv(table, s, b, n, s.log + [e]);
    LegalSnoc(table, s.log, e);
    forall c | 0 <= c < |table| ensures Tracks(table, t, c) {
      assert Tracks(table, s, c);
      SinceSnoc(s.log, e, c);
      PlayingSnoc(table, s.log, e, c);
      if c == b && start {
        SmallMod(0, Length(table[b]));
      }
    }
    LampSnoc(table, s.log, e);
  }

  lemma ApplyAgrees(table: seq<Program>, s: Led, op: Op)
    requires Agrees(table, s)
    ensures Agrees(table, Apply(table, s, op))
  {
    match op
    case OpStart(b) =>
      if KnownBlink(table, b) {
        CommandAgrees(table, s, b, true);
        RunnerIfActive(table, s.(steps := s.steps[b := 0], active := First(s.steps[b := 0]),
                                 log := s.log + [Started(b)]), b);
      }
    case OpStop(b) =>
      if KnownBlink(table, b) {
        CommandAgrees(table, s, b, false);
        RunnerIfActive(table, s.(steps := s.steps[b := STOPPED], active := First(s.steps[b := STOPPED]),
                                 log := s.log + [Halted(b)]), b);
      }
    case OpFire =>
      if s.armed {
        var t := s.(armed := false);
        assert forall b :: 0 <= b < |table| ==> Tracks(table, s, b) ==> Tracks(table, t, b);
        RunnerAgrees(table, t);
      }
  }

  lemma RunnerIfActive(table: seq<Program>, t: Led, b: nat)
    requires Agrees(table, t)
    ensures t.active == b ==> Agrees(table, Runner(table, t))
  {
    if t.active == b {
      RunnerAgrees(table, t);
    }
  }

  /** Every run of commands and firings leaves a legal log: each executed step is the next one of the
      playing blink with the highest priority, and the lamp shows the last HOLD executed. */
  lemma {:induction false} EveryRunIsLegal(table: seq<Program>, ops: seq<Op>)
    requires WellFormedTable(table)
    ensures Agrees(table, After(table, ops))
  {
    if ops == [] {
      CreatedInv(table);
    } else {
      EveryRunIsLegal(table, ops[..|ops| - 1]);
      ApplyAgrees(table, After(table, ops[..|ops| - 1]), ops[|ops| - 1]);
    }
  }

  /** The scheduler, told without its state: in every reachable state and for every blink, the steps
      executed since its last start are a prefix of its own program, at most one pass of one that ends
      in STOP; and while any blink plays, the timer is armed and the active blink is the playing one with
      the smallest index. */
  lemma EveryBlinkPlays(table: seq<Program>, ops: seq<Op>, b: nat)
    requires WellFormedTable(table) && b < |table|
    ensures var s := After(table, ops);
            && Since(s.log, b) == Unroll(table[b], |Since(s.log, b)|)
            && (table[b][Terminator(table[b])].Stop? ==>
                  && |Since(s.log, b)| <= Length(table[b])
                  && (Playing(table, s.log, b) ==> |Since(s.log, b)| < Length(table[b])))
            && (Playing(table, s.log, b) ==> s.armed && 0 <= s.active <= b && Playing(table, s.log, s.active))
  {
    EveryRunIsLegal(table, ops);
    NeverStalls(table, ops);
    var s := After(table, ops);
    PlaysOwnProgram(table, s.log, b);
    assert Tracks(table, s, b);
    if Playing(table, s.log, b) {
      assert Tracks(table, s, s.active);
    }
  }

  /** At rest: the last thing done was a HOLD of the active blink, it is on the lamp, and the timer runs for
      its time. */
  predicate AtRest(table: seq<Program>, t: Led) {
    && t.log != []
    && var last := t.log[|t.log| - 1];
    && last.Ran? && last.blink == t.active && last.blink < |table| && last.step < |table[last.blink]|
    && table[last.blink][last.step] == Hold(t.lit, t.period)
    && t.period != 0 && t.armed
  }

  /** Each firing moves on: with a blink playing it executes its next step at once, and comes to rest on a
      HOLD or with nothing left to play. */
  lemma FiringMovesOn(table: seq<Program>, ops: seq<Op>)
    requires WellFormedTable(table) && After(table, ops).active != -1
    ensures var s, t := After(table, ops), Fire(table, After(table, ops));
            && |t.log| > |s.log| && t.log[..|s.log|] == s.log
            && t.log[|s.log|].Ran? && t.log[|s.log|].blink == s.active
            && (t.active == -1 || AtRest(table, t))
  {
    NeverStalls(table, ops);
    var s := After(table, ops).(armed := false);
    RunnerExtends(table, s);
  }

  /** t's log goes on from s's log. */
  ghost predicate Extends(s: Led, t: Led) {
    |s.log| <= |t.log| && t.log[..|s.log|] == s.log
  }

  lemma ExtendsTransitive(s: Led, t: Led, u: Led)
    requires Extends(s, t) && Extends(t, u)
    ensures Extends(s, u)
    ensures |s.log| < |t.log| ==> u.log[|s.log|] == t.log[|s.log|]
  {
    assert u.log[..|s.log|] == u.log[..|t.log|][..|s.log|];
    assert |s.log| < |t.log| ==> u.log[..|t.log|][|s.log|] == t.log[|s.log|];
  }

  lemma RunOneExtends(table: seq<Program>, s: Led)
    requires Inv(table, s) && s.active != -1
    ensures var t := RunOne(table, s).led;
            && Extends(s, t) && |t.log| == |s.log| + 1 && t.log[|s.log|] == Ran(s.active, s.steps[s.active])
            && (RunOne(table, s).leave ==> AtRest(table, t))
  {
  }

  lemma {:induction false} RunnerExtends(table: seq<Program>, s: Led)
    requires Inv(table, s)
    ensures var t := Runner(table, s);
            && Extends(s, t)
            && (s.active != -1 ==> |s.log| < |t.log| && t.log[|s.log|] == Ran(s.active, s.steps[s.active]))
            && (s.active != -1 && t.active != -1 ==> AtRest(table, t))
    decreases Live(s.steps), Lap(table, s), ToTerminator(table, s)
  {
    if s.active != -1 {
      var turn := RunOne(table, s);
      RunOneKeepsInv(table, s);
      RunOneExtends(table, s);
      if !turn.leave {
        PassProgress(table, s);
        RunnerExtends(table, turn.led);
        ExtendsTransitive(s, turn.led, Runner(table, turn.led));
      }
    }
  }
}
