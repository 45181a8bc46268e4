/** The blink scheduler of one LED: programs with fixed priorities that share the lamp, driven by a
    one-shot timer (components/indicator/led_indicator.c), on values. */
module LedBlink {

  /** One blink step; LOOP and STOP carry no data. */
  datatype Step = Hold(on: bool, ms: nat) | Loop | Stop

  type Program = seq<Step>

  const STOPPED := -1

  // ---------- Programs ----------

  /** The index of the first step that is not a HOLD; |p| when there is none. */
  function Terminator(p: Program): (k: nat)
    ensures k <= |p|
    ensures k < |p| ==> !p[k].Hold?
    ensures forall i :: 0 <= i < k ==> p[i].Hold?
  {
    if p == [] || !p[0].Hold? then 0 else 1 + Terminator(p[1..])
  }

  /** Some HOLD from step s on, before the terminator, arms the timer. */
  ghost predicate HoldAhead(p: Program, s: int) {
    exists j :: s <= j < Terminator(p) && 0 <= j && p[j].ms != 0
  }

  /** A program that ends in LOOP or STOP, and that cannot loop without ever holding. */
  ghost predicate WellFormed(p: Program) {
    && Terminator(p) < |p|
    && (p[Terminator(p)].Loop? ==> HoldAhead(p, 0))
  }

  ghost predicate WellFormedTable(table: seq<Program>) {
    forall b :: 0 <= b < |table| ==> WellFormed(table[b])
  }

  // ---------- The indicator ----------

  /** What the indicator has done: commands accepted and steps executed, in order. */
  datatype Entry = Started(blink: nat) | Halted(blink: nat) | Ran(blink: nat, step: nat)

  /** steps has one counter per program and one more, for the NULL list after the last of them. */
  datatype Led = Led(active: int, steps: seq<int>, armed: bool, period: nat, lit: bool, log: seq<Entry>)

  /** The smallest index that is not stopped, or -1. */
  function First(steps: seq<int>): (b: int)
    ensures -1 <= b < |steps|
    ensures b >= 0 ==> steps[b] != STOPPED
    ensures forall c :: 0 <= c < (if b >= 0 then b else |steps|) ==> steps[c] == STOPPED
  {
    FirstFrom(steps, 0)
  }

  function FirstFrom(steps: seq<int>, i: nat): (b: int)
    requires i <= |steps|
    ensures b == -1 || i <= b < |steps|
    ensures b >= 0 ==> steps[b] != STOPPED
    ensures forall c :: i <= c < (if b >= 0 then b else |steps|) ==> steps[c] == STOPPED
    decreases |steps| - i
  {
    if i == |steps| then -1
    else if steps[i] != STOPPED then i
    else FirstFrom(steps, i + 1)
  }

  function Created(table: seq<Program>): Led {
    Led(-1, seq(|table| + 1, _ => STOPPED), false, 100, false, [])
  }

  /** Counters in range, the active blink the first that is not stopped, the NULL list never selected. */
  ghost predicate Inv(table: seq<Program>, s: Led) {
    && WellFormedTable(table)
    && |s.steps| == |table| + 1
    && s.steps[|table|] == STOPPED
    && (forall b :: 0 <= b < |table| ==> s.steps[b] == STOPPED || 0 <= s.steps[b] <= Terminator(table[b]))
    && s.active == First(s.steps)
  }

  /** Between atomic steps an active blink always has a timer to go on with. */
  predicate NoStall(s: Led) {
    s.active != -1 ==> s.armed
  }

  datatype Turn = Turn(led: Led, leave: bool)

  /** One pass through the runner's loop. */
  function RunOne(table: seq<Program>, s: Led): Turn
    requires Inv(table, s) && s.active != -1
  {
    var b := s.active;
    var step := s.steps[b];
    var log := s.log + [Ran(b, step)];
    match table[b][step]
    case Loop =>
      Turn(s.(steps := s.steps[b := 0], log := log), false)
    case Stop =>
      var steps := s.steps[b := STOPPED];
      Turn(s.(active := First(steps), steps := steps, log := log), false)
    case Hold(on, ms) =>
      var next := s.(steps := s.steps[b := step + 1], lit := on, log := log);
      if ms == 0 then Turn(next, false)
      else Turn(next.(armed := true, period := ms), true)
  }

  lemma FirstSame(steps: seq<int>, b: nat, n: nat)
    requires b < |steps| && First(steps) == b
    ensures First(steps[b := n]) == b
  {
    assert steps[b := n][b] == n;
  }

  lemma SetCounterKeepsInv(table: seq<Program>, s: Led, b: nat, n: int, log: seq<Entry>)
    requires Inv(table, s) && b < |table| && (n == STOPPED || 0 <= n <= Terminator(table[b]))
    ensures Inv(table, s.(steps := s.steps[b := n], active := First(s.steps[b := n]), log := log))
  {
  }

  lemma RunOneKeepsInv(table: seq<Program>, s: Led)
    requires Inv(table, s) && s.active != -1
    ensures Inv(table, RunOne(table, s).led)
  {
    hide Terminator, First;
    var b := s.active;
    var step := s.steps[b];
    assert b < |table| && WellFormed(table[b]);
    match table[b][step]
    case Stop =>
      SetCounterKeepsInv(table, s, b, STOPPED, s.log);
    case Loop =>
      FirstSame(s.steps, b, 0);
      SetCounterKeepsInv(table, s, b, 0, s.log);
    case Hold(_, _) =>
      FirstSame(s.steps, b, step + 1);
      SetCounterKeepsInv(table, s, b, step + 1, s.log);
  }

  // ---------- The runner loop ends ----------

  function Live(steps: seq<int>): set<nat> {
    set b | 0 <= b < |steps| && steps[b] != STOPPED
  }

  /** 1 when the active blink reaches its terminator before a HOLD that arms the timer. */
  ghost function Lap(table: seq<Program>, s: Led): nat
    requires Inv(table, s)
  {
    if s.active == -1 || HoldAhead(table[s.active], s.steps[s.active]) then 0 else 1
  }

  /** Steps to the active blink's terminator. */
  ghost function ToTerminator(table: seq<Program>, s: Led): nat
    requires Inv(table, s)
  {
    if s.active == -1 then 0 else Terminator(table[s.active]) - s.steps[s.active]
  }

  /** Every pass that stays in the loop brings it closer to its end: a blink stops, or a LOOP is taken
      that has a HOLD ahead of it, or the terminator is one step nearer. */
  lemma PassProgress(table: seq<Program>, s: Led)
    requires Inv(table, s) && s.active != -1 && !RunOne(table, s).leave
    ensures Inv(table, RunOne(table, s).led)
    ensures var t := RunOne(table, s).led;
            || Live(t.steps) < Live(s.steps)
            || (Live(t.steps) == Live(s.steps)
                && (Lap(table, t) < Lap(table, s)
                    || (Lap(table, t) == Lap(table, s) && ToTerminator(table, t) < ToTerminator(table, s))))
  {
    RunOneKeepsInv(table, s);
    var t := RunOne(table, s).led;
    var b := s.active;
    var p, step := table[b], s.steps[b];
    match p[step]
    case Stop =>
      assert Live(t.steps) == Live(s.steps) - {b};
      assert b in Live(s.steps);
    case Loop =>
      assert Live(t.steps) == Live(s.steps);
      FirstSame(s.steps, b, 0);
      assert step == Terminator(p);
      assert !HoldAhead(p, step);
    case Hold(on, ms) =>
      assert Live(t.steps) == Live(s.steps);
      FirstSame(s.steps, b, step + 1);
      if HoldAhead(p, step) {
        var j :| step <= j < Terminator(p) && 0 <= j && p[j].ms != 0;
        assert step + 1 <= j;
      }
  }

  /** The runner: it returns with nothing active, or with a step held and the timer armed. */
  function Runner(table: seq<Program>, s: Led): (r: Led)
    requires Inv(table, s)
    ensures Inv(table, r) && NoStall(r)
    decreases Live(s.steps), Lap(table, s), ToTerminator(table, s)
  {
    if s.active == -1 then s
    else
      var turn := RunOne(table, s);
      RunOneKeepsInv(table, s);
      if turn.leave then turn.led
      else
        PassProgress(table, s);
        Runner(table, turn.led)
  }

  // ---------- Commands and the timer ----------

  datatype Op = OpStart(blink: int) | OpStop(blink: int) | OpFire

  predicate KnownBlink(table: seq<Program>, b: int) {
    0 <= b < |table|
  }

  /** led_indicator_start. */
  function Start(table: seq<Program>, s: Led, b: int): (r: Led)
    requires Inv(table, s)
    ensures Inv(table, r)
  {
    if !KnownBlink(table, b) then s
    else
      var steps, log := s.steps[b := 0], s.log + [Started(b)];
      SetCounterKeepsInv(table, s, b, 0, log);
      var t := s.(steps := steps, active := First(steps), log := log);
      if t.active == b then Runner(table, t) else t
  }

  /** led_indicator_stop, with its own re-run test. */
  function Halt(table: seq<Program>, s: Led, b: int): (r: Led)
    requires Inv(table, s)
    ensures Inv(table, r)
  {
    if !KnownBlink(table, b) then s
    else
      var steps, log := s.steps[b := STOPPED], s.log + [Halted(b)];
      SetCounterKeepsInv(table, s, b, STOPPED, log);
      var t := s.(steps := steps, active := First(steps), log := log);
      if t.active == b then Runner(table, t) else t
  }

  /** The one-shot timer fires, if it is armed. */
  function Fire(table: seq<Program>, s: Led): (r: Led)
    requires Inv(table, s)
    ensures Inv(table, r)
  {
    if s.armed then Runner(table, s.(armed := false)) else s
  }

  function Apply(table: seq<Program>, s: Led, op: Op): (r: Led)
    requires Inv(table, s)
    ensures Inv(table, r)
  {
    match op
    case OpStart(b) => Start(table, s, b)
    case OpStop(b) => Halt(table, s, b)
    case OpFire => Fire(table, s)
  }

  lemma CreatedInv(table: seq<Program>)
    requires WellFormedTable(table)
    ensures Inv(table, Created(table)) && NoStall(Created(table))
  {
  }

  /** The indicator after a run of commands and timer firings. */
  function After(table: seq<Program>, ops: seq<Op>): (s: Led)
    requires WellFormedTable(table)
    ensures Inv(table, s)
  {
    CreatedInv(table);
    if ops == [] then Created(table)
    else Apply(table, After(table, ops[..|ops| - 1]), ops[|ops| - 1])
  }

  /** No command and no firing can leave an active blink without an armed timer: a stop never re-runs
      anything, and relies on the timer that is pending whenever anything was active before it. */
  lemma ApplyKeepsNoStall(table: seq<Program>, s: Led, op: Op)
    requires Inv(table, s) && NoStall(s)
    ensures NoStall(Apply(table, s, op))
  {
    match op
    case OpFire =>
    case OpStart(b) =>
      if KnownBlink(table, b) {
        var steps := s.steps[b := 0];
        if First(steps) != b && First(steps) != -1 {
          assert steps[First(steps)] == s.steps[First(steps)];
        }
      }
    case OpStop(b) =>
      if KnownBlink(table, b) {
        var steps := s.steps[b := STOPPED];
        if First(steps) != -1 {
          assert steps[First(steps)] == s.steps[First(steps)];
        }
      }
  }

  lemma {:induction false} NeverStalls(table: seq<Program>, ops: seq<Op>)
    requires WellFormedTable(table)
    ensures NoStall(After(table, ops))
  {
    if ops != [] {
      NeverStalls(table, ops[..|ops| - 1]);
      ApplyKeepsNoStall(table, After(table, ops[..|ops| - 1]), ops[|ops| - 1]);
    }
  }

  /** Stopping executes no step: it records the command and changes neither lamp nor timer. */
  lemma StopRunsNothing(table: seq<Program>, s: Led, b: nat)
    requires Inv(table, s) && b < |table|
    ensures var r := Halt(table, s, b);
            r.log == s.log + [Halted(b)] && r.lit == s.lit && r.armed == s.armed
  {
    assert s.steps[b := STOPPED][b] == STOPPED;
  }

  // ---------- The programs of the firmware ----------

  const FACTORY_RESET: nat := 0
  const UPDATING: nat := 1
  const CONNECTED: nat := 2
  const PROVISIONED: nat := 3
  const CONNECTING: nat := 4
  const RECONNECTING: nat := 5
  const PROVISIONING: nat := 6

  const BLINK_LISTS: seq<Program> := [
    [Hold(true, 200), Hold(false, 200), Loop],
    [Hold(true, 50), Hold(false, 100), Hold(true, 50), Hold(false, 800), Loop],
    [Hold(true, 1000), Loop],
    [Hold(false, 1000), Stop],
    [Hold(true, 200), Hold(false, 800), Loop],
    [Hold(true, 100), Hold(false, 200), Loop],
    [Hold(true, 500), Hold(false, 500), Loop]
  ]

  /** The terminator is where the first LOOP or STOP stands. */
  lemma TerminatorAt(p: Program, k: nat)
    requires k < |p| && !p[k].Hold? && forall i :: 0 <= i < k ==> p[i].Hold?
    ensures Terminator(p) == k
  {
  }

  lemma FirmwareListsAreWellFormed()
    ensures WellFormedTable(BLINK_LISTS) && |BLINK_LISTS| == 7
  {
    forall b | 0 <= b < |BLINK_LISTS| ensures WellFormed(BLINK_LISTS[b]) {
      var p := BLINK_LISTS[b];
      TerminatorAt(p, |p| - 1);
      if p[|p| - 1].Loop? {
        assert p[0].ms != 0;
      }
    }
  }
}
