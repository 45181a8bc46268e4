/** What each command does to the log, the counters and the timer, and that none is lost. */
module LedCommands {
  import opened LedBlink
  import opened LedTrace

  /** The commands a log records. */
  function Commands(log: seq<Entry>): seq<Entry> {
    if log == [] then []
    else
      var last := log[|log| - 1];
      Commands(log[..|log| - 1]) + if last.Ran? then [] else [last]
  }

  /** The commands of a run that name a blink of the table of n. */
  function Issued(n: nat, ops: seq<Op>): seq<Entry> {
    if ops == [] then []
    else
      var before := Issued(n, ops[..|ops| - 1]);
      match ops[|ops| - 1]
      case OpStart(b) => if 0 <= b < n then before + [Started(b)] else before
      case OpStop(b) => if 0 <= b < n then before + [Halted(b)] else before
      case OpFire => before
  }

  lemma CommandsSnoc(log: seq<Entry>, e: Entry)
    ensures Commands(log + [e]) == Commands(log) + if e.Ran? then [] else [e]
  {
    assert (log + [e])[..|log|] == log;
  }

  lemma {:induction false} RunnerIssuesNone(table: seq<Program>, s: Led)
    requires Inv(table, s)
    ensures Commands(Runner(table, s).log) == Commands(s.log)
    decreases Live(s.steps), Lap(table, s), ToTerminator(table, s)
  {
    hide Commands, Terminator, First;
    if s.active != -1 {
      var turn := RunOne(table, s);
      RunOneKeepsInv(table, s);
      CommandsSnoc(s.log, Ran(s.active, s.steps[s.active]));
      if !turn.leave {
        PassProgress(table, s);
        RunnerIssuesNone(table, turn.led);
      }
    }
  }

  /** Over every run the log holds exactly the commands of the run that name a known blink, in order. */
  lemma {:induction false} CommandsLogged(table: seq<Program>, ops: seq<Op>)
    requires WellFormedTable(table)
    ensures Commands(After(table, ops).log) == Issued(|table|, ops)
  {
    if ops == [] {
      CreatedInv(table);
    } else {
      var before := ops[..|ops| - 1];
      CommandsLogged(table, before);
      ApplyLogs(table, After(table, before), ops[|ops| - 1]);
    }
  }

  lemma ApplyLogs(table: seq<Program>, s: Led, op: Op)
    requires Inv(table, s)
    ensures Commands(Apply(table, s, op).log) ==
            match op
            case OpStart(b) => if 0 <= b < |table| then Commands(s.log) + [Started(b)] else Commands(s.log)
            case OpStop(b) => if 0 <= b < |table| then Commands(s.log) + [Halted(b)] else Commands(s.log)
            case OpFire => Commands(s.log)
  {
    hide Commands;
    match op
    case OpStart(b) =>
      if KnownBlink(table, b) {
        var t := Switched(table, s, b, 0, Started(b));
        CommandsSnoc(s.log, Started(b));
        RunnerIssuesNone(table, t);
      }
    case OpStop(b) =>
      if KnownBlink(table, b) {
        StopIs(table, s, b);
        CommandsSnoc(s.log, Halted(b));
      }
    case OpFire =>
      if s.armed {
        RunnerIssuesNone(table, s.(armed := false));
      }
  }

  /** A counter set by a command, before anything runs. */
  function Switched(table: seq<Program>, s: Led, b: nat, n: int, e: Entry): (t: Led)
    requires Inv(table, s) && b < |table| && (n == STOPPED || n == 0)
    ensures Inv(table, t)
  {
    SetCounterKeepsInv(table, s, b, n, s.log + [e]);
    s.(steps := s.steps[b := n], active := First(s.steps[b := n]), log := s.log + [e])
  }

  /** A start under a playing blink sets its counter and is recorded, and nothing else happens. */
  lemma StartUnderIs(table: seq<Program>, s: Led, b: nat)
    requires Inv(table, s) && b < |table| && 0 <= s.active < b
    ensures Start(table, s, b) == s.(steps := s.steps[b := 0], log := s.log + [Started(b)])
  {
    assert s.steps[b := 0][s.active] == s.steps[s.active];
  }

  lemma FirstOfStarted(steps: seq<int>, b: nat)
    requires b < |steps| && (First(steps) == -1 || b <= First(steps))
    ensures First(steps[b := 0]) == b
  {
    assert steps[b := 0][b] == 0;
  }

  /** Any other start is recorded, runs the first step of its blink at once, and comes to rest on a HOLD that is on
      the lamp and being timed, or with nothing left to play. */
  lemma StartOverRuns(table: seq<Program>, s: Led, b: nat)
    requires Inv(table, s) && b < |table| && (s.active == -1 || b <= s.active)
    ensures var t, n := Start(table, s, b), |s.log|;
            && |t.log| > n + 1 && t.log[..n] == s.log && t.log[n] == Started(b) && t.log[n + 1] == Ran(b, 0)
            && (t.active == -1 || AtRest(table, t))
  {
    FirstOfStarted(s.steps, b);
    var u := Switched(table, s, b, 0, Started(b));
    RunnerExtends(table, u);
    var t := Start(table, s, b);
    assert t == Runner(table, u);
    assert t.log[..|s.log|] == t.log[..|u.log|][..|s.log|] == s.log;
    assert t.log[|s.log|] == t.log[..|u.log|][|s.log|] == Started(b);
  }

  /** A stop stops its blink, selects the next playing one, is recorded, and nothing else happens. */
  lemma StopIs(table: seq<Program>, s: Led, b: nat)
    requires Inv(table, s) && b < |table|
    ensures var steps := s.steps[b := STOPPED];
            Halt(table, s, b) == s.(steps := steps, active := First(steps), log := s.log + [Halted(b)])
  {
    assert s.steps[b := STOPPED][b] == STOPPED;
  }

  // ---------- The timer ----------

  lemma {:induction false} RunnerTimer(table: seq<Program>, s: Led)
    requires Inv(table, s)
    ensures var t := Runner(table, s);
            t.active == -1 ==> t.armed == s.armed && t.period == s.period
    decreases Live(s.steps), Lap(table, s), ToTerminator(table, s)
  {
    if s.active != -1 {
      var turn := RunOne(table, s);
      RunOneKeepsInv(table, s);
      if turn.leave {
        RestIsActive(table, s);
      } else {
        PassProgress(table, s);
        RunnerTimer(table, turn.led);
      }
    }
  }

  lemma RestIsActive(table: seq<Program>, s: Led)
    requires Inv(table, s) && s.active != -1 && RunOne(table, s).leave
    ensures RunOne(table, s).led.active == s.active
  {
  }

  lemma {:induction false} RunnerEndsRan(table: seq<Program>, s: Led)
    requires Inv(table, s)
    ensures var t := Runner(table, s);
            s.active != -1 ==> t.log != [] && t.log[|t.log| - 1].Ran?
    ensures s.active == -1 ==> Runner(table, s) == s
    decreases Live(s.steps), Lap(table, s), ToTerminator(table, s)
  {
    if s.active != -1 {
      var turn := RunOne(table, s);
      RunOneKeepsInv(table, s);
      if !turn.leave {
        PassProgress(table, s);
        RunnerEndsRan(table, turn.led);
      }
    }
  }

  /** What the runner leaves of the timer. */
  lemma RunnerRests(table: seq<Program>, s: Led)
    requires Inv(table, s) && s.active != -1
    ensures var t := Runner(table, s);
            && |t.log| > |s.log| && t.log[|t.log| - 1].Ran?
            && if t.active != -1 then AtRest(table, t) else t.armed == s.armed && t.period == s.period
  {
    hide Runner, RunOne;
    RunnerExtends(table, s);
    RunnerTimer(table, s);
    RunnerEndsRan(table, s);
  }

  /** If the step executed anything and a blink is active, the timer runs for the time of the HOLD that is on the
      lamp; otherwise its period is as before, and only a firing uses it up. */
  ghost predicate TimerFollows(table: seq<Program>, s: Led, op: Op, t: Led) {
    if t.active != -1 && |t.log| > |s.log| && t.log[|t.log| - 1].Ran? then AtRest(table, t)
    else t.period == s.period && t.armed == (s.armed && !op.OpFire?)
  }

  lemma StartTimer(table: seq<Program>, s: Led, b: nat)
    requires Inv(table, s) && b < |table|
    ensures TimerFollows(table, s, OpStart(b), Start(table, s, b))
  {
    hide Runner, AtRest, Inv, First;
    if 0 <= s.active < b {
      StartUnderIs(table, s, b);
    } else {
      FirstOfInv(table, s);
      FirstOfStarted(s.steps, b);
      RunnerRests(table, Switched(table, s, b, 0, Started(b)));
    }
  }

  lemma FirstOfInv(table: seq<Program>, s: Led)
    requires Inv(table, s)
    ensures s.active == First(s.steps) && |s.steps| == |table| + 1 && -1 <= s.active
  {
  }

  lemma FireTimer(table: seq<Program>, s: Led)
    requires Inv(table, s)
    ensures TimerFollows(table, s, OpFire, Fire(table, s))
  {
    hide AtRest;
    if s.armed && s.active != -1 {
      RunnerRests(table, s.(armed := false));
    }
  }

  /** The timer after every command and firing. */
  lemma TimerStep(table: seq<Program>, s: Led, op: Op)
    requires Inv(table, s)
    ensures TimerFollows(table, s, op, Apply(table, s, op))
  {
    hide AtRest, Start, Fire, Halt, Inv;
    match op
    case OpStart(b) =>
      if 0 <= b < |table| {
        StartTimer(table, s, b);
      } else {
        UnknownIgnored(table, s, b);
      }
    case OpStop(b) =>
      if 0 <= b < |table| {
        StopIs(table, s, b);
      } else {
        UnknownIgnored(table, s, b);
      }
    case OpFire => FireTimer(table, s);
  }

  /** A command for no blink of the table does nothing. */
  lemma UnknownIgnored(table: seq<Program>, s: Led, b: int)
    requires Inv(table, s) && !(0 <= b < |table|)
    ensures Start(table, s, b) == s && Halt(table, s, b) == s
  {
  }

  /** A new indicator: nothing playing, the timer not running. */
  lemma NewIsIdle(table: seq<Program>)
    requires WellFormedTable(table)
    ensures var s := After(table, []);
            s.active == -1 && !s.armed && !s.lit && s.log == []
  {
    CreatedInv(table);
  }

  // ---------- The programs of the firmware ----------

  /** The time of a program up to its terminator, and the part of it with the lamp on. */
  function Time(p: Program): nat {
    if p == [] || !p[0].Hold? then 0 else p[0].ms + Time(p[1..])
  }

  function LitTime(p: Program): nat {
    if p == [] || !p[0].Hold? then 0 else (if p[0].on then p[0].ms else 0) + LitTime(p[1..])
  }

  /** How often the lamp is turned on. */
  function Flashes(p: Program): nat {
    if p == [] || !p[0].Hold? then 0 else (if p[0].on then 1 else 0) + Flashes(p[1..])
  }

  predicate Shows(p: Program, time: nat, lit: nat, flashes: nat, cyclic: bool) {
    && Time(p) == time && LitTime(p) == lit && Flashes(p) == flashes
    && Terminator(p) < |p| && (p[Terminator(p)].Loop? <==> cyclic)
  }

  lemma ShowsHold(p: Program, time: nat, lit: nat, flashes: nat, cyclic: bool, h: Step)
    requires h.Hold? && Shows(p, time, lit, flashes, cyclic)
    ensures Shows([h] + p, time + h.ms, lit + (if h.on then h.ms else 0), flashes + (if h.on then 1 else 0), cyclic)
  {
    assert ([h] + p)[1..] == p;
  }

  lemma ShowsTwo(a: Step, b: Step, last: Step)
    requires a.Hold? && b.Hold? && !last.Hold?
    ensures Shows([a, b, last], a.ms + b.ms, (if a.on then a.ms else 0) + (if b.on then b.ms else 0),
                  (if a.on then 1 else 0) + (if b.on then 1 else 0), last.Loop?)
    ensures Shows([b, last], b.ms, if b.on then b.ms else 0, if b.on then 1 else 0, last.Loop?)
  {
    assert Shows([last], 0, 0, 0, last.Loop?);
    ShowsHold([last], 0, 0, 0, last.Loop?, b);
    assert [b] + [last] == [b, last] && [a] + [b, last] == [a, b, last];
    ShowsHold([b, last], b.ms, if b.on then b.ms else 0, if b.on then 1 else 0, last.Loop?, a);
  }

  /** What each of the seven blinks looks like: its cycle and its time lit, in milliseconds, its flashes, and whether it
      goes on; they are listed by priority. */
  lemma FirmwareBlinks()
    ensures Shows(BLINK_LISTS[0], 400, 200, 1, true) && FACTORY_RESET == 0
    ensures Shows(BLINK_LISTS[1], 1000, 100, 2, true) && UPDATING == 1
    ensures Shows(BLINK_LISTS[2], 1000, 1000, 1, true) && CONNECTED == 2
    ensures Shows(BLINK_LISTS[3], 1000, 0, 0, false) && PROVISIONED == 3
    ensures Shows(BLINK_LISTS[4], 1000, 200, 1, true) && CONNECTING == 4
    ensures Shows(BLINK_LISTS[5], 300, 100, 1, true) && RECONNECTING == 5
    ensures Shows(BLINK_LISTS[6], 1000, 500, 1, true) && PROVISIONING == 6
  {
    hide Shows;
    ShowsTwo(Hold(true, 200), Hold(false, 200), Loop);
    ShowsTwo(Hold(true, 50), Hold(false, 800), Loop);
    ShowsHold([Hold(true, 50), Hold(false, 800), Loop], 850, 50, 1, true, Hold(false, 100));
    assert [Hold(false, 100)] + [Hold(true, 50), Hold(false, 800), Loop]
        == [Hold(false, 100), Hold(true, 50), Hold(false, 800), Loop];
    ShowsHold([Hold(false, 100), Hold(true, 50), Hold(false, 800), Loop], 950, 50, 1, true, Hold(true, 50));
    assert [Hold(true, 50)] + [Hold(false, 100), Hold(true, 50), Hold(false, 800), Loop] == BLINK_LISTS[1];
    ShowsTwo(Hold(true, 0), Hold(true, 1000), Loop);
    ShowsTwo(Hold(true, 0), Hold(false, 1000), Stop);
    ShowsTwo(Hold(true, 200), Hold(false, 800), Loop);
    ShowsTwo(Hold(true, 100), Hold(false, 200), Loop);
    ShowsTwo(Hold(true, 500), Hold(false, 500), Loop);
  }
}
