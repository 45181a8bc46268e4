/** The indicator as it runs: an array of step counters updated in place by the switch loop and the
    runner loop. */
module LedDriver {
  import opened LedBlink

  datatype Err = Ok | InvalidArg

  class Indicator {
    const table: seq<Program>
    var activeBlink: int
    const blinkSteps: array<int>
    var armed: bool
    var period: nat
    var lit: bool
    ghost var log: seq<Entry>

    ghost function Abs(): Led
      reads this, blinkSteps
    {
      Led(activeBlink, blinkSteps[..], armed, period, lit, log)
    }

    ghost predicate Valid()
      reads this, blinkSteps
    {
      Inv(table, Abs())
    }

    constructor (table: seq<Program>)
      requires WellFormedTable(table)
      ensures this.table == table && Valid() && Abs() == Created(table) && fresh(blinkSteps)
    {
      this.table := table;
      activeBlink, armed, period, lit, log := -1, false, 100, false, [];
      blinkSteps := new int[|table| + 1](_ => STOPPED);
      new;
      assert blinkSteps[..] == Created(table).steps;
      CreatedInv(table);
    }

    /** Selects the first blink that is not stopped; the search scans the NULL list's counter too. */
    method BlinkListSwitch()
      modifies this`activeBlink
      ensures activeBlink == First(blinkSteps[..])
    {
      activeBlink := -1;
      for index := 0 to blinkSteps.Length
        invariant activeBlink == -1
        invariant forall c :: 0 <= c < index ==> blinkSteps[..][c] == STOPPED
      {
        if blinkSteps[index] != STOPPED {
          activeBlink := index;
          assert blinkSteps[..][index] != STOPPED;
          break;
        }
      }
    }

    /** The timer callback, also called by a start: it runs steps until one holds the lamp with the timer
        armed, or nothing is active, and it ends for every well-formed table. */
    method BlinkListRunner()
      requires Valid()
      modifies this`activeBlink, this`armed, this`period, this`lit, this`log, blinkSteps
      ensures Valid() && Abs() == Runner(table, old(Abs()))
    {
      var leave := false;
      while !leave
        invariant Valid()
        invariant if leave then Abs() == Runner(table, old(Abs()))
                  else Runner(table, Abs()) == Runner(table, old(Abs()))
        decreases !leave, Live(blinkSteps[..]), Lap(table, Abs()), ToTerminator(table, Abs())
      {
        if activeBlink == -1 {
          return;
        }
        ghost var before := Abs();
        RunOneKeepsInv(table, before);
        leave := RunStep();
        if !leave {
          PassProgress(table, before);
        }
      }
    }

    /** One pass of the loop: take the step, advance the counter, act on the step's type. */
    method RunStep() returns (leave: bool)
      requires Valid() && activeBlink != -1
      modifies this`activeBlink, this`armed, this`period, this`lit, this`log, blinkSteps
      ensures Turn(Abs(), leave) == RunOne(table, old(Abs()))
    {
      leave := false;
      ghost var steps := blinkSteps[..];
      var active := activeBlink;
      assert active < |table|;
      var step := blinkSteps[active];
      var blinkStep := table[active][step];
      log := log + [Ran(active, step)];
      blinkSteps[active] := blinkSteps[active] + 1;
      match blinkStep {
        case Loop =>
          blinkSteps[active] := 0;
          assert blinkSteps[..] == steps[active := 0];
        case Stop =>
          blinkSteps[active] := STOPPED;
          assert blinkSteps[..] == steps[active := STOPPED];
          BlinkListSwitch();
        case Hold(on, ms) =>
          assert blinkSteps[..] == steps[active := step + 1];
          lit := on;
          if ms != 0 {
            period := ms;
            armed := true;
            leave := true;
          }
      }
    }

    method StartBlink(b: int) returns (err: Err)
      requires Valid()
      modifies this`activeBlink, this`armed, this`period, this`lit, this`log, blinkSteps
      ensures Valid() && Abs() == Start(table, old(Abs()), b)
      ensures err == if KnownBlink(table, b) then Ok else InvalidArg
    {
      if b < 0 || b >= |table| {
        return InvalidArg;
      }
      SetCounterKeepsInv(table, Abs(), b, 0, log + [Started(b)]);
      ghost var steps := blinkSteps[..];
      blinkSteps[b] := 0;
      log := log + [Started(b)];
      assert blinkSteps[..] == steps[b := 0];
      BlinkListSwitch();
      if activeBlink == b {
        BlinkListRunner();
      }
      return Ok;
    }

    method StopBlink(b: int) returns (err: Err)
      requires Valid()
      modifies this`activeBlink, this`armed, this`period, this`lit, this`log, blinkSteps
      ensures Valid() && Abs() == Halt(table, old(Abs()), b)
      ensures err == if KnownBlink(table, b) then Ok else InvalidArg
    {
      if b < 0 || b >= |table| {
        return InvalidArg;
      }
      SetCounterKeepsInv(table, Abs(), b, STOPPED, log + [Halted(b)]);
      ghost var steps := blinkSteps[..];
      blinkSteps[b] := STOPPED;
      log := log + [Halted(b)];
      assert blinkSteps[..] == steps[b := STOPPED];
      BlinkListSwitch();
      if activeBlink == b {
        // The source re-runs the blink here; the test cannot hold for a blink just stopped.
        assert false;
      }
      return Ok;
    }

    method TimerFires()
      requires Valid()
      modifies this`activeBlink, this`armed, this`period, this`lit, this`log, blinkSteps
      ensures Valid() && Abs() == Fire(table, old(Abs()))
    {
      if armed {
        armed := false;
        BlinkListRunner();
      }
    }
  }
}
