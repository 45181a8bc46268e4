/** What is left on the lamp when nothing blinks any more: a STOP step and a stop command end the blinking,
    and neither turns the lamp off. */
module LedLamp {
  import opened LedBlink
  import opened LedTrace

  /** The active blink is the only one playing, and its next step is a STOP. */
  ghost predicate AtLastStop(table: seq<Program>, s: Led)
    requires Inv(table, s)
  {
    && s.active != -1
    && table[s.active][s.steps[s.active]].Stop?
    && forall b :: 0 <= b < |s.steps| && b != s.active ==> s.steps[b] == STOPPED
  }

  /** A STOP step with nothing below it ends the blinking and leaves the lamp as it is. */
  lemma StopStepKeepsLamp(table: seq<Program>, s: Led)
    requires Inv(table, s) && AtLastStop(table, s)
    ensures var r := Runner(table, s);
            && r.active == -1 && r.lit == s.lit && r.armed == s.armed
            && r.log == s.log + [Ran(s.active, s.steps[s.active])]
  {
    var turn := RunOne(table, s);
    RunOneKeepsInv(table, s);
    assert turn.led.active == -1;
    assert Runner(table, turn.led) == turn.led;
  }

  lemma LampOfLast(table: seq<Program>, s: Led)
    requires Inv(table, s) && s.active != -1
    ensures var k := s.steps[s.active];
            k > 0 && s.log != [] && s.log[|s.log| - 1] == Ran(s.active, k - 1) ==>
              table[s.active][k - 1].Hold? && LampOf(table, s.log) == table[s.active][k - 1].on
  {
  }

  /** In every reachable state: the firing that executes the last STOP leaves the lamp as the last HOLD executed
      for any blink had it, so that it ends dark iff that HOLD was OFF; a program that was not preempted between
      its last HOLD and its STOP ends as that HOLD. */
  lemma StopEndsAsLastHold(table: seq<Program>, ops: seq<Op>)
    requires WellFormedTable(table) && AtLastStop(table, After(table, ops))
    ensures var s, t := After(table, ops), Fire(table, After(table, ops));
            && t.active == -1 && t.lit == LampOf(table, s.log)
            && var k := s.steps[s.active];
               k > 0 && s.log != [] && s.log[|s.log| - 1] == Ran(s.active, k - 1) ==>
                 table[s.active][k - 1].Hold? && t.lit == table[s.active][k - 1].on
  {
    hide WellFormedTable, Legal, RunOne, LampOf, Terminator;
    var s := After(table, ops);
    LampOfLast(table, s);
    NeverStalls(table, ops);
    EveryRunIsLegal(table, ops);
    StopStepKeepsLamp(table, s.(armed := false));
  }

  lemma AfterNext(table: seq<Program>, ops: seq<Op>, op: Op)
    requires WellFormedTable(table)
    ensures After(table, ops + [op]) == Apply(table, After(table, ops), op)
  {
    assert (ops + [op])[..|ops|] == ops;
  }

  /** Starting a blink with nothing above it, when its first step is a timed HOLD: it is on the lamp. */
  lemma StartHolds(table: seq<Program>, s: Led, b: nat)
    requires Inv(table, s) && b < |table| && table[b][0].Hold? && table[b][0].ms != 0
    requires forall c :: 0 <= c < b ==> s.steps[c] == STOPPED
    ensures var r := Start(table, s, b);
            r.active == b && r.steps == s.steps[b := 1] && r.lit == table[b][0].on && r.armed
  {
    var steps, log := s.steps[b := 0], s.log + [Started(b)];
    SetCounterKeepsInv(table, s, b, 0, log);
    assert steps[b] == 0;
    var t := s.(steps := steps, active := First(steps), log := log);
    assert t.active == b;
    assert RunOne(table, t).leave;
    assert Runner(table, t) == RunOne(table, t).led;
    assert steps[b := 1] == s.steps[b := 1];
  }

  /** Stopping a blink that lights the lamp leaves it lit with nothing blinking. */
  lemma StopCommandLeavesLit()
    ensures WellFormedTable(BLINK_LISTS)
    ensures var s := After(BLINK_LISTS, [OpStart(CONNECTED), OpStop(CONNECTED)]);
            s.active == -1 && s.lit
  {
    FirmwareListsAreWellFormed();
    var none: seq<Op> := [];
    AfterNext(BLINK_LISTS, none, OpStart(CONNECTED));
    AfterNext(BLINK_LISTS, [OpStart(CONNECTED)], OpStop(CONNECTED));
    assert none + [OpStart(CONNECTED)] == [OpStart(CONNECTED)];
    assert [OpStart(CONNECTED)] + [OpStop(CONNECTED)] == [OpStart(CONNECTED), OpStop(CONNECTED)];
    StartHolds(BLINK_LISTS, Created(BLINK_LISTS), CONNECTED);
    HaltSteps(BLINK_LISTS, After(BLINK_LISTS, [OpStart(CONNECTED)]), CONNECTED);
    var s := After(BLINK_LISTS, [OpStart(CONNECTED), OpStop(CONNECTED)]);
    assert forall b :: 0 <= b < |s.steps| ==> s.steps[b] == STOPPED;
  }

  const PREEMPTED: seq<Op> := [OpStart(PROVISIONED), OpStart(CONNECTED), OpStop(CONNECTED)]

  /** PROVISIONED has held the lamp off, and CONNECTED has come above it and lit the lamp. */
  lemma PreemptedByConnected()
    ensures WellFormedTable(BLINK_LISTS)
    ensures var s := After(BLINK_LISTS, PREEMPTED[..2]);
            && s.steps == Created(BLINK_LISTS).steps[PROVISIONED := 1][CONNECTED := 1] && s.lit && s.armed
  {
    hide Start;
    FirmwareListsAreWellFormed();
    var one, two := PREEMPTED[..1], PREEMPTED[..2];
    assert one == [] + [OpStart(PROVISIONED)] && two == one + [OpStart(CONNECTED)];
    AfterNext(BLINK_LISTS, [], OpStart(PROVISIONED));
    StartHolds(BLINK_LISTS, Created(BLINK_LISTS), PROVISIONED);
    AfterNext(BLINK_LISTS, one, OpStart(CONNECTED));
    StartHolds(BLINK_LISTS, After(BLINK_LISTS, one), CONNECTED);
  }

  /** CONNECTED has been stopped again, and PROVISIONED is the active blink, at its STOP. */
  lemma PreemptedBeforeStop()
    ensures WellFormedTable(BLINK_LISTS)
    ensures var s := After(BLINK_LISTS, PREEMPTED);
            s.active == PROVISIONED && s.lit && s.armed && s.steps[PROVISIONED] == 1
            && forall b :: 0 <= b < |s.steps| && b != PROVISIONED ==> s.steps[b] == STOPPED
  {
    hide Halt;
    PreemptedByConnected();
    assert PREEMPTED == PREEMPTED[..2] + [OpStop(CONNECTED)];
    AfterNext(BLINK_LISTS, PREEMPTED[..2], OpStop(CONNECTED));
    HaltSteps(BLINK_LISTS, After(BLINK_LISTS, PREEMPTED[..2]), CONNECTED);
    var s := After(BLINK_LISTS, PREEMPTED);
    assert s.steps[PROVISIONED] == 1;
  }

  lemma HaltSteps(table: seq<Program>, s: Led, b: nat)
    requires Inv(table, s) && b < |table|
    ensures var r := Halt(table, s, b);
            r.steps == s.steps[b := STOPPED] && r.lit == s.lit && r.armed == s.armed
  {
    StopRunsNothing(table, s, b);
    assert s.steps[b := STOPPED][b] == STOPPED;
  }

  /** So a program whose last HOLD is OFF can end lit: resumed after a preemption, it runs to its STOP with the
      lamp of the blink that preempted it. */
  lemma PreemptedStopEndsLit()
    ensures WellFormedTable(BLINK_LISTS) && BLINK_LISTS[PROVISIONED] == [Hold(false, 1000), Stop]
    ensures var s := After(BLINK_LISTS, PREEMPTED + [OpFire]);
            s.active == -1 && s.lit && s.log != [] && s.log[|s.log| - 1] == Ran(PROVISIONED, 1)
  {
    PreemptedBeforeStop();
    AfterNext(BLINK_LISTS, PREEMPTED, OpFire);
    StopStepKeepsLamp(BLINK_LISTS, After(BLINK_LISTS, PREEMPTED).(armed := false));
  }
}
