/** The Wi-Fi manager and the status LED it drives: the reconnect counter, the ready flag and the
    blinks stay in step over every run (main/core/manager/wifi_manager.cc). */
module WifiLed {
  import opened LedBlink

  /** Requests to the radio that matter for the retry budget. */
  datatype Note = RetryReset | FirstConnect | Reconnect

  datatype Wifi = Wifi(ready: bool, retry: nat, led: Led, notes: seq<Note>)

  const MAX_RETRY: nat := 5

  /** Calls and events; `ok` is what the radio driver answers. */
  datatype Op =
    | ManagerStart(ok: bool)
    | ManagerStop(ok: bool)
    | StaStarted
    | StaDisconnected
    | GotIp
    | LedTimer

  ghost predicate LedOk(s: Led) {
    Inv(BLINK_LISTS, s)
  }

  function StartManager(w: Wifi, ok: bool): Wifi
    requires LedOk(w.led)
  {
    if w.ready then w
    else
      var reset := w.(retry := 0, notes := w.notes + [RetryReset]);
      if !ok then reset else reset.(led := Start(BLINK_LISTS, w.led, CONNECTING))
  }

  function StopManager(w: Wifi, ok: bool): Wifi {
    if !w.ready || !ok then w else w.(ready := false)
  }

  function Connected(w: Wifi): Wifi
    requires LedOk(w.led)
  {
    w.(ready := true, led := Start(BLINK_LISTS, Halt(BLINK_LISTS, w.led, CONNECTING), CONNECTED))
  }

  function ConnectFailed(w: Wifi): Wifi
    requires LedOk(w.led)
  {
    w.(ready := false, led := Halt(BLINK_LISTS, Halt(BLINK_LISTS, w.led, CONNECTING), CONNECTED))
  }

  /** sta_event_handler: the radio is up, a connection is lost or refused, an address has come. */
  function StationUp(w: Wifi): Wifi {
    w.(notes := w.notes + [FirstConnect])
  }

  function Disconnected(w: Wifi): Wifi
    requires LedOk(w.led)
  {
    if w.retry < MAX_RETRY then w.(retry := w.retry + 1, notes := w.notes + [Reconnect])
    else ConnectFailed(w)
  }

  function HasIp(w: Wifi): Wifi
    requires LedOk(w.led)
  {
    Connected(w.(retry := 0, notes := w.notes + [RetryReset]))
  }

  function Apply(w: Wifi, op: Op): (r: Wifi)
    requires LedOk(w.led)
    ensures LedOk(r.led)
  {
    match op
    case ManagerStart(ok) => StartManager(w, ok)
    case ManagerStop(ok) => StopManager(w, ok)
    case StaStarted => StationUp(w)
    case StaDisconnected => Disconnected(w)
    case GotIp => HasIp(w)
    case LedTimer => w.(led := Fire(BLINK_LISTS, w.led))
  }

  function After(ops: seq<Op>): (w: Wifi)
    ensures LedOk(w.led)
  {
    FirmwareListsAreWellFormed();
    CreatedInv(BLINK_LISTS);
    if ops == [] then Wifi(false, 0, Created(BLINK_LISTS), [])
    else Apply(After(ops[..|ops| - 1]), ops[|ops| - 1])
  }

  // ---------- A looping blink keeps the lamp ----------

  /** While the active blink loops, the runner touches no other counter and leaves it active. */
  lemma {:induction false} RunnerOnLoop(table: seq<Program>, s: Led)
    requires Inv(table, s) && s.active != -1 && table[s.active][Terminator(table[s.active])].Loop?
    ensures var r := Runner(table, s);
            && r.active == s.active
            && forall c :: 0 <= c < |s.steps| && c != s.active ==> r.steps[c] == s.steps[c]
    decreases Live(s.steps), Lap(table, s), ToTerminator(table, s)
  {
    var b := s.active;
    var turn := RunOne(table, s);
    RunOneKeepsInv(table, s);
    FirstSame(s.steps, b, if table[b][s.steps[b]].Loop? then 0 else s.steps[b] + 1);
    if !turn.leave {
      PassProgress(table, s);
      RunnerOnLoop(table, turn.led);
    }
  }

  lemma ManagedBlinksLoop()
    ensures Terminator(BLINK_LISTS[CONNECTED]) == 1 && BLINK_LISTS[CONNECTED][1].Loop?
    ensures Terminator(BLINK_LISTS[CONNECTING]) == 2 && BLINK_LISTS[CONNECTING][2].Loop?
  {
    TerminatorAt(BLINK_LISTS[CONNECTED], 1);
    TerminatorAt(BLINK_LISTS[CONNECTING], 2);
  }

  /** CONNECTED has one HOLD, with the lamp on. */
  lemma ConnectedLights(s: Led)
    requires LedOk(s) && s.active == CONNECTED
    ensures Runner(BLINK_LISTS, s).lit
  {
    ManagedBlinksLoop();
    var turn := RunOne(BLINK_LISTS, s);
    RunOneKeepsInv(BLINK_LISTS, s);
    if s.steps[CONNECTED] == 1 {
      FirstSame(s.steps, CONNECTED, 0);
      assert turn.led.active == CONNECTED && turn.led.steps[CONNECTED] == 0;
      assert RunOne(BLINK_LISTS, turn.led).leave;
    }
  }

  // ---------- The composed invariant ----------

  /** Only the two blinks the manager uses are ever running. */
  ghost predicate OnlyManaged(s: Led) {
    |s.steps| == |BLINK_LISTS| + 1
    && forall b :: 0 <= b < |s.steps| && s.steps[b] != STOPPED ==> b == CONNECTED || b == CONNECTING
  }

  /** Reconnects since the retry counter was last reset. */
  function SinceReset(notes: seq<Note>): nat {
    if notes == [] || notes[|notes| - 1].RetryReset? then 0
    else (if notes[|notes| - 1].Reconnect? then 1 else 0) + SinceReset(notes[..|notes| - 1])
  }

  ghost predicate WifiInv(w: Wifi) {
    && LedOk(w.led) && NoStall(w.led)
    && OnlyManaged(w.led)
    && (w.ready ==> w.led.active == CONNECTED && w.led.steps[CONNECTING] == STOPPED && w.led.lit)
    && w.retry == SinceReset(w.notes) <= MAX_RETRY
  }

  lemma FireManaged(s: Led)
    requires LedOk(s) && OnlyManaged(s) && NoStall(s)
    ensures var r := Fire(BLINK_LISTS, s);
            && OnlyManaged(r) && NoStall(r) && r.active == s.active
            && (r.steps[CONNECTED] == STOPPED <==> s.steps[CONNECTED] == STOPPED)
            && (r.steps[CONNECTING] == STOPPED <==> s.steps[CONNECTING] == STOPPED)
            && (r.active == CONNECTED && s.lit ==> r.lit)
  {
    ApplyKeepsNoStall(BLINK_LISTS, s, OpFire);
    ManagedBlinksLoop();
    if s.armed && s.active != -1 {
      var t := s.(armed := false);
      RunnerOnLoop(BLINK_LISTS, t);
      if s.active == CONNECTED {
        ConnectedLights(t);
      }
      var r := Runner(BLINK_LISTS, t);
      assert r.steps[r.active] != STOPPED;
    }
  }

  lemma HaltManaged(s: Led, b: nat)
    requires LedOk(s) && OnlyManaged(s) && NoStall(s) && b < |BLINK_LISTS|
    ensures var r := Halt(BLINK_LISTS, s, b);
            OnlyManaged(r) && NoStall(r) && r.steps == s.steps[b := STOPPED] && r.lit == s.lit
  {
    ApplyKeepsNoStall(BLINK_LISTS, s, OpStop(b));
    StopRunsNothing(BLINK_LISTS, s, b);
    assert s.steps[b := STOPPED][b] == STOPPED;
  }

  /** Starting CONNECTED always makes it the active blink, and lights the lamp at once. */
  lemma StartConnected(s: Led)
    requires LedOk(s) && OnlyManaged(s) && NoStall(s)
    ensures var r := Start(BLINK_LISTS, s, CONNECTED);
            && OnlyManaged(r) && NoStall(r) && r.active == CONNECTED && r.lit
            && r.steps[CONNECTING] == s.steps[CONNECTING]
  {
    ApplyKeepsNoStall(BLINK_LISTS, s, OpStart(CONNECTED));
    ManagedBlinksLoop();
    var steps, log := s.steps[CONNECTED := 0], s.log + [Started(CONNECTED)];
    SetCounterKeepsInv(BLINK_LISTS, s, CONNECTED, 0, log);
    var t := s.(steps := steps, active := First(steps), log := log);
    assert steps[0] == s.steps[0] && steps[1] == s.steps[1] && steps[CONNECTED] == 0;
    assert t.active == CONNECTED;
    RunnerOnLoop(BLINK_LISTS, t);
    ConnectedLights(t);
  }

  /** Starting CONNECTING makes it the active blink unless CONNECTED plays, which stays on top of it. */
  lemma StartConnecting(s: Led)
    requires LedOk(s) && OnlyManaged(s) && NoStall(s)
    ensures var r := Start(BLINK_LISTS, s, CONNECTING);
            && OnlyManaged(r) && NoStall(r) && r.steps[CONNECTING] != STOPPED
            && (r.steps[CONNECTED] == STOPPED <==> s.steps[CONNECTED] == STOPPED)
  {
    ApplyKeepsNoStall(BLINK_LISTS, s, OpStart(CONNECTING));
    ManagedBlinksLoop();
    var steps, log := s.steps[CONNECTING := 0], s.log + [Started(CONNECTING)];
    SetCounterKeepsInv(BLINK_LISTS, s, CONNECTING, 0, log);
    var t := s.(steps := steps, active := First(steps), log := log);
    if t.active == CONNECTING {
      RunnerOnLoop(BLINK_LISTS, t);
    }
  }

  lemma NotesSnoc(notes: seq<Note>, n: Note)
    ensures SinceReset(notes + [n])
         == if n.RetryReset? then 0 else (if n.Reconnect? then 1 else 0) + SinceReset(notes)
  {
    assert (notes + [n])[..|notes|] == notes;
  }

  lemma ApplyKeepsWifiInv(w: Wifi, op: Op)
    requires WifiInv(w)
    ensures WifiInv(Apply(w, op))
  {
    match op
    case ManagerStart(ok) =>
      NotesSnoc(w.notes, RetryReset);
      StartConnecting(w.led);
    case ManagerStop(ok) =>
    case StaStarted =>
      NotesSnoc(w.notes, FirstConnect);
    case StaDisconnected =>
      NotesSnoc(w.notes, Reconnect);
      if w.retry >= MAX_RETRY {
        FailureStopsAll(w);
      }
    case GotIp =>
      NotesSnoc(w.notes, RetryReset);
      HaltManaged(w.led, CONNECTING);
      StartConnected(Halt(BLINK_LISTS, w.led, CONNECTING));
    case LedTimer =>
      FireManaged(w.led);
  }

  /** A failed connection leaves nothing blinking, and the lamp as it was. */
  lemma FailureStopsAll(w: Wifi)
    requires WifiInv(w)
    ensures var r := ConnectFailed(w);
            && !r.ready && r.led.active == -1 && r.led.lit == w.led.lit
            && LedOk(r.led) && NoStall(r.led) && OnlyManaged(r.led)
  {
    HaltManaged(w.led, CONNECTING);
    var s := Halt(BLINK_LISTS, w.led, CONNECTING);
    HaltManaged(s, CONNECTED);
    var r := Halt(BLINK_LISTS, s, CONNECTED);
    assert forall b :: 0 <= b < |r.steps| ==> r.steps[b] == STOPPED;
  }

  /** Composition: in every reachable state of manager and LED, ready implies that CONNECTED is the active
      blink with CONNECTING stopped and the lamp lit; the LED never stalls; and no more than five
      reconnects are requested between resets of the retry counter. */
  lemma {:induction false} ManagerAndLedAgree(ops: seq<Op>)
    ensures WifiInv(After(ops))
  {
    if ops == [] {
      FirmwareListsAreWellFormed();
      CreatedInv(BLINK_LISTS);
    } else {
      ManagerAndLedAgree(ops[..|ops| - 1]);
      ApplyKeepsWifiInv(After(ops[..|ops| - 1]), ops[|ops| - 1]);
    }
  }

  /** A disconnection is either one more reconnect request, or, with the budget spent, the failure path. */
  lemma DisconnectionOutcome(ops: seq<Op>)
    ensures var w, r := After(ops), Disconnected(After(ops));
            if SinceReset(w.notes) < MAX_RETRY then
              r.notes == w.notes + [Reconnect] && r.led == w.led && r.ready == w.ready
            else
              r.notes == w.notes && r.led.active == -1 && !r.ready
  {
    ManagerAndLedAgree(ops);
    FailureStopsAll(After(ops));
  }

  /** n disconnections in a row. */
  function Losses(n: nat): seq<Op> {
    seq(n, _ => StaDisconnected)
  }

  lemma AppendOp(ops: seq<Op>, op: Op)
    ensures After(ops + [op]) == Apply(After(ops), op)
  {
    assert (ops + [op])[..|ops|] == ops;
  }

  /** Within the retry budget disconnections only ask for reconnects. */
  lemma {:induction false} LossesWithinBudget(ops: seq<Op>, n: nat)
    requires After(ops).retry + n <= MAX_RETRY
    ensures var w, r := After(ops), After(ops + Losses(n));
            r.led == w.led && r.ready == w.ready && r.retry == w.retry + n
  {
    hide After, ConnectFailed, LedOk;
    if n == 0 {
      assert ops + Losses(0) == ops;
    } else {
      LossesWithinBudget(ops, n - 1);
      assert ops + Losses(n) == (ops + Losses(n - 1)) + [StaDisconnected];
      AppendOp(ops + Losses(n - 1), StaDisconnected);
    }
  }

  /** A connection lost for good after an address leaves nothing blinking and the lamp lit. */
  lemma LostConnectionLeavesLit(ops: seq<Op>)
    ensures var w := After(ops + [GotIp] + Losses(MAX_RETRY + 1));
            !w.ready && w.led.active == -1 && w.led.lit
  {
    hide After, Apply, Disconnected, ConnectFailed, LedOk, NoStall, OnlyManaged;
    var up := ops + [GotIp];
    ReadyAtAddress(ops);
    ManagerAndLedAgree(up);
    LossesWithinBudget(up, MAX_RETRY);
    var spent := up + Losses(MAX_RETRY);
    assert up + Losses(MAX_RETRY + 1) == spent + [StaDisconnected];
    AppendOp(spent, StaDisconnected);
    FailsWhenSpent(After(spent));
    ManagerAndLedAgree(spent);
    FailureStopsAll(After(spent));
  }

  lemma ReadyAtAddress(ops: seq<Op>)
    ensures After(ops + [GotIp]).ready && After(ops + [GotIp]).retry == 0
  {
    AppendOp(ops, GotIp);
  }

  lemma FailsWhenSpent(w: Wifi)
    requires LedOk(w.led) && w.retry == MAX_RETRY
    ensures Apply(w, StaDisconnected) == ConnectFailed(w)
  {
  }

  // ---------- What the status light tells ----------

  /** The manager's history without its LED: ready, the retries used, a CONNECTED left over from a stop, a
      search begun and not ended. */
  datatype Story = Story(ready: bool, retries: nat, stale: bool, searching: bool)

  function TellNext(y: Story, op: Op): Story {
    match op
    case ManagerStart(ok) =>
      if y.ready then y else y.(retries := 0, searching := y.searching || ok)
    case ManagerStop(ok) =>
      if y.ready && ok then y.(ready := false, stale := true) else y
    case StaDisconnected =>
      if y.retries < MAX_RETRY then y.(retries := y.retries + 1) else Story(false, y.retries, false, false)
    case GotIp => Story(true, 0, false, false)
    case StaStarted => y
    case LedTimer => y
  }

  function Tell(ops: seq<Op>): Story {
    if ops == [] then Story(false, 0, false, false) else TellNext(Tell(ops[..|ops| - 1]), ops[|ops| - 1])
  }

  /** An effective stop since the last address, and no failed connection after it. */
  predicate Stale(ops: seq<Op>) {
    Tell(ops).stale
  }

  /** What the blinks that play say about the manager. */
  ghost predicate Shows(w: Wifi, y: Story) {
    && |w.led.steps| == |BLINK_LISTS| + 1
    && w.ready == y.ready && w.retry == y.retries
    && !(y.ready && y.stale)
    && (w.led.steps[CONNECTED] != STOPPED <==> y.ready || y.stale)
    && (w.led.steps[CONNECTING] != STOPPED <==> y.searching)
  }

  lemma ActiveOfManaged(s: Led)
    requires LedOk(s) && OnlyManaged(s)
    ensures s.active == if s.steps[CONNECTED] != STOPPED then CONNECTED
                        else if s.steps[CONNECTING] != STOPPED then CONNECTING
                        else -1
  {
  }

  lemma ApplyShows(w: Wifi, y: Story, op: Op)
    requires WifiInv(w) && Shows(w, y)
    ensures Shows(Apply(w, op), TellNext(y, op))
  {
    match op
    case ManagerStart(ok) =>
      StartConnecting(w.led);
    case ManagerStop(ok) =>
    case StaStarted =>
    case StaDisconnected =>
      FailureStopsAll(w);
      ActiveOfManaged(ConnectFailed(w).led);
    case GotIp =>
      HaltManaged(w.led, CONNECTING);
      var s := Halt(BLINK_LISTS, w.led, CONNECTING);
      StartConnected(s);
      ActiveOfManaged(Start(BLINK_LISTS, s, CONNECTED));
    case LedTimer =>
      FireManaged(w.led);
  }

  lemma {:induction false} EveryRunShows(ops: seq<Op>)
    ensures Shows(After(ops), Tell(ops))
  {
    if ops == [] {
      FirmwareListsAreWellFormed();
    } else {
      EveryRunShows(ops[..|ops| - 1]);
      ManagerAndLedAgree(ops[..|ops| - 1]);
      ApplyShows(After(ops[..|ops| - 1]), Tell(ops[..|ops| - 1]), ops[|ops| - 1]);
    }
  }

  /** The light of every reachable state, told from the calls and events alone: CONNECTED shows iff the manager
      is ready or its stop has left a stale CONNECTED behind, never both; a search shows only below it. */
  lemma LightTellsStory(ops: seq<Op>)
    ensures var w, y := After(ops), Tell(ops);
            && (w.led.active == CONNECTED <==> w.ready || Stale(ops))
            && !(w.ready && Stale(ops))
            && w.led.active == if w.ready || Stale(ops) then CONNECTED else if y.searching then CONNECTING else -1
  {
    EveryRunShows(ops);
    ManagerAndLedAgree(ops);
    ActiveOfManaged(After(ops).led);
  }

  /** CONNECTED shows exactly when the manager is ready. */
  predicate Truthful(w: Wifi) {
    w.led.active == CONNECTED <==> w.ready
  }

  /** Step by step: a truthful light stays truthful exactly unless a ready manager is stopped. */
  lemma TruthfulUnlessStopped(w: Wifi, op: Op)
    requires WifiInv(w) && Truthful(w)
    ensures Truthful(Apply(w, op)) <==> !(w.ready && op == ManagerStop(true))
  {
    ActiveOfManaged(w.led);
    var y := Story(w.ready, w.retry, false, w.led.steps[CONNECTING] != STOPPED);
    ApplyShows(w, y, op);
    ApplyKeepsWifiInv(w, op);
    ActiveOfManaged(Apply(w, op).led);
  }

  /** A stop that takes effect: it finds the manager ready and the radio obeys. */
  predicate EffectiveStop(ops: seq<Op>, i: nat)
    requires i < |ops|
  {
    After(ops[..i]).ready && ops[i] == ManagerStop(true)
  }

  lemma AfterNext(ops: seq<Op>, i: nat)
    requires i < |ops|
    ensures After(ops[..i + 1]) == Apply(After(ops[..i]), ops[i])
    ensures Truthful(After(ops[..i])) ==> (Truthful(After(ops[..i + 1])) <==> !EffectiveStop(ops, i))
  {
    var next := ops[..i + 1];
    assert next[..i] == ops[..i];
    ManagerAndLedAgree(ops[..i]);
    if Truthful(After(ops[..i])) {
      TruthfulUnlessStopped(After(ops[..i]), ops[i]);
    }
  }

  lemma {:induction false} TruthfulUpTo(ops: seq<Op>, n: nat)
    requires n <= |ops| && forall i :: 0 <= i < |ops| ==> !EffectiveStop(ops, i)
    ensures Truthful(After(ops[..n]))
  {
    if n == 0 {
      LightTellsStory([]);
      assert ops[..0] == [];
    } else {
      TruthfulUpTo(ops, n - 1);
      AfterNext(ops, n - 1);
    }
  }

  /** Over a run: the light has been truthful all along exactly if no stop has taken effect. */
  lemma TruthfulIffNeverStopped(ops: seq<Op>)
    ensures (forall n :: 0 <= n <= |ops| ==> Truthful(After(ops[..n])))
       <==> forall i :: 0 <= i < |ops| ==> !EffectiveStop(ops, i)
  {
    hide Truthful, EffectiveStop, After;
    if forall i :: 0 <= i < |ops| ==> !EffectiveStop(ops, i) {
      forall n | 0 <= n <= |ops| ensures Truthful(After(ops[..n])) {
        TruthfulUpTo(ops, n);
      }
    }
    if forall n :: 0 <= n <= |ops| ==> Truthful(After(ops[..n])) {
      forall i | 0 <= i < |ops| ensures !EffectiveStop(ops, i) {
        AfterNext(ops, i);
        assert Truthful(After(ops[..i])) && Truthful(After(ops[..i + 1]));
      }
    }
  }

  /** A restart after a stop goes on showing CONNECTED while it searches; any other restart shows the search. */
  lemma RestartShows(ops: seq<Op>)
    requires !After(ops).ready
    ensures var w := After(ops + [ManagerStart(true)]);
            !w.ready && w.led.active == if Stale(ops) then CONNECTED else CONNECTING
  {
    var all := ops + [ManagerStart(true)];
    AppendOp(ops, ManagerStart(true));
    assert all[..|ops|] == ops;
    LightTellsStory(all);
    EveryRunShows(ops);
  }

  /** Such a run: start, get an address, stop. */
  lemma StoppedManagerStillShowsConnected()
    ensures var w := After([ManagerStart(true), GotIp, ManagerStop(true)]);
            !w.ready && w.led.active == CONNECTED && w.led.lit
  {
    var one, two, ops: seq<Op> := [ManagerStart(true)], [ManagerStart(true), GotIp],
                                  [ManagerStart(true), GotIp, ManagerStop(true)];
    assert one[..0] == [] && two[..1] == one && ops[..2] == two;
    assert Tell(one) == Story(false, 0, false, true);
    assert Tell(two) == Story(true, 0, false, false);
    assert Tell(ops) == Story(false, 0, true, false);
    LightTellsStory(ops);
    LightTellsStory(two);
    ManagerAndLedAgree(two);
    assert After(ops) == StopManager(After(two), true);
  }
}
