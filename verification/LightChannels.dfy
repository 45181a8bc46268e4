/** Every channel on its own: its period, its timer, whether the timer runs and the duty last commanded, told by the
    calls and firings alone. */
module LightChannels {
  import opened Common
  import opened LightBreath
  import opened LightRuns
  import opened LightLasting

  datatype Shape = Shape(full: uint32, channels: nat)

  /** A channel that has been set up: the period last recorded, the timer made for it, whether that runs, the duty
      last commanded, and the fades since its breath began. */
  datatype Track = Track(period: int, timer: Option<nat>, running: bool, duty: Option<uint32>, fades: nat)

  /** Not set up yet, set up, or deleted with its light. */
  datatype Life = Missing | Live(track: Track) | Gone

  // ---------- Told by the calls ----------

  /** The lights created, in order. */
  function Shapes(ops: seq<Op>): seq<Shape> {
    if ops == [] then []
    else
      var before, op := Shapes(ops[..|ops| - 1]), ops[|ops| - 1];
      if op.OpCreate? && op.channels > 0 then before + [Shape(op.full, op.channels)] else before
  }

  /** A breath of a new period makes the next timer, if one can be made; without a timer the duty is 0. */
  function BreathLife(t: Track, full: uint32, period: int, ok: bool, made: nat): Track {
    if t.period != period && ok then Track(period, Some(made), true, Some(full), 1)
    else if t.period != period then Track(period, None, false, Some(0), 0)
    else if t.timer.None? then t.(duty := Some(0))
    else t.(running := true, duty := Some(full), fades := 1)
  }

  /** One call or firing in the life of channel c of light l; `shape` is the light's, if it exists, `made` the number
      of timers made so far, `member` whether the light is in the registry. */
  function LifeNext(y: Life, op: Op, l: nat, c: nat, shape: Option<Shape>, made: nat, member: bool): Life {
    match op
    case OpCreate(_, _) => y
    case OpRegist(k, d) =>
      if k == l && d == c && y.Missing? && shape.Some? && c < shape.value.channels
      then Live(Track(0, None, false, None, 0)) else y
    case OpBreath(k, d, period, ok) =>
      if k == l && d == c && y.Live? && shape.Some?
      then Live(BreathLife(y.track, shape.value.full, period, ok, made)) else y
    case OpDuty(k, d, duty, modeOk) =>
      if k == l && d == c && y.Live?
      then Live(y.track.(running := false, duty := if modeOk then Some(duty) else y.track.duty)) else y
    case OpDelete(k) => if k == l && shape.Some? then Gone else y
    case OpFire(x) =>
      if y.Live? && y.track.running && y.track.timer == Some(x) && member && shape.Some?
      then Live(y.track.(duty := Some(Target(shape.value.full, y.track.fades)), fades := y.track.fades + 1)) else y
  }

  function ShapeOf(ops: seq<Op>, l: nat): Option<Shape> {
    if l < |Shapes(ops)| then Some(Shapes(ops)[l]) else None
  }

  function LifeOf(ops: seq<Op>, l: nat, c: nat): Life
    decreases |ops|
  {
    if ops == [] then Missing
    else
      var before := ops[..|ops| - 1];
      LifeNext(LifeOf(before, l, c), ops[|ops| - 1], l, c, ShapeOf(before, l), TimersMade(before),
               l in Rolled(before).members)
  }

  /** The timers made: one for each breath of a new period on a channel that is set up, if it could be made. */
  function TimersMade(ops: seq<Op>): nat
    decreases |ops|
  {
    if ops == [] then 0
    else
      var before, op := ops[..|ops| - 1], ops[|ops| - 1];
      if op.OpBreath? && op.ok then
        var y := LifeOf(before, op.light, op.chan);
        if y.Live? && y.track.period != op.period then TimersMade(before) + 1 else TimersMade(before)
      else TimersMade(before)
  }

  // ---------- What the lights do ----------

  /** The duty last commanded to a channel. */
  function LastDuty(log: seq<Cmd>, l: nat, c: nat): Option<uint32> {
    if log == [] then None
    else
      var cmd := log[|log| - 1];
      if cmd.light == l && cmd.chan == c then Some(cmd.duty) else LastDuty(log[..|log| - 1], l, c)
  }

  lemma DutySnoc(log: seq<Cmd>, cmd: Cmd, l: nat, c: nat)
    ensures LastDuty(log + [cmd], l, c)
         == if cmd.light == l && cmd.chan == c then Some(cmd.duty) else LastDuty(log, l, c)
  {
    assert (log + [cmd])[..|log|] == log;
  }

  predicate Running(s: Lights, ch: Chan) {
    ch.timer.Some? && ch.timer.value in s.armed
  }

  /** The state of a channel is its life's. */
  ghost predicate Told(s: Lights, y: Life, l: nat, c: nat) {
    && (IsChan(s, l, c) <==> y.Live?)
    && (y.Missing? ==> LastDuty(s.log, l, c) == None)
    && (y.Live? ==>
          var ch, t := s.all[l].chans[c].value, y.track;
          && ch.period == t.period && ch.timer == t.timer
          && (Running(s, ch) <==> t.running)
          && LastDuty(s.log, l, c) == t.duty
          && (t.running ==> |Fades(s.log, l, c)| == t.fades))
  }

  /** The light is as it was made, with its channels until it is deleted. */
  ghost predicate Shaped(s: Lights, shape: Option<Shape>, y: Life, l: nat) {
    && (shape.Some? <==> l < |s.all|)
    && (y.Gone? ==> l < |s.all|)
    && (l < |s.all| ==> s.all[l].full == shape.value.full
                        && |s.all[l].chans| == if y.Gone? then 0 else shape.value.channels)
  }

  ghost predicate Alone(s: Lights, y: Life, l: nat, c: nat, shape: Option<Shape>, made: nat, member: bool) {
    Told(s, y, l, c) && Shaped(s, shape, y, l) && made == s.made && (member <==> Registered(s, l))
  }

  // ---------- Step by step ----------

  lemma RegistAlone(s: Lights, y: Life, l: nat, c: nat, shape: Option<Shape>, made: nat, member: bool, k: nat, d: nat)
    requires Inv(s) && Alone(s, y, l, c, shape, made, member)
    ensures var next := LifeNext(y, OpRegist(k, d), l, c, shape, made, member);
            Told(Regist(s, k, d), next, l, c) && Shaped(Regist(s, k, d), shape, next, l)
  {
  }

  /** A step that is for another channel leaves this one alone. */
  lemma OtherAlone(s: Lights, t: Lights, y: Life, l: nat, c: nat)
    requires Told(s, y, l, c)
    requires IsChan(t, l, c) <==> IsChan(s, l, c)
    requires IsChan(s, l, c) ==> t.all[l].chans[c] == s.all[l].chans[c]
                                 && (Running(t, t.all[l].chans[c].value) <==> Running(s, s.all[l].chans[c].value))
    requires LastDuty(t.log, l, c) == LastDuty(s.log, l, c) && Fades(t.log, l, c) == Fades(s.log, l, c)
    ensures Told(t, y, l, c)
  {
  }

  lemma OwnTimer(s: Lights, l: nat, c: nat, k: nat, d: nat)
    requires Inv(s) && IsChan(s, l, c) && IsChan(s, k, d) && (l != k || c != d)
    requires s.all[l].chans[c].value.timer.Some?
    ensures s.all[k].chans[d].value.timer != s.all[l].chans[c].value.timer
    ensures s.all[l].chans[c].value.timer.value < s.made
  {
    var x := s.all[l].chans[c].value.timer.value;
    assert Owns(s, x, l, c) && !Owns(s, x, k, d);
  }

  lemma BreathOther(s: Lights, y: Life, l: nat, c: nat, k: nat, d: nat, period: int, ok: bool)
    requires Inv(s) && Told(s, y, l, c) && (k != l || d != c)
    ensures Told(Breath(s, k, d, period, ok), y, l, c)
  {
    var t := Breath(s, k, d, period, ok);
    if IsChan(s, k, d) {
      var cmd := t.log[|s.log|];
      assert t.log == s.log + [cmd];
      DutySnoc(s.log, cmd, l, c);
      FadesSnoc(s.log, cmd, l, c);
      if IsChan(s, l, c) && s.all[l].chans[c].value.timer.Some? {
        OwnTimer(s, l, c, k, d);
      }
      OtherAlone(s, t, y, l, c);
    }
  }

  /** What a breath commands and leaves on its own channel. */
  lemma BreathEffect(s: Lights, l: nat, c: nat, period: int, ok: bool)
    requires IsChan(s, l, c)
    ensures var t, ch, full := Breath(s, l, c, period, ok), s.all[l].chans[c].value, s.all[l].full;
            && IsChan(t, l, c)
            && var after := t.all[l].chans[c].value;
               after.period == period
               && if ch.period != period && ok then
                    after.timer == Some(s.made) && Running(t, after) && t.log == s.log + [Breathed(l, c, full)]
                  else if ch.period != period then
                    after.timer == None && t.log == s.log + [Direct(l, c, 0)]
                  else
                    && after.timer == ch.timer
                    && if ch.timer.Some? then Running(t, after) && t.log == s.log + [Breathed(l, c, full)]
                       else t.log == s.log + [Direct(l, c, 0)]
  {
  }

  lemma BreathOwn(s: Lights, y: Life, l: nat, c: nat, shape: Option<Shape>, period: int, ok: bool)
    requires Told(s, y, l, c) && Shaped(s, shape, y, l) && y.Live?
    ensures Told(Breath(s, l, c, period, ok), Live(BreathLife(y.track, shape.value.full, period, ok, s.made)), l, c)
  {
    hide Breath, Fades, LastDuty;
    var t := Breath(s, l, c, period, ok);
    BreathEffect(s, l, c, period, ok);
    var cmd := t.log[|s.log|];
    DutySnoc(s.log, cmd, l, c);
    FadesSnoc(s.log, cmd, l, c);
  }

  lemma DutyOther(s: Lights, y: Life, l: nat, c: nat, k: nat, d: nat, duty: uint32, modeOk: bool)
    requires Inv(s) && Told(s, y, l, c) && (k != l || d != c)
    ensures Told(Duty(s, k, d, duty, modeOk), y, l, c)
  {
    var t := Duty(s, k, d, duty, modeOk);
    if IsChan(s, k, d) {
      DutySnoc(s.log, Direct(k, d, duty), l, c);
      FadesSnoc(s.log, Direct(k, d, duty), l, c);
      if IsChan(s, l, c) && s.all[l].chans[c].value.timer.Some? {
        OwnTimer(s, l, c, k, d);
      }
      OtherAlone(s, t, y, l, c);
    }
  }

  lemma DutyOwn(s: Lights, y: Life, l: nat, c: nat, duty: uint32, modeOk: bool)
    requires Inv(s) && Told(s, y, l, c) && y.Live?
    ensures Told(Duty(s, l, c, duty, modeOk),
                 Live(y.track.(running := false, duty := if modeOk then Some(duty) else y.track.duty)), l, c)
  {
    DutySnoc(s.log, Direct(l, c, duty), l, c);
  }

  lemma DeleteOther(s: Lights, y: Life, l: nat, c: nat, k: nat)
    requires Inv(s) && Told(s, y, l, c) && k != l
    ensures Told(Delete(s, k), y, l, c)
  {
    if k < |s.all| && IsChan(s, l, c) && s.all[l].chans[c].value.timer.Some? {
      var x := s.all[l].chans[c].value.timer.value;
      assert Owns(s, x, l, c);
      if x in Timers(s.all[k].chans) {
        var d :| 0 <= d < |s.all[k].chans| && s.all[k].chans[d].Some? && s.all[k].chans[d].value.timer == Some(x);
        assert Owns(s, x, k, d);
      }
    }
    OtherAlone(s, Delete(s, k), y, l, c);
  }

  lemma FireAlone(s: Lights, y: Life, l: nat, c: nat, shape: Option<Shape>, made: nat, member: bool, x: nat)
    requires Inv(s) && Alone(s, y, l, c, shape, made, member)
    ensures GroupOk(s)
    ensures Told(Fire(s, x), LifeNext(y, OpFire(x), l, c, shape, made, member), l, c)
  {
    FireOutcome(s, x);
    if x in s.armed && Owns(s, x, l, c) {
      FireSteps(s, x, l, c);
      if member {
        FireOwn(s, y, l, c, shape, x);
      }
    } else if Fire(s, x) != s {
      var k: nat, d: nat :| Owns(s, x, k, d) && Registered(s, k) && Fire(s, x) == StepChan(s, k, d, x);
      FireOther(s, y, l, c, k, d, x);
    }
  }

  lemma FireOwn(s: Lights, y: Life, l: nat, c: nat, shape: Option<Shape>, x: nat)
    requires Inv(s) && Told(s, y, l, c) && Shaped(s, shape, y, l) && x in s.armed && Owns(s, x, l, c)
    ensures Told(StepChan(s, l, c, x),
                 Live(y.track.(duty := Some(Target(shape.value.full, y.track.fades)), fades := y.track.fades + 1)),
                 l, c)
  {
    var ch := s.all[l].chans[c].value;
    assert ChanOk(s, l, c);
    StepKeeps(s, l, c, x);
    DutySnoc(s.log, Faded(l, c, ch.next), l, c);
  }

  lemma FireOther(s: Lights, y: Life, l: nat, c: nat, k: nat, d: nat, x: nat)
    requires Inv(s) && Told(s, y, l, c) && Owns(s, x, k, d) && (l != k || c != d)
    ensures Told(StepChan(s, k, d, x), y, l, c)
  {
    var ch := s.all[k].chans[d].value;
    DutySnoc(s.log, Faded(k, d, ch.next), l, c);
    FadesSnoc(s.log, Faded(k, d, ch.next), l, c);
    OtherAlone(s, StepChan(s, k, d, x), y, l, c);
  }

  lemma CreateAlone(s: Lights, y: Life, l: nat, c: nat, full: uint32, channels: nat)
    requires Inv(s) && Told(s, y, l, c)
    ensures Told(Create(s, full, channels), y, l, c)
  {
    OtherAlone(s, Create(s, full, channels), y, l, c);
  }

  lemma StepTold(s: Lights, y: Life, l: nat, c: nat, shape: Option<Shape>, made: nat, member: bool, op: Op)
    requires Inv(s) && Alone(s, y, l, c, shape, made, member)
    ensures Told(Apply(s, op), LifeNext(y, op, l, c, shape, made, member), l, c)
  {
    hide Breath, Duty, Regist, Create, Fire;
    match op
    case OpCreate(full, channels) => CreateAlone(s, y, l, c, full, channels);
    case OpRegist(k, d) => RegistAlone(s, y, l, c, shape, made, member, k, d);
    case OpBreath(k, d, period, ok) =>
      if k != l || d != c {
        BreathOther(s, y, l, c, k, d, period, ok);
      } else if y.Live? {
        BreathOwn(s, y, l, c, shape, period, ok);
      } else {
        NoChannel(s, l, c, period, ok, 0, false);
      }
    case OpDuty(k, d, duty, modeOk) =>
      if k != l || d != c {
        DutyOther(s, y, l, c, k, d, duty, modeOk);
      } else if y.Live? {
        DutyOwn(s, y, l, c, duty, modeOk);
      } else {
        NoChannel(s, l, c, 0, false, duty, modeOk);
      }
    case OpDelete(k) =>
      if k != l {
        DeleteOther(s, y, l, c, k);
      }
    case OpFire(x) => FireAlone(s, y, l, c, shape, made, member, x);
  }

  /** On a channel that is not there, writes do nothing. */
  lemma NoChannel(s: Lights, l: nat, c: nat, period: int, ok: bool, duty: uint32, modeOk: bool)
    requires !IsChan(s, l, c)
    ensures Breath(s, l, c, period, ok) == s && Duty(s, l, c, duty, modeOk) == s
  {
  }

  lemma StepShaped(s: Lights, y: Life, l: nat, c: nat, shape: Option<Shape>, made: nat, member: bool, op: Op)
    requires Inv(s) && Alone(s, y, l, c, shape, made, member)
    ensures var next := if op.OpCreate? && op.channels > 0 && l == |s.all| then Some(Shape(op.full, op.channels))
                        else shape;
            Shaped(Apply(s, op), next, LifeNext(y, op, l, c, shape, made, member), l)
  {
    if op.OpFire? {
      FireOutcome(s, op.timer);
    }
  }

  lemma StepMade(s: Lights, op: Op)
    requires Inv(s)
    ensures Apply(s, op).made ==
            if op.OpBreath? && op.ok && IsChan(s, op.light, op.chan)
               && s.all[op.light].chans[op.chan].value.period != op.period
            then s.made + 1 else s.made
  {
    if op.OpFire? {
      FireOutcome(s, op.timer);
    }
  }

  // ---------- Every run ----------

  lemma {:induction false} ShapesCount(ops: seq<Op>)
    ensures |Shapes(ops)| == |After(ops).all|
  {
    if ops != [] {
      ShapesCount(ops[..|ops| - 1]);
      LightCount(After(ops[..|ops| - 1]), ops[|ops| - 1]);
    }
  }

  lemma ShapeNext(ops: seq<Op>, l: nat)
    requires ops != []
    ensures var before, op := ops[..|ops| - 1], ops[|ops| - 1];
            ShapeOf(ops, l) == if op.OpCreate? && op.channels > 0 && l == |After(before).all|
                               then Some(Shape(op.full, op.channels)) else ShapeOf(before, l)
  {
    ShapesCount(ops[..|ops| - 1]);
  }

  /** Isolation: in every run each channel, whatever the others do, is in the state of its own life: set up or not,
      with the period, the timer, the running flag and the last commanded duty that the calls on it and the firings
      of its timer determine; and each light has the full duty and the channels it was created with. */
  lemma {:induction false} EachChannelAlone(ops: seq<Op>, l: nat, c: nat)
    ensures Alone(After(ops), LifeOf(ops, l, c), l, c, ShapeOf(ops, l), TimersMade(ops), l in Rolled(ops).members)
    decreases |ops|, 1
  {
    RegistryIsRoll(ops);
    RegisteredIsMember(After(ops), l);
    if ops != [] {
      hide Told, Shaped, Inv, Apply, LifeNext, Registered, Rolled;
      var before, op := ops[..|ops| - 1], ops[|ops| - 1];
      var s, y, shape, made := After(before), LifeOf(before, l, c), ShapeOf(before, l), TimersMade(before);
      var member := l in Rolled(before).members;
      EachChannelAlone(before, l, c);
      StepTold(s, y, l, c, shape, made, member, op);
      StepShaped(s, y, l, c, shape, made, member, op);
      ShapeNext(ops, l);
      MadeNext(ops);
    }
  }

  /** The timers made go on as the lights' own count does. */
  lemma {:induction false} MadeNext(ops: seq<Op>)
    requires ops != []
    ensures var before := ops[..|ops| - 1];
            TimersMade(before) == After(before).made ==> TimersMade(ops) == After(ops).made
    decreases |ops|, 0
  {
    var before, op := ops[..|ops| - 1], ops[|ops| - 1];
    StepMade(After(before), op);
    if op.OpBreath? {
      EachChannelAlone(before, op.light, op.chan);
    }
  }

  // ---------- No timer is left over ----------

  /** Every running timer belongs to a channel. */
  ghost predicate NoOrphans(s: Lights) {
    forall x :: x in s.armed ==> Owned(s, x)
  }

  ghost predicate Owned(s: Lights, x: nat) {
    exists l: nat, c: nat :: Owns(s, x, l, c)
  }

  lemma OwnedBy(s: Lights, x: nat, l: nat, c: nat)
    requires Owns(s, x, l, c)
    ensures Owned(s, x)
  {
  }

  lemma BreathNoOrphans(s: Lights, l: nat, c: nat, period: int, ok: bool)
    requires Inv(s) && NoOrphans(s)
    ensures NoOrphans(Breath(s, l, c, period, ok))
  {
    var t := Breath(s, l, c, period, ok);
    if IsChan(s, l, c) {
      var ch := s.all[l].chans[c].value;
      forall x | x in t.armed ensures Owned(t, x) {
        if t.all[l].chans[c].value.timer == Some(x) {
          OwnedBy(t, x, l, c);
        } else {
          assert Owned(s, x);
          var k: nat, d: nat :| Owns(s, x, k, d);
          assert Owns(t, x, k, d);
        }
      }
    }
  }

  lemma OwnerTimers(s: Lights, x: nat, l: nat, c: nat)
    requires Owns(s, x, l, c)
    ensures x in Timers(s.all[l].chans)
  {
  }

  lemma DeleteNoOrphans(s: Lights, l: nat)
    requires Inv(s) && NoOrphans(s)
    ensures NoOrphans(Delete(s, l))
  {
    var t := Delete(s, l);
    if l < |s.all| {
      forall x | x in t.armed ensures Owned(t, x) {
        assert Owned(s, x);
        var k: nat, d: nat :| Owns(s, x, k, d);
        OwnerTimers(s, x, k, d);
        assert Owns(t, x, k, d);
      }
    }
  }

  lemma SameOwners(s: Lights, t: Lights)
    requires NoOrphans(s) && t.armed <= s.armed
    requires forall x: nat, l: nat, c: nat :: Owns(s, x, l, c) ==> Owns(t, x, l, c)
    ensures NoOrphans(t)
  {
    forall x | x in t.armed ensures Owned(t, x) {
      assert Owned(s, x);
      var k: nat, d: nat :| Owns(s, x, k, d);
      assert Owns(t, x, k, d);
    }
  }

  lemma FireNoOrphans(s: Lights, x: nat)
    requires Inv(s) && NoOrphans(s)
    ensures GroupOk(s) && NoOrphans(Fire(s, x))
  {
    FireOutcome(s, x);
    if Fire(s, x) != s {
      var l: nat, c: nat :| Owns(s, x, l, c) && Registered(s, l) && Fire(s, x) == StepChan(s, l, c, x);
      var ch, t := s.all[l].chans[c].value, StepChan(s, l, c, x);
      forall y: nat, k: nat, d: nat | Owns(s, y, k, d) ensures Owns(t, y, k, d) {
        PutOwns(s, l, c, ch.(next := (s.all[l].full - ch.next) % 0x1_0000_0000), y, k, d);
      }
      SameOwners(s, t);
    }
  }

  /** In every reachable state a running timer is the timer of a channel that is set up: none outlives the period it
      was made for, or its light. */
  lemma {:induction false} NoTimerLeftOver(ops: seq<Op>)
    ensures NoOrphans(After(ops))
  {
    if ops != [] {
      hide Inv;
      var s, op := After(ops[..|ops| - 1]), ops[|ops| - 1];
      NoTimerLeftOver(ops[..|ops| - 1]);
      match op
      case OpBreath(l, c, period, ok) => BreathNoOrphans(s, l, c, period, ok);
      case OpDelete(l) => DeleteNoOrphans(s, l);
      case OpFire(x) => FireNoOrphans(s, x);
      case _ => SameOwners(s, Apply(s, op));
    }
  }
}
