/** Breathing over whole runs: every channel alternates, whatever the others do. */
module LightRuns {
  import opened Common
  import opened LightBreath

  function Apply(s: Lights, op: Op): Lights
    requires GroupOk(s)
  {
    match op
    case OpCreate(full, channels) => Create(s, full, channels)
    case OpRegist(l, c) => Regist(s, l, c)
    case OpBreath(l, c, period, ok) => Breath(s, l, c, period, ok)
    case OpDuty(l, c, duty, modeOk) => Duty(s, l, c, duty, modeOk)
    case OpDelete(l) => Delete(s, l)
    case OpFire(x) => Fire(s, x)
  }

  lemma AlternateSnoc(full: uint32, n: nat)
    ensures Alternate(full, n + 1) == Alternate(full, n) + [Target(full, n)]
  {
  }

  /** Target after target: full_duty - next_duty flips between the two. */
  lemma TargetFlips(full: uint32, n: nat)
    ensures (full - Target(full, n)) % 0x1_0000_0000 == Target(full, n + 1)
  {
  }

  /** A channel no command of the last step was for, and whose record did not change, stays right. */
  lemma ChanKept(s: Lights, t: Lights, l: nat, c: nat)
    requires l < |s.all| && l < |t.all| && ChanOk(s, l, c)
    requires Fades(t.log, l, c) == Fades(s.log, l, c) && t.all[l].full == s.all[l].full
    requires IsChan(t, l, c) ==> IsChan(s, l, c) && t.all[l].chans[c] == s.all[l].chans[c]
    requires IsChan(t, l, c) && t.all[l].chans[c].value.timer.Some? ==>
               var x := t.all[l].chans[c].value.timer.value; x in t.armed ==> x in s.armed
    ensures ChanOk(t, l, c)
  {
  }

  /** No command has been issued for a light that does not exist yet. */
  lemma {:induction false} NoFadesYet(log: seq<Cmd>, l: nat, c: nat)
    requires forall i :: 0 <= i < |log| ==> log[i].light < l
    ensures Fades(log, l, c) == []
  {
    if log != [] {
      NoFadesYet(log[..|log| - 1], l, c);
    }
  }

  lemma CreateKeeps(s: Lights, full: uint32, channels: nat)
    requires Inv(s)
    ensures Inv(Create(s, full, channels))
  {
    var t := Create(s, full, channels);
    if channels > 0 {
      forall x: nat, l: nat, c: nat | Owns(t, x, l, c) ensures Owns(s, x, l, c) {
        assert l < |s.all|;
      }
      forall l: nat, c: nat | l < |t.all| ensures ChanOk(t, l, c) {
        if l < |s.all| {
          ChanKept(s, t, l, c);
        } else {
          NoFadesYet(s.log, l, c);
        }
      }
    }
  }

  lemma RegistKeeps(s: Lights, l: nat, c: nat)
    requires Inv(s)
    ensures Inv(Regist(s, l, c))
  {
    var t := Regist(s, l, c);
    forall x: nat, k: nat, d: nat | Owns(t, x, k, d) ensures Owns(s, x, k, d) {
    }
    forall k: nat, d: nat | k < |t.all| ensures ChanOk(t, k, d) {
      assert ChanOk(s, k, d);
    }
  }

  lemma DeleteKeeps(s: Lights, l: nat)
    requires Inv(s)
    ensures Inv(Delete(s, l))
  {
    var t := Delete(s, l);
    if l < |s.all| {
      forall x: nat, k: nat, d: nat | Owns(t, x, k, d) ensures Owns(s, x, k, d) {
      }
      forall k: nat, d: nat | k < |t.all| ensures ChanOk(t, k, d) {
        ChanKept(s, t, k, d);
      }
    }
  }

  lemma DutyKeeps(s: Lights, l: nat, c: nat, duty: uint32, modeOk: bool)
    requires Inv(s)
    ensures Inv(Duty(s, l, c, duty, modeOk))
  {
    var t := Duty(s, l, c, duty, modeOk);
    if IsChan(s, l, c) {
      forall x: nat, k: nat, d: nat | Owns(t, x, k, d) ensures Owns(s, x, k, d) {
      }
      forall k: nat, d: nat | k < |t.all| ensures ChanOk(t, k, d) {
        FadesSnoc(s.log, Direct(l, c, duty), k, d);
        assert ChanOk(s, k, d);
      }
    }
  }

  lemma PutOwns(s: Lights, l: nat, c: nat, ch: Chan, x: nat, k: nat, d: nat)
    requires IsChan(s, l, c)
    ensures Owns(Put(s, l, c, ch), x, k, d) <==> if k == l && d == c then ch.timer == Some(x) else Owns(s, x, k, d)
  {
  }

  lemma BreathOwns(s: Lights, l: nat, c: nat, period: int, ok: bool)
    requires Inv(s) && IsChan(s, l, c)
    ensures TimersOk(Breath(s, l, c, period, ok))
  {
    var t, ch := Breath(s, l, c, period, ok), s.all[l].chans[c].value;
    var put := if ch.period == period then ch.(next := 0)
               else if ok then Chan(Some(s.made), period, 0) else Chan(None, period, ch.next);
    if ch.period != period || ch.timer.Some? {
      forall x: nat, k: nat, d: nat
        ensures Owns(t, x, k, d) <==> if k == l && d == c then put.timer == Some(x) else Owns(s, x, k, d)
      {
        PutOwns(s, l, c, put, x, k, d);
        assert Owns(t, x, k, d) == Owns(Put(s, l, c, put), x, k, d);
      }
      assert ch.timer.Some? ==> Owns(s, ch.timer.value, l, c);
    } else {
      forall x: nat, k: nat, d: nat ensures Owns(t, x, k, d) <==> Owns(s, x, k, d) {
      }
    }
  }

  lemma BreathChan(s: Lights, l: nat, c: nat, period: int, ok: bool, k: nat, d: nat)
    requires Inv(s) && IsChan(s, l, c) && k < |s.all|
    ensures ChanOk(Breath(s, l, c, period, ok), k, d)
  {
    var t, full := Breath(s, l, c, period, ok), s.all[l].full;
    var cmd := t.log[|s.log|];
    assert t.log == s.log + [cmd];
    FadesSnoc(s.log, cmd, k, d);
    assert ChanOk(s, k, d);
    if k == l && d == c {
      assert Alternate(full, 1) == [full];
    } else {
      if IsChan(s, k, d) && s.all[k].chans[d].value.timer.Some? {
        var x := s.all[k].chans[d].value.timer.value;
        assert Owns(s, x, k, d) && !Owns(s, x, l, c);
      }
      ChanKept(s, t, k, d);
    }
  }

  lemma BreathKeeps(s: Lights, l: nat, c: nat, period: int, ok: bool)
    requires Inv(s)
    ensures Inv(Breath(s, l, c, period, ok))
  {
    if IsChan(s, l, c) {
      BreathOwns(s, l, c, period, ok);
      forall k: nat, d: nat | k < |s.all| ensures ChanOk(Breath(s, l, c, period, ok), k, d) {
        BreathChan(s, l, c, period, ok, k, d);
      }
    }
  }

  lemma StepKeeps(s: Lights, l: nat, c: nat, x: nat)
    requires Inv(s) && x in s.armed && Owns(s, x, l, c)
    ensures Inv(StepChan(s, l, c, x))
    ensures Fades(StepChan(s, l, c, x).log, l, c) == Alternate(s.all[l].full, |Fades(s.log, l, c)| + 1)
  {
    var t, ch, full := StepChan(s, l, c, x), s.all[l].chans[c].value, s.all[l].full;
    var n := |Fades(s.log, l, c)|;
    assert ChanOk(s, l, c);
    FadesSnoc(s.log, Faded(l, c, ch.next), l, c);
    AlternateSnoc(full, n);
    TargetFlips(full, n);
    forall y: nat, k: nat, d: nat ensures Owns(t, y, k, d) <==> Owns(s, y, k, d) {
      PutOwns(s, l, c, ch.(next := (full - ch.next) % 0x1_0000_0000), y, k, d);
    }
    forall k: nat, d: nat | k < |t.all| ensures ChanOk(t, k, d) {
      if k != l || d != c {
        FadesSnoc(s.log, Faded(l, c, ch.next), k, d);
        ChanKept(s, t, k, d);
      }
    }
  }

  /** A timer whose channel is gone, or belongs to no light, steps nothing. */
  lemma FireKeeps(s: Lights, x: nat)
    requires Inv(s)
    ensures Inv(Fire(s, x))
  {
    if x in s.armed {
      if exists l: nat, c: nat :: Owns(s, x, l, c) {
        var l: nat, c: nat :| Owns(s, x, l, c);
        FireSteps(s, x, l, c);
        StepKeeps(s, l, c, x);
      } else {
        SweepLightsMiss(s, 0, x);
      }
    }
  }

  lemma ApplyKeepsInv(s: Lights, op: Op)
    requires Inv(s)
    ensures Inv(Apply(s, op))
  {
    match op
    case OpCreate(full, channels) => CreateKeeps(s, full, channels);
    case OpRegist(l, c) => RegistKeeps(s, l, c);
    case OpBreath(l, c, period, ok) => BreathKeeps(s, l, c, period, ok);
    case OpDuty(l, c, duty, modeOk) => DutyKeeps(s, l, c, duty, modeOk);
    case OpDelete(l) => DeleteKeeps(s, l);
    case OpFire(x) => FireKeeps(s, x);
  }

  /** The lights after a run from power-up. */
  ghost function After(ops: seq<Op>): (s: Lights)
    ensures Inv(s)
  {
    if ops == [] then NoLights()
    else
      ApplyKeepsInv(After(ops[..|ops| - 1]), ops[|ops| - 1]);
      Apply(After(ops[..|ops| - 1]), ops[|ops| - 1])
  }

  /** In every reachable state the fades of every channel since its breath began are full, 0, full, 0, ...;
      and a firing of its timer adds the next one if the light is in the registry, and nothing if it
      is not. */
  lemma EveryChannelAlternates(ops: seq<Op>, l: nat, c: nat, x: nat)
    requires IsChan(After(ops), l, c)
    ensures var s := After(ops);
            var f := Fades(s.log, l, c);
            && f == Alternate(s.all[l].full, |f|)
            && (x in s.armed && Owns(s, x, l, c) ==>
                 && f != []
                 && Fades(Fire(s, x).log, l, c) == if Registered(s, l) then Alternate(s.all[l].full, |f| + 1) else f)
  {
    var s := After(ops);
    assert ChanOk(s, l, c);
    if x in s.armed && Owns(s, x, l, c) {
      FireSteps(s, x, l, c);
      StepKeeps(s, l, c, x);
    }
  }

  /** A new light enters the registry iff one of the four slots is free. */
  lemma RegisteredIffRoom(s: Lights, full: uint32, channels: nat)
    requires Inv(s) && channels > 0
    ensures Registered(Create(s, full, channels), |s.all|) <==> exists i :: 0 <= i < |s.group| && s.group[i].None?
  {
    var t := Create(s, full, channels);
    var i := FreeSlot(s.group);
    if i < |s.group| {
      assert t.group[i] == Some(|s.all|);
    }
  }

  lemma AfterNext(ops: seq<Op>, op: Op)
    ensures After(ops + [op]) == Apply(After(ops), op)
  {
    assert (ops + [op])[..|ops|] == ops;
  }

  function Creates(full: uint32, n: nat): seq<Op> {
    seq(n, _ => OpCreate(full, 1))
  }

  /** n lights of one channel that is not set up, in the first slots. */
  ghost predicate Filled(s: Lights, n: nat) {
    && |s.all| == n && |s.group| == LIGHT_NUM_MAX && s.armed == {} && s.made == 0
    && (forall i :: 0 <= i < n ==> |s.all[i].chans| == 1 && s.all[i].chans[0] == None)
    && (forall k :: 0 <= k < LIGHT_NUM_MAX ==> s.group[k] == if k < n then Some(k) else None)
  }

  lemma CreateFills(s: Lights, full: uint32, n: nat)
    requires Filled(s, n)
    ensures Filled(Create(s, full, 1), n + 1)
    ensures Create(s, full, 1).all[n].full == full
  {
    var i := FreeSlot(s.group);
    if n < LIGHT_NUM_MAX {
      assert s.group[n].None?;
      assert i == n;
    } else {
      assert forall k :: 0 <= k < LIGHT_NUM_MAX ==> s.group[k].Some?;
      assert i == LIGHT_NUM_MAX;
    }
  }

  lemma {:induction false} CreatesFill(full: uint32, n: nat)
    ensures Filled(After(Creates(full, n)), n)
    ensures n > 0 ==> After(Creates(full, n)).all[n - 1].full == full
  {
    hide Filled, Create;
    if n == 0 {
      NoneFilled();
    } else {
      CreatesFill(full, n - 1);
      assert Creates(full, n) == Creates(full, n - 1) + [OpCreate(full, 1)];
      AfterNext(Creates(full, n - 1), OpCreate(full, 1));
      CreateFills(After(Creates(full, n - 1)), full, n - 1);
    }
  }

  lemma NoneFilled()
    ensures Filled(NoLights(), 0)
  {
  }

  /** Setting up the only channel of the last light, and letting it breathe. */
  lemma LastBreathes(s: Lights, l: nat, period: int)
    requires Filled(s, l + 1) && period != 0
    ensures var t := Breath(Regist(s, l, 0), l, 0, period, true);
            && IsChan(t, l, 0) && Owns(t, 0, l, 0) && t.armed == {0} && t.group == s.group
            && Fades(t.log, l, 0) == [s.all[l].full]
  {
    var r := Regist(s, l, 0);
    assert r.all[l].chans[0] == Some(Chan(None, 0, 0));
    FadesSnoc(r.log, Breathed(l, 0, s.all[l].full), l, 0);
  }

  /** n lights and a breath on the last. */
  function LastLight(full: uint32, n: nat, period: int): seq<Op>
    requires n > 0
  {
    Creates(full, n) + [OpRegist(n - 1, 0)] + [OpBreath(n - 1, 0, period, true)]
  }

  /** The fifth light, and any after it, is handed out and its breath starts, but the light is not in the
      registry: the firings of its timer never move it. One of the first four does move. */
  lemma FifthLightStandsStill(full: uint32, n: nat, period: int)
    requires n > 0 && period != 0
    ensures var s := After(LastLight(full, n, period));
            && IsChan(s, n - 1, 0) && Owns(s, 0, n - 1, 0) && 0 in s.armed
            && Fades(s.log, n - 1, 0) == [full]
            && (Registered(s, n - 1) <==> n <= LIGHT_NUM_MAX)
            && (Fire(s, 0) == s <==> n > LIGHT_NUM_MAX)
  {
    hide Regist, Breath, Fire, IsChan, Fades, Inv;
    var made := Creates(full, n);
    CreatesFill(full, n);
    AfterNext(made, OpRegist(n - 1, 0));
    AfterNext(made + [OpRegist(n - 1, 0)], OpBreath(n - 1, 0, period, true));
    LastBreathes(After(made), n - 1, period);
    var s := After(LastLight(full, n, period));
    LastRegistered(s, n);
    FireSteps(s, 0, n - 1, 0);
  }

  lemma LastRegistered(s: Lights, n: nat)
    requires n > 0 && |s.group| == LIGHT_NUM_MAX
    requires forall k :: 0 <= k < LIGHT_NUM_MAX ==> s.group[k] == if k < n then Some(k) else None
    ensures Registered(s, n - 1) <==> n <= LIGHT_NUM_MAX
  {
    if n <= LIGHT_NUM_MAX {
      assert s.group[n - 1] == Some(n - 1);
    }
  }
}
