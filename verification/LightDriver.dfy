/** The lights as they run: the registry array scanned by the timer callback, and the channel records
    updated in place. */
module LightDriver {
  import opened Common
  import opened LightBreath

  datatype Err = Ok | Fail

  class LightGroup {
    /** Every light handed out, by handle; a deleted one has no channels left. */
    var all: seq<Light>
    const group: array<Option<nat>>
    var armed: set<nat>
    var made: nat
    ghost var log: seq<Cmd>

    ghost function Abs(): Lights
      reads this, group
    {
      Lights(all, group[..], armed, made, log)
    }

    ghost predicate Valid()
      reads this, group
    {
      Inv(Abs())
    }

    constructor ()
      ensures Abs() == NoLights() && Valid() && fresh(group)
    {
      all, armed, made, log := [], {}, 0, [];
      group := new Option<nat>[LIGHT_NUM_MAX](_ => None);
      new;
      assert group[..] == NoLights().group;
    }

    /** iot_light_create; None stands for NULL. */
    method CreateLight(full: uint32, channels: nat) returns (light: Option<nat>)
      requires group.Length == LIGHT_NUM_MAX
      modifies this`all, group
      ensures Abs() == Create(old(Abs()), full, channels)
      ensures light == if channels == 0 then None else Some(|old(all)|)
    {
      if channels == 0 {
        return None;
      }
      ghost var slots := group[..];
      var id := |all|;
      all := all + [Light(full, seq(channels, _ => None))];
      for i := 0 to group.Length
        invariant group[..] == slots
        invariant forall k :: 0 <= k < i ==> slots[k].Some?
      {
        if group[i].None? {
          group[i] := Some(id);
          assert FreeSlot(slots) == i;
          break;
        }
      }
      return Some(id);
    }

    /** The timer callback: two nested loops over the registry and each light's channels. */
    method BreathTimerCallback(x: nat)
      requires GroupOk(Abs())
      modifies this`all, this`log
      ensures Abs() == SweepLights(old(Abs()), 0, x)
    {
      ghost var s := Abs();
      for i := 0 to group.Length
        invariant group[..] == s.group && armed == s.armed && made == s.made
        invariant |all| == |s.all|
        invariant SweepLights(Abs(), i, x) == SweepLights(s, 0, x)
      {
        if group[i].Some? {
          StepLight(group[i].value, x);
        }
      }
    }

    method StepLight(l: nat, x: nat)
      requires l < |all|
      modifies this`all, this`log
      ensures Abs() == SweepChans(old(Abs()), l, 0, x)
    {
      ghost var s := Abs();
      for j := 0 to |all[l].chans|
        invariant group[..] == s.group && armed == s.armed && made == s.made
        invariant |all| == |s.all| && |all[l].chans| == |s.all[l].chans|
        invariant SweepChans(Abs(), l, j, x) == SweepChans(s, l, 0, x)
      {
        var entry := all[l].chans[j];
        ghost var before := Abs();
        if entry.Some? && entry.value.timer == Some(x) {
          var chn := entry.value;
          log := log + [Faded(l, j, chn.next)];
          chn := chn.(next := (all[l].full - chn.next) % 0x1_0000_0000);
          all := all[l := all[l].(chans := all[l].chans[j := Some(chn)])];
        }
        assert Abs() == StepChan(before, l, j, x);
      }
    }

    /** iot_light_breath_write; `ok` is whether xTimerCreate succeeds. */
    method BreathWrite(l: nat, c: nat, period: int, ok: bool) returns (err: Err)
      modifies this`all, this`armed, this`made, this`log
      ensures Abs() == Breath(old(Abs()), l, c, period, ok)
      ensures err == if Breathes(old(Abs()), l, c, period, ok) then Ok else Fail
    {
      if l >= |all| || c >= |all[l].chans| {
        return Fail;
      }
      if all[l].chans[c].None? {
        return Fail;
      }
      var chn := all[l].chans[c].value;
      if chn.period != period {
        if chn.timer.Some? {
          armed := armed - {chn.timer.value};
        }
        if ok {
          chn := chn.(timer := Some(made));
          made := made + 1;
        } else {
          chn := chn.(timer := None);
        }
      }
      chn := chn.(period := period);
      if chn.timer.None? {
        PutBack(Abs(), l, c);
        all := all[l := all[l].(chans := all[l].chans[c := Some(chn)])];
        log := log + [Direct(l, c, 0)];
        return Fail;
      }
      armed := armed + {chn.timer.value};
      log := log + [Breathed(l, c, all[l].full)];
      chn := chn.(next := 0);
      all := all[l := all[l].(chans := all[l].chans[c := Some(chn)])];
      assert Abs().all == Breath(old(Abs()), l, c, period, ok).all;
      return Ok;
    }

    /** iot_light_duty_write; `modeOk` is whether the duty mode is a permitted one. */
    method DutyWrite(l: nat, c: nat, duty: uint32, modeOk: bool) returns (err: Err)
      modifies this`armed, this`log
      ensures Abs() == Duty(old(Abs()), l, c, duty, modeOk)
      ensures err == if IsChan(old(Abs()), l, c) && modeOk then Ok else Fail
    {
      if l >= |all| || c >= |all[l].chans| {
        return Fail;
      }
      if all[l].chans[c].None? {
        return Fail;
      }
      var chn := all[l].chans[c].value;
      if chn.timer.Some? {
        armed := armed - {chn.timer.value};
      }
      if !modeOk {
        return Fail;
      }
      log := log + [Direct(l, c, duty)];
      return Ok;
    }
  }
}
