/** Breathing lights: channels that fade up and down on timers of their own, found by a callback that
    scans a registry of four lights (components/light/light.c), on values. */
module LightBreath {
  import opened Common

  type uint32 = x: int | 0 <= x < 0x1_0000_0000

  const LIGHT_NUM_MAX: nat := 4

  datatype Chan = Chan(timer: Option<nat>, period: int, next: uint32)

  datatype Light = Light(full: uint32, chans: seq<Option<Chan>>)

  /** Duty commands, by light and channel: the fade that starts a breath, the fade of a timer tick, and a
      duty written otherwise. */
  datatype Cmd =
    | Breathed(light: nat, chan: nat, duty: uint32)
    | Faded(light: nat, chan: nat, duty: uint32)
    | Direct(light: nat, chan: nat, duty: uint32)

  /** Every light ever created, the registry, the running timers, the next handle of xTimerCreate. */
  datatype Lights = Lights(all: seq<Light>, group: seq<Option<nat>>, armed: set<nat>, made: nat, log: seq<Cmd>)

  function NoLights(): Lights {
    Lights([], [None, None, None, None], {}, 0, [])
  }

  predicate IsChan(s: Lights, l: nat, c: nat) {
    l < |s.all| && c < |s.all[l].chans| && s.all[l].chans[c].Some?
  }

  function Put(s: Lights, l: nat, c: nat, ch: Chan): Lights
    requires IsChan(s, l, c)
  {
    s.(all := s.all[l := s.all[l].(chans := s.all[l].chans[c := Some(ch)])])
  }

  lemma PutBack(s: Lights, l: nat, c: nat)
    requires IsChan(s, l, c)
    ensures Put(s, l, c, s.all[l].chans[c].value) == s
  {
    assert s.all[l].chans[c := s.all[l].chans[c]] == s.all[l].chans;
    assert s.all[l := s.all[l]] == s.all;
  }

  // ---------- The callback ----------

  /** The timer x belongs to channel c of light l. */
  predicate Owns(s: Lights, x: nat, l: nat, c: nat) {
    IsChan(s, l, c) && s.all[l].chans[c].value.timer == Some(x)
  }

  function StepChan(s: Lights, l: nat, c: nat, x: nat): (r: Lights)
    requires l < |s.all| && c < |s.all[l].chans|
    ensures |r.all| == |s.all| && |r.all[l].chans| == |s.all[l].chans| && r.group == s.group
  {
    if !Owns(s, x, l, c) then s
    else
      var ch := s.all[l].chans[c].value;
      var full := s.all[l].full;
      var next := (full - ch.next) % 0x1_0000_0000;
      Put(s, l, c, ch.(next := next)).(log := s.log + [Faded(l, c, ch.next)])
  }

  /** The inner loop, from channel c on. */
  function SweepChans(s: Lights, l: nat, c: nat, x: nat): (r: Lights)
    requires l < |s.all| && c <= |s.all[l].chans|
    ensures |r.all| == |s.all| && r.group == s.group
    decreases |s.all[l].chans| - c
  {
    if c == |s.all[l].chans| then s else SweepChans(StepChan(s, l, c, x), l, c + 1, x)
  }

  /** The outer loop, from registry slot i on. */
  function SweepLights(s: Lights, i: nat, x: nat): (r: Lights)
    requires i <= |s.group| && forall k :: 0 <= k < |s.group| && s.group[k].Some? ==> s.group[k].value < |s.all|
    decreases |s.group| - i
  {
    if i == |s.group| then s
    else if s.group[i].None? then SweepLights(s, i + 1, x)
    else SweepLights(SweepChans(s, s.group[i].value, 0, x), i + 1, x)
  }

  // ---------- The operations ----------

  /** The first free slot of the registry; its length when there is none. */
  function FreeSlot(group: seq<Option<nat>>): (i: nat)
    ensures i <= |group|
    ensures i < |group| ==> group[i].None?
    ensures forall k :: 0 <= k < i ==> group[k].Some?
  {
    if group == [] || group[0].None? then 0 else 1 + FreeSlot(group[1..])
  }

  /** `ok` is whether xTimerCreate succeeds, `modeOk` whether the duty mode is a permitted one. */
  datatype Op =
    | OpCreate(full: uint32, channels: nat)
    | OpRegist(light: nat, chan: nat)
    | OpBreath(light: nat, chan: nat, period: int, ok: bool)
    | OpDuty(light: nat, chan: nat, duty: uint32, modeOk: bool)
    | OpDelete(light: nat)
    | OpFire(timer: nat)

  /** A light that finds no free slot is handed out all the same. */
  function Create(s: Lights, full: uint32, channels: nat): Lights {
    if channels == 0 then s
    else
      var i := FreeSlot(s.group);
      s.(all := s.all + [Light(full, seq(channels, _ => None))],
         group := if i < |s.group| then s.group[i := Some(|s.all|)] else s.group)
  }

  function Regist(s: Lights, l: nat, c: nat): Lights {
    if l < |s.all| && c < |s.all[l].chans| && s.all[l].chans[c].None? then
      s.(all := s.all[l := s.all[l].(chans := s.all[l].chans[c := Some(Chan(None, 0, 0))])])
    else s
  }

  function TimerSet(t: Option<nat>): set<nat> {
    if t.Some? then {t.value} else {}
  }

  /** A new period gets a new timer; the breath starts from dark, fading up. With no timer, because none could
      be created or because the channel never breathed, the call fails with the duty at 0. */
  function Breath(s: Lights, l: nat, c: nat, period: int, ok: bool): Lights {
    if !IsChan(s, l, c) then s
    else
      var ch, full := s.all[l].chans[c].value, s.all[l].full;
      if ch.period != period && ok then
        Put(s, l, c, Chan(Some(s.made), period, 0))
          .(armed := s.armed - TimerSet(ch.timer) + {s.made}, made := s.made + 1, log := s.log + [Breathed(l, c, full)])
      else if ch.period != period then
        Put(s, l, c, Chan(None, period, ch.next))
          .(armed := s.armed - TimerSet(ch.timer), log := s.log + [Direct(l, c, 0)])
      else if ch.timer.None? then
        s.(log := s.log + [Direct(l, c, 0)])
      else
        Put(s, l, c, ch.(next := 0)).(armed := s.armed + {ch.timer.value}, log := s.log + [Breathed(l, c, full)])
  }

  /** The breaths that do start. */
  predicate Breathes(s: Lights, l: nat, c: nat, period: int, ok: bool) {
    && IsChan(s, l, c)
    && var ch := s.all[l].chans[c].value;
       if ch.period != period then ok else ch.timer.Some?
  }

  /** Writing a duty stops the channel's timer, before the mode is looked at. */
  function Duty(s: Lights, l: nat, c: nat, duty: uint32, modeOk: bool): Lights {
    if !IsChan(s, l, c) then s
    else s.(armed := s.armed - TimerSet(s.all[l].chans[c].value.timer),
            log := if modeOk then s.log + [Direct(l, c, duty)] else s.log)
  }

  function Timers(chans: seq<Option<Chan>>): set<nat> {
    set c | 0 <= c < |chans| && chans[c].Some? && chans[c].value.timer.Some? :: chans[c].value.timer.value
  }

  function Delete(s: Lights, l: nat): Lights {
    if l >= |s.all| then s
    else
      s.(all := s.all[l := Light(s.all[l].full, [])],
         armed := s.armed - Timers(s.all[l].chans),
         group := seq(|s.group|, i requires 0 <= i < |s.group| => if s.group[i] == Some(l) then None else s.group[i]))
  }

  predicate GroupOk(s: Lights) {
    && |s.group| == LIGHT_NUM_MAX
    && (forall k :: 0 <= k < |s.group| && s.group[k].Some? ==> s.group[k].value < |s.all|)
    && (forall j, k :: 0 <= j < k < |s.group| && s.group[j].Some? ==> s.group[j] != s.group[k])
  }

  function Fire(s: Lights, x: nat): Lights
    requires GroupOk(s)
  {
    if x in s.armed then SweepLights(s, 0, x) else s
  }

  // ---------- What a channel does ----------

  /** The fade targets of a channel since its breath was last started; none after another duty. */
  function Fades(log: seq<Cmd>, l: nat, c: nat): seq<uint32> {
    if log == [] then [] else FadesNext(Fades(log[..|log| - 1], l, c), log[|log| - 1], l, c)
  }

  function FadesNext(fades: seq<uint32>, cmd: Cmd, l: nat, c: nat): seq<uint32> {
    if cmd.light != l || cmd.chan != c then fades
    else match cmd
      case Breathed(_, _, duty) => [duty]
      case Faded(_, _, duty) => fades + [duty]
      case Direct(_, _, _) => []
  }

  lemma FadesSnoc(log: seq<Cmd>, cmd: Cmd, l: nat, c: nat)
    ensures Fades(log + [cmd], l, c) == FadesNext(Fades(log, l, c), cmd, l, c)
  {
    assert (log + [cmd])[..|log|] == log;
  }

  /** Full, dark, full, dark. */
  function Target(full: uint32, k: nat): uint32 {
    if k % 2 == 0 then full else 0
  }

  function Alternate(full: uint32, n: nat): seq<uint32> {
    seq(n, k requires 0 <= k => Target(full, k))
  }

  // ---------- The invariant ----------

  ghost predicate TimersOk(s: Lights) {
    && (forall x: nat, l: nat, c: nat :: Owns(s, x, l, c) ==> x < s.made)
    && (forall x: nat, l: nat, c: nat, k: nat, d: nat :: Owns(s, x, l, c) && Owns(s, x, k, d) ==> l == k && c == d)
    && (forall x :: x in s.armed ==> x < s.made)
  }

  /** A channel's fades alternate, and while its timer runs its next target is the next in turn. */
  ghost predicate ChanOk(s: Lights, l: nat, c: nat)
    requires l < |s.all|
  {
    var f, full := Fades(s.log, l, c), s.all[l].full;
    && f == Alternate(full, |f|)
    && (IsChan(s, l, c) && s.all[l].chans[c].value.timer.Some? && s.all[l].chans[c].value.timer.value in s.armed ==>
          f != [] && s.all[l].chans[c].value.next == Target(full, |f|))
  }

  ghost predicate LogOk(s: Lights) {
    forall i :: 0 <= i < |s.log| ==> s.log[i].light < |s.all|
  }

  ghost predicate Inv(s: Lights) {
    && GroupOk(s)
    && TimersOk(s)
    && LogOk(s)
    && forall l: nat, c: nat :: l < |s.all| ==> ChanOk(s, l, c)
  }

  // ---------- The callback steps its own channel only ----------

  lemma {:induction false} SweepChansMiss(s: Lights, l: nat, c: nat, x: nat)
    requires l < |s.all| && c <= |s.all[l].chans|
    requires forall d :: c <= d < |s.all[l].chans| ==> !Owns(s, x, l, d)
    ensures SweepChans(s, l, c, x) == s
    decreases |s.all[l].chans| - c
  {
    if c < |s.all[l].chans| {
      SweepChansMiss(s, l, c + 1, x);
    }
  }

  lemma {:induction false} SweepChansHit(s: Lights, l: nat, c: nat, d: nat, x: nat)
    requires l < |s.all| && c <= d < |s.all[l].chans| && Owns(s, x, l, d)
    requires forall k :: 0 <= k < |s.all[l].chans| && Owns(s, x, l, k) ==> k == d
    ensures SweepChans(s, l, c, x) == StepChan(s, l, d, x)
    decreases |s.all[l].chans| - c
  {
    if c == d {
      var t := StepChan(s, l, c, x);
      forall k | c + 1 <= k < |t.all[l].chans| ensures !Owns(t, x, l, k) {
        assert !Owns(s, x, l, k) && t.all[l].chans[k] == s.all[l].chans[k];
      }
      SweepChansMiss(t, l, c + 1, x);
    } else {
      SweepChansHit(s, l, c + 1, d, x);
    }
  }

  lemma {:induction false} SweepLightsMiss(s: Lights, i: nat, x: nat)
    requires GroupOk(s) && i <= |s.group|
    requires forall k, d :: i <= k < |s.group| && s.group[k].Some? && 0 <= d ==> !Owns(s, x, s.group[k].value, d)
    ensures SweepLights(s, i, x) == s
    decreases |s.group| - i
  {
    if i < |s.group| {
      if s.group[i].Some? {
        SweepChansMiss(s, s.group[i].value, 0, x);
      }
      SweepLightsMiss(s, i + 1, x);
    }
  }

  lemma {:induction false} SweepLightsHit(s: Lights, i: nat, j: nat, d: nat, x: nat)
    requires GroupOk(s) && i <= j < |s.group| && s.group[j].Some? && Owns(s, x, s.group[j].value, d)
    requires forall l: nat, c: nat :: Owns(s, x, l, c) ==> l == s.group[j].value && c == d
    ensures SweepLights(s, i, x) == StepChan(s, s.group[j].value, d, x)
    decreases |s.group| - i
  {
    var l := s.group[j].value;
    if i == j {
      SweepChansHit(s, l, 0, d, x);
      var t := StepChan(s, l, d, x);
      forall k, c | i + 1 <= k < |t.group| && t.group[k].Some? && 0 <= c ensures !Owns(t, x, t.group[k].value, c) {
        assert s.group[i] != s.group[k] && !Owns(s, x, s.group[k].value, c);
        assert t.all[t.group[k].value] == s.all[t.group[k].value];
      }
      SweepLightsMiss(t, i + 1, x);
    } else {
      if s.group[i].Some? {
        assert s.group[i] != s.group[j];
        SweepChansMiss(s, s.group[i].value, 0, x);
      }
      SweepLightsHit(s, i + 1, j, d, x);
    }
  }

  ghost predicate Registered(s: Lights, l: nat) {
    exists i :: 0 <= i < |s.group| && s.group[i] == Some(l)
  }

  /** A firing steps exactly the channel that owns the timer, if its light is registered; the breath of a
      light outside the registry never moves. */
  lemma FireSteps(s: Lights, x: nat, l: nat, c: nat)
    requires Inv(s) && x in s.armed && Owns(s, x, l, c)
    ensures Fire(s, x) == if Registered(s, l) then StepChan(s, l, c, x) else s
  {
    if Registered(s, l) {
      var j :| 0 <= j < |s.group| && s.group[j] == Some(l);
      SweepLightsHit(s, 0, j, c, x);
    } else {
      forall k, d | 0 <= k < |s.group| && s.group[k].Some? && 0 <= d ensures !Owns(s, x, s.group[k].value, d) {
        assert s.group[k] != Some(l);
      }
      SweepLightsMiss(s, 0, x);
    }
  }
}
