/** What a refused registration and a failed timer come to, over everything that may happen later. */
module LightLasting {
  import opened Common
  import opened LightBreath
  import opened LightRuns

  // ---------- A breath without a timer ----------

  /** A channel that has recorded a period and has no timer for it. */
  predicate Stuck(s: Lights, l: nat, c: nat, period: int) {
    IsChan(s, l, c) && s.all[l].chans[c].value.period == period && s.all[l].chans[c].value.timer.None?
  }

  /** The calls that end it: another period, with or without a timer, and the deletion of the light. */
  predicate Frees(op: Op, l: nat, c: nat, period: int) {
    op == OpDelete(l) || (op.OpBreath? && op.light == l && op.chan == c && op.period != period)
  }

  /** A firing steps the channel of a registered light that owns the timer, or nothing. */
  lemma FireOutcome(s: Lights, x: nat)
    requires Inv(s)
    ensures GroupOk(s)
    ensures Fire(s, x) == s
         || exists k: nat, d: nat :: Owns(s, x, k, d) && Registered(s, k) && Fire(s, x) == StepChan(s, k, d, x)
  {
    if x in s.armed {
      if exists k: nat, d: nat :: Owns(s, x, k, d) {
        var k: nat, d: nat :| Owns(s, x, k, d);
        FireSteps(s, x, k, d);
      } else {
        SweepLightsMiss(s, 0, x);
      }
    }
  }

  lemma FireKeepsStuck(s: Lights, x: nat, l: nat, c: nat, period: int)
    requires Inv(s) && Stuck(s, l, c, period)
    ensures Stuck(Fire(s, x), l, c, period)
  {
    hide Inv;
    FireOutcome(s, x);
  }

  /** Step by step: it lasts exactly until such a call. */
  lemma StuckStep(s: Lights, op: Op, l: nat, c: nat, period: int)
    requires Inv(s) && Stuck(s, l, c, period)
    ensures Stuck(Apply(s, op), l, c, period) <==> !Frees(op, l, c, period)
  {
    match op
    case OpFire(x) => FireKeepsStuck(s, x, l, c, period);
    case _ =>
  }

  lemma NextPrefix(ops: seq<Op>, k: nat)
    requires k < |ops|
    ensures After(ops[..k + 1]) == Apply(After(ops[..k]), ops[k])
  {
    assert ops[..k + 1] == ops[..k] + [ops[k]];
    AfterNext(ops[..k], ops[k]);
  }

  lemma {:induction false} StuckUpTo(ops: seq<Op>, i: nat, n: nat, l: nat, c: nat, period: int)
    requires i <= n <= |ops| && Stuck(After(ops[..i]), l, c, period)
    requires forall k :: i <= k < |ops| ==> !Frees(ops[k], l, c, period)
    ensures Stuck(After(ops[..n]), l, c, period)
    decreases n
  {
    hide Stuck, Apply, Inv;
    if i < n {
      StuckUpTo(ops, i, n - 1, l, c, period);
      NextPrefix(ops, n - 1);
      StuckStep(After(ops[..n - 1]), ops[n - 1], l, c, period);
    }
  }

  /** Over every run: it lasts exactly until the first such call. */
  lemma StuckUntilFreed(ops: seq<Op>, i: nat, l: nat, c: nat, period: int)
    requires i <= |ops| && Stuck(After(ops[..i]), l, c, period)
    ensures (forall n :: i <= n <= |ops| ==> Stuck(After(ops[..n]), l, c, period))
       <==> forall k :: i <= k < |ops| ==> !Frees(ops[k], l, c, period)
  {
    hide Stuck, Apply, Inv, Frees;
    if forall k :: i <= k < |ops| ==> !Frees(ops[k], l, c, period) {
      forall n | i <= n <= |ops| ensures Stuck(After(ops[..n]), l, c, period) {
        StuckUpTo(ops, i, n, l, c, period);
      }
    }
    if forall n :: i <= n <= |ops| ==> Stuck(After(ops[..n]), l, c, period) {
      forall k | i <= k < |ops| ensures !Frees(ops[k], l, c, period) {
        NextPrefix(ops, k);
        assert Stuck(After(ops[..k]), l, c, period) && Stuck(After(ops[..k + 1]), l, c, period);
        StuckStep(After(ops[..k]), ops[k], l, c, period);
      }
    }
  }

  /** A breath whose timer could not be created has recorded its period all the same: whatever happens later, as
      long as no breath of another period comes and the light is not deleted, a breath of that period
      fails, even when a timer could be created, and one of another period starts. */
  lemma FailedTimerSticks(ops: seq<Op>, i: nat, l: nat, c: nat, period: int, again: int, ok: bool)
    requires i < |ops| && ops[i] == OpBreath(l, c, period, false)
    requires IsChan(After(ops[..i]), l, c) && !Breathes(After(ops[..i]), l, c, period, false)
    requires forall k :: i < k < |ops| ==> !Frees(ops[k], l, c, period)
    ensures Breathes(After(ops), l, c, again, ok) <==> again != period && ok
  {
    hide Inv, Breath, Breathes, Stuck, Frees, IsChan, After;
    NextPrefix(ops, i);
    FailureSticks(After(ops[..i]), l, c, period);
    StuckUpTo(ops, i + 1, |ops|, l, c, period);
    assert ops[..|ops|] == ops;
    StuckBreath(After(ops), l, c, period, again, ok);
  }

  lemma FailureSticks(s: Lights, l: nat, c: nat, period: int)
    requires IsChan(s, l, c) && !Breathes(s, l, c, period, false)
    ensures Stuck(Breath(s, l, c, period, false), l, c, period)
  {
  }

  lemma StuckBreath(s: Lights, l: nat, c: nat, period: int, again: int, ok: bool)
    requires Stuck(s, l, c, period)
    ensures Breathes(s, l, c, again, ok) <==> again != period && ok
  {
  }

  /** The shortest such run. */
  lemma FailedTimerRun(full: uint32)
    ensures Stuck(After([OpCreate(full, 1), OpRegist(0, 0), OpBreath(0, 0, 100, false)]), 0, 0, 100)
  {
    hide Inv, After;
    var ops := [OpCreate(full, 1), OpRegist(0, 0), OpBreath(0, 0, 100, false)];
    NoneYet();
    assert ops[..0] == [];
    NextPrefix(ops, 0);
    var one := After(ops[..1]);
    assert one.all == [Light(full, seq(1, _ => None))] && one.all[0].chans[0] == None;
    NextPrefix(ops, 1);
    assert After(ops[..2]).all[0].chans[0] == Some(Chan(None, 0, 0));
    NextPrefix(ops, 2);
    assert ops[..3] == ops;
  }

  lemma NoneYet()
    ensures After([]) == NoLights()
  {
  }

  // ---------- The registry, told by the calls ----------

  /** How many lights were created, and which of them the registry holds. */
  datatype Roll = Roll(made: nat, members: set<nat>)

  function RollNext(r: Roll, op: Op): Roll {
    match op
    case OpCreate(_, channels) =>
      if channels == 0 then r
      else Roll(r.made + 1, if |r.members| < 4 then r.members + {r.made} else r.members)
    case OpDelete(l) => r.(members := r.members - {l})
    case _ => r
  }

  function Rolled(ops: seq<Op>): Roll {
    if ops == [] then Roll(0, {}) else RollNext(Rolled(ops[..|ops| - 1]), ops[|ops| - 1])
  }

  function Members(group: seq<Option<nat>>): set<nat> {
    set k | 0 <= k < |group| && group[k].Some? :: group[k].value
  }

  /** The registry has as many members as it has slots iff no slot is free. */
  lemma {:induction false} MembersFill(group: seq<Option<nat>>)
    requires forall j, k :: 0 <= j < k < |group| && group[j].Some? ==> group[j] != group[k]
    ensures |Members(group)| <= |group|
    ensures |Members(group)| < |group| <==> exists k :: 0 <= k < |group| && group[k].None?
  {
    if group != [] {
      var front, last := group[..|group| - 1], group[|group| - 1];
      MembersFill(front);
      assert forall k :: 0 <= k < |front| ==> front[k] == group[k];
      if last.Some? {
        assert Members(group) == Members(front) + {last.value};
        assert last.value !in Members(front);
      } else {
        assert Members(group) == Members(front);
      }
    }
  }

  lemma RegisteredIsMember(s: Lights, l: nat)
    ensures Registered(s, l) <==> l in Members(s.group)
  {
    if Registered(s, l) {
      var i :| 0 <= i < |s.group| && s.group[i] == Some(l);
      assert s.group[i].value == l;
    }
  }

  /** Step by step: a light keeps its place in the registry, or its lack of one, until it is deleted. */
  lemma RegisteredStep(s: Lights, op: Op, l: nat)
    requires Inv(s) && l < |s.all|
    ensures Registered(Apply(s, op), l) <==> Registered(s, l) && op != OpDelete(l)
  {
    match op
    case OpCreate(full, channels) => CreateKeepsOthers(s, full, channels, l);
    case OpDelete(k) => DeleteKeepsOthers(s, k, l);
    case OpFire(x) => FireOutcome(s, x);
    case _ => assert Apply(s, op).group == s.group;
  }

  lemma CreateKeepsOthers(s: Lights, full: uint32, channels: nat, l: nat)
    requires Inv(s) && l < |s.all|
    ensures Registered(Create(s, full, channels), l) <==> Registered(s, l)
  {
    var t := Create(s, full, channels);
    assert |t.group| == |s.group|;
    forall k | 0 <= k < |s.group| ensures t.group[k] == Some(l) <==> s.group[k] == Some(l) {
    }
  }

  lemma DeleteKeepsOthers(s: Lights, k: nat, l: nat)
    requires Inv(s) && l < |s.all|
    ensures Registered(Delete(s, k), l) <==> Registered(s, l) && k != l
  {
    var t := Delete(s, k);
    assert |t.group| == |s.group|;
    forall i | 0 <= i < |s.group| ensures t.group[i] == Some(l) <==> s.group[i] == Some(l) && k != l {
    }
  }

  lemma LightCount(s: Lights, op: Op)
    requires Inv(s)
    ensures |Apply(s, op).all| == |s.all| + if op.OpCreate? && op.channels > 0 then 1 else 0
  {
    if op.OpFire? {
      FireOutcome(s, op.timer);
    }
  }

  lemma ApplyCreate(s: Lights, op: Op)
    requires GroupOk(s) && op.OpCreate?
    ensures Apply(s, op) == Create(s, op.full, op.channels)
  {
  }

  lemma CreatedRegistered(s: Lights, full: uint32, channels: nat)
    requires Inv(s) && channels > 0
    ensures Registered(Create(s, full, channels), |s.all|) <==> |Members(s.group)| < LIGHT_NUM_MAX
  {
    MembersFill(s.group);
    RegisteredIffRoom(s, full, channels);
  }

  /** In every reachable state the registry holds exactly the lights that found fewer than four others in it when
      they were created, and have not been deleted since. */
  lemma {:induction false} RegistryIsRoll(ops: seq<Op>)
    ensures |After(ops).all| == Rolled(ops).made
    ensures Members(After(ops).group) == Rolled(ops).members
  {
    if ops != [] {
      hide Inv, Apply, Members;
      var before, op := ops[..|ops| - 1], ops[|ops| - 1];
      RegistryIsRoll(before);
      RollStep(After(before), Rolled(before), op);
    } else {
      assert Members(NoLights().group) == {};
    }
  }

  lemma RollStep(s: Lights, r: Roll, op: Op)
    requires Inv(s) && |s.all| == r.made && Members(s.group) == r.members
    ensures |Apply(s, op).all| == RollNext(r, op).made && Members(Apply(s, op).group) == RollNext(r, op).members
  {
    hide Inv, Apply, Members, Registered;
    InvApply(s, op);
    var t := Apply(s, op);
    LightCount(s, op);
    MembersExist(s);
    MembersExist(t);
    forall l: nat | l < |t.all| ensures l in Members(t.group) <==> l in RollNext(r, op).members {
      RegisteredIsMember(s, l);
      RegisteredIsMember(t, l);
      if l < |s.all| {
        RegisteredStep(s, op, l);
      } else {
        ApplyCreate(s, op);
        CreatedRegistered(s, op.full, op.channels);
      }
    }
  }

  lemma InvApply(s: Lights, op: Op)
    requires Inv(s)
    ensures GroupOk(s) && Inv(Apply(s, op))
  {
    ApplyKeepsInv(s, op);
  }

  lemma MembersExist(s: Lights)
    requires Inv(s)
    ensures forall l :: l in Members(s.group) ==> l < |s.all|
  {
  }

  // ---------- A light outside the registry ----------

  /** No timer tick has faded a channel of the light. */
  ghost predicate NeverFaded(log: seq<Cmd>, l: nat) {
    forall i :: 0 <= i < |log| && log[i].light == l ==> !log[i].Faded?
  }

  lemma NotFadedStep(s: Lights, op: Op, l: nat)
    requires Inv(s) && !Registered(s, l) && NeverFaded(s.log, l)
    ensures NeverFaded(Apply(s, op).log, l)
  {
    if op.OpFire? {
      FireOutcome(s, op.timer);
    }
  }

  lemma {:induction false} AtMostOneFade(log: seq<Cmd>, l: nat, c: nat)
    requires NeverFaded(log, l)
    ensures |Fades(log, l, c)| <= 1
  {
    if log != [] {
      AtMostOneFade(log[..|log| - 1], l, c);
    }
  }

  /** A light refused at its creation stays out of the registry for ever, whatever slots become free, and no breath
      of it ever gets past its first fade. */
  lemma {:induction false} RefusedStandsStill(ops: seq<Op>, k: nat)
    requires k < |ops| && ops[k].OpCreate? && ops[k].channels > 0 && |Rolled(ops[..k]).members| >= LIGHT_NUM_MAX
    ensures var s, l := After(ops), Rolled(ops[..k]).made;
            && l < |s.all| && !Registered(s, l) && NeverFaded(s.log, l)
            && forall c: nat :: |Fades(s.log, l, c)| <= 1
    decreases |ops|
  {
    hide Inv, Apply, Members, Registered, NeverFaded, Fades;
    var before, op, l := ops[..|ops| - 1], ops[|ops| - 1], Rolled(ops[..k]).made;
    var s := After(before);
    LightCount(s, op);
    if k == |ops| - 1 {
      RegistryIsRoll(before);
      InvApply(s, op);
      ApplyCreate(s, op);
      CreatedRegistered(s, op.full, op.channels);
      NotFadedYet(s, op, l);
    } else {
      assert before[..k] == ops[..k];
      RefusedStandsStill(before, k);
      RegisteredStep(s, op, l);
      NotFadedStep(s, op, l);
    }
    forall c: nat ensures |Fades(After(ops).log, l, c)| <= 1 {
      AtMostOneFade(After(ops).log, l, c);
    }
  }

  lemma NotFadedYet(s: Lights, op: Op, l: nat)
    requires Inv(s) && l == |s.all| && op.OpCreate?
    ensures NeverFaded(Apply(s, op).log, l)
  {
  }
}
