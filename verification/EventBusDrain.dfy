/** How fast the event bus empties: one event a turn, whatever the other threads do short of publishing. */
module EventBusDrain {
  import opened EventBus
  import opened EventBusSafety
  import opened EventBusOrder

  predicate Accepts(s: Bus, step: Step) {
    step.PubEnd? && step.locked && |s.queue| < s.capacity
  }

  /** From step i on no publish is accepted and the queue lock of the loop is always granted. */
  ghost predicate Draining(capacity: nat, steps: seq<Step>, i: nat)
    requires Run(capacity, steps) && i <= |steps|
  {
    i == |steps| ||
    (var before, last := steps[..|steps| - 1], steps[|steps| - 1];
     last != LoopPopTimeout && !Accepts(After(capacity, before), last) && Draining(capacity, before, i))
  }

  /** The turns of the loop that a list of steps completes. */
  function Turns(steps: seq<Step>): nat {
    if steps == [] then 0 else Turns(steps[..|steps| - 1]) + if steps[|steps| - 1] == LoopCheck then 1 else 0
  }

  /** The turn under way counts once its queue section is over. */
  function Begun(pc: LoopPc): nat {
    if pc == AtPop then 0 else 1
  }

  function Minus(a: nat, b: nat): nat {
    if a < b then 0 else a - b
  }

  /** What k turns of the loop, and the part of one that it is in, leave of n events. */
  predicate Drained(s: Bus, n: nat, k: nat) {
    && !s.exit && s.loop != AtGive && s.loop != Gone
    && |s.queue| == Minus(n, k + Begun(s.loop))
    && (s.loop == AtWait ==> s.queue == multiset{})
  }

  lemma PublishDrains(s: Bus, step: Step, n: nat, k: nat)
    requires Drained(s, n, k) && Enabled(s, step) && !Accepts(s, step) && !LoopStep(step) && !Next(s, step).exit
    ensures Drained(Next(s, step), n, k)
  {
    OthersKeepLoop(s, step);
    QueueKept(s, step);
  }

  lemma QueueKept(s: Bus, step: Step)
    requires Enabled(s, step) && !Accepts(s, step) && !LoopStep(step)
    ensures Next(s, step).queue == s.queue
  {
  }

  lemma PopDrains(s: Bus, step: Step, n: nat, k: nat)
    requires Drained(s, n, k) && Enabled(s, step) && (step.LoopPop? || step.LoopPopEmpty?)
    ensures Drained(Next(s, step), n, k)
  {
    if step.LoopPop? {
      PopEffect(s, step.e);
      assert s.queue == s.queue - multiset{step.e} + multiset{step.e};
    }
  }

  lemma RestDrains(s: Bus, step: Step, n: nat, k: nat)
    requires Drained(s, n, k) && Enabled(s, step) && LoopStep(step)
    requires !step.LoopPop? && !step.LoopPopEmpty? && !step.LoopPopTimeout?
    ensures Drained(Next(s, step), n, k + if step == LoopCheck then 1 else 0)
  {
  }

  lemma DrainStep(s: Bus, step: Step, n: nat, k: nat)
    requires Drained(s, n, k) && Enabled(s, step) && !Accepts(s, step) && step != LoopPopTimeout && !Next(s, step).exit
    ensures Drained(Next(s, step), n, k + if step == LoopCheck then 1 else 0)
  {
    hide Drained, Next;
    if !LoopStep(step) {
      PublishDrains(s, step, n, k);
    } else if step.LoopPop? || step.LoopPopEmpty? {
      PopDrains(s, step, n, k);
    } else {
      RestDrains(s, step, n, k);
    }
  }

  lemma ExitNotUndone(s: Bus, step: Step)
    requires Enabled(s, step) && !Next(s, step).exit
    ensures !s.exit
  {
    if s.exit {
      ExitStays(s, step);
    }
  }

  lemma DrainStarts(s: Bus)
    requires s.loop == AtPop && !s.exit
    ensures Drained(s, |s.queue|, 0)
  {
  }

  lemma {:induction false} DrainRun(capacity: nat, steps: seq<Step>, i: nat)
    requires Run(capacity, steps) && i <= |steps| && Draining(capacity, steps, i) && !After(capacity, steps).exit
    requires Run(capacity, steps[..i]) && After(capacity, steps[..i]).loop == AtPop
    ensures Drained(After(capacity, steps), |After(capacity, steps[..i]).queue|, Turns(steps[i..]))
    decreases |steps|
  {
    hide Next, Drained;
    if i == |steps| {
      assert steps[..i] == steps;
      DrainStarts(After(capacity, steps));
    } else {
      var before, last := steps[..|steps| - 1], steps[|steps| - 1];
      assert before[..i] == steps[..i];
      ExitNotUndone(After(capacity, before), last);
      DrainRun(capacity, before, i);
      assert steps[i..][..|steps| - 1 - i] == before[i..] && steps[i..][|steps| - 1 - i] == last;
      DrainStep(After(capacity, before), last, |After(capacity, steps[..i]).queue|, Turns(before[i..]));
    }
  }

  /** Drained in as many turns as there are events: with the queue lock granted and no publish accepted, k turns of
      the loop take k events off the queue, or all of them; after as many turns as there were events the queue is
      empty and every event ever accepted has been delivered to its snapshot and deleted. */
  lemma EmptyAfterAsManyTurns(capacity: nat, steps: seq<Step>, i: nat)
    requires Run(capacity, steps) && i <= |steps| && Draining(capacity, steps, i) && !After(capacity, steps).exit
    requires Run(capacity, steps[..i]) && After(capacity, steps[..i]).loop == AtPop
    requires After(capacity, steps).loop == AtPop
    ensures var s, t, k := After(capacity, steps[..i]), After(capacity, steps), Turns(steps[i..]);
            && |t.queue| == Minus(|s.queue|, k)
            && (k >= |s.queue| ==>
                 && t.queue == multiset{}
                 && AllDeleted(t.log) == AllAccepted(t.log)
                 && forall e :: e in AllAccepted(t.log) ==> FullyDelivered(t.log, e))
  {
    hide Next, FullyDelivered, AllDeleted, AllAccepted;
    DrainRun(capacity, steps, i);
    EveryRun(capacity, steps);
  }
}
