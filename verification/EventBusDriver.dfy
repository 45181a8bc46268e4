/** The bus object as its own code runs it: each call and each turn of the dispatch loop, taken without
    interference, is a path of the step model. */
module EventBusDriver {
  import opened Common
  import opened EventBus
  import opened EventBusOrder

  /** steps lead from s to t, each enabled where it is taken. */
  ghost predicate Path(s: Bus, steps: seq<Step>, t: Bus)
    decreases |steps|
  {
    if steps == [] then s == t
    else Enabled(s, steps[0]) && Path(Next(s, steps[0]), steps[1..], t)
  }

  lemma {:induction false} PathSnoc(s: Bus, steps: seq<Step>, t: Bus, step: Step)
    requires Path(s, steps, t) && Enabled(t, step)
    ensures Path(s, steps + [step], Next(t, step))
    decreases |steps|
  {
    var all := steps + [step];
    if steps == [] {
      assert all[1..] == [];
    } else {
      assert all[1..] == steps[1..] + [step];
      PathSnoc(Next(s, steps[0]), steps[1..], t, step);
    }
  }

  lemma {:induction false} PathConcat(s: Bus, a: seq<Step>, t: Bus, b: seq<Step>, u: Bus)
    requires Path(s, a, t) && Path(t, b, u)
    ensures Path(s, a + b, u)
    decreases |a|
  {
    if a == [] {
      assert a + b == b;
    } else {
      assert (a + b)[1..] == a[1..] + b;
      PathConcat(Next(s, a[0]), a[1..], t, b, u);
    }
  }

  lemma PathOne(s: Bus, step: Step)
    requires Enabled(s, step)
    ensures Path(s, [step], Next(s, step))
  {
    assert [step][1..] == [];
  }

  class EventBusImpl {
    const capacity: nat
    var eventQueue: multiset<Event>
    var eventHandlers: map<string, set<Handler>>
    var exit: bool
    var exitToken: bool
    /** Where the loop and the destructor stand, the calls in progress, and the history. */
    ghost var loop: LoopPc
    ghost var dtor: DtorPc
    ghost var begun: set<Event>
    ghost var checked: set<Event>
    ghost var log: seq<Entry>

    ghost function Abs(): Bus
      reads this
    {
      Bus(capacity, eventQueue, eventHandlers, exit, exitToken, loop, dtor, begun, checked, log)
    }

    constructor (capacity: nat)
      ensures this.capacity == capacity && Abs() == Created(capacity)
    {
      this.capacity := capacity;
      eventQueue, eventHandlers, exit, exitToken := multiset{}, map[], false, false;
      loop, dtor, begun, checked, log := AtPop, Alive, {}, {}, [];
    }

    /** `locked` is whether the queue lock is granted in time; the event is accepted exactly when it is, the
        bus is not exiting and the queue has room. */
    method Publish(e: Event, locked: bool) returns (success: bool, ghost steps: seq<Step>)
      requires e !in begun
      modifies this
      ensures Path(old(Abs()), steps, Abs())
      ensures success == (!old(exit) && locked && |old(eventQueue)| < capacity)
      ensures log == old(log) + [if success then Accepted(e) else Rejected(e)]
      ensures eventQueue == if success then old(eventQueue) + multiset{e} else old(eventQueue)
    {
      steps := [PubBegin(e)];
      ghost var s := Abs();
      assert Path(s, [], s);
      PathSnoc(s, [], s, PubBegin(e));
      begun := begun + {e};
      if exit {
        log := log + [Rejected(e)];
        assert [] + steps == steps;
        return false, steps;
      }
      checked := checked + {e};
      ghost var middle := Abs();
      assert [] + steps == steps && middle == Next(s, PubBegin(e));
      PathSnoc(s, steps, middle, PubEnd(e, locked));
      success := false;
      if locked {
        if |eventQueue| < capacity {
          eventQueue := eventQueue + multiset{e};
          success := true;
        }
      }
      checked := checked - {e};
      log := log + [if success then Accepted(e) else Rejected(e)];
      steps := steps + [PubEnd(e, locked)];
    }

    method SubscribeHandler(name: string, h: Handler, locked: bool) returns (ok: bool)
      modifies this`eventHandlers, this`log
      ensures Abs() == Next(old(Abs()), EventBus.Subscribe(name, h, locked))
      ensures ok == (name != "" && locked)
    {
      if name == "" {
        return false;
      }
      if locked {
        if name !in eventHandlers {
          eventHandlers := eventHandlers[name := {}];
        }
        if h !in eventHandlers[name] {
          eventHandlers := eventHandlers[name := eventHandlers[name] + {h}];
        }
        log := log + [Subscribed(name, h)];
        assert eventHandlers[name] == HandlersOf(old(Abs()), name) + {h};
        assert eventHandlers == Next(old(Abs()), EventBus.Subscribe(name, h, locked)).handlers;
        return true;
      }
      return false;
    }

    method UnsubscribeHandler(name: string, h: Handler, locked: bool) returns (ok: bool)
      modifies this`eventHandlers, this`log
      ensures Abs() == Next(old(Abs()), EventBus.Unsubscribe(name, h, locked))
      ensures ok == (name != "" && locked)
    {
      if name == "" {
        return false;
      }
      if locked {
        if name in eventHandlers {
          eventHandlers := eventHandlers[name := eventHandlers[name] - {h}];
        }
        log := log + [Unsubscribed(name, h)];
        return true;
      }
      return false;
    }

    /** Takes the top of the queue: some event of minimal priority value. */
    method TakeTop() returns (e: Event)
      requires loop == AtPop && eventQueue != multiset{}
      modifies this`eventQueue, this`loop, this`log
      ensures Enabled(old(Abs()), LoopPop(e)) && Abs() == Next(old(Abs()), LoopPop(e))
    {
      TopExists(eventQueue);
      e :| e in eventQueue && IsTop(eventQueue, e);
      eventQueue := eventQueue - multiset{e};
      loop, log := AtSnapshot(e), log + [Popped(e)];
    }

    /** The queue section of a turn: pops an event of minimal priority value, if the lock is granted and
        there is one. */
    method TakeEvent(locked: bool) returns (event: Option<Event>, needWait: bool, ghost step: Step)
      requires loop == AtPop
      modifies this`eventQueue, this`loop, this`log
      ensures Enabled(old(Abs()), step) && Abs() == Next(old(Abs()), step)
      ensures event == (if step.LoopPop? then Some(step.e) else None)
      ensures needWait == step.LoopPopEmpty?
      ensures if !locked then step == LoopPopTimeout else step.LoopPop? <==> old(eventQueue) != multiset{}
      ensures locked ==> step.LoopPop? || step.LoopPopEmpty?
      ensures loop == if event.Some? then AtSnapshot(event.value) else if needWait then AtWait else AtCheck
      ensures eventQueue == if event.Some? then old(eventQueue) - multiset{event.value} else old(eventQueue)
    {
      hide IsTop;
      event, needWait := None, false;
      if locked {
        if eventQueue != multiset{} {
          var e := TakeTop();
          event, step := Some(e), LoopPop(e);
        } else {
          needWait, step := true, LoopPopEmpty;
          loop := AtWait;
        }
      } else {
        step := LoopPopTimeout;
        loop := AtCheck;
      }
    }

    /** The delivery of a turn: copy the handlers under their lock, or none if it times out, call each, delete. */
    method Deliver(event: Event, locked: bool) returns (ghost steps: seq<Step>)
      requires loop == AtSnapshot(event)
      modifies this`loop, this`log
      ensures Path(old(Abs()), steps, Abs()) && loop == AtCheck
    {
      var handlers: set<Handler> := {};
      if locked {
        if event.name in eventHandlers {
          handlers := eventHandlers[event.name];
        }
      }
      ghost var s := Abs();
      PathSnoc(s, [], s, LoopSnapshot(locked));
      steps := [] + [LoopSnapshot(locked)];
      loop, log := AtDeliver(event, handlers), log + [Snapped(event, handlers, locked)];
      while handlers != {}
        invariant Path(s, steps, Abs()) && loop == AtDeliver(event, handlers)
        decreases |handlers|
      {
        var h :| h in handlers;
        PathSnoc(s, steps, Abs(), LoopProcess(h));
        handlers := handlers - {h};
        loop, log := AtDeliver(event, handlers), log + [Processed(event, h)];
        steps := steps + [LoopProcess(h)];
      }
      PathSnoc(s, steps, Abs(), LoopDelete);
      loop, log := AtCheck, log + [Deleted(event)];
      steps := steps + [LoopDelete];
    }

    /** The idle wait on the exit semaphore. */
    method IdleWait() returns (ghost steps: seq<Step>)
      requires loop == AtWait
      modifies this`exitToken, this`loop
      ensures Path(old(Abs()), steps, Abs()) && loop == AtCheck
    {
      PathOne(Abs(), LoopWait);
      steps := [LoopWait];
      exitToken, loop := false, AtCheck;
    }

    /** The end of a turn: leave the loop if the bus is exiting, and then give the exit semaphore. */
    method EndTurn() returns (ended: bool, ghost steps: seq<Step>)
      requires loop == AtCheck
      modifies this`exitToken, this`loop
      ensures Path(old(Abs()), steps, Abs())
      ensures ended == exit && loop == if ended then Gone else AtPop
    {
      ghost var s := Abs();
      PathOne(s, LoopCheck);
      steps := [LoopCheck];
      ended := exit;
      if exit {
        loop := AtGive;
        PathSnoc(s, steps, Abs(), LoopGive);
        exitToken, loop := true, Gone;
        steps := steps + [LoopGive];
      } else {
        loop := AtPop;
      }
    }

    /** One turn of the dispatch loop, and the exit handshake when it is the last one. It takes an event, of
        minimal priority value, exactly when its lock is granted and there is one. */
    method LoopTurn(queueLock: bool, handlerLock: bool) returns (ended: bool, ghost steps: seq<Step>)
      requires loop == AtPop
      modifies this`eventQueue, this`exitToken, this`loop, this`log
      ensures Path(old(Abs()), steps, Abs())
      ensures ended == exit && loop == if ended then Gone else AtPop
      ensures steps != [] && (steps[0].LoopPop? <==> queueLock && old(eventQueue) != multiset{})
      ensures eventQueue == if steps[0].LoopPop? then old(eventQueue) - multiset{steps[0].e} else old(eventQueue)
    {
      hide Path, Enabled, Next;
      ghost var s := Abs();
      var event, needWait, step := TakeEvent(queueLock);
      steps := [step];
      PathOne(s, step);
      ghost var t := Abs();
      if event.Some? {
        ghost var more := Deliver(event.value, handlerLock);
        PathConcat(s, steps, t, more, Abs());
        steps := steps + more;
      }
      if needWait {
        ghost var more := IdleWait();
        PathConcat(s, steps, t, more, Abs());
        steps := steps + more;
      }
      ghost var u := Abs();
      ghost var last;
      ended, last := EndTurn();
      PathConcat(s, steps, u, last, Abs());
      steps := steps + last;
    }
  }
}
