/** What every interleaving of the event bus keeps. */
module EventBusSafety {
  import opened Common
  import opened EventBus

  /** The event the loop has taken and not yet deleted. */
  function InFlight(loop: LoopPc): multiset<Event> {
    match loop
    case AtSnapshot(e) => multiset{e}
    case AtDeliver(e, _) => multiset{e}
    case _ => multiset{}
  }

  // ---------- Conservation ----------

  /** Accepted events are exactly those queued, in flight or deleted, with multiplicity; an event passed to
      Publish is, once, being published, accepted or rejected. */
  ghost predicate Conserved(s: Bus) {
    && AllAccepted(s.log) == s.queue + InFlight(s.loop) + AllDeleted(s.log)
    && |s.queue| <= s.capacity
    && multiset(s.begun) == multiset(s.checked) + AllAccepted(s.log) + AllRejected(s.log)
  }

  lemma BagsSnoc(log: seq<Entry>, x: Entry)
    ensures AllAccepted(log + [x]) == AllAccepted(log) + (if x.Accepted? then multiset{x.e} else multiset{})
    ensures AllRejected(log + [x]) == AllRejected(log) + (if x.Rejected? then multiset{x.e} else multiset{})
    ensures AllDeleted(log + [x]) == AllDeleted(log) + (if x.Deleted? then multiset{x.e} else multiset{})
  {
    assert (log + [x])[..|log|] == log;
  }

  lemma SetInsert(s: set<Event>, e: Event)
    requires e !in s
    ensures multiset(s + {e}) == multiset(s) + multiset{e}
  {
  }

  lemma SetErase(s: set<Event>, e: Event)
    requires e in s
    ensures multiset(s) == multiset(s - {e}) + multiset{e}
  {
    assert s == s - {e} + {e};
    SetInsert(s - {e}, e);
  }

  lemma BeginConserves(s: Bus, e: Event)
    requires Conserved(s) && Enabled(s, PubBegin(e))
    ensures Conserved(Next(s, PubBegin(e)))
  {
    hide AllAccepted, AllRejected, AllDeleted;
    BagsSnoc(s.log, Rejected(e));
    assert e !in multiset(s.begun);
    assert e !in multiset(s.checked);
    SetInsert(s.begun, e);
    SetInsert(s.checked, e);
  }

  lemma EndConserves(s: Bus, e: Event, locked: bool)
    requires Conserved(s) && Enabled(s, PubEnd(e, locked))
    ensures Conserved(Next(s, PubEnd(e, locked)))
  {
    hide AllAccepted, AllRejected, AllDeleted;
    BagsSnoc(s.log, Rejected(e));
    BagsSnoc(s.log, Accepted(e));
    SetErase(s.checked, e);
  }

  // ---------- What each kind of step does ----------

  /** What is left of the state the bags are compared with. */
  ghost predicate SameBags(s: Bus, t: Bus) {
    && t.queue == s.queue && t.capacity == s.capacity && t.begun == s.begun && t.checked == s.checked
    && InFlight(t.loop) == InFlight(s.loop)
  }

  lemma PublishEffect(s: Bus, step: Step)
    requires Enabled(s, step) && (step.PubBegin? || step.PubEnd?)
    ensures var t := Next(s, step);
            && t.loop == s.loop && t.handlers == s.handlers
            && ((t.log == s.log && t.queue == s.queue)
                || (t.log == s.log + [Accepted(step.e)] && t.queue == s.queue + multiset{step.e})
                || (t.log == s.log + [Rejected(step.e)] && t.queue == s.queue))
  {
  }

  lemma SubscriptionEffect(s: Bus, step: Step)
    requires Enabled(s, step) && (step.Subscribe? || step.Unsubscribe?)
    ensures var t := Next(s, step);
            && SameBags(s, t) && t.loop == s.loop
            && ((t.log == s.log && t.handlers == s.handlers)
                || (step.Subscribe? && t.log == s.log + [Subscribed(step.name, step.h)])
                || (step.Unsubscribe? && t.log == s.log + [Unsubscribed(step.name, step.h)]))
  {
  }

  /** The steps that only move the loop or the destructor on. */
  predicate Control(step: Step) {
    step.LoopPopEmpty? || step.LoopPopTimeout? || step.LoopWait? || step.LoopCheck? || step.LoopGive?
    || step.DtorStart? || step.DtorTake?
  }

  lemma ControlEffect(s: Bus, step: Step)
    requires Enabled(s, step) && Control(step)
    ensures var t := Next(s, step);
            && SameBags(s, t) && t.log == s.log && t.handlers == s.handlers
            && (t.loop == s.loop || InFlight(t.loop) == multiset{})
  {
  }

  lemma PopEffect(s: Bus, e: Event)
    requires Enabled(s, LoopPop(e))
    ensures var t := Next(s, LoopPop(e));
            && InFlight(s.loop) == multiset{} && IsTop(s.queue, e)
            && t.loop == AtSnapshot(e) && t.log == s.log + [Popped(e)] && t.queue == s.queue - multiset{e}
            && t.capacity == s.capacity && t.begun == s.begun && t.checked == s.checked && t.handlers == s.handlers
  {
  }

  lemma SnapshotEffect(s: Bus, locked: bool)
    requires Enabled(s, LoopSnapshot(locked))
    ensures var t, e := Next(s, LoopSnapshot(locked)), s.loop.taken;
            var hs := if locked then HandlersOf(s, e.name) else {};
            && SameBags(s, t) && t.handlers == s.handlers
            && t.loop == AtDeliver(e, hs) && t.log == s.log + [Snapped(e, hs, locked)]
  {
  }

  lemma ProcessEffect(s: Bus, h: Handler)
    requires Enabled(s, LoopProcess(h))
    ensures var t, e := Next(s, LoopProcess(h)), s.loop.event;
            && SameBags(s, t) && t.handlers == s.handlers
            && t.loop == AtDeliver(e, s.loop.left - {h}) && t.log == s.log + [Processed(e, h)] && h in s.loop.left
  {
  }

  lemma DeleteEffect(s: Bus)
    requires Enabled(s, LoopDelete)
    ensures var t, e := Next(s, LoopDelete), s.loop.event;
            && s.loop.left == {} && t.loop == AtCheck && t.log == s.log + [Deleted(e)]
            && t.queue == s.queue && t.capacity == s.capacity && t.begun == s.begun && t.checked == s.checked
            && t.handlers == s.handlers
  {
  }

  // ---------- Conservation, step by step ----------

  lemma PopConserves(s: Bus, e: Event)
    requires Conserved(s) && Enabled(s, LoopPop(e))
    ensures Conserved(Next(s, LoopPop(e)))
  {
    hide AllAccepted, AllRejected, AllDeleted, Next;
    PopEffect(s, e);
    BagsSnoc(s.log, Popped(e));
    assert s.queue == s.queue - multiset{e} + multiset{e};
  }

  lemma DeleteConserves(s: Bus)
    requires Conserved(s) && Enabled(s, LoopDelete)
    ensures Conserved(Next(s, LoopDelete))
  {
    hide AllAccepted, AllRejected, AllDeleted, Next;
    DeleteEffect(s);
    BagsSnoc(s.log, Deleted(s.loop.event));
  }

  /** An entry that accepts, rejects or deletes nothing. */
  predicate Neutral(x: Entry) {
    !x.Accepted? && !x.Rejected? && !x.Deleted?
  }

  predicate Quiet(step: Step) {
    !step.PubBegin? && !step.PubEnd? && !step.LoopPop? && !step.LoopDelete?
  }

  lemma QuietEffect(s: Bus, step: Step)
    requires Enabled(s, step) && Quiet(step)
    ensures var t := Next(s, step);
            && SameBags(s, t)
            && (t.log == s.log || exists x :: t.log == s.log + [x] && Neutral(x))
  {
    hide Next;
    match step
    case Subscribe(_, _, _) => SubscriptionEffect(s, step);
    case Unsubscribe(_, _, _) => SubscriptionEffect(s, step);
    case LoopSnapshot(locked) => SnapshotEffect(s, locked);
    case LoopProcess(h) => ProcessEffect(s, h);
    case _ => ControlEffect(s, step);
  }

  /** Every other step keeps the bags, the events in flight and the queue. */
  lemma QuietConserves(s: Bus, step: Step)
    requires Conserved(s) && Enabled(s, step) && Quiet(step)
    ensures Conserved(Next(s, step))
  {
    hide AllAccepted, AllRejected, AllDeleted, Next;
    QuietEffect(s, step);
    var t := Next(s, step);
    if t.log != s.log {
      var x :| t.log == s.log + [x] && Neutral(x);
      BagsSnoc(s.log, x);
    }
  }

  lemma NextConserves(s: Bus, step: Step)
    requires Conserved(s) && Enabled(s, step)
    ensures Conserved(Next(s, step))
  {
    hide Next, Conserved;
    match step
    case PubBegin(e) => BeginConserves(s, e);
    case PubEnd(e, locked) => EndConserves(s, e, locked);
    case LoopPop(e) => PopConserves(s, e);
    case LoopDelete => DeleteConserves(s);
    case _ => QuietConserves(s, step);
  }

  // ---------- Delivery ----------

  /** No entry of the log concerns the delivery of e. */
  ghost predicate Untouched(log: seq<Entry>, e: Event) {
    SnapshotOf(log, e) == None && Calls(log, e) == multiset{}
  }

  /** e has been handed to every handler of its snapshot, once each, and to no other. */
  ghost predicate FullyDelivered(log: seq<Entry>, e: Event) {
    SnapshotOf(log, e).Some? && Calls(log, e) == multiset(SnapshotOf(log, e).value)
  }

  ghost predicate DeliveryInv(s: Bus) {
    && (forall e :: e in AllDeleted(s.log) ==> FullyDelivered(s.log, e))
    && (forall e :: e !in AllDeleted(s.log) && e !in InFlight(s.loop) ==> Untouched(s.log, e))
    && (s.loop.AtSnapshot? ==> Untouched(s.log, s.loop.taken))
    && (s.loop.AtDeliver? ==>
          var snap := SnapshotOf(s.log, s.loop.event);
          && snap.Some? && s.loop.left <= snap.value
          && Calls(s.log, s.loop.event) == multiset(snap.value - s.loop.left))
  }

  lemma DeliverySnoc(log: seq<Entry>, x: Entry, e: Event)
    ensures Calls(log + [x], e) == Calls(log, e) + (if x.Processed? && x.e == e then multiset{x.h} else multiset{})
    ensures SnapshotOf(log + [x], e) == if x.Snapped? && x.e == e then Some(x.hs) else SnapshotOf(log, e)
  {
    assert (log + [x])[..|log|] == log;
  }

  /** A fresh event is in one place at a time: what is in flight is neither queued nor deleted. */
  lemma OnePlace(s: Bus, e: Event)
    requires Conserved(s)
    ensures AllAccepted(s.log)[e] <= 1
    ensures s.queue[e] + InFlight(s.loop)[e] + AllDeleted(s.log)[e] <= 1
    ensures e in AllRejected(s.log) ==> e !in AllAccepted(s.log)
  {
    assert multiset(s.begun)[e] <= 1;
    assert multiset(s.begun)[e] == multiset(s.checked)[e] + AllAccepted(s.log)[e] + AllRejected(s.log)[e];
    assert AllAccepted(s.log)[e] == s.queue[e] + InFlight(s.loop)[e] + AllDeleted(s.log)[e];
  }

  /** What one entry does to the delivery of every event. */
  lemma AllSnoc(log: seq<Entry>, x: Entry)
    ensures forall e :: Calls(log + [x], e)
                     == Calls(log, e) + (if x.Processed? && x.e == e then multiset{x.h} else multiset{})
    ensures forall e :: SnapshotOf(log + [x], e) == if x.Snapped? && x.e == e then Some(x.hs) else SnapshotOf(log, e)
  {
    forall e ensures Calls(log + [x], e)
                  == Calls(log, e) + (if x.Processed? && x.e == e then multiset{x.h} else multiset{})
    {
      DeliverySnoc(log, x, e);
    }
    forall e ensures SnapshotOf(log + [x], e) == if x.Snapped? && x.e == e then Some(x.hs) else SnapshotOf(log, e) {
      DeliverySnoc(log, x, e);
    }
  }

  /** Nothing about any delivery has changed between s and t. */
  ghost predicate SameDeliveries(s: Bus, t: Bus) {
    && AllDeleted(t.log) == AllDeleted(s.log)
    && InFlight(t.loop) == InFlight(s.loop)
    && (t.loop == s.loop || InFlight(t.loop) == multiset{})
    && (forall e :: Calls(t.log, e) == Calls(s.log, e) && SnapshotOf(t.log, e) == SnapshotOf(s.log, e))
  }

  lemma SameDeliveriesKeep(s: Bus, t: Bus)
    requires DeliveryInv(s) && SameDeliveries(s, t)
    ensures DeliveryInv(t)
  {
    hide Calls, SnapshotOf, AllDeleted;
  }

  predicate Bystander(step: Step) {
    !step.LoopPop? && !step.LoopSnapshot? && !step.LoopProcess? && !step.LoopDelete?
  }

  lemma BystanderEffect(s: Bus, step: Step)
    requires Enabled(s, step) && Bystander(step)
    ensures var t := Next(s, step);
            && InFlight(t.loop) == InFlight(s.loop)
            && (t.loop == s.loop || InFlight(t.loop) == multiset{})
            && (t.log == s.log || exists x :: t.log == s.log + [x] && !x.Processed? && !x.Snapped? && !x.Deleted?)
  {
    hide Next, Enabled;
    match step
    case PubBegin(_) => PublishEffect(s, step);
    case PubEnd(_, _) => PublishEffect(s, step);
    case Subscribe(_, _, _) => SubscriptionEffect(s, step);
    case Unsubscribe(_, _, _) => SubscriptionEffect(s, step);
    case _ => ControlEffect(s, step);
  }

  /** Steps that leave the delivery in progress alone. */
  lemma BystanderDelivers(s: Bus, step: Step)
    requires DeliveryInv(s) && Enabled(s, step) && Bystander(step)
    ensures DeliveryInv(Next(s, step))
  {
    hide Calls, SnapshotOf, AllAccepted, AllRejected, AllDeleted, DeliveryInv, Next;
    var t := Next(s, step);
    BystanderEffect(s, step);
    if t.log != s.log {
      var x :| t.log == s.log + [x] && !x.Processed? && !x.Snapped? && !x.Deleted?;
      BagsSnoc(s.log, x);
      AllSnoc(s.log, x);
    }
    SameDeliveriesKeep(s, t);
  }

  lemma PopDelivers(s: Bus, e: Event)
    requires Conserved(s) && DeliveryInv(s) && Enabled(s, LoopPop(e))
    ensures DeliveryInv(Next(s, LoopPop(e)))
  {
    hide Calls, SnapshotOf, AllAccepted, AllRejected, AllDeleted, Next, Conserved;
    PopEffect(s, e);
    OnePlace(s, e);
    BagsSnoc(s.log, Popped(e));
    AllSnoc(s.log, Popped(e));
  }

  /** A snapshot entry of e leaves every other delivery as it was, and e with nothing delivered. */
  lemma SnapshotOnLog(log: seq<Entry>, e: Event, hs: set<Handler>, locked: bool)
    requires Untouched(log, e)
    ensures var next := log + [Snapped(e, hs, locked)];
            && AllDeleted(next) == AllDeleted(log)
            && (forall f :: f != e && FullyDelivered(log, f) ==> FullyDelivered(next, f))
            && (forall f :: f != e && Untouched(log, f) ==> Untouched(next, f))
            && SnapshotOf(next, e) == Some(hs) && Calls(next, e) == multiset{}
  {
    hide Calls, SnapshotOf, AllAccepted, AllRejected, AllDeleted;
    BagsSnoc(log, Snapped(e, hs, locked));
    AllSnoc(log, Snapped(e, hs, locked));
  }

  lemma SnapshotDelivers(s: Bus, locked: bool)
    requires Conserved(s) && DeliveryInv(s) && Enabled(s, LoopSnapshot(locked))
    ensures DeliveryInv(Next(s, LoopSnapshot(locked)))
  {
    hide Calls, SnapshotOf, AllAccepted, AllRejected, AllDeleted, Next, Conserved, HandlersOf, SameBags;
    hide Untouched, FullyDelivered;
    var e, t := s.loop.taken, Next(s, LoopSnapshot(locked));
    SnapshotEffect(s, locked);
    OnePlace(s, e);
    SnapshotOnLog(s.log, e, t.loop.left, locked);
    assert t.loop.left - t.loop.left == {};
  }

  lemma ProcessDelivers(s: Bus, h: Handler)
    requires Conserved(s) && DeliveryInv(s) && Enabled(s, LoopProcess(h))
    ensures DeliveryInv(Next(s, LoopProcess(h)))
  {
    hide Calls, SnapshotOf, AllAccepted, AllRejected, AllDeleted, Next, Conserved;
    var e := s.loop.event;
    ProcessEffect(s, h);
    OnePlace(s, e);
    BagsSnoc(s.log, Processed(e, h));
    AllSnoc(s.log, Processed(e, h));
    OneMoreCalled(SnapshotOf(s.log, e).value, s.loop.left, h);
  }

  lemma OneMoreCalled(snap: set<Handler>, left: set<Handler>, h: Handler)
    requires left <= snap && h in left
    ensures multiset(snap - (left - {h})) == multiset(snap - left) + multiset{h}
  {
    assert snap - (left - {h}) == (snap - left) + {h};
    assert h !in snap - left;
  }

  lemma DeleteDelivers(s: Bus)
    requires Conserved(s) && DeliveryInv(s) && Enabled(s, LoopDelete)
    ensures DeliveryInv(Next(s, LoopDelete))
  {
    hide Calls, SnapshotOf, AllAccepted, AllRejected, AllDeleted, Next, Conserved;
    var e := s.loop.event;
    DeleteEffect(s);
    BagsSnoc(s.log, Deleted(e));
    AllSnoc(s.log, Deleted(e));
    assert SnapshotOf(s.log, e).value - s.loop.left == SnapshotOf(s.log, e).value;
  }

  lemma NextDelivers(s: Bus, step: Step)
    requires Conserved(s) && DeliveryInv(s) && Enabled(s, step)
    ensures DeliveryInv(Next(s, step))
  {
    hide Next, Conserved, DeliveryInv;
    match step
    case LoopPop(e) => PopDelivers(s, e);
    case LoopSnapshot(locked) => SnapshotDelivers(s, locked);
    case LoopProcess(h) => ProcessDelivers(s, h);
    case LoopDelete => DeleteDelivers(s);
    case _ => BystanderDelivers(s, step);
  }
}
