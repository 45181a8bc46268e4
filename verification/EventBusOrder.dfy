/** The event bus over whole runs: order of dispatch, snapshots, exactly-once delivery, shutdown. */
module EventBusOrder {
  import opened EventBus
  import opened EventBusSafety

  // ---------- Order and snapshots ----------

  /** A pop takes an event of minimal priority value; a snapshot is the subscribers of that moment, or
      empty when the lock timed out. */
  ghost predicate EntryOk(log: seq<Entry>, x: Entry) {
    && (x.Popped? ==> IsTop(Queued(log), x.e))
    && (x.Snapped? ==> x.hs == if x.locked then Subscribers(log, x.e.name) else {})
  }

  ghost predicate LogOk(log: seq<Entry>) {
    forall i :: 0 <= i < |log| ==> EntryOk(log[..i], log[i])
  }

  ghost predicate HistoryInv(s: Bus) {
    && s.queue == Queued(s.log)
    && (forall name :: HandlersOf(s, name) == Subscribers(s.log, name))
    && LogOk(s.log)
  }

  lemma QueuedSnoc(log: seq<Entry>, x: Entry)
    ensures Queued(log + [x]) == QueuedNext(Queued(log), x)
  {
    assert (log + [x])[..|log|] == log;
  }

  lemma SubscribersSnoc(log: seq<Entry>, x: Entry)
    ensures forall name :: Subscribers(log + [x], name) == SubscribersNext(Subscribers(log, name), x, name)
  {
    assert (log + [x])[..|log|] == log;
  }

  lemma LogOkSnoc(log: seq<Entry>, x: Entry)
    requires LogOk(log) && EntryOk(log, x)
    ensures LogOk(log + [x])
  {
    var all := log + [x];
    forall i | 0 <= i < |all| ensures EntryOk(all[..i], all[i]) {
      if i < |log| {
        assert all[..i] == log[..i] && all[i] == log[i];
      } else {
        assert all[..i] == log;
      }
    }
  }

  /** What one entry records of the step that wrote it. */
  ghost predicate Records(s: Bus, x: Entry, t: Bus) {
    && t.log == s.log + [x]
    && t.queue == QueuedNext(s.queue, x)
    && (forall name :: HandlersOf(t, name) == SubscribersNext(HandlersOf(s, name), x, name))
    && (x.Popped? ==> IsTop(s.queue, x.e))
    && (x.Snapped? ==> x.hs == if x.locked then HandlersOf(s, x.e.name) else {})
  }

  ghost predicate Unrecorded(s: Bus, t: Bus) {
    t.log == s.log && t.queue == s.queue && t.handlers == s.handlers
  }

  lemma SubscriptionRecords(s: Bus, step: Step)
    requires Enabled(s, step) && (step.Subscribe? || step.Unsubscribe?)
    ensures Unrecorded(s, Next(s, step)) || exists x :: Records(s, x, Next(s, step))
  {
    var t := Next(s, step);
    if t.log != s.log {
      var x := if step.Subscribe? then Subscribed(step.name, step.h) else Unsubscribed(step.name, step.h);
      assert t.log == s.log + [x];
      forall name ensures HandlersOf(t, name) == SubscribersNext(HandlersOf(s, name), x, name) {
      }
      assert Records(s, x, t);
    }
  }

  lemma PublishRecords(s: Bus, step: Step)
    requires Enabled(s, step) && (step.PubBegin? || step.PubEnd?)
    ensures Unrecorded(s, Next(s, step)) || exists x :: Records(s, x, Next(s, step))
  {
    hide Next, Enabled;
    PublishEffect(s, step);
    var t := Next(s, step);
    if t.log == s.log + [Accepted(step.e)] && t.queue != s.queue {
      assert Records(s, Accepted(step.e), t);
    } else if t.log == s.log + [Rejected(step.e)] {
      assert Records(s, Rejected(step.e), t);
    }
  }

  lemma TakenRecords(s: Bus, step: Step)
    requires Enabled(s, step) && (step.LoopPop? || step.LoopSnapshot?)
    ensures exists x :: Records(s, x, Next(s, step))
  {
    hide Next, IsTop;
    var t := Next(s, step);
    match step
    case LoopPop(e) =>
      PopEffect(s, e);
      assert Records(s, Popped(e), t);
    case LoopSnapshot(locked) =>
      SnapshotEffect(s, locked);
      assert Records(s, Snapped(s.loop.taken, t.loop.left, locked), t);
  }

  lemma DeliveryRecords(s: Bus, step: Step)
    requires Enabled(s, step) && (step.LoopProcess? || step.LoopDelete?)
    ensures exists x :: Records(s, x, Next(s, step))
  {
    hide Next;
    var t := Next(s, step);
    match step
    case LoopProcess(h) =>
      ProcessEffect(s, h);
      assert Records(s, Processed(s.loop.event, h), t);
    case LoopDelete =>
      DeleteEffect(s);
      assert Records(s, Deleted(s.loop.event), t);
  }

  lemma NextRecords(s: Bus, step: Step)
    requires Enabled(s, step)
    ensures Unrecorded(s, Next(s, step)) || exists x :: Records(s, x, Next(s, step))
  {
    hide Next, Enabled, Records;
    match step
    case PubBegin(_) => PublishRecords(s, step);
    case PubEnd(_, _) => PublishRecords(s, step);
    case Subscribe(_, _, _) => SubscriptionRecords(s, step);
    case Unsubscribe(_, _, _) => SubscriptionRecords(s, step);
    case LoopPop(_) => TakenRecords(s, step);
    case LoopSnapshot(_) => TakenRecords(s, step);
    case LoopProcess(_) => DeliveryRecords(s, step);
    case LoopDelete => DeliveryRecords(s, step);
    case _ => ControlEffect(s, step);
  }

  lemma NextKeepsHistory(s: Bus, step: Step)
    requires HistoryInv(s) && Enabled(s, step)
    ensures HistoryInv(Next(s, step))
  {
    hide Next, Queued, Subscribers, LogOk;
    var t := Next(s, step);
    NextRecords(s, step);
    if !Unrecorded(s, t) {
      var x :| Records(s, x, t);
      QueuedSnoc(s.log, x);
      SubscribersSnoc(s.log, x);
      LogOkSnoc(s.log, x);
    }
  }

  // ---------- Shutdown ----------

  /** The exit token exists only after the loop has left its for, and then until the destructor takes it. */
  predicate ShutdownInv(s: Bus) {
    && (s.exit <==> s.dtor != Alive)
    && (s.loop == AtGive || s.loop == Gone ==> s.exit)
    && (s.token <==> s.loop == Gone && s.dtor != Passed)
    && (s.dtor == Passed ==> s.loop == Gone)
  }

  lemma NextKeepsShutdown(s: Bus, step: Step)
    requires ShutdownInv(s) && Enabled(s, step)
    ensures ShutdownInv(Next(s, step))
  {
  }

  predicate LoopStep(step: Step) {
    step.LoopPop? || step.LoopPopEmpty? || step.LoopPopTimeout? || step.LoopSnapshot? || step.LoopProcess?
    || step.LoopDelete? || step.LoopWait? || step.LoopCheck? || step.LoopGive?
  }

  /** Stages left before the loop is gone. */
  function Stage(pc: LoopPc): nat {
    match pc
    case AtPop => 6
    case AtSnapshot(_) => 5
    case AtDeliver(_, _) => 4
    case AtWait => 3
    case AtCheck => 2
    case AtGive => 1
    case Gone => 0
  }

  function Left(pc: LoopPc): set<Handler> {
    if pc.AtDeliver? then pc.left else {}
  }

  /** A later stage, or one handler call less in the same one. */
  predicate Nearer(pc: LoopPc, next: LoopPc) {
    Stage(next) < Stage(pc) || (Stage(next) == Stage(pc) && Left(next) < Left(pc))
  }

  lemma ExitStays(s: Bus, step: Step)
    requires s.exit && Enabled(s, step)
    ensures Next(s, step).exit
  {
  }

  lemma OthersKeepLoop(s: Bus, step: Step)
    requires Enabled(s, step) && !LoopStep(step)
    ensures Next(s, step).loop == s.loop
  {
  }

  lemma ControlNears(s: Bus, step: Step)
    requires s.exit && Enabled(s, step) && LoopStep(step) && Control(step)
    ensures Nearer(s.loop, Next(s, step).loop)
  {
  }

  /** Once exit is set every loop step brings the loop nearer its end: a later stage, or one handler call
      less in the same one. Other threads' steps do not set it back. */
  lemma ExitIsBounded(s: Bus, step: Step)
    requires s.exit && Enabled(s, step)
    ensures var t := Next(s, step);
            && t.exit
            && (LoopStep(step) ==> Nearer(s.loop, t.loop))
            && (!LoopStep(step) ==> t.loop == s.loop)
  {
    ExitStays(s, step);
    if !LoopStep(step) {
      OthersKeepLoop(s, step);
    } else if Control(step) {
      ControlNears(s, step);
    } else {
      DeliveryNears(s, step);
    }
  }

  lemma DeliveryNears(s: Bus, step: Step)
    requires Enabled(s, step) && LoopStep(step) && !Control(step)
    ensures Nearer(s.loop, Next(s, step).loop)
  {
    hide Next, SameBags;
    match step
    case LoopPop(e) => PopEffect(s, e);
    case LoopSnapshot(locked) => SnapshotEffect(s, locked);
    case LoopProcess(h) => ProcessEffect(s, h);
    case LoopDelete => DeleteEffect(s);
  }

  function Pops(steps: seq<Step>): nat {
    if steps == [] then 0 else Pops(steps[..|steps| - 1]) + if steps[|steps| - 1].LoopPop? then 1 else 0
  }

  function MayPop(pc: LoopPc): nat {
    if pc == AtPop then 1 else 0
  }

  lemma ExitPops(s: Bus, step: Step)
    requires s.exit && Enabled(s, step)
    ensures MayPop(Next(s, step).loop) + (if step.LoopPop? then 1 else 0) <= MayPop(s.loop)
  {
    ExitIsBounded(s, step);
  }

  /** Once exit is set at most one more event is taken from the queue, and none unless the loop was about to pop. */
  lemma {:induction false} OneMorePop(capacity: nat, steps: seq<Step>, i: nat)
    requires Run(capacity, steps) && i <= |steps|
    requires Run(capacity, steps[..i]) && After(capacity, steps[..i]).exit
    ensures After(capacity, steps).exit
    ensures Pops(steps[i..]) + MayPop(After(capacity, steps).loop) <= MayPop(After(capacity, steps[..i]).loop)
    decreases |steps|
  {
    hide Next, MayPop;
    if i == |steps| {
      assert steps[..i] == steps;
    } else {
      var before, last := steps[..|steps| - 1], steps[|steps| - 1];
      assert before[..i] == steps[..i];
      OneMorePop(capacity, before, i);
      assert steps[i..][..|steps| - 1 - i] == before[i..] && steps[i..][|steps| - 1 - i] == last;
      ExitIsBounded(After(capacity, before), last);
      ExitPops(After(capacity, before), last);
    }
  }

  lemma {:induction false} TopExists(queue: multiset<Event>)
    requires queue != multiset{}
    ensures exists e :: IsTop(queue, e)
    decreases |queue|
  {
    var e :| e in queue;
    var rest := queue[e := 0];
    if rest == multiset{} {
      forall f | f in queue ensures f == e {
        assert rest[f] == if f == e then 0 else queue[f];
      }
      assert IsTop(queue, e);
    } else {
      assert |rest| < |queue|;
      TopExists(rest);
      var m :| IsTop(rest, m);
      var top := if e.priority <= m.priority then e else m;
      forall f | f in queue ensures top.priority <= f.priority {
        assert f == e || f in rest;
      }
      assert IsTop(queue, top);
    }
  }

  /** The loop is never stuck: until it is gone, some step of it is enabled. */
  lemma LoopCanStep(s: Bus)
    requires s.loop != Gone
    ensures exists step :: LoopStep(step) && Enabled(s, step)
  {
    match s.loop
    case AtPop => assert LoopStep(LoopPopTimeout) && Enabled(s, LoopPopTimeout);
    case AtSnapshot(_) => assert LoopStep(LoopSnapshot(true)) && Enabled(s, LoopSnapshot(true));
    case AtDeliver(_, left) =>
      if left == {} {
        assert LoopStep(LoopDelete) && Enabled(s, LoopDelete);
      } else {
        var h :| h in left;
        assert LoopStep(LoopProcess(h)) && Enabled(s, LoopProcess(h));
      }
    case AtWait => assert LoopStep(LoopWait) && Enabled(s, LoopWait);
    case AtCheck => assert LoopStep(LoopCheck) && Enabled(s, LoopCheck);
    case AtGive => assert LoopStep(LoopGive) && Enabled(s, LoopGive);
  }

  /** And it never idles over a queue: with its lock granted, it pops iff the queue has an event. */
  lemma LockedPopIsDecided(s: Bus)
    requires s.loop == AtPop
    ensures Enabled(s, LoopPopEmpty) <==> !exists e :: Enabled(s, LoopPop(e))
  {
    if s.queue != multiset{} {
      TopExists(s.queue);
      var e :| IsTop(s.queue, e);
      assert Enabled(s, LoopPop(e));
    }
  }

  // ---------- Every run ----------

  ghost predicate BusInv(s: Bus) {
    Conserved(s) && DeliveryInv(s) && HistoryInv(s) && ShutdownInv(s)
  }

  /** In every interleaving: accepted events are queued, in flight or deleted, each in one place; the queue
      stays within capacity; a deleted event has been delivered to its snapshot; the history obeys
      order and subscriptions; and the exit token means the loop has ended. */
  lemma {:induction false} EveryRun(capacity: nat, steps: seq<Step>)
    requires Run(capacity, steps)
    ensures BusInv(After(capacity, steps))
    decreases |steps|
  {
    if steps != [] {
      var before, step := steps[..|steps| - 1], steps[|steps| - 1];
      EveryRun(capacity, before);
      var s := After(capacity, before);
      NextConserves(s, step);
      NextDelivers(s, step);
      NextKeepsHistory(s, step);
      NextKeepsShutdown(s, step);
    }
  }

  /** Exactly once: over every run, a deleted event was accepted and has been handed to exactly the handlers
      of its snapshot, once each; any event is accepted, deleted, and handed to a handler at most once;
      and a rejected one is never accepted, queued, handed out or deleted. */
  lemma ExactlyOnce(capacity: nat, steps: seq<Step>, e: Event)
    requires Run(capacity, steps)
    ensures var s := After(capacity, steps);
            && (e in AllDeleted(s.log) ==> e in AllAccepted(s.log) && FullyDelivered(s.log, e))
            && AllAccepted(s.log)[e] <= 1 && AllDeleted(s.log)[e] <= 1
            && s.queue[e] + InFlight(s.loop)[e] + AllDeleted(s.log)[e] == AllAccepted(s.log)[e]
            && (forall h :: Calls(s.log, e)[h] <= 1)
            && (e in AllRejected(s.log) ==> e !in AllAccepted(s.log) && e !in s.queue && Untouched(s.log, e))
  {
    EveryRun(capacity, steps);
    var s := After(capacity, steps);
    OnePlace(s, e);
    assert AllAccepted(s.log)[e] == s.queue[e] + InFlight(s.loop)[e] + AllDeleted(s.log)[e];
    forall h ensures Calls(s.log, e)[h] <= 1 {
      CalledAtMostOnce(s, e, h);
    }
  }

  lemma CalledAtMostOnce(s: Bus, e: Event, h: Handler)
    requires Conserved(s) && DeliveryInv(s)
    ensures Calls(s.log, e)[h] <= 1
  {
    if e in AllDeleted(s.log) {
      assert FullyDelivered(s.log, e);
    } else if e in InFlight(s.loop) {
      assert s.loop == AtSnapshot(e) || s.loop.AtDeliver?;
    } else {
      assert Untouched(s.log, e);
    }
  }

  lemma {:induction false} QueueShrinks(log: seq<Entry>, i: nat, j: nat)
    requires i <= j <= |log| && forall k :: i <= k < j ==> !log[k].Accepted?
    ensures Queued(log[..j]) <= Queued(log[..i])
    decreases j
  {
    if i < j {
      QueueShrinks(log, i, j - 1);
      assert log[..j][..j - 1] == log[..j - 1];
      assert Queued(log[..j]) == QueuedNext(Queued(log[..j - 1]), log[j - 1]);
    }
  }

  /** Drained in order: of two pops with no publish accepted in between, the later one has no smaller
      priority value. */
  lemma DrainsInOrder(capacity: nat, steps: seq<Step>, i: nat, j: nat)
    requires Run(capacity, steps)
    requires var log := After(capacity, steps).log;
             && i < j < |log| && log[i].Popped? && log[j].Popped?
             && forall k :: i <= k < j ==> !log[k].Accepted?
    ensures var log := After(capacity, steps).log;
            log[i].e.priority <= log[j].e.priority
  {
    EveryRun(capacity, steps);
    var log := After(capacity, steps).log;
    assert EntryOk(log[..i], log[i]) && EntryOk(log[..j], log[j]);
    QueueShrinks(log, i, j);
    assert log[j].e in Queued(log[..i]);
  }

  /** Delivered to exactly the subscribers of the moment of the snapshot, or to none if the lock timed out. */
  lemma SnapshotsAreSubscribers(capacity: nat, steps: seq<Step>, i: nat)
    requires Run(capacity, steps)
    requires i < |After(capacity, steps).log| && After(capacity, steps).log[i].Snapped?
    ensures var log := After(capacity, steps).log;
            log[i].hs == if log[i].locked then Subscribers(log[..i], log[i].e.name) else {}
  {
    EveryRun(capacity, steps);
    var log := After(capacity, steps).log;
    assert EntryOk(log[..i], log[i]);
  }

  lemma {:induction false} RunPrefix(capacity: nat, steps: seq<Step>, n: nat)
    requires Run(capacity, steps) && n <= |steps|
    ensures Run(capacity, steps[..n])
    ensures n < |steps| ==> Enabled(After(capacity, steps[..n]), steps[n])
    decreases |steps| - n
  {
    if n == |steps| {
      assert steps[..n] == steps;
    } else {
      RunPrefix(capacity, steps, n + 1);
      assert steps[..n + 1][..n] == steps[..n];
    }
  }

  lemma {:induction false} PassedForever(capacity: nat, steps: seq<Step>, i: nat, j: nat)
    requires Run(capacity, steps) && i < j <= |steps| && steps[i] == DtorTake
    ensures Run(capacity, steps[..j]) && After(capacity, steps[..j]).dtor == Passed
    decreases j
  {
    hide Next;
    RunPrefix(capacity, steps, j);
    RunPrefix(capacity, steps, j - 1);
    assert steps[..j][..j - 1] == steps[..j - 1];
    if i < j - 1 {
      PassedForever(capacity, steps, i, j - 1);
    }
    StaysPassed(After(capacity, steps[..j - 1]), steps[j - 1]);
  }

  lemma StaysPassed(s: Bus, step: Step)
    requires Enabled(s, step)
    ensures s.dtor == Passed || step == DtorTake ==> Next(s, step).dtor == Passed
  {
  }

  /** Shutdown safety: after the destructor has passed its wait, no step of the loop is ever taken again, so
      nothing of the loop touches queue or handlers. */
  lemma NoLoopStepAfterDestructor(capacity: nat, steps: seq<Step>, i: nat, j: nat)
    requires Run(capacity, steps) && i < j < |steps| && steps[i] == DtorTake
    ensures !LoopStep(steps[j])
  {
    PassedForever(capacity, steps, i, j);
    RunPrefix(capacity, steps, j);
    EveryRun(capacity, steps[..j]);
  }

  /** And the destructor is not cheated of its token by the idle loop, which waits on the same semaphore:
      an idle wait never takes it, and once the loop is gone a waiting destructor can pass. */
  lemma TokenReachesDestructor(capacity: nat, steps: seq<Step>)
    requires Run(capacity, steps)
    ensures var s := After(capacity, steps);
            && (Enabled(s, LoopWait) ==> !s.token)
            && (s.loop == Gone && s.dtor == Waiting ==> Enabled(s, DtorTake))
  {
    EveryRun(capacity, steps);
  }
}
