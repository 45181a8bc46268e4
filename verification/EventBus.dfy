/** The event bus as interleaved atomic steps of its publishers, its dispatch loop and its destructor
    (main/core/event/event_bus.cc). A section under a lock is one step; a lock that times out is
    another outcome of it. */
module EventBus {
  import opened Common

  /** An event, known by its pointer; the smallest priority value goes first. */
  datatype Event = Event(id: nat, name: string, priority: int)

  type Handler = nat

  /** Where the dispatch loop stands. */
  datatype LoopPc =
    | AtPop
    | AtSnapshot(taken: Event)
    | AtDeliver(event: Event, left: set<Handler>)
    | AtWait
    | AtCheck
    | AtGive
    | Gone

  datatype DtorPc = Alive | Waiting | Passed

  /** What has happened, in order. */
  datatype Entry =
    | Accepted(e: Event)
    | Rejected(e: Event)
    | Subscribed(name: string, h: Handler)
    | Unsubscribed(name: string, h: Handler)
    | Popped(e: Event)
    | Snapped(e: Event, hs: set<Handler>, locked: bool)
    | Processed(e: Event, h: Handler)
    | Deleted(e: Event)

  /** `begun` holds the events ever passed to Publish, `checked` those between its exit test and its lock. */
  datatype Bus = Bus(
    capacity: nat,
    queue: multiset<Event>,
    handlers: map<string, set<Handler>>,
    exit: bool,
    token: bool,
    loop: LoopPc,
    dtor: DtorPc,
    begun: set<Event>,
    checked: set<Event>,
    log: seq<Entry>)

  datatype Step =
    | PubBegin(e: Event)
    | PubEnd(e: Event, locked: bool)
    | Subscribe(name: string, h: Handler, locked: bool)
    | Unsubscribe(name: string, h: Handler, locked: bool)
    | LoopPop(e: Event)
    | LoopPopEmpty
    | LoopPopTimeout
    | LoopSnapshot(locked: bool)
    | LoopProcess(h: Handler)
    | LoopDelete
    | LoopWait
    | LoopCheck
    | LoopGive
    | DtorStart
    | DtorTake

  function Created(capacity: nat): Bus {
    Bus(capacity, multiset{}, map[], false, false, AtPop, Alive, {}, {}, [])
  }

  predicate IsTop(queue: multiset<Event>, e: Event) {
    e in queue && forall f :: f in queue ==> e.priority <= f.priority
  }

  function HandlersOf(s: Bus, name: string): set<Handler> {
    if name in s.handlers then s.handlers[name] else {}
  }

  predicate Enabled(s: Bus, step: Step) {
    match step
    case PubBegin(e) => e !in s.begun
    case PubEnd(e, _) => e in s.checked
    case Subscribe(_, _, _) => true
    case Unsubscribe(_, _, _) => true
    case LoopPop(e) => s.loop == AtPop && IsTop(s.queue, e)
    case LoopPopEmpty => s.loop == AtPop && s.queue == multiset{}
    case LoopPopTimeout => s.loop == AtPop
    case LoopSnapshot(_) => s.loop.AtSnapshot?
    case LoopProcess(h) => s.loop.AtDeliver? && h in s.loop.left
    case LoopDelete => s.loop.AtDeliver? && s.loop.left == {}
    case LoopWait => s.loop == AtWait
    case LoopCheck => s.loop == AtCheck
    case LoopGive => s.loop == AtGive
    case DtorStart => s.dtor == Alive
    case DtorTake => s.dtor == Waiting && s.token
  }

  function Next(s: Bus, step: Step): Bus
    requires Enabled(s, step)
  {
    match step
    case PubBegin(e) =>
      if s.exit then s.(begun := s.begun + {e}, log := s.log + [Rejected(e)])
      else s.(begun := s.begun + {e}, checked := s.checked + {e})
    case PubEnd(e, locked) =>
      if locked && |s.queue| < s.capacity then
        s.(checked := s.checked - {e}, queue := s.queue + multiset{e}, log := s.log + [Accepted(e)])
      else
        s.(checked := s.checked - {e}, log := s.log + [Rejected(e)])
    case Subscribe(name, h, locked) =>
      if name == "" || !locked then s
      else s.(handlers := s.handlers[name := HandlersOf(s, name) + {h}], log := s.log + [Subscribed(name, h)])
    case Unsubscribe(name, h, locked) =>
      if name == "" || !locked then s
      else if name !in s.handlers then s.(log := s.log + [Unsubscribed(name, h)])
      else s.(handlers := s.handlers[name := s.handlers[name] - {h}], log := s.log + [Unsubscribed(name, h)])
    case LoopPop(e) =>
      s.(queue := s.queue - multiset{e}, loop := AtSnapshot(e), log := s.log + [Popped(e)])
    case LoopPopEmpty => s.(loop := AtWait)
    case LoopPopTimeout => s.(loop := AtCheck)
    case LoopSnapshot(locked) =>
      var e := s.loop.taken;
      var hs := if locked then HandlersOf(s, e.name) else {};
      s.(loop := AtDeliver(e, hs), log := s.log + [Snapped(e, hs, locked)])
    case LoopProcess(h) =>
      s.(loop := s.loop.(left := s.loop.left - {h}), log := s.log + [Processed(s.loop.event, h)])
    case LoopDelete =>
      s.(loop := AtCheck, log := s.log + [Deleted(s.loop.event)])
    case LoopWait =>
      // Takes the exit token if it is there, or times out.
      s.(loop := AtCheck, token := false)
    case LoopCheck => s.(loop := if s.exit then AtGive else AtPop)
    case LoopGive => s.(loop := Gone, token := true)
    case DtorStart => s.(dtor := Waiting, exit := true)
    case DtorTake => s.(dtor := Passed, token := false)
  }

  /** A run: every step enabled where it is taken; the last step is the last element. */
  ghost predicate Run(capacity: nat, steps: seq<Step>)
    decreases |steps|, 0
  {
    steps != [] ==>
      && Run(capacity, steps[..|steps| - 1])
      && Enabled(After(capacity, steps[..|steps| - 1]), steps[|steps| - 1])
  }

  ghost function After(capacity: nat, steps: seq<Step>): Bus
    requires Run(capacity, steps)
    decreases |steps|, 1
  {
    if steps == [] then Created(capacity)
    else Next(After(capacity, steps[..|steps| - 1]), steps[|steps| - 1])
  }

  // ---------- The history, told from the log ----------

  function AllAccepted(log: seq<Entry>): multiset<Event> {
    if log == [] then multiset{}
    else
      var x := log[|log| - 1];
      AllAccepted(log[..|log| - 1]) + (if x.Accepted? then multiset{x.e} else multiset{})
  }

  function AllDeleted(log: seq<Entry>): multiset<Event> {
    if log == [] then multiset{}
    else
      var x := log[|log| - 1];
      AllDeleted(log[..|log| - 1]) + (if x.Deleted? then multiset{x.e} else multiset{})
  }

  function AllRejected(log: seq<Entry>): multiset<Event> {
    if log == [] then multiset{}
    else
      var x := log[|log| - 1];
      AllRejected(log[..|log| - 1]) + (if x.Rejected? then multiset{x.e} else multiset{})
  }

  /** Accepted and not popped since. */
  function Queued(log: seq<Entry>): multiset<Event> {
    if log == [] then multiset{}
    else QueuedNext(Queued(log[..|log| - 1]), log[|log| - 1])
  }

  function QueuedNext(queued: multiset<Event>, x: Entry): multiset<Event> {
    if x.Accepted? then queued + multiset{x.e}
    else if x.Popped? then queued - multiset{x.e}
    else queued
  }

  /** Every handler call made for an event. */
  function Calls(log: seq<Entry>, e: Event): multiset<Handler> {
    if log == [] then multiset{}
    else
      var x := log[|log| - 1];
      Calls(log[..|log| - 1], e) + (if x.Processed? && x.e == e then multiset{x.h} else multiset{})
  }

  /** Subscribed to a name and not unsubscribed since. */
  function Subscribers(log: seq<Entry>, name: string): set<Handler> {
    if log == [] then {} else SubscribersNext(Subscribers(log[..|log| - 1], name), log[|log| - 1], name)
  }

  function SubscribersNext(hs: set<Handler>, x: Entry, name: string): set<Handler> {
    if x.Subscribed? && x.name == name then hs + {x.h}
    else if x.Unsubscribed? && x.name == name then hs - {x.h}
    else hs
  }

  /** The handlers an event was to be delivered to. */
  function SnapshotOf(log: seq<Entry>, e: Event): Option<set<Handler>> {
    if log == [] then None
    else
      var x := log[|log| - 1];
      if x.Snapped? && x.e == e then Some(x.hs) else SnapshotOf(log[..|log| - 1], e)
  }
}
