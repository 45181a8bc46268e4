/** The event bus told by its steps alone: who is subscribed, which events are accepted, how far shutdown is. */
module EventBusSteps {
  import opened EventBus
  import opened EventBusSafety
  import opened EventBusOrder

  // ---------- Subscriptions ----------

  /** The handlers whose last granted subscription or unsubscription of the name is a subscription. */
  function SubscribedBy(steps: seq<Step>, name: string): set<Handler> {
    if steps == [] || name == "" then {}
    else
      var before := SubscribedBy(steps[..|steps| - 1], name);
      match steps[|steps| - 1]
      case Subscribe(n, h, locked) => if n == name && locked then before + {h} else before
      case Unsubscribe(n, h, locked) => if n == name && locked then before - {h} else before
      case _ => before
  }

  lemma HandlersStep(s: Bus, step: Step, name: string)
    requires Enabled(s, step)
    ensures HandlersOf(Next(s, step), name) ==
            match step
            case Subscribe(n, h, locked) =>
              if n == name && name != "" && locked then HandlersOf(s, name) + {h} else HandlersOf(s, name)
            case Unsubscribe(n, h, locked) =>
              if n == name && name != "" && locked then HandlersOf(s, name) - {h} else HandlersOf(s, name)
            case _ => HandlersOf(s, name)
  {
  }

  lemma {:induction false} NamelessHasNone(capacity: nat, steps: seq<Step>)
    requires Run(capacity, steps)
    ensures HandlersOf(After(capacity, steps), "") == {}
    decreases |steps|
  {
    hide Next, HandlersOf;
    if steps == [] {
      NewHasNone(capacity, "");
    } else {
      NamelessHasNone(capacity, steps[..|steps| - 1]);
      HandlersStep(After(capacity, steps[..|steps| - 1]), steps[|steps| - 1], "");
    }
  }

  lemma NewHasNone(capacity: nat, name: string)
    ensures HandlersOf(Created(capacity), name) == {}
  {
  }

  /** Over every interleaving the handlers of a name are those its granted subscribe and unsubscribe calls leave. */
  lemma {:induction false} HandlersAreSubscribed(capacity: nat, steps: seq<Step>, name: string)
    requires Run(capacity, steps)
    ensures HandlersOf(After(capacity, steps), name) == SubscribedBy(steps, name)
    decreases |steps|
  {
    hide Next, HandlersOf;
    if name == "" {
      NamelessHasNone(capacity, steps);
    } else if steps == [] {
      NewHasNone(capacity, name);
    } else {
      HandlersAreSubscribed(capacity, steps[..|steps| - 1], name);
      HandlersStep(After(capacity, steps[..|steps| - 1]), steps[|steps| - 1], name);
    }
  }

  /** So an event goes to exactly the handlers subscribed to its name by the steps before its snapshot, or to none if
      the handler lock timed out. */
  lemma SnapshotOfSubscribed(capacity: nat, steps: seq<Step>, locked: bool)
    requires Run(capacity, steps + [LoopSnapshot(locked)])
    ensures Run(capacity, steps) && After(capacity, steps).loop.AtSnapshot?
    ensures var e := After(capacity, steps).loop.taken;
            After(capacity, steps + [LoopSnapshot(locked)]).loop
            == AtDeliver(e, if locked then SubscribedBy(steps, e.name) else {})
  {
    hide HandlersOf;
    assert (steps + [LoopSnapshot(locked)])[..|steps|] == steps;
    SnapshotEffect(After(capacity, steps), locked);
    HandlersAreSubscribed(capacity, steps, After(capacity, steps).loop.taken.name);
  }

  // ---------- Publishing and shutdown ----------

  /** What the steps say has become of the publishes, and how many events are queued. */
  datatype Books = Books(begun: set<Event>, accepted: set<Event>, rejected: set<Event>, queued: int)

  /** A publish begun after the destructor is rejected at once; any other is decided by its lock and the room in the
      queue at that moment. */
  function Book(capacity: nat, steps: seq<Step>): Books {
    if steps == [] then Books({}, {}, {}, 0)
    else
      var before, b := steps[..|steps| - 1], Book(capacity, steps[..|steps| - 1]);
      match steps[|steps| - 1]
      case PubBegin(e) =>
        if DtorStart in before then b.(begun := b.begun + {e}, rejected := b.rejected + {e})
        else b.(begun := b.begun + {e})
      case PubEnd(e, locked) =>
        if locked && b.queued < capacity then b.(accepted := b.accepted + {e}, queued := b.queued + 1)
        else b.(rejected := b.rejected + {e})
      case LoopPop(_) => b.(queued := b.queued - 1)
      case _ => b
  }

  ghost predicate BooksOk(s: Bus, steps: seq<Step>, b: Books) {
    && s.begun == b.begun && |s.queue| == b.queued
    && (forall e :: e in AllAccepted(s.log) <==> e in b.accepted)
    && (forall e :: e in AllRejected(s.log) <==> e in b.rejected)
  }

  /** How far shutdown is, by which of its steps have been taken. */
  ghost predicate PhasesOk(s: Bus, steps: seq<Step>) {
    && (s.exit <==> DtorStart in steps)
    && (s.dtor == Passed <==> DtorTake in steps)
  }

  lemma InLonger(steps: seq<Step>, x: Step)
    requires steps != []
    ensures x in steps <==> x in steps[..|steps| - 1] || x == steps[|steps| - 1]
  {
    assert steps == steps[..|steps| - 1] + [steps[|steps| - 1]];
  }

  lemma PhaseStep(s: Bus, step: Step)
    requires Enabled(s, step)
    ensures var t := Next(s, step);
            && t.capacity == s.capacity
            && (t.exit <==> s.exit || step == DtorStart)
            && (t.dtor == Passed <==> s.dtor == Passed || step == DtorTake)
  {
  }

  lemma {:induction false} PhasesOfSteps(capacity: nat, steps: seq<Step>)
    requires Run(capacity, steps)
    ensures PhasesOk(After(capacity, steps), steps) && After(capacity, steps).capacity == capacity
    decreases |steps|
  {
    hide Next;
    if steps != [] {
      var before, last := steps[..|steps| - 1], steps[|steps| - 1];
      PhasesOfSteps(capacity, before);
      PhaseStep(After(capacity, before), last);
      InLonger(steps, DtorStart);
      InLonger(steps, DtorTake);
    }
  }

  /** The stages of the loop, without what they hold. */
  datatype Place = Popping | Snapping | Delivering | Idling | Checking | Giving | Left

  function PlaceOf(pc: LoopPc): Place {
    match pc
    case AtPop => Popping
    case AtSnapshot(_) => Snapping
    case AtDeliver(_, _) => Delivering
    case AtWait => Idling
    case AtCheck => Checking
    case AtGive => Giving
    case Gone => Left
  }

  /** Where the loop's own last step has brought it: it idles only after finding the queue empty under its lock, and
      ends only by a check after the destructor has begun. */
  function PlaceBy(steps: seq<Step>): Place {
    if steps == [] then Popping
    else
      match steps[|steps| - 1]
      case LoopPop(_) => Snapping
      case LoopPopEmpty => Idling
      case LoopPopTimeout => Checking
      case LoopSnapshot(_) => Delivering
      case LoopProcess(_) => Delivering
      case LoopDelete => Checking
      case LoopWait => Checking
      case LoopCheck => if DtorStart in steps then Giving else Popping
      case LoopGive => Left
      case _ => PlaceBy(steps[..|steps| - 1])
  }

  lemma PlaceStep(s: Bus, step: Step)
    requires Enabled(s, step)
    ensures PlaceOf(Next(s, step).loop) ==
            match step
            case LoopPop(_) => Snapping
            case LoopPopEmpty => Idling
            case LoopPopTimeout => Checking
            case LoopSnapshot(_) => Delivering
            case LoopProcess(_) => Delivering
            case LoopDelete => Checking
            case LoopWait => Checking
            case LoopCheck => if s.exit then Giving else Popping
            case LoopGive => Place.Left
            case _ => PlaceOf(s.loop)
  {
  }

  /** Over every interleaving. */
  lemma {:induction false} PlaceOfSteps(capacity: nat, steps: seq<Step>)
    requires Run(capacity, steps)
    ensures PlaceOf(After(capacity, steps).loop) == PlaceBy(steps)
    decreases |steps|
  {
    hide Next, PlaceOf;
    if steps == [] {
      NewPops(capacity);
    } else {
      var before, last := steps[..|steps| - 1], steps[|steps| - 1];
      PlaceOfSteps(capacity, before);
      PhasesOfSteps(capacity, before);
      PlaceStep(After(capacity, before), last);
      InLonger(steps, DtorStart);
    }
  }

  lemma NewPops(capacity: nat)
    ensures PlaceOf(Created(capacity).loop) == Popping
  {
  }

  /** What one step adds to the accepted and the rejected events. */
  lemma BooksStep(s: Bus, step: Step)
    requires Enabled(s, step)
    ensures var t := Next(s, step);
            match step
            case PubBegin(e) =>
              && t.begun == s.begun + {e} && t.queue == s.queue
              && t.log == if s.exit then s.log + [Rejected(e)] else s.log
            case PubEnd(e, locked) =>
              && t.begun == s.begun
              && if locked && |s.queue| < s.capacity then
                   t.queue == s.queue + multiset{e} && t.log == s.log + [Accepted(e)]
                 else t.queue == s.queue && t.log == s.log + [Rejected(e)]
            case LoopPop(e) => t.begun == s.begun && |t.queue| == |s.queue| - 1
            case _ => t.begun == s.begun && t.queue == s.queue
  {
  }

  lemma QuietBags(s: Bus, step: Step)
    requires Enabled(s, step) && Quiet(step)
    ensures var t := Next(s, step);
            AllAccepted(t.log) == AllAccepted(s.log) && AllRejected(t.log) == AllRejected(s.log)
  {
    hide Next, Enabled, Quiet, SameBags, AllAccepted, AllRejected, AllDeleted;
    QuietEffect(s, step);
    var t := Next(s, step);
    if t.log != s.log {
      var x :| t.log == s.log + [x] && Neutral(x);
      BagsSnoc(s.log, x);
    }
  }

  lemma OtherBags(s: Bus, step: Step)
    requires Enabled(s, step) && !step.PubBegin? && !step.PubEnd?
    ensures var t := Next(s, step);
            AllAccepted(t.log) == AllAccepted(s.log) && AllRejected(t.log) == AllRejected(s.log)
  {
    hide Next, AllAccepted, AllRejected, AllDeleted, IsTop;
    if step.LoopPop? {
      PopEffect(s, step.e);
      BagsSnoc(s.log, Popped(step.e));
    } else if step.LoopDelete? {
      DeleteEffect(s);
      BagsSnoc(s.log, Deleted(s.loop.event));
    } else {
      QuietBags(s, step);
    }
  }

  lemma BooksNext(s: Bus, steps: seq<Step>, step: Step, b: Books)
    requires Enabled(s, step) && BooksOk(s, steps, b) && (s.exit <==> DtorStart in steps)
    requires b == Book(s.capacity, steps)
    ensures BooksOk(Next(s, step), steps + [step], Book(s.capacity, steps + [step]))
  {
    hide Next, AllAccepted, AllRejected, AllDeleted, Enabled;
    assert (steps + [step])[..|steps|] == steps;
    BooksStep(s, step);
    match step
    case PubBegin(e) =>
      BagsSnoc(s.log, Rejected(e));
    case PubEnd(e, locked) =>
      BagsSnoc(s.log, Rejected(e));
      BagsSnoc(s.log, Accepted(e));
    case _ => OtherBags(s, step);
  }

  /** Over every interleaving the steps alone tell which events were accepted and rejected, and how many wait. */
  lemma {:induction false} BooksOfSteps(capacity: nat, steps: seq<Step>)
    requires Run(capacity, steps)
    ensures BooksOk(After(capacity, steps), steps, Book(capacity, steps))
    decreases |steps|
  {
    hide Next, AllAccepted, AllRejected, BooksOk, Book;
    if steps == [] {
      NewBooks(capacity);
    } else {
      var before, last := steps[..|steps| - 1], steps[|steps| - 1];
      assert steps == before + [last];
      BooksOfSteps(capacity, before);
      PhasesOfSteps(capacity, before);
      BooksNext(After(capacity, before), before, last, Book(capacity, before));
    }
  }

  lemma NewBooks(capacity: nat)
    ensures BooksOk(Created(capacity), [], Book(capacity, []))
  {
  }

  lemma {:induction false} StaysRejected(capacity: nat, steps: seq<Step>, n: nat)
    requires n <= |steps|
    ensures Book(capacity, steps[..n]).rejected <= Book(capacity, steps).rejected
    decreases |steps|
  {
    if n < |steps| {
      assert steps[..n] == steps[..|steps| - 1][..n];
      StaysRejected(capacity, steps[..|steps| - 1], n);
    } else {
      assert steps[..n] == steps;
    }
  }

  /** A publish begun when the bus is exiting is rejected, and stays rejected: it is never accepted. */
  lemma RejectedWhenExiting(capacity: nat, steps: seq<Step>, i: nat, e: Event)
    requires Run(capacity, steps) && i < |steps| && steps[i] == PubBegin(e) && DtorStart in steps[..i]
    ensures e in AllRejected(After(capacity, steps).log) && e !in AllAccepted(After(capacity, steps).log)
  {
    hide After, AllAccepted, AllRejected, Run, Book;
    RejectedAtOnce(capacity, steps, i, e);
    StaysRejected(capacity, steps, i + 1);
    BooksOfSteps(capacity, steps);
    NeverBoth(capacity, steps, e);
  }

  lemma RejectedAtOnce(capacity: nat, steps: seq<Step>, i: nat, e: Event)
    requires i < |steps| && steps[i] == PubBegin(e) && DtorStart in steps[..i]
    ensures e in Book(capacity, steps[..i + 1]).rejected
  {
    assert steps[..i + 1][..i] == steps[..i];
  }

  lemma NeverBoth(capacity: nat, steps: seq<Step>, e: Event)
    requires Run(capacity, steps)
    ensures e in AllRejected(After(capacity, steps).log) ==> e !in AllAccepted(After(capacity, steps).log)
  {
    hide DeliveryInv, HistoryInv, ShutdownInv, After, Run;
    EveryRun(capacity, steps);
    OnePlace(After(capacity, steps), e);
  }

  // ---------- Which steps can be taken ----------

  /** A publish that has passed its exit test and not taken its lock yet. */
  predicate Pending(steps: seq<Step>, e: Event) {
    steps != []
    && match steps[|steps| - 1]
       case PubBegin(f) => if f == e then DtorStart !in steps else Pending(steps[..|steps| - 1], e)
       case PubEnd(f, _) => f != e && Pending(steps[..|steps| - 1], e)
       case _ => Pending(steps[..|steps| - 1], e)
  }

  lemma PublishersStep(s: Bus, step: Step, e: Event)
    requires Enabled(s, step)
    ensures var t := Next(s, step);
            && (e in t.begun <==> e in s.begun || step == PubBegin(e))
            && (e in t.checked <==> match step
                                    case PubBegin(f) => if f == e && !s.exit then true else e in s.checked
                                    case PubEnd(f, _) => f != e && e in s.checked
                                    case _ => e in s.checked)
  {
    if !step.PubBegin? && !step.PubEnd? {
      OthersPublishNothing(s, step);
    }
  }

  lemma OthersPublishNothing(s: Bus, step: Step)
    requires Enabled(s, step) && !step.PubBegin? && !step.PubEnd?
    ensures Next(s, step).begun == s.begun && Next(s, step).checked == s.checked
  {
    hide Next, IsTop;
    if step.LoopPop? {
      PopEffect(s, step.e);
    } else if step.LoopDelete? {
      DeleteEffect(s);
    } else {
      QuietEffect(s, step);
    }
  }

  /** An event between its exit test and its lock has been begun. */
  lemma {:induction false} PublishersOfSteps(capacity: nat, steps: seq<Step>, e: Event)
    requires Run(capacity, steps)
    ensures e in After(capacity, steps).begun <==> PubBegin(e) in steps
    ensures e in After(capacity, steps).checked <==> Pending(steps, e)
    ensures Pending(steps, e) ==> PubBegin(e) in steps
    decreases |steps|
  {
    hide Next;
    if steps != [] {
      var before, last := steps[..|steps| - 1], steps[|steps| - 1];
      PublishersOfSteps(capacity, before, e);
      PhasesOfSteps(capacity, before);
      PublishersStep(After(capacity, before), last, e);
      InLonger(steps, PubBegin(e));
      InLonger(steps, DtorStart);
    }
  }

  /** Over every interleaving: any thread may subscribe, unsubscribe or publish a fresh event at any time, a publish
      under way can always be ended, the destructor starts once and takes the token once the loop has left, and the
      loop takes the step of its place. */
  lemma EnabledIsTold(capacity: nat, steps: seq<Step>, step: Step)
    requires Run(capacity, steps)
    ensures var s, place := After(capacity, steps), PlaceBy(steps);
            Enabled(s, step) <==>
              match step
              case PubBegin(e) => PubBegin(e) !in steps
              case PubEnd(e, _) => Pending(steps, e)
              case Subscribe(_, _, _) => true
              case Unsubscribe(_, _, _) => true
              case LoopPop(e) => place == Popping && IsTop(s.queue, e)
              case LoopPopEmpty => place == Popping && s.queue == multiset{}
              case LoopPopTimeout => place == Popping
              case LoopSnapshot(_) => place == Snapping
              case LoopProcess(h) => place == Delivering && h in EventBusOrder.Left(s.loop)
              case LoopDelete => place == Delivering && EventBusOrder.Left(s.loop) == {}
              case LoopWait => place == Idling
              case LoopCheck => place == Checking
              case LoopGive => place == Giving
              case DtorStart => DtorStart !in steps
              case DtorTake => DtorStart in steps && place == Place.Left && DtorTake !in steps
  {
    hide After, Run, PlaceBy, Pending, Conserved, DeliveryInv, HistoryInv, IsTop;
    PlaceOfSteps(capacity, steps);
    PhasesOfSteps(capacity, steps);
    EveryRun(capacity, steps);
    if step.PubBegin? || step.PubEnd? {
      PublishersOfSteps(capacity, steps, step.e);
    }
  }
}
