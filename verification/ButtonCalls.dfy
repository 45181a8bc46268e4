/** What a button's callbacks find when they run: iot_button_get_event and iot_button_get_repeat read
    fields that the handler is in the middle of updating. */
module ButtonCalls {
  import opened Button

  /** A callback run: the event it is registered for, the event and the press count it can read. */
  datatype Call = Call(event: Event, shown: Event, repeat: nat)

  /** The press count after the first event of a stream: a press starts a count of 1 unless it repeats. */
  function NextCount(es: seq<Event>, count: nat): nat
    requires es != []
  {
    if es[0] == PressRepeat then (count + 1) % 0x100
    else if es[0] == PressDown && (|es| == 1 || es[1] != PressRepeat) then 1
    else count
  }

  function CountAfter(es: seq<Event>, count: nat): nat {
    if es == [] then count else CountAfter(es[1..], NextCount(es, count))
  }

  /** A callback reads its own event, but a PRESS_REPEAT one reads PRESS_DOWN. Only PRESS_REPEAT reads the
      count of its own press; a PRESS_DOWN reads the count from before it. */
  function CallFor(e: Event, count: nat): Call {
    if e == PressRepeat then Call(e, PressDown, (count + 1) % 0x100) else Call(e, e, count)
  }

  function CallIf(e: Event, count: nat, cb: set<Event>): seq<Call> {
    if e in cb then [CallFor(e, count)] else []
  }

  /** The callbacks run for a stream of events, from a press count. */
  function CallsOf(es: seq<Event>, count: nat, cb: set<Event>): seq<Call> {
    if es == [] then []
    else CallIf(es[0], count, cb) + CallsOf(es[1..], NextCount(es, count), cb)
  }

  /** The event lists of one tick. */
  predicate OfTick(es: seq<Event>) {
    |es| <= 1 || es == [PressDown, PressRepeat]
  }

  lemma CallsOfTick(es: seq<Event>, count: nat, cb: set<Event>)
    requires OfTick(es)
    ensures CallsOf(es, count, cb)
         == if es == [] then []
            else if |es| == 1 then CallIf(es[0], count, cb)
            else CallIf(PressDown, count, cb) + CallIf(PressRepeat, count, cb)
  {
    if |es| == 1 {
      assert es[1..] == [];
    } else if |es| == 2 {
      assert es[1..] == [PressRepeat] && es[1..][1..] == [];
    }
  }

  lemma CountOne(e: Event, count: nat)
    ensures CountAfter([e], count) == NextCount([e], count)
  {
    assert [e][1..] == [];
  }

  lemma CountTwo(count: nat)
    ensures CountAfter([PressDown, PressRepeat], count) == (count + 1) % 0x100
  {
    assert [PressDown, PressRepeat][1..] == [PressRepeat];
    CountOne(PressRepeat, count);
  }

  lemma {:induction false} CallsConcat(a: seq<Event>, b: seq<Event>, count: nat, cb: set<Event>)
    requires b == [] || b[0] != PressRepeat
    ensures CallsOf(a + b, count, cb) == CallsOf(a, count, cb) + CallsOf(b, CountAfter(a, count), cb)
    ensures CountAfter(a + b, count) == CountAfter(b, CountAfter(a, count))
    decreases |a|
  {
    hide NextCount, CallFor;
    if a == [] {
      assert a + b == b;
    } else {
      assert (a + b)[1..] == a[1..] + b;
      NextCountConcat(a, b, count);
      CallsConcat(a[1..], b, NextCount(a, count), cb);
    }
  }

  lemma NextCountConcat(a: seq<Event>, b: seq<Event>, count: nat)
    requires a != [] && (b == [] || b[0] != PressRepeat)
    ensures NextCount(a + b, count) == NextCount(a, count)
  {
  }

  // ---------- One tick ----------

  /** The press count a tick leaves is told by its events. */
  lemma TickCounts(t: Ticks, m: Machine, pressed: bool)
    ensures var o := Advance(t, m, pressed);
            && o.machine.repeat == CountAfter(o.events, m.repeat)
            && (o.events == [] || o.events[0] != PressRepeat)
  {
    var es := Advance(t, m, pressed).events;
    if |es| == 1 {
      CountOne(es[0], m.repeat);
    } else if |es| == 2 {
      CountTwo(m.repeat);
    }
  }

  /** What every call must show. */
  predicate Shows(c: Call) {
    && c.shown == (if c.event == PressRepeat then PressDown else c.event)
    && (c.event == SingleClick ==> c.repeat == 1)
    && (c.event == DoubleClick ==> c.repeat == 2)
  }

  lemma TickShows(t: Ticks, m: Machine, pressed: bool, cb: set<Event>)
    ensures forall c :: c in CallsOf(Advance(t, m, pressed).events, m.repeat, cb) ==> Shows(c) && c.event in cb
  {
    hide CallsOf;
    CallsOfTick(Advance(t, m, pressed).events, m.repeat, cb);
  }

  // ---------- Whole runs ----------

  /** The callbacks of a run, tick by tick, each reading the state its tick found. */
  function RunCalls(t: Ticks, b: Button, readings: seq<bool>, cb: set<Event>): seq<Call>
    decreases |readings|
  {
    if readings == [] then []
    else
      var first := Handle(t, b, readings[0]);
      CallsOf(first.events, b.machine.repeat, cb) + RunCalls(t, first.button, readings[1..], cb)
  }

  lemma {:induction false} RunStartsFresh(t: Ticks, b: Button, readings: seq<bool>)
    ensures var es := HandleAll(t, b, readings).events; es == [] || es[0] != PressRepeat
    decreases |readings|
  {
    if readings != [] {
      var first := Handle(t, b, readings[0]);
      TickCounts(t, b.machine, Sample(t.debounce, b.debouncer, readings[0]).level == b.active);
      RunStartsFresh(t, first.button, readings[1..]);
    }
  }

  /** Over every run the callbacks are those of the whole event stream, and what each of them reads, as well as
      the press count at the end, is told by the events before it. */
  lemma {:induction false} CallsOfStream(t: Ticks, b: Button, readings: seq<bool>, cb: set<Event>)
    ensures var h := HandleAll(t, b, readings);
            && RunCalls(t, b, readings, cb) == CallsOf(h.events, b.machine.repeat, cb)
            && h.button.machine.repeat == CountAfter(h.events, b.machine.repeat)
    decreases |readings|
  {
    if readings != [] {
      hide Advance, Sample, CallsOf, CountAfter;
      var first := Handle(t, b, readings[0]);
      TickCounts(t, b.machine, Sample(t.debounce, b.debouncer, readings[0]).level == b.active);
      CallsOfStream(t, first.button, readings[1..], cb);
      RunStartsFresh(t, first.button, readings[1..]);
      CallsConcat(first.events, HandleAll(t, first.button, readings[1..]).events, b.machine.repeat, cb);
    } else {
      assert CountAfter([], b.machine.repeat) == b.machine.repeat;
    }
  }

  /** In every run each callback reads the event it is registered for, PRESS_REPEAT excepted, and the click
      callbacks read a press count of 1 and 2. */
  lemma {:induction false} EveryCallShows(t: Ticks, b: Button, readings: seq<bool>, cb: set<Event>)
    ensures forall c :: c in RunCalls(t, b, readings, cb) ==> Shows(c) && c.event in cb
    decreases |readings|
  {
    if readings != [] {
      hide Shows, CallsOf, Advance;
      var first := Handle(t, b, readings[0]);
      TickShows(t, b.machine, Sample(t.debounce, b.debouncer, readings[0]).level == b.active, cb);
      EveryCallShows(t, first.button, readings[1..], cb);
    }
  }
}
