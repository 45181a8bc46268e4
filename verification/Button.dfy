/** One button: the debouncer and the press, click and long-press machine that a
    periodic tick drives (components/button/iot_button.c). */
module Button {

  datatype Event =
    | PressDown
    | PressUp
    | PressRepeat
    | SingleClick
    | DoubleClick
    | LongPressStart
    | LongPressHold
    | NonePress

  /** DEBOUNCE_TICKS, SHORT_TICKS and LONG_TICKS. */
  datatype Ticks = Ticks(debounce: nat, short: nat, long: nat) {
    predicate Valid() {
      1 <= debounce <= 8 && short < 0xFFFF && long < 0xFFFF
    }
  }

  /** The build options and their ranges; times are in milliseconds. */
  datatype Options = Options(period: nat, debounce: nat, shortPress: nat, longPress: nat) {
    predicate Valid() {
      && 2 <= period <= 20
      && 1 <= debounce <= 8
      && 50 <= shortPress <= 800
      && 500 <= longPress <= 5000
    }

    function ToTicks(): Ticks
      requires Valid()
    {
      Ticks(debounce, shortPress / period, longPress / period)
    }
  }

  /** Every permitted build keeps both thresholds far below the wrap of the 16-bit tick counter; each is the number
      of whole periods in its time. */
  lemma OptionsAreValid(o: Options)
    requires o.Valid()
    ensures var t := o.ToTicks();
            && t.Valid() && t.debounce == o.debounce
            && 2 <= t.short <= 400 && 25 <= t.long <= 2500
            && t.short * o.period <= o.shortPress < (t.short + 1) * o.period
            && t.long * o.period <= o.longPress < (t.long + 1) * o.period
  {
    QuotientBounds(o.shortPress, o.period, 2, 400);
    QuotientBounds(o.longPress, o.period, 25, 2500);
  }

  lemma QuotientBounds(n: nat, d: nat, lo: nat, hi: nat)
    requires d > 0 && lo * d <= n <= hi * d
    ensures lo <= n / d <= hi
    ensures (n / d) * d <= n < (n / d + 1) * d
  {
    var q := n / d;
    assert q * d <= n < (q + 1) * d;
    CancelFactor(lo, q + 1, d);
    assert (hi + 1) * d == hi * d + d;
    CancelFactor(q, hi + 1, d);
  }

  lemma CancelFactor(a: int, b: int, d: nat)
    requires a * d < b * d
    ensures a < b
  {
    assert (b - a) * d > 0;
  }

  // ---------- Debouncing ----------

  /** The stored level and the 3-bit count of consecutive readings that differ from it. */
  datatype Debouncer = Debouncer(level: bool, cnt: nat)

  function Sample(debounce: nat, d: Debouncer, reading: bool): Debouncer {
    if reading != d.level then
      var cnt := (d.cnt + 1) % 8;
      if cnt >= debounce then Debouncer(reading, 0) else d.(cnt := cnt)
    else
      d.(cnt := 0)
  }

  // ---------- The press machine ----------

  datatype Machine = Machine(state: nat, ticks: nat, repeat: nat, event: Event)

  /** The machine after one tick, and the events whose callbacks the tick calls, in order. */
  datatype Out = Out(machine: Machine, events: seq<Event>)

  /** The switch on the state, the tick counter already advanced. */
  function Switch(t: Ticks, m: Machine, pressed: bool): Out {
    match m.state
    case 0 =>
      if pressed then
        Out(Machine(1, 0, 1, PressDown), [PressDown])
      else
        Out(m.(event := NonePress), [])
    case 1 =>
      if !pressed then
        Out(m.(state := 2, ticks := 0, event := PressUp), [PressUp])
      else if m.ticks > t.long then
        Out(m.(state := 5, event := LongPressStart), [LongPressStart])
      else
        Out(m, [])
    case 2 =>
      if pressed then
        Out(Machine(3, 0, (m.repeat + 1) % 0x100, PressDown), [PressDown, PressRepeat])
      else if m.ticks > t.short then
        if m.repeat == 1 then
          Out(m.(state := 0, event := SingleClick), [SingleClick])
        else if m.repeat == 2 then
          Out(m.(state := 0, event := DoubleClick), [DoubleClick])
        else
          Out(m.(state := 0), [])
      else
        Out(m, [])
    case 3 =>
      if pressed then
        Out(m, [])
      else if m.ticks < t.short then
        Out(m.(state := 2, ticks := 0, event := PressUp), [PressUp])
      else
        Out(m.(state := 0, event := PressUp), [PressUp])
    case 5 =>
      if pressed then
        Out(m.(event := LongPressHold), [LongPressHold])
      else
        Out(m.(state := 0, event := PressUp), [PressUp])
    case _ =>
      Out(m, [])
  }

  /** The 16-bit counter runs in every state but 0. */
  function CountTick(m: Machine): Machine {
    if m.state > 0 then m.(ticks := (m.ticks + 1) % 0x1_0000) else m
  }

  function Advance(t: Ticks, m: Machine, pressed: bool): Out {
    Switch(t, CountTick(m), pressed)
  }

  /** The states in which the button counts as held down. */
  predicate Down(m: Machine) {
    m.state == 1 || m.state == 3 || m.state == 5
  }

  /** What holds of the machine between ticks. */
  predicate MachineInv(t: Ticks, m: Machine) {
    && m.state in {0, 1, 2, 3, 5}
    && m.ticks < 0x1_0000
    && m.repeat < 0x100
    && (m.state == 1 ==> m.ticks <= t.long && m.repeat == 1)
    && (m.state == 2 ==> m.ticks <= t.short)
  }

  /** PRESS_DOWN events minus PRESS_UP events. */
  function Net(es: seq<Event>): int {
    if es == [] then 0
    else (if es[0] == PressDown then 1 else if es[0] == PressUp then -1 else 0) + Net(es[1..])
  }

  function DownCount(m: Machine): int {
    if Down(m) then 1 else 0
  }

  lemma NetConcat(a: seq<Event>, b: seq<Event>)
    ensures Net(a + b) == Net(a) + Net(b)
  {
    if a == [] {
      assert a + b == b;
    } else {
      assert (a + b)[1..] == a[1..] + b;
      NetConcat(a[1..], b);
    }
  }

  lemma AdvanceKeepsInv(t: Ticks, m: Machine, pressed: bool)
    requires MachineInv(t, m)
    ensures MachineInv(t, Advance(t, m, pressed).machine)
    ensures Down(Advance(t, m, pressed).machine) <==> pressed
    ensures DownCount(m) + Net(Advance(t, m, pressed).events) == DownCount(Advance(t, m, pressed).machine)
  {
    var es := Advance(t, m, pressed).events;
    if |es| == 2 {
      assert es[1..] == [PressRepeat];
    }
  }

  // ---------- The whole handler ----------

  datatype Button = Button(debouncer: Debouncer, machine: Machine, active: bool) {
    predicate Pressed() {
      debouncer.level == active
    }

    predicate Inv(t: Ticks) {
      && MachineInv(t, machine)
      && debouncer.cnt < 8
      && (Down(machine) <==> Pressed())
    }
  }

  /** A new button: zero-filled, and released whatever its active level. */
  function Created(active: bool): Button {
    Button(Debouncer(!active, 0), Machine(0, 0, 0, NonePress), active)
  }

  datatype Handled = Handled(button: Button, events: seq<Event>)

  function Handle(t: Ticks, b: Button, reading: bool): Handled {
    var debouncer := Sample(t.debounce, b.debouncer, reading);
    var out := Advance(t, b.machine, debouncer.level == b.active);
    Handled(Button(debouncer, out.machine, b.active), out.events)
  }

  /** The events of a run of the handler, flattened, and the button it leaves. */
  function HandleAll(t: Ticks, b: Button, readings: seq<bool>): Handled
    decreases |readings|
  {
    if readings == [] then Handled(b, [])
    else
      var first := Handle(t, b, readings[0]);
      var rest := HandleAll(t, first.button, readings[1..]);
      Handled(rest.button, first.events + rest.events)
  }

  /** The button invariant over every run: the state is one of the five live ones, it says
      "down" exactly when the debounced level is active, and presses balance releases. */
  lemma {:induction false} RunKeepsInv(t: Ticks, b: Button, readings: seq<bool>)
    requires b.Inv(t)
    ensures HandleAll(t, b, readings).button.Inv(t)
    ensures DownCount(b.machine) + Net(HandleAll(t, b, readings).events)
         == DownCount(HandleAll(t, b, readings).button.machine)
    decreases |readings|
  {
    if readings != [] {
      var first := Handle(t, b, readings[0]);
      AdvanceKeepsInv(t, b.machine, Sample(t.debounce, b.debouncer, readings[0]).level == b.active);
      RunKeepsInv(t, first.button, readings[1..]);
      NetConcat(first.events, HandleAll(t, first.button, readings[1..]).events);
    }
  }

  /** From creation, a button has been pressed once more than it has been released exactly when
      its debounced level is the active one. */
  lemma CreatedRunBalances(t: Ticks, active: bool, readings: seq<bool>)
    ensures var h := HandleAll(t, Created(active), readings);
            h.button.Inv(t) && Net(h.events) == if h.button.Pressed() then 1 else 0
  {
    RunKeepsInv(t, Created(active), readings);
    HandleAllKeepsActive(t, Created(active), readings);
  }

  lemma {:induction false} HandleAllKeepsActive(t: Ticks, b: Button, readings: seq<bool>)
    ensures HandleAll(t, b, readings).button.active == b.active
    decreases |readings|
  {
    if readings != [] {
      HandleAllKeepsActive(t, Handle(t, b, readings[0]).button, readings[1..]);
    }
  }

  lemma {:induction false} HandleAllSnoc(t: Ticks, b: Button, readings: seq<bool>, reading: bool)
    ensures var h := HandleAll(t, b, readings);
            var last := Handle(t, h.button, reading);
            HandleAll(t, b, readings + [reading]) == Handled(last.button, h.events + last.events)
    decreases |readings|
  {
    hide Handle;
    var all := readings + [reading];
    if readings == [] {
      assert all[1..] == [];
    } else {
      assert all[1..] == readings[1..] + [reading];
      HandleAllSnoc(t, Handle(t, b, readings[0]).button, readings[1..], reading);
    }
  }
}
