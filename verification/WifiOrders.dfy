/** What the Wi-Fi manager asks of the radio and of the LED, told by the calls and events alone. */
module WifiOrders {
  import opened WifiLed
  import L = LedBlink

  /** The requests to the radio of one call or event: a reset of the retry budget for an address and for a start of a
      manager not ready, a first connect when the station starts, a reconnect for a disconnection within the
      budget. */
  function RequestsOf(y: Story, op: Op): seq<Note> {
    match op
    case ManagerStart(_) => if y.ready then [] else [RetryReset]
    case ManagerStop(_) => []
    case StaStarted => [FirstConnect]
    case StaDisconnected => if y.retries < 5 then [Reconnect] else []
    case GotIp => [RetryReset]
    case LedTimer => []
  }

  /** The commands to the LED of one call or event, or the firing of its timer. */
  function OrdersOf(y: Story, op: Op): seq<L.Op> {
    match op
    case ManagerStart(ok) => if y.ready || !ok then [] else [L.OpStart(L.CONNECTING)]
    case ManagerStop(_) => []
    case StaStarted => []
    case StaDisconnected => if y.retries < 5 then [] else [L.OpStop(L.CONNECTING), L.OpStop(L.CONNECTED)]
    case GotIp => [L.OpStop(L.CONNECTING), L.OpStart(L.CONNECTED)]
    case LedTimer => [L.OpFire]
  }

  function Requests(ops: seq<Op>): seq<Note> {
    if ops == [] then []
    else Requests(ops[..|ops| - 1]) + RequestsOf(Tell(ops[..|ops| - 1]), ops[|ops| - 1])
  }

  function Orders(ops: seq<Op>): seq<L.Op> {
    if ops == [] then []
    else Orders(ops[..|ops| - 1]) + OrdersOf(Tell(ops[..|ops| - 1]), ops[|ops| - 1])
  }

  ghost predicate Known(w: Wifi, y: Story) {
    LedOk(w.led) && w.ready == y.ready && w.retry == y.retries
  }

  lemma OneRequests(w: Wifi, y: Story, op: Op)
    requires Known(w, y)
    ensures Apply(w, op).notes == w.notes + RequestsOf(y, op)
  {
    hide L.Start, L.Halt, L.Fire, LedOk;
  }

  /** Over every run the radio has been asked for exactly these, in this order. */
  lemma {:induction false} RequestsMade(ops: seq<Op>)
    ensures After(ops).notes == Requests(ops)
  {
    hide Apply, Tell, RequestsOf, LedOk;
    if ops == [] {
      NothingYet();
    } else {
      var before := ops[..|ops| - 1];
      RequestsMade(before);
      EveryRunShows(before);
      OneRequests(After(before), Tell(before), ops[|ops| - 1]);
    }
  }

  lemma NothingYet()
    ensures After([]).notes == [] && After([]).led == L.Created(L.BLINK_LISTS)
  {
  }

  /** A list of commands and firings, from any state. */
  function Led(s: L.Led, orders: seq<L.Op>): (r: L.Led)
    requires LedOk(s)
    ensures LedOk(r)
  {
    if orders == [] then s else L.Apply(L.BLINK_LISTS, Led(s, orders[..|orders| - 1]), orders[|orders| - 1])
  }

  lemma LedOne(s: L.Led, a: L.Op)
    requires LedOk(s)
    ensures Led(s, [a]) == L.Apply(L.BLINK_LISTS, s, a)
  {
    assert [a][..0] == [];
  }

  lemma LedTwo(s: L.Led, a: L.Op, b: L.Op)
    requires LedOk(s)
    ensures Led(s, [a, b]) == L.Apply(L.BLINK_LISTS, L.Apply(L.BLINK_LISTS, s, a), b)
  {
    assert [a, b][..1] == [a];
    LedOne(s, a);
  }

  lemma {:induction false} LedConcat(s: L.Led, a: seq<L.Op>, b: seq<L.Op>)
    requires LedOk(s)
    ensures Led(s, a + b) == Led(Led(s, a), b)
    decreases |b|
  {
    if b == [] {
      assert a + b == a;
    } else {
      assert (a + b)[..|a + b| - 1] == a + b[..|b| - 1];
      LedConcat(s, a, b[..|b| - 1]);
    }
  }

  lemma OneOrders(w: Wifi, y: Story, op: Op)
    requires Known(w, y)
    ensures Apply(w, op).led == Led(w.led, OrdersOf(y, op))
  {
    hide L.Start, L.Halt, L.Fire, LedOk, Led;
    NoOrder(w.led);
    LedOne(w.led, L.OpStart(L.CONNECTING));
    LedOne(w.led, L.OpFire);
    LedTwo(w.led, L.OpStop(L.CONNECTING), L.OpStop(L.CONNECTED));
    LedTwo(w.led, L.OpStop(L.CONNECTING), L.OpStart(L.CONNECTED));
  }

  lemma NoOrder(s: L.Led)
    requires LedOk(s)
    ensures Led(s, []) == s
  {
  }

  /** Over every run the LED is where these commands and firings alone lead a new one. */
  lemma {:induction false} LedFollowsOrders(ops: seq<Op>)
    ensures LedOk(L.Created(L.BLINK_LISTS))
    ensures After(ops).led == Led(L.Created(L.BLINK_LISTS), Orders(ops))
  {
    L.FirmwareListsAreWellFormed();
    L.CreatedInv(L.BLINK_LISTS);
    var start := L.Created(L.BLINK_LISTS);
    if ops == [] {
      NothingYet();
      NoOrder(start);
    } else {
      hide Apply, Tell, OrdersOf, Led;
      var before := ops[..|ops| - 1];
      LedFollowsOrders(before);
      EveryRunShows(before);
      OneOrders(After(before), Tell(before), ops[|ops| - 1]);
      LedConcat(start, Orders(before), OrdersOf(Tell(before), ops[|ops| - 1]));
    }
  }
}
