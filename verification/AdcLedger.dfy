/** The ADC table seen from outside: the map of buttons and one count decide, over every run, what every
    init and deinit answers (components/button/button_adc.c). */
module AdcLedger {
  import opened AdcTable
  import opened AdcMap

  /** The buttons, and how many slots have been taken since the table was last zero-filled. */
  datatype Ledger = Ledger(buttons: map<Key, Window>, taken: nat)

  datatype Answer = Answer(ledger: Ledger, err: Err)

  /** A new channel takes a slot never used if it is channel 0, or if there is no other free one. */
  function TakenAfter(lim: Limits, l: Ledger, c: nat): nat {
    var used := Channels(l.buttons);
    if c in used then l.taken
    else if (c == 0 && l.taken < lim.channels) || |used| == l.taken then l.taken + 1
    else l.taken
  }

  function LedgerInit(lim: Limits, l: Ledger, cfg: Config): Answer {
    var k, used := Key(cfg.channel, cfg.index), Channels(l.buttons);
    if cfg.channel >= lim.adcMax || cfg.index >= lim.buttons then Answer(l, NotSupported)
    else if cfg.window.max == 0 then Answer(l, InvalidArg)
    else if k in l.buttons || (cfg.channel !in used && |used| >= lim.channels) then Answer(l, InvalidState)
    else Answer(Ledger(l.buttons[k := cfg.window], TakenAfter(lim, l, cfg.channel)), Ok)
  }

  /** Channel 0 is found as long as a slot was never taken; losing the last button zero-fills the table. */
  function LedgerDeinit(lim: Limits, l: Ledger, c: nat, index: nat): Answer {
    if c >= lim.adcMax || index >= lim.buttons then Answer(l, InvalidArg)
    else if c !in Channels(l.buttons) && (c != 0 || l.taken == lim.channels) then Answer(l, InvalidArg)
    else
      var left := l.buttons - {Key(c, index)};
      Answer(Ledger(left, if left == map[] then 0 else l.taken), Ok)
  }

  // ---------- The slots never taken ----------

  predicate Blank(s: Slot) {
    !s.isInit && s.channel == 0
  }

  /** The first slot never taken; |ch| when there is none. */
  function Taken(ch: seq<Slot>): (n: nat)
    ensures n <= |ch|
    ensures n < |ch| ==> Blank(ch[n])
    ensures forall i :: 0 <= i < n ==> !Blank(ch[i])
  {
    if ch == [] || Blank(ch[0]) then 0 else 1 + Taken(ch[1..])
  }

  /** Slots are taken from the front. */
  ghost predicate BlankTail(ch: seq<Slot>) {
    forall i :: Taken(ch) <= i < |ch| ==> Blank(ch[i])
  }

  ghost predicate LedgerInv(lim: Limits, t: Table) {
    Inv(lim, t) && BlankTail(t.ch)
  }

  function View(lim: Limits, t: Table): Ledger
    requires Sized(lim, t)
  {
    Ledger(Contents(lim, t), Taken(t.ch))
  }

  lemma TakenIs(ch: seq<Slot>, n: nat)
    requires n <= |ch| && (n < |ch| ==> Blank(ch[n])) && forall i :: 0 <= i < n ==> !Blank(ch[i])
    ensures Taken(ch) == n
  {
  }

  /** Every slot taken is in use iff the first one not in use was never taken. */
  lemma {:induction false} AllTakenInUse(ch: seq<Slot>)
    requires BlankTail(ch)
    ensures CountInit(ch) <= Taken(ch)
    ensures CountInit(ch) == Taken(ch) <==> FindUnused(ch) == Taken(ch)
    ensures FindUnused(ch) <= Taken(ch)
  {
    if ch != [] {
      if Blank(ch[0]) {
        NoneCounted(ch);
      } else {
        assert forall i :: Taken(ch[1..]) <= i < |ch[1..]| ==> ch[1..][i] == ch[i + 1];
        AllTakenInUse(ch[1..]);
      }
    }
  }

  lemma {:induction false} NoneCounted(ch: seq<Slot>)
    requires forall i :: 0 <= i < |ch| ==> !ch[i].isInit
    ensures CountInit(ch) == 0
  {
    if ch != [] {
      NoneCounted(ch[1..]);
    }
  }

  // ---------- One operation ----------

  /** Taking slot i, one of those taken before or the next one. */
  lemma TakeSlot(ch: seq<Slot>, i: nat, s: Slot)
    requires BlankTail(ch) && i < |ch| && i <= Taken(ch) && s.isInit
    ensures BlankTail(ch[i := s]) && Taken(ch[i := s]) == if i == Taken(ch) then i + 1 else Taken(ch)
  {
    TakenIs(ch[i := s], if i == Taken(ch) then i + 1 else Taken(ch));
  }

  /** The slot an init takes for a channel not in use. */
  lemma NewChannelSlot(lim: Limits, t: Table, c: nat)
    requires LedgerInv(lim, t) && c < lim.adcMax && c !in InitChannels(t.ch)
    ensures Find(t.ch, c) == if c == 0 then Taken(t.ch) else |t.ch|
  {
    var found := Find(t.ch, c);
    if found < |t.ch| {
      assert !t.ch[found].isInit;
      assert SlotInv(lim, t.ch[found]);
    }
  }

  lemma InitTaken(lim: Limits, t: Table, cfg: Config)
    requires LedgerInv(lim, t) && Init(lim, t, cfg).err == Ok
    ensures BlankTail(Init(lim, t, cfg).table.ch)
    ensures Taken(Init(lim, t, cfg).table.ch) == TakenAfter(lim, View(lim, t), cfg.channel)
  {
    hide Contents, CountInit, Channels, Taken, FirstMatch, SlotInv, NoneInit, BlankTail;
    ChannelsAreInit(lim, t);
    CountIsChannels(t.ch);
    AllTakenInUse(t.ch);
    var found := Find(t.ch, cfg.channel);
    var i := if found < |t.ch| then found else FindUnused(t.ch);
    if cfg.channel in InitChannels(t.ch) {
      var j :| 0 <= j < |t.ch| && t.ch[j].isInit && t.ch[j].channel == cfg.channel;
      FindFindsInit(lim, t, j);
      TakenBound(t.ch, i);
    } else {
      NewChannelSlot(lim, t, cfg.channel);
    }
    TakeSlot(t.ch, i, Init(lim, t, cfg).table.ch[i]);
  }

  lemma TakenBound(ch: seq<Slot>, i: nat)
    requires BlankTail(ch) && i < |ch| && ch[i].isInit
    ensures i < Taken(ch)
  {
  }

  /** The table answers an init as the ledger does, and goes on matching it. */
  lemma InitMeetsLedger(lim: Limits, t: Table, cfg: Config)
    requires LedgerInv(lim, t)
    ensures var r, a := Init(lim, t, cfg), LedgerInit(lim, View(lim, t), cfg);
            r.err == a.err && View(lim, r.table) == a.ledger && LedgerInv(lim, r.table)
  {
    hide Contents, Channels, Taken;
    InitErrors(lim, t, cfg);
    InitMeaning(lim, t, cfg);
    if ValidArgs(lim, cfg) {
      InitSucceedsIff(lim, t, cfg);
    }
    if Init(lim, t, cfg).err == Ok {
      InitKeepsInv(lim, t, cfg);
      InitTaken(lim, t, cfg);
    }
  }

  /** A slot passes for channel 0 exactly while some slot was never taken. */
  lemma BlankIffRoom(lim: Limits, t: Table)
    requires LedgerInv(lim, t)
    ensures BlankSlot(t) <==> Taken(t.ch) < lim.channels
  {
    if BlankSlot(t) {
      var j :| 0 <= j < |t.ch| && !t.ch[j].isInit && t.ch[j].channel == 0;
      assert Blank(t.ch[j]);
    }
  }

  lemma NoChannels(m: map<Key, Window>)
    ensures m == map[] <==> Channels(m) == {}
  {
    if m != map[] {
      var k :| k in m;
      assert k.channel in Channels(m);
    }
  }

  lemma EmptyIffClear(lim: Limits, t: Table)
    requires Inv(lim, t)
    ensures Contents(lim, t) == map[] <==> !t.configured
  {
    hide Contents;
    ChannelsAreInit(lim, t);
    NoChannels(Contents(lim, t));
    if t.configured {
      var j :| 0 <= j < |t.ch| && t.ch[j].isInit;
      assert t.ch[j].channel in InitChannels(t.ch);
    }
  }

  lemma DeinitTaken(lim: Limits, t: Table, c: nat, index: nat)
    requires LedgerInv(lim, t) && Deinit(lim, t, c, index).err == Ok
    ensures var u := Deinit(lim, t, c, index).table;
            LedgerInv(lim, u) && Taken(u.ch) == if u.configured then Taken(t.ch) else 0
  {
    var u := Deinit(lim, t, c, index).table;
    DeinitKeepsInv(lim, t, c, index);
    if !u.configured {
      TakenIs(u.ch, 0);
    } else {
      var i := Find(t.ch, c);
      assert forall j :: 0 <= j < |t.ch| && j != i ==> u.ch[j] == t.ch[j];
      assert Blank(u.ch[i]) <==> Blank(t.ch[i]);
      TakenIs(u.ch, Taken(t.ch));
    }
  }

  /** The table answers a deinit as the ledger does, and goes on matching it. */
  lemma DeinitMeetsLedger(lim: Limits, t: Table, c: nat, index: nat)
    requires LedgerInv(lim, t)
    ensures var r, a := Deinit(lim, t, c, index), LedgerDeinit(lim, View(lim, t), c, index);
            r.err == a.err && View(lim, r.table) == a.ledger && LedgerInv(lim, r.table)
  {
    hide Contents, Channels, Taken, FirstMatch, SlotInv;
    DeinitMeaning(lim, t, c, index);
    if c < lim.adcMax && index < lim.buttons {
      DeinitSucceedsIff(lim, t, c, index);
      BlankIffRoom(lim, t);
    }
    if Deinit(lim, t, c, index).err == Ok {
      DeinitTaken(lim, t, c, index);
      EmptyIffClear(lim, Deinit(lim, t, c, index).table);
    }
  }

  // ---------- Whole runs ----------

  function Post(lim: Limits, l: Ledger, op: Op): Answer {
    match op
    case OpInit(cfg) => LedgerInit(lim, l, cfg)
    case OpDeinit(c, i) => LedgerDeinit(lim, l, c, i)
  }

  /** What the operations alone make of the ledger. */
  function Posted(lim: Limits, ops: seq<Op>): Ledger {
    if ops == [] then Ledger(map[], 0) else Post(lim, Posted(lim, ops[..|ops| - 1]), ops[|ops| - 1]).ledger
  }

  function ErrOf(lim: Limits, t: Table, op: Op): Err
    requires Sized(lim, t)
  {
    match op
    case OpInit(cfg) => Init(lim, t, cfg).err
    case OpDeinit(c, i) => Deinit(lim, t, c, i).err
  }

  lemma {:induction false} TableFollowsLedger(lim: Limits, ops: seq<Op>)
    requires lim.Valid()
    ensures LedgerInv(lim, AdcMap.After(lim, ops)) && View(lim, AdcMap.After(lim, ops)) == Posted(lim, ops)
  {
    if ops == [] {
      ZeroedInv(lim);
      EmptyIffClear(lim, Zeroed(lim));
      TakenIs(Zeroed(lim).ch, 0);
    } else {
      var before := ops[..|ops| - 1];
      TableFollowsLedger(lim, before);
      var t := AdcMap.After(lim, before);
      match ops[|ops| - 1]
      case OpInit(cfg) => InitMeetsLedger(lim, t, cfg);
      case OpDeinit(c, i) => DeinitMeetsLedger(lim, t, c, i);
    }
  }

  /** After every run of inits and deinits, the next one answers what the ledger of the run says: in particular
      a deinit of channel 0 with no button on it succeeds exactly while some slot was never taken. */
  lemma LedgerDecides(lim: Limits, ops: seq<Op>, next: Op)
    requires lim.Valid()
    ensures ErrOf(lim, AdcMap.After(lim, ops), next) == Post(lim, Posted(lim, ops), next).err
    ensures Contents(lim, AdcMap.After(lim, ops)) == Posted(lim, ops).buttons
  {
    TableFollowsLedger(lim, ops);
    var t := AdcMap.After(lim, ops);
    match next
    case OpInit(cfg) => InitMeetsLedger(lim, t, cfg);
    case OpDeinit(c, i) => DeinitMeetsLedger(lim, t, c, i);
  }

  /** The first call on an empty table may be such a deinit: it succeeds with nothing to remove. */
  lemma DeinitOfNothingSucceeds(lim: Limits)
    requires lim.Valid()
    ensures Contents(lim, AdcMap.After(lim, [])) == map[]
    ensures Deinit(lim, AdcMap.After(lim, []), 0, 0).err == Ok
  {
    LedgerDecides(lim, [], OpDeinit(0, 0));
  }
}
