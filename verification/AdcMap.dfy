/** The ADC table is a bounded map: what its operations mean for the map it holds. */
module AdcMap {
  import opened AdcTable

  datatype Key = Key(channel: nat, index: nat)

  /** The window the table's own lookup gives for a key. */
  function At(lim: Limits, t: Table, k: Key): Window
    requires Sized(lim, t) && k.index < lim.buttons
  {
    var i := Find(t.ch, k.channel);
    if i < |t.ch| then t.ch[i].btns[k.index] else UNUSED
  }

  function Keys(lim: Limits): set<Key> {
    set c, i | 0 <= c < lim.adcMax && 0 <= i < lim.buttons :: Key(c, i)
  }

  /** The map the table holds. */
  function Contents(lim: Limits, t: Table): map<Key, Window>
    requires Sized(lim, t)
  {
    map k | k in Keys(lim) && At(lim, t, k).max != 0 :: At(lim, t, k)
  }

  lemma InKeys(lim: Limits, k: Key)
    ensures k in Keys(lim) <==> k.channel < lim.adcMax && k.index < lim.buttons
  {
  }

  /** Changing what the lookup gives for one key changes the map at that key. */
  lemma ChangeOneKey(lim: Limits, t: Table, u: Table, key: Key, w: Window)
    requires Sized(lim, t) && Sized(lim, u) && key in Keys(lim)
    requires forall k :: k in Keys(lim) ==> At(lim, u, k) == if k == key then w else At(lim, t, k)
    ensures w.max != 0 ==> Contents(lim, u) == Contents(lim, t)[key := w]
    ensures w.max == 0 ==> Contents(lim, u) == Contents(lim, t) - {key}
  {
    hide Keys, At;
  }

  function Channels(m: map<Key, Window>): set<nat> {
    set k | k in m :: k.channel
  }

  // ---------- The lookup under the first-match invariant ----------

  /** The lookup ignores the in-use flag, and finds the slot in use all the same. */
  lemma FindFindsInit(lim: Limits, t: Table, j: nat)
    requires Inv(lim, t) && j < |t.ch| && t.ch[j].isInit
    ensures Find(t.ch, t.ch[j].channel) == j
  {
    assert Find(t.ch, t.ch[j].channel) <= j;
  }

  ghost predicate InUse(t: Table, c: nat, j: nat) {
    j < |t.ch| && t.ch[j].isInit && t.ch[j].channel == c
  }

  lemma AtInUse(lim: Limits, t: Table, k: Key, j: nat)
    requires Inv(lim, t) && k.index < lim.buttons && InUse(t, k.channel, j)
    ensures At(lim, t, k) == t.ch[j].btns[k.index]
  {
    FindFindsInit(lim, t, j);
  }

  lemma AtNotInUse(lim: Limits, t: Table, k: Key)
    requires Inv(lim, t) && k.index < lim.buttons
    requires forall j :: 0 <= j < |t.ch| ==> !InUse(t, k.channel, j)
    ensures At(lim, t, k) == UNUSED
  {
    var i := Find(t.ch, k.channel);
    if i < |t.ch| {
      assert !InUse(t, k.channel, i);
      assert t.ch[i].btns[k.index].max == 0;
    }
  }

  /** Two tables whose slots in use agree on a channel agree on its keys. */
  lemma AtSame(lim: Limits, t: Table, u: Table, k: Key)
    requires Inv(lim, t) && Inv(lim, u) && k.index < lim.buttons
    requires forall j :: 0 <= j < lim.channels ==>
               (InUse(t, k.channel, j) <==> InUse(u, k.channel, j))
               && (InUse(t, k.channel, j) ==> t.ch[j].btns[k.index] == u.ch[j].btns[k.index])
    ensures At(lim, t, k) == At(lim, u, k)
  {
    if j :| 0 <= j < lim.channels && InUse(t, k.channel, j) {
      AtInUse(lim, t, k, j);
      AtInUse(lim, u, k, j);
    } else {
      AtNotInUse(lim, t, k);
      AtNotInUse(lim, u, k);
    }
  }

  // ---------- Counting channels ----------

  function CountInit(ch: seq<Slot>): nat {
    if ch == [] then 0 else (if ch[0].isInit then 1 else 0) + CountInit(ch[1..])
  }

  function InitChannels(ch: seq<Slot>): set<nat> {
    set j | 0 <= j < |ch| && ch[j].isInit :: ch[j].channel
  }

  lemma {:induction false} CountInitBound(ch: seq<Slot>)
    ensures CountInit(ch) <= |ch|
    ensures CountInit(ch) < |ch| <==> FindUnused(ch) < |ch|
  {
    if ch != [] {
      CountInitBound(ch[1..]);
    }
  }

  lemma {:induction false} CountIsChannels(ch: seq<Slot>)
    requires FirstMatch(ch)
    ensures |InitChannels(ch)| == CountInit(ch)
  {
    if ch != [] {
      var rest := ch[1..];
      forall i, j | 0 <= j < i < |rest| && rest[i].isInit ensures rest[j].channel != rest[i].channel {
        assert ch[j + 1].channel != ch[i + 1].channel;
      }
      CountIsChannels(rest);
      if ch[0].isInit {
        assert ch[0].channel !in InitChannels(rest) by {
          forall i | 0 <= i < |rest| && rest[i].isInit ensures rest[i].channel != ch[0].channel {
            assert rest[i] == ch[i + 1];
          }
        }
        assert InitChannels(ch) == InitChannels(rest) + {ch[0].channel} by {
          InitChannelsFront(ch);
        }
      } else {
        InitChannelsFront(ch);
      }
    }
  }

  lemma InitChannelsFront(ch: seq<Slot>)
    requires ch != []
    ensures InitChannels(ch)
         == InitChannels(ch[1..]) + if ch[0].isInit then {ch[0].channel} else {}
  {
    forall c | c in InitChannels(ch)
      ensures c in InitChannels(ch[1..]) || (ch[0].isInit && c == ch[0].channel)
    {
      var j :| 0 <= j < |ch| && ch[j].isInit && ch[j].channel == c;
      if j > 0 {
        assert ch[1..][j - 1] == ch[j];
      }
    }
    forall c | c in InitChannels(ch[1..]) ensures c in InitChannels(ch) {
      var j :| 0 <= j < |ch[1..]| && ch[1..][j].isInit && ch[1..][j].channel == c;
      assert ch[j + 1].channel == c;
    }
  }

  lemma InContents(lim: Limits, t: Table, k: Key)
    requires Sized(lim, t)
    ensures k in Contents(lim, t) <==> k.channel < lim.adcMax && k.index < lim.buttons && At(lim, t, k).max != 0
  {
    InKeys(lim, k);
  }

  lemma HeldIsInit(lim: Limits, t: Table, k: Key)
    requires Inv(lim, t) && k in Contents(lim, t)
    ensures k.channel in InitChannels(t.ch)
  {
    hide Contents;
    InContents(lim, t, k);
    var i := Find(t.ch, k.channel);
    assert t.ch[i].btns[k.index].max != 0;
    assert t.ch[i].isInit;
  }

  lemma InitIsHeld(lim: Limits, t: Table, j: nat)
    requires Inv(lim, t) && j < |t.ch| && t.ch[j].isInit
    ensures t.ch[j].channel in Channels(Contents(lim, t))
  {
    hide Contents, At;
    assert SlotInv(lim, t.ch[j]);
    var i :| 0 <= i < |t.ch[j].btns| && t.ch[j].btns[i].max != 0;
    var k := Key(t.ch[j].channel, i);
    AtInUse(lim, t, k, j);
    InContents(lim, t, k);
    assert k in Contents(lim, t);
  }

  lemma ChannelsAreInit(lim: Limits, t: Table)
    requires Inv(lim, t)
    ensures Channels(Contents(lim, t)) == InitChannels(t.ch)
  {
    hide Contents, FirstMatch, SlotInv, NoneInit;
    var m := Contents(lim, t);
    forall c | c in Channels(m) ensures c in InitChannels(t.ch) {
      var k :| k in m && k.channel == c;
      HeldIsInit(lim, t, k);
    }
    forall c | c in InitChannels(t.ch) ensures c in Channels(m) {
      var j :| 0 <= j < |t.ch| && t.ch[j].isInit && t.ch[j].channel == c;
      InitIsHeld(lim, t, j);
    }
  }

  // ---------- What the operations mean ----------

  predicate ValidArgs(lim: Limits, cfg: Config) {
    cfg.channel < lim.adcMax && cfg.index < lim.buttons && cfg.window.max > 0
  }

  /** On valid arguments init succeeds exactly when the key is free and its channel is in use already or
      there is room for one more channel. */
  lemma InitSucceedsIff(lim: Limits, t: Table, cfg: Config)
    requires Inv(lim, t) && ValidArgs(lim, cfg)
    ensures var m := Contents(lim, t);
            Init(lim, t, cfg).err == Ok <==>
              && Key(cfg.channel, cfg.index) !in m
              && (cfg.channel in Channels(m) || |Channels(m)| < lim.channels)
  {
    hide Contents, Channels, SlotInv, NoneInit;
    ChannelsAreInit(lim, t);
    CountIsChannels(t.ch);
    CountInitBound(t.ch);
    InContents(lim, t, Key(cfg.channel, cfg.index));
    if cfg.channel in InitChannels(t.ch) {
      var j :| 0 <= j < |t.ch| && t.ch[j].isInit && t.ch[j].channel == cfg.channel;
      FindFindsInit(lim, t, j);
    }
  }

  lemma InitAt(lim: Limits, t: Table, cfg: Config, k: Key)
    requires Inv(lim, t) && Init(lim, t, cfg).err == Ok && k.index < lim.buttons
    ensures Inv(lim, Init(lim, t, cfg).table)
    ensures At(lim, Init(lim, t, cfg).table, k)
         == if k == Key(cfg.channel, cfg.index) then cfg.window else At(lim, t, k)
  {
    InitKeepsInv(lim, t, cfg);
    var u := Init(lim, t, cfg).table;
    var found := Find(t.ch, cfg.channel);
    var i := if found < |t.ch| then found else FindUnused(t.ch);
    assert InUse(u, cfg.channel, i);
    if k.channel == cfg.channel {
      AtInUse(lim, u, k, i);
      if k.index != cfg.index {
        if t.ch[i].isInit {
          AtInUse(lim, t, k, i);
        } else {
          forall j | 0 <= j < |t.ch| ensures !InUse(t, k.channel, j) {
            if InUse(t, k.channel, j) {
              FindFindsInit(lim, t, j);
            }
          }
          AtNotInUse(lim, t, k);
          assert t.ch[i].btns[k.index].max == 0;
        }
      }
    } else {
      forall j | 0 <= j < lim.channels
        ensures (InUse(t, k.channel, j) <==> InUse(u, k.channel, j))
                && (InUse(t, k.channel, j) ==> t.ch[j].btns[k.index] == u.ch[j].btns[k.index])
      {
        if j == i && t.ch[i].isInit {
          assert t.ch[i].channel == cfg.channel;
        }
      }
      AtSame(lim, t, u, k);
    }
  }

  /** A successful init adds its key to the map; a failed one changes nothing at all. */
  lemma InitMeaning(lim: Limits, t: Table, cfg: Config)
    requires Inv(lim, t)
    ensures var r, m := Init(lim, t, cfg), Contents(lim, t);
            if r.err == Ok then Contents(lim, r.table) == m[Key(cfg.channel, cfg.index) := cfg.window]
            else r.table == t
  {
    var r, m := Init(lim, t, cfg), Contents(lim, t);
    if r.err == Ok {
      var key := Key(cfg.channel, cfg.index);
      forall k | k in Keys(lim)
        ensures At(lim, r.table, k) == if k == key then cfg.window else At(lim, t, k)
      {
        InitAt(lim, t, cfg, k);
      }
      InKeys(lim, key);
      InitErrors(lim, t, cfg);
      ChangeOneKey(lim, t, r.table, key, cfg.window);
    }
  }

  /** Which error a rejected init reports. */
  lemma InitErrors(lim: Limits, t: Table, cfg: Config)
    requires Inv(lim, t)
    ensures var e := Init(lim, t, cfg).err;
            && (e == NotSupported <==> cfg.channel >= lim.adcMax || cfg.index >= lim.buttons)
            && (e == InvalidArg <==> e != NotSupported && cfg.window.max == 0)
  {
  }

  /** A slot that deinit's lookup takes for channel 0 although it has never been set up. */
  ghost predicate BlankSlot(t: Table) {
    exists j :: 0 <= j < |t.ch| && !t.ch[j].isInit && t.ch[j].channel == 0
  }

  /** On valid arguments deinit succeeds exactly when its channel is in use, whether or not the index is,
      or when the channel is 0 and a zero-filled slot passes for it. */
  lemma DeinitSucceedsIff(lim: Limits, t: Table, c: nat, index: nat)
    requires Inv(lim, t) && c < lim.adcMax && index < lim.buttons
    ensures Deinit(lim, t, c, index).err == Ok
       <==> c in Channels(Contents(lim, t)) || (c == 0 && BlankSlot(t))
  {
    hide Contents, Channels, NoneInit;
    ChannelsAreInit(lim, t);
    var i := Find(t.ch, c);
    if i < |t.ch| && !t.ch[i].isInit {
      assert SlotInv(lim, t.ch[i]);
      assert c == 0;
    }
    if c in InitChannels(t.ch) {
      var j :| 0 <= j < |t.ch| && t.ch[j].isInit && t.ch[j].channel == c;
      FindFindsInit(lim, t, j);
    }
  }

  lemma DeinitAt(lim: Limits, t: Table, c: nat, index: nat, k: Key)
    requires Inv(lim, t) && Deinit(lim, t, c, index).err == Ok && k.index < lim.buttons && k.channel < lim.adcMax
    ensures Inv(lim, Deinit(lim, t, c, index).table)
    ensures At(lim, Deinit(lim, t, c, index).table, k)
         == if k == Key(c, index) then UNUSED else At(lim, t, k)
  {
    DeinitKeepsInv(lim, t, c, index);
    var u := Deinit(lim, t, c, index).table;
    var i := Find(t.ch, c);
    var btns := t.ch[i].btns[index := UNUSED];
    if !t.ch[i].isInit {
      assert btns == t.ch[i].btns;
      assert t.ch[i := t.ch[i].(btns := btns)] == t.ch;
      assert u == t;
    } else if AllUnused(btns) {
      DeinitLastAt(lim, t, c, index, k);
    } else {
      var ch := t.ch[i := t.ch[i].(btns := btns)];
      assert ch[i].isInit && !NoneInit(ch) && u.ch == ch;
      if k.channel == c {
        AtInUse(lim, u, k, i);
        AtInUse(lim, t, k, i);
      } else {
        AtSame(lim, t, u, k);
      }
    }
  }

  /** The case in which the channel loses its last button. */
  lemma DeinitLastAt(lim: Limits, t: Table, c: nat, index: nat, k: Key)
    requires Inv(lim, t) && Deinit(lim, t, c, index).err == Ok && k.index < lim.buttons && k.channel < lim.adcMax
    requires var i := Find(t.ch, c); t.ch[i].isInit && AllUnused(t.ch[i].btns[index := UNUSED])
    ensures At(lim, Deinit(lim, t, c, index).table, k)
         == if k == Key(c, index) then UNUSED else At(lim, t, k)
  {
    DeinitKeepsInv(lim, t, c, index);
    var u := Deinit(lim, t, c, index).table;
    var i := Find(t.ch, c);
    forall j | 0 <= j < lim.channels
      ensures InUse(u, k.channel, j) <==> InUse(t, k.channel, j) && j != i
      ensures InUse(u, k.channel, j) ==> u.ch[j] == t.ch[j]
    {
      if u.configured {
        assert u.ch[j] == t.ch[j] || j == i;
      } else {
        assert NoneInit(t.ch[i := Slot(lim.adcMax, false, t.ch[i].btns[index := UNUSED])]);
        assert j != i ==> !t.ch[i := Slot(lim.adcMax, false, t.ch[i].btns[index := UNUSED])][j].isInit;
      }
    }
    if k.channel == c {
      forall j | 0 <= j < |u.ch| ensures !InUse(u, c, j) {
        if InUse(t, c, j) {
          FindFindsInit(lim, t, j);
        }
      }
      AtNotInUse(lim, u, k);
      AtInUse(lim, t, k, i);
      if k.index != index {
        assert t.ch[i].btns[index := UNUSED][k.index].max == 0;
      }
    } else {
      AtSame(lim, t, u, k);
    }
  }

  /** A successful deinit removes its key from the map; a failed one changes nothing at all. */
  lemma DeinitMeaning(lim: Limits, t: Table, c: nat, index: nat)
    requires Inv(lim, t)
    ensures var r, m := Deinit(lim, t, c, index), Contents(lim, t);
            if r.err == Ok then Contents(lim, r.table) == m - {Key(c, index)} else r.table == t
  {
    var r, m := Deinit(lim, t, c, index), Contents(lim, t);
    if r.err == Ok {
      var key := Key(c, index);
      forall k | k in Keys(lim)
        ensures At(lim, r.table, k) == if k == key then UNUSED else At(lim, t, k)
      {
        DeinitAt(lim, t, c, index, k);
      }
      InKeys(lim, key);
      ChangeOneKey(lim, t, r.table, key, UNUSED);
    }
  }

  /** Undoing an init: deinit of the same key succeeds and gives the earlier map back. */
  lemma DeinitUndoesInit(lim: Limits, t: Table, cfg: Config)
    requires Inv(lim, t) && Init(lim, t, cfg).err == Ok
    ensures var u := Init(lim, t, cfg).table;
            var r := Deinit(lim, u, cfg.channel, cfg.index);
            r.err == Ok && Contents(lim, r.table) == Contents(lim, t)
  {
    var m, u := Contents(lim, t), Init(lim, t, cfg).table;
    var key := Key(cfg.channel, cfg.index);
    InitKeepsInv(lim, t, cfg);
    InitMeaning(lim, t, cfg);
    InitSucceedsIff(lim, t, cfg);
    assert key in Contents(lim, u);
    DeinitSucceedsIff(lim, u, cfg.channel, cfg.index);
    DeinitMeaning(lim, u, cfg.channel, cfg.index);
    RemoveAdded(m, key, cfg.window);
  }

  lemma RemoveAdded(m: map<Key, Window>, key: Key, w: Window)
    requires key !in m
    ensures m[key := w] - {key} == m
  {
  }

  // ---------- Reachable tables ----------

  datatype Op = OpInit(cfg: Config) | OpDeinit(channel: nat, index: nat)

  function After(lim: Limits, ops: seq<Op>): (t: Table)
    ensures Sized(lim, t)
  {
    if ops == [] then Zeroed(lim)
    else
      var t := After(lim, ops[..|ops| - 1]);
      match ops[|ops| - 1]
      case OpInit(cfg) => SizedAfterInit(lim, t, cfg); Init(lim, t, cfg).table
      case OpDeinit(c, i) => SizedAfterDeinit(lim, t, c, i); Deinit(lim, t, c, i).table
  }

  lemma SizedAfterInit(lim: Limits, t: Table, cfg: Config)
    requires Sized(lim, t)
    ensures Sized(lim, Init(lim, t, cfg).table)
  {
  }

  lemma SizedAfterDeinit(lim: Limits, t: Table, c: nat, index: nat)
    requires Sized(lim, t)
    ensures Sized(lim, Deinit(lim, t, c, index).table)
  {
  }

  /** Every table reached by any run of inits and deinits keeps the first-match invariant, so a slot is
      in use iff one of its buttons is, the ADC is configured iff a slot is in use, and no two slots
      in use share a channel. */
  lemma {:induction false} ReachableInv(lim: Limits, ops: seq<Op>)
    requires lim.Valid()
    ensures Inv(lim, After(lim, ops))
  {
    if ops == [] {
      ZeroedInv(lim);
    } else {
      var before := ops[..|ops| - 1];
      ReachableInv(lim, before);
      match ops[|ops| - 1]
      case OpInit(cfg) => InitKeepsInv(lim, After(lim, before), cfg);
      case OpDeinit(c, i) => DeinitKeepsInv(lim, After(lim, before), c, i);
    }
  }
}
