/** The table of ADC buttons: two levels of fixed slots used as a finite map from (channel, index) to
    a voltage window (components/button/button_adc.c), on values. */
module AdcTable {

  /** CONFIG_ADC_BUTTON_MAX_CHANNEL, CONFIG_ADC_BUTTON_MAX_BUTTON_PER_CHANNEL and ADC1_CHANNEL_MAX. */
  datatype Limits = Limits(channels: nat, buttons: nat, adcMax: nat) {
    predicate Valid() {
      1 <= channels <= 5 && 1 <= buttons <= 10 && 1 <= adcMax
    }
  }

  datatype Window = Window(min: nat, max: nat)

  const UNUSED := Window(0, 0)

  datatype Slot = Slot(channel: nat, isInit: bool, btns: seq<Window>)

  datatype Table = Table(configured: bool, ch: seq<Slot>)

  datatype Config = Config(channel: nat, index: nat, window: Window)

  datatype Err = Ok | NotSupported | InvalidArg | InvalidState

  datatype Result = Result(table: Table, err: Err)

  function Zeroed(lim: Limits): Table {
    Table(false, seq(lim.channels, _ => Slot(0, false, seq(lim.buttons, _ => UNUSED))))
  }

  // ---------- The lookups ----------

  /** The first slot holding this channel number, initialised or not; |ch| when there is none. */
  function Find(ch: seq<Slot>, c: nat): (i: nat)
    ensures i <= |ch|
    ensures i < |ch| ==> ch[i].channel == c
    ensures forall j :: 0 <= j < i ==> ch[j].channel != c
  {
    if ch == [] || ch[0].channel == c then 0 else 1 + Find(ch[1..], c)
  }

  /** The first slot not in use; |ch| when there is none. */
  function FindUnused(ch: seq<Slot>): (i: nat)
    ensures i <= |ch|
    ensures i < |ch| ==> !ch[i].isInit
    ensures forall j :: 0 <= j < i ==> ch[j].isInit
  {
    if ch == [] || !ch[0].isInit then 0 else 1 + FindUnused(ch[1..])
  }

  predicate AllUnused(btns: seq<Window>) {
    forall i :: 0 <= i < |btns| ==> btns[i].max == 0
  }

  predicate NoneInit(ch: seq<Slot>) {
    forall i :: 0 <= i < |ch| ==> !ch[i].isInit
  }

  // ---------- The operations ----------

  predicate Sized(lim: Limits, t: Table) {
    && |t.ch| == lim.channels
    && forall i :: 0 <= i < |t.ch| ==> |t.ch[i].btns| == lim.buttons
  }

  function Init(lim: Limits, t: Table, cfg: Config): (r: Result)
    requires Sized(lim, t)
  {
    if cfg.channel >= lim.adcMax || cfg.index >= lim.buttons then Result(t, NotSupported)
    else if cfg.window.max == 0 then Result(t, InvalidArg)
    else
      var found := Find(t.ch, cfg.channel);
      if found < |t.ch| && t.ch[found].btns[cfg.index].max != 0 then Result(t, InvalidState)
      else
        var i := if found < |t.ch| then found else FindUnused(t.ch);
        if i == |t.ch| then Result(t, InvalidState)
        else
          var s := t.ch[i];
          var channel := if s.isInit then s.channel else cfg.channel;
          Result(Table(true, t.ch[i := Slot(channel, true, s.btns[cfg.index := cfg.window])]), Ok)
  }

  function Deinit(lim: Limits, t: Table, c: nat, index: nat): (r: Result)
    requires Sized(lim, t)
  {
    if c >= lim.adcMax || index >= lim.buttons then Result(t, InvalidArg)
    else
      var i := Find(t.ch, c);
      if i == |t.ch| then Result(t, InvalidArg)
      else
        var btns := t.ch[i].btns[index := UNUSED];
        var s := if AllUnused(btns) && t.ch[i].isInit then Slot(lim.adcMax, false, btns)
                 else t.ch[i].(btns := btns);
        var ch := t.ch[i := s];
        Result(if NoneInit(ch) && t.configured then Zeroed(lim) else t.(ch := ch), Ok)
  }

  // ---------- The invariant ----------

  /** An initialised slot is the first one holding its channel number. */
  ghost predicate FirstMatch(ch: seq<Slot>) {
    forall i, j :: 0 <= j < i < |ch| && ch[i].isInit ==> ch[j].channel != ch[i].channel
  }

  ghost predicate SlotInv(lim: Limits, s: Slot) {
    && (s.isInit ==> s.channel < lim.adcMax && !AllUnused(s.btns))
    && (!s.isInit ==> s.channel == 0 || s.channel == lim.adcMax)
    && (!s.isInit ==> AllUnused(s.btns))
    && (forall k :: 0 <= k < |s.btns| && s.btns[k].max == 0 ==> s.btns[k] == UNUSED)
  }

  ghost predicate Inv(lim: Limits, t: Table) {
    && lim.Valid()
    && Sized(lim, t)
    && FirstMatch(t.ch)
    && (forall i :: 0 <= i < |t.ch| ==> SlotInv(lim, t.ch[i]))
    && (t.configured <==> !NoneInit(t.ch))
    && (!t.configured ==> t == Zeroed(lim))
  }

  lemma ZeroedInv(lim: Limits)
    requires lim.Valid()
    ensures Inv(lim, Zeroed(lim))
  {
  }

  lemma InitKeepsInv(lim: Limits, t: Table, cfg: Config)
    requires Inv(lim, t)
    ensures Inv(lim, Init(lim, t, cfg).table)
  {
    var r := Init(lim, t, cfg);
    if r.err == Ok {
      var found := Find(t.ch, cfg.channel);
      var i := if found < |t.ch| then found else FindUnused(t.ch);
      var s := r.table.ch[i];
      assert s.btns[cfg.index].max != 0;
      assert s.channel == cfg.channel;
      assert s.isInit && r.table.ch[i].isInit;
    }
  }

  lemma DeinitKeepsInv(lim: Limits, t: Table, c: nat, index: nat)
    requires Inv(lim, t)
    ensures Inv(lim, Deinit(lim, t, c, index).table)
  {
    var r := Deinit(lim, t, c, index);
    if r.err == Ok {
      var i := Find(t.ch, c);
      var btns := t.ch[i].btns[index := UNUSED];
      var s := if AllUnused(btns) && t.ch[i].isInit then Slot(lim.adcMax, false, btns)
               else t.ch[i].(btns := btns);
      var ch := t.ch[i := s];
      assert SlotInv(lim, s);
      if !t.configured {
        assert !t.ch[i].isInit;
        assert forall j :: 0 <= j < |ch| ==> ch[j] == t.ch[j] || j == i;
        assert btns == t.ch[i].btns;
        assert ch == t.ch;
      } else if NoneInit(ch) {
        ZeroedInv(lim);
      } else {
        assert r.table == t.(ch := ch);
      }
    }
  }
}
