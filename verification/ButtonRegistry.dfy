/** Creating and deleting buttons of both kinds: the button list and the ADC table stay in step
    (iot_button_create and iot_button_delete in components/button/iot_button.c). */
module ButtonRegistry {
  import opened AdcTable
  import opened AdcMap
  import opened Common

  /** What a handle's user data holds: a GPIO number, or a channel and an index packed together. */
  datatype Kind = Gpio(pin: nat) | Adc(data: nat)

  datatype Handle<Id> = Handle(id: Id, kind: Kind)

  /** ADC_BUTTON_COMBINE, ADC_BUTTON_SPLIT_CHANNEL and ADC_BUTTON_SPLIT_INDEX. */
  function Combine(channel: nat, index: nat): nat {
    channel * 0x100 + index
  }

  function SplitChannel(data: nat): nat {
    data / 0x100 % 0x100
  }

  function SplitIndex(data: nat): nat {
    data % 0x100
  }

  lemma SplitCombined(channel: nat, index: nat)
    requires channel < 0x100 && index < 0x100
    ensures SplitChannel(Combine(channel, index)) == channel && SplitIndex(Combine(channel, index)) == index
  {
  }

  function KeyOf(data: nat): Key {
    Key(SplitChannel(data), SplitIndex(data))
  }

  /** The ADC table and the live handles, newest first. */
  datatype Registry<Id> = Registry(adc: Table, live: seq<Handle<Id>>)

  /** A create names the handle that its allocation returns. */
  datatype Op<Id> =
    | CreateGpio(id: Id, pin: nat)
    | CreateAdc(id: Id, cfg: Config)
    | Delete(h: Handle<Id>)

  predicate Fits(lim: Limits) {
    lim.Valid() && lim.adcMax <= 0x100
  }

  function CreateGpioButton<Id>(r: Registry<Id>, id: Id, pin: nat): Registry<Id> {
    r.(live := [Handle(id, Gpio(pin))] + r.live)
  }

  /** A refused init creates no button. */
  function CreateAdcButton<Id>(lim: Limits, r: Registry<Id>, id: Id, cfg: Config): Registry<Id>
    requires Sized(lim, r.adc)
  {
    var i := Init(lim, r.adc, cfg);
    if i.err != Ok then r
    else Registry(i.table, [Handle(id, Adc(Combine(cfg.channel, cfg.index)))] + r.live)
  }

  /** False stands for ESP_FAIL: the deinit refused, and the button stays. */
  function DeleteOk<Id>(lim: Limits, r: Registry<Id>, h: Handle<Id>): bool
    requires Sized(lim, r.adc)
  {
    h.kind.Gpio? || Deinit(lim, r.adc, SplitChannel(h.kind.data), SplitIndex(h.kind.data)).err == Ok
  }

  function DeleteHandle<Id(==)>(lim: Limits, r: Registry<Id>, h: Handle<Id>): Registry<Id>
    requires Sized(lim, r.adc)
  {
    if !DeleteOk(lim, r, h) then r
    else if h.kind.Gpio? then r.(live := Without(r.live, h))
    else r.(adc := Deinit(lim, r.adc, SplitChannel(h.kind.data), SplitIndex(h.kind.data)).table,
            live := Without(r.live, h))
  }

  /** Deleting takes a live handle; anything else is outside the contract of the driver. */
  predicate Enabled<Id(==)>(r: Registry<Id>, op: Op<Id>) {
    op.Delete? ==> op.h in r.live
  }

  function Apply<Id(==)>(lim: Limits, r: Registry<Id>, op: Op<Id>): (s: Registry<Id>)
    requires Sized(lim, r.adc)
    ensures Sized(lim, s.adc)
  {
    match op
    case CreateGpio(id, pin) => CreateGpioButton(r, id, pin)
    case CreateAdc(id, cfg) => SizedAfterInit(lim, r.adc, cfg); CreateAdcButton(lim, r, id, cfg)
    case Delete(h) =>
      SizedAfterDeinit(lim, r.adc, SplitChannel(if h.kind.Adc? then h.kind.data else 0),
                       SplitIndex(if h.kind.Adc? then h.kind.data else 0));
      DeleteHandle(lim, r, h)
  }

  ghost predicate Run<Id>(lim: Limits, ops: seq<Op<Id>>)
    decreases |ops|, 0
  {
    ops != [] ==>
      Run(lim, ops[..|ops| - 1]) && Enabled(After(lim, ops[..|ops| - 1]), ops[|ops| - 1])
  }

  ghost function After<Id>(lim: Limits, ops: seq<Op<Id>>): (r: Registry<Id>)
    requires Run(lim, ops)
    ensures Sized(lim, r.adc)
    decreases |ops|, 1
  {
    if ops == [] then Registry(Zeroed(lim), [])
    else Apply(lim, After(lim, ops[..|ops| - 1]), ops[|ops| - 1])
  }

  // ---------- The two structures agree ----------

  /** The keys of the live ADC buttons. */
  function LiveKeys<Id(==)>(live: seq<Handle<Id>>): set<Key> {
    set h | h in live && h.kind.Adc? :: KeyOf(h.kind.data)
  }

  ghost predicate Unshared<Id>(live: seq<Handle<Id>>) {
    forall h, g :: h in live && g in live && h.kind.Adc? && g.kind.Adc? && KeyOf(h.kind.data) == KeyOf(g.kind.data)
      ==> h == g
  }

  ghost predicate RegistryInv<Id>(lim: Limits, r: Registry<Id>) {
    && Inv(lim, r.adc)
    && Contents(lim, r.adc).Keys == LiveKeys(r.live)
    && Unshared(r.live)
  }

  /** Deleting a live ADC button never fails. */
  lemma LiveDeletes<Id>(lim: Limits, r: Registry<Id>, h: Handle<Id>)
    requires Fits(lim) && RegistryInv(lim, r) && h in r.live
    ensures DeleteOk(lim, r, h)
  {
    if h.kind.Adc? {
      var key := KeyOf(h.kind.data);
      assert key in LiveKeys(r.live);
      assert key in Contents(lim, r.adc);
      InKeys(lim, key);
      DeinitSucceedsIff(lim, r.adc, key.channel, key.index);
    }
  }

  lemma CreateKeeps<Id>(lim: Limits, r: Registry<Id>, id: Id, cfg: Config)
    requires Fits(lim) && RegistryInv(lim, r)
    ensures RegistryInv(lim, CreateAdcButton(lim, r, id, cfg))
  {
    if Init(lim, r.adc, cfg).err == Ok {
      var s := CreateAdcButton(lim, r, id, cfg);
      var key := Key(cfg.channel, cfg.index);
      InitKeepsInv(lim, r.adc, cfg);
      InitMeaning(lim, r.adc, cfg);
      InitErrors(lim, r.adc, cfg);
      InitSucceedsIff(lim, r.adc, cfg);
      SplitCombined(cfg.channel, cfg.index);
      AddKey(r.live, s.live[0], key);
    }
  }

  lemma AddKey<Id>(live: seq<Handle<Id>>, h: Handle<Id>, key: Key)
    requires Unshared(live) && key !in LiveKeys(live) && h.kind.Adc? && KeyOf(h.kind.data) == key
    ensures LiveKeys([h] + live) == LiveKeys(live) + {key} && Unshared([h] + live)
  {
    assert forall g :: g in [h] + live <==> g == h || g in live;
    forall g | g in live && g.kind.Adc? ensures KeyOf(g.kind.data) != key {
      assert KeyOf(g.kind.data) in LiveKeys(live);
    }
  }

  lemma AddGpio<Id>(live: seq<Handle<Id>>, h: Handle<Id>)
    requires Unshared(live) && h.kind.Gpio?
    ensures LiveKeys([h] + live) == LiveKeys(live) && Unshared([h] + live)
  {
    assert forall g :: g in [h] + live <==> g == h || g in live;
  }

  /** Without a live handle its key is gone, and no other. */
  lemma KeysWithout<Id>(live: seq<Handle<Id>>, h: Handle<Id>, left: seq<Handle<Id>>)
    requires Unshared(live) && h in live && left == Without(live, h)
    ensures Unshared(left)
    ensures LiveKeys(left) == if h.kind.Adc? then LiveKeys(live) - {KeyOf(h.kind.data)} else LiveKeys(live)
  {
    hide Without;
    WithoutMembers(live, h);
    assert forall g: Handle<Id> :: g in left <==> g in live && g != h;
  }

  lemma DeleteKeeps<Id>(lim: Limits, r: Registry<Id>, h: Handle<Id>)
    requires Fits(lim) && RegistryInv(lim, r) && h in r.live
    ensures RegistryInv(lim, DeleteHandle(lim, r, h))
  {
    hide Inv, Contents, LiveKeys, Unshared, Without, Deinit;
    LiveDeletes(lim, r, h);
    KeysWithout(r.live, h, Without(r.live, h));
    if h.kind.Adc? {
      var key := KeyOf(h.kind.data);
      DeinitKeepsInv(lim, r.adc, key.channel, key.index);
      DeinitMeaning(lim, r.adc, key.channel, key.index);
    }
  }

  /** Over every run of creates and deletes of both kinds, the ADC table holds exactly the live ADC buttons,
      and no two of them share a channel and an index. */
  lemma {:induction false} TableHoldsLiveButtons<Id>(lim: Limits, ops: seq<Op<Id>>)
    requires Fits(lim) && Run(lim, ops)
    ensures RegistryInv(lim, After(lim, ops))
    decreases |ops|
  {
    if ops == [] {
      ZeroedInv(lim);
      EmptyContents(lim);
    } else {
      var before := ops[..|ops| - 1];
      TableHoldsLiveButtons(lim, before);
      var r := After(lim, before);
      match ops[|ops| - 1]
      case CreateGpio(id, pin) => AddGpio(r.live, Handle(id, Gpio(pin)));
      case CreateAdc(id, cfg) => CreateKeeps(lim, r, id, cfg);
      case Delete(h) => DeleteKeeps(lim, r, h);
    }
  }

  lemma EmptyContents(lim: Limits)
    ensures Contents(lim, Zeroed(lim)) == map[]
  {
  }

  /** So, in every reachable state: deleting any live button succeeds; and a valid ADC create succeeds
      exactly when no live button has that channel and index, and its channel is in use or there is
      room for another. */
  lemma CreateAndDeleteOutcomes<Id>(lim: Limits, ops: seq<Op<Id>>, cfg: Config, h: Handle<Id>)
    requires Fits(lim) && Run(lim, ops) && ValidArgs(lim, cfg)
    ensures var r := After(lim, ops);
            && (h in r.live ==> DeleteOk(lim, r, h))
            && (Init(lim, r.adc, cfg).err == Ok <==>
                  && Key(cfg.channel, cfg.index) !in LiveKeys(r.live)
                  && var used := set k | k in LiveKeys(r.live) :: k.channel;
                     cfg.channel in used || |used| < lim.channels)
  {
    TableHoldsLiveButtons(lim, ops);
    var r := After(lim, ops);
    if h in r.live {
      LiveDeletes(lim, r, h);
    }
    InitSucceedsIff(lim, r.adc, cfg);
    assert Channels(Contents(lim, r.adc)) == set k | k in LiveKeys(r.live) :: k.channel;
  }

  // ---------- Told by the calls ----------

  function UsedChannels<Id(==)>(live: seq<Handle<Id>>): set<nat> {
    set k | k in LiveKeys(live) :: k.channel
  }

  /** An ADC create is granted on valid arguments with a free key, and a channel in use or room for one more. */
  predicate Granted<Id(==)>(lim: Limits, live: seq<Handle<Id>>, cfg: Config) {
    && ValidArgs(lim, cfg)
    && Key(cfg.channel, cfg.index) !in LiveKeys(live)
    && (cfg.channel in UsedChannels(live) || |UsedChannels(live)| < lim.channels)
  }

  /** The handles created and not deleted since, each with the pin, or the channel and index, it was created for. */
  function LiveBy<Id(==)>(lim: Limits, ops: seq<Op<Id>>): seq<Handle<Id>> {
    if ops == [] then []
    else
      var before := LiveBy(lim, ops[..|ops| - 1]);
      match ops[|ops| - 1]
      case CreateGpio(id, pin) => [Handle(id, Gpio(pin))] + before
      case CreateAdc(id, cfg) =>
        if Granted(lim, before, cfg) then [Handle(id, Adc(Combine(cfg.channel, cfg.index)))] + before else before
      case Delete(h) => Without(before, h)
  }

  lemma GrantedIffOk<Id>(lim: Limits, r: Registry<Id>, cfg: Config)
    requires Fits(lim) && RegistryInv(lim, r)
    ensures Init(lim, r.adc, cfg).err == Ok <==> Granted(lim, r.live, cfg)
  {
    hide Contents, Unshared, LiveKeys, FirstMatch, SlotInv, NoneInit;
    InitErrors(lim, r.adc, cfg);
    if ValidArgs(lim, cfg) {
      InitSucceedsIff(lim, r.adc, cfg);
      assert Channels(Contents(lim, r.adc)) == UsedChannels(r.live);
    }
  }

  /** Over every run the live handles are those the calls alone tell. */
  lemma {:induction false} LiveIsTold<Id>(lim: Limits, ops: seq<Op<Id>>)
    requires Fits(lim) && Run(lim, ops)
    ensures After(lim, ops).live == LiveBy(lim, ops)
    decreases |ops|
  {
    if ops != [] {
      hide Granted, RegistryInv, Init, Deinit, Sized;
      var before := ops[..|ops| - 1];
      LiveIsTold(lim, before);
      TableHoldsLiveButtons(lim, before);
      var r := After(lim, before);
      match ops[|ops| - 1]
      case CreateGpio(id, pin) =>
      case CreateAdc(id, cfg) => GrantedIffOk(lim, r, cfg);
      case Delete(h) => LiveDeletes(lim, r, h);
    }
  }
}
