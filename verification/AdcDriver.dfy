/** The ADC button table as it runs: an array of slots searched, counted and written in place. */
module AdcDriver {
  import opened AdcTable

  function CountMaxZero(btns: seq<Window>): nat {
    if btns == [] then 0
    else CountMaxZero(btns[..|btns| - 1]) + if btns[|btns| - 1].max == 0 then 1 else 0
  }

  function CountNotInit(ch: seq<Slot>): nat {
    if ch == [] then 0
    else CountNotInit(ch[..|ch| - 1]) + if !ch[|ch| - 1].isInit then 1 else 0
  }

  lemma {:induction false} AllCountedUnused(btns: seq<Window>)
    ensures CountMaxZero(btns) <= |btns|
    ensures CountMaxZero(btns) == |btns| <==> AllUnused(btns)
  {
    if btns != [] {
      var front := btns[..|btns| - 1];
      AllCountedUnused(front);
      if AllUnused(btns) {
        assert AllUnused(front);
      }
      if CountMaxZero(btns) == |btns| {
        forall i | 0 <= i < |btns| ensures btns[i].max == 0 {
          assert i < |front| ==> btns[i] == front[i];
        }
      }
    }
  }

  lemma {:induction false} AllCountedNotInit(ch: seq<Slot>)
    ensures CountNotInit(ch) <= |ch|
    ensures CountNotInit(ch) == |ch| <==> NoneInit(ch)
  {
    if ch != [] {
      var front := ch[..|ch| - 1];
      AllCountedNotInit(front);
      if NoneInit(ch) {
        assert NoneInit(front);
      }
      if CountNotInit(ch) == |ch| {
        forall i | 0 <= i < |ch| ensures !ch[i].isInit {
          assert i < |front| ==> ch[i] == front[i];
        }
      }
    }
  }

  class AdcButtons {
    const lim: Limits
    var configured: bool
    const ch: array<Slot>

    ghost predicate Valid()
      reads this, ch
    {
      Inv(lim, Abs())
    }

    ghost function Abs(): Table
      reads this, ch
    {
      Table(configured, ch[..])
    }

    constructor (lim: Limits)
      requires lim.Valid()
      ensures this.lim == lim && Valid() && Abs() == Zeroed(lim) && fresh(ch)
    {
      this.lim := lim;
      configured := false;
      var blank := Slot(0, false, seq(lim.buttons, _ => UNUSED));
      ch := new Slot[lim.channels](_ => blank);
      new;
      assert ch[..] == Zeroed(lim).ch;
    }

    method FindUnusedChannel() returns (r: int)
      ensures r == if FindUnused(ch[..]) < ch.Length then FindUnused(ch[..]) else -1
    {
      for i := 0 to ch.Length
        invariant forall j :: 0 <= j < i ==> ch[j].isInit
      {
        if !ch[i].isInit {
          assert !ch[..][i].isInit;
          return i;
        }
      }
      return -1;
    }

    method FindChannel(channel: nat) returns (r: int)
      ensures r == if Find(ch[..], channel) < ch.Length then Find(ch[..], channel) else -1
    {
      for i := 0 to ch.Length
        invariant forall j :: 0 <= j < i ==> ch[j].channel != channel
      {
        if channel == ch[i].channel {
          assert ch[..][i].channel == channel;
          return i;
        }
      }
      return -1;
    }

    method InitButton(cfg: Config) returns (err: Err)
      requires Valid()
      modifies this`configured, ch
      ensures Valid()
      ensures Result(Abs(), err) == Init(lim, old(Abs()), cfg)
    {
      InitKeepsInv(lim, Abs(), cfg);
      if cfg.channel >= lim.adcMax {
        return NotSupported;
      }
      if cfg.index >= lim.buttons {
        return NotSupported;
      }
      if cfg.window.max == 0 {
        return InvalidArg;
      }
      var i := FindChannel(cfg.channel);
      if i >= 0 {
        if ch[i].btns[cfg.index].max != 0 {
          return InvalidState;
        }
      } else {
        var unused := FindUnusedChannel();
        if unused < 0 {
          return InvalidState;
        }
        i := unused;
      }
      if !configured {
        configured := true;
      }
      if !ch[i].isInit {
        ch[i] := ch[i].(channel := cfg.channel, isInit := true);
      }
      ch[i] := ch[i].(btns := ch[i].btns[cfg.index := cfg.window]);
      assert Abs().ch == Init(lim, old(Abs()), cfg).table.ch;
      return Ok;
    }

    method CountUnusedButtons(i: nat) returns (unused: nat)
      requires i < ch.Length && |ch[i].btns| == lim.buttons <= 0xFF
      ensures unused == CountMaxZero(ch[i].btns)
    {
      unused := 0;
      for k := 0 to lim.buttons
        invariant unused == CountMaxZero(ch[i].btns[..k]) && unused <= k
      {
        assert ch[i].btns[..k + 1][..k] == ch[i].btns[..k];
        if ch[i].btns[k].max == 0 {
          unused := (unused + 1) % 0x100;
        }
      }
      assert ch[i].btns[..lim.buttons] == ch[i].btns;
    }

    method CountUnusedChannels() returns (unused: nat)
      requires ch.Length <= 0xFF
      ensures unused == CountNotInit(ch[..])
    {
      unused := 0;
      for k := 0 to ch.Length
        invariant unused == CountNotInit(ch[..k]) && unused <= k
      {
        assert ch[..k + 1][..k] == ch[..k];
        if !ch[k].isInit {
          unused := (unused + 1) % 0x100;
        }
      }
      assert ch[..ch.Length] == ch[..];
    }

    method DeinitButton(channel: nat, index: nat) returns (err: Err)
      requires Valid()
      modifies this`configured, ch
      ensures Valid()
      ensures Result(Abs(), err) == Deinit(lim, old(Abs()), channel, index)
    {
      DeinitKeepsInv(lim, Abs(), channel, index);
      if channel >= lim.adcMax {
        return InvalidArg;
      }
      if index >= lim.buttons {
        return InvalidArg;
      }
      var i := FindChannel(channel);
      if i < 0 {
        return InvalidArg;
      }
      ghost var before := ch[..];
      ch[i] := ch[i].(btns := ch[i].btns[index := UNUSED]);
      var unusedButtons := CountUnusedButtons(i);
      AllCountedUnused(ch[i].btns);
      if unusedButtons == lim.buttons && ch[i].isInit {
        ch[i] := ch[i].(isInit := false, channel := lim.adcMax);
      }
      ghost var middle := ch[..];
      assert middle == before[i := ch[i]];
      var unusedChannels := CountUnusedChannels();
      AllCountedNotInit(ch[..]);
      if unusedChannels == lim.channels && configured {
        Clear();
      }
      return Ok;
    }

    /** The memset of the whole table. */
    method Clear()
      requires ch.Length == lim.channels
      modifies this`configured, ch
      ensures Abs() == Zeroed(lim)
    {
      configured := false;
      var blank := Slot(0, false, seq(lim.buttons, _ => UNUSED));
      forall k | 0 <= k < ch.Length {
        ch[k] := blank;
      }
      assert ch[..] == Zeroed(lim).ch;
    }
  }
}
