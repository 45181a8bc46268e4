/** iot_button_create and iot_button_delete on top of the list driver and the ADC table. */
module ButtonApi {
  import opened AdcTable
  import opened AdcMap
  import opened AdcDriver
  import opened Common
  import ButtonFleet
  import D = ButtonDriver
  import R = ButtonRegistry

  datatype Err = Ok | InvalidArg

  function Handles(l: seq<D.ButtonDev>, kinds: map<D.ButtonDev, R.Kind>): (hs: seq<R.Handle<D.ButtonDev>>)
    requires forall n :: n in l ==> n in kinds
    ensures |hs| == |l| && forall i :: 0 <= i < |l| ==> hs[i] == R.Handle(l[i], kinds[l[i]])
  {
    if l == [] then [] else [R.Handle(l[0], kinds[l[0]])] + Handles(l[1..], kinds)
  }

  lemma {:induction false} HandlesWithout(l: seq<D.ButtonDev>, kinds: map<D.ButtonDev, R.Kind>, btn: D.ButtonDev)
    requires btn in kinds && forall n :: n in l ==> n in kinds
    ensures forall n :: n in Without(l, btn) ==> n in kinds
    ensures Handles(Without(l, btn), kinds) == Without(Handles(l, kinds), R.Handle(btn, kinds[btn]))
  {
    WithoutMembers(l, btn);
    if l != [] {
      HandlesWithout(l[1..], kinds, btn);
      assert Handles(l, kinds)[1..] == Handles(l[1..], kinds);
      if l[0] != btn {
        assert Without(l, btn)[1..] == Without(l[1..], btn);
      }
    }
  }

  lemma {:induction false} HandlesSame(l: seq<D.ButtonDev>, kinds: map<D.ButtonDev, R.Kind>,
                                       btn: D.ButtonDev, kind: R.Kind)
    requires btn !in l && forall n :: n in l ==> n in kinds
    ensures Handles([btn] + l, kinds[btn := kind]) == [R.Handle(btn, kind)] + Handles(l, kinds)
  {
    var more := kinds[btn := kind];
    assert forall i :: 0 <= i < |l| ==> Handles([btn] + l, more)[i + 1] == Handles(l, kinds)[i];
  }

  lemma KnownFacts(lim: Limits, r: R.Registry<D.ButtonDev>, cfg: Config)
    requires R.RegistryInv(lim, r)
    ensures Inv(lim, r.adc) && Sized(lim, r.adc)
    ensures Init(lim, r.adc, cfg).err != AdcTable.Ok ==> Init(lim, r.adc, cfg).table == r.adc
  {
    InitMeaning(lim, r.adc, cfg);
  }

  class IotButton {
    const adc: AdcButtons
    const driver: D.Driver
    /** The type and user data of each node. */
    var kinds: map<D.ButtonDev, R.Kind>

    ghost predicate Typed()
      reads this, driver
    {
      forall n :: n in driver.list ==> n in kinds
    }

    ghost function Abs(): R.Registry<D.ButtonDev>
      requires Typed()
      reads this, driver, adc, adc.ch
    {
      R.Registry(adc.Abs(), Handles(driver.list, kinds))
    }

    ghost predicate Valid()
      reads this, driver, driver.list, adc, adc.ch
    {
      && R.Fits(adc.lim)
      && driver.Valid()
      && Typed()
      && R.RegistryInv(adc.lim, Abs())
    }

    constructor (lim: Limits)
      requires R.Fits(lim)
      ensures Valid() && adc.lim == lim && driver.list == [] && Abs() == R.Registry(Zeroed(lim), [])
    {
      adc := new AdcButtons(lim);
      driver := new D.Driver();
      kinds := map[];
      new;
      R.EmptyContents(lim);
    }

    method CreateGpio(pin: nat, active: bool) returns (btn: D.ButtonDev)
      requires Valid()
      modifies this, driver
      ensures Valid() && fresh(btn)
      ensures Abs() == R.CreateGpioButton(old(Abs()), btn, pin)
      ensures driver.Abs() == ButtonFleet.Create(old(driver.Abs()), btn, active)
    {
      hide Handles, Contents, Inv, D.Chain, D.Entries, ButtonFleet.Create, R.LiveKeys, R.Unshared;
      ghost var l := driver.list;
      btn := driver.CreateCom(active);
      HandlesSame(l, kinds, btn, R.Gpio(pin));
      kinds := kinds[btn := R.Gpio(pin)];
      R.AddGpio(old(Abs()).live, R.Handle(btn, R.Gpio(pin)));
    }

    /** Null exactly when the ADC table refuses the configuration, and then nothing has changed. */
    method CreateAdc(cfg: Config) returns (btn: D.ButtonDev?)
      requires Valid()
      modifies this, driver, adc, adc.ch
      ensures Valid()
      ensures btn == null <==> Init(adc.lim, old(adc.Abs()), cfg).err != AdcTable.Ok
      ensures btn == null ==> Abs() == old(Abs()) && driver.Abs() == old(driver.Abs())
      ensures btn != null ==>
                && fresh(btn)
                && Abs() == R.CreateAdcButton(adc.lim, old(Abs()), btn, cfg)
                && driver.Abs() == ButtonFleet.Create(old(driver.Abs()), btn, true)
    {
      hide Handles, Init, Contents, Inv, D.Chain, D.Entries, ButtonFleet.Create, R.RegistryInv;
      ghost var l := driver.list;
      KnownFacts(adc.lim, Abs(), cfg);
      var err := adc.InitButton(cfg);
      if err != AdcTable.Ok {
        return null;
      }
      var b := driver.CreateCom(true);
      var kind := R.Adc(R.Combine(cfg.channel, cfg.index));
      HandlesSame(l, kinds, b, kind);
      kinds := kinds[b := kind];
      R.CreateKeeps(adc.lim, old(Abs()), b, cfg);
      btn := b;
    }

    lemma LiveHandle(btn: D.ButtonDev)
      requires Typed() && btn in driver.list
      ensures R.Handle(btn, kinds[btn]) in Abs().live
    {
      var i :| 0 <= i < |driver.list| && driver.list[i] == btn;
      assert Handles(driver.list, kinds)[i] == R.Handle(btn, kinds[btn]);
    }

    /** The switch on the button's type; the deinit of a live button never fails. */
    method ReleaseInput(btn: D.ButtonDev)
      requires Valid() && btn in driver.list
      modifies adc, adc.ch
      ensures adc.Abs() == R.DeleteHandle(adc.lim, old(Abs()), R.Handle(btn, kinds[btn])).adc
    {
      hide Handles, Deinit, Contents, Inv, R.LiveKeys, R.Unshared, D.Chain, Without, R.SplitChannel, R.SplitIndex;
      LiveHandle(btn);
      KnownFacts(adc.lim, Abs(), Config(0, 0, UNUSED));
      R.LiveDeletes(adc.lim, Abs(), R.Handle(btn, kinds[btn]));
      match kinds[btn] {
        case Gpio(_) =>
        case Adc(data) =>
          var e := adc.DeinitButton(R.SplitChannel(data), R.SplitIndex(data));
          if e != AdcTable.Ok {
            assert false;
          }
      }
    }

    /** Deleting a live button of either kind always succeeds, frees its key in the ADC table, and takes it
        out of the list. */
    method Delete(btn: D.ButtonDev?) returns (err: Err)
      requires Valid() && (btn != null ==> btn in driver.list)
      modifies driver, driver.list, adc, adc.ch
      ensures Valid()
      ensures btn == null ==> err == Err.InvalidArg && Abs() == old(Abs()) && driver.Abs() == old(driver.Abs())
      ensures btn != null ==>
                && err == Err.Ok
                && Abs() == R.DeleteHandle(adc.lim, old(Abs()), R.Handle(btn as D.ButtonDev, kinds[btn]))
                && driver.Abs() == ButtonFleet.Delete(old(driver.Abs()), btn)
    {
      if btn == null {
        return Err.InvalidArg;
      }
      DeleteLive(btn);
      return Err.Ok;
    }

    method DeleteLive(btn: D.ButtonDev)
      requires Valid() && btn in driver.list
      modifies driver, driver.list, adc, adc.ch
      ensures Valid()
      ensures Abs() == R.DeleteHandle(adc.lim, old(Abs()), R.Handle(btn, kinds[btn]))
      ensures driver.Abs() == ButtonFleet.Delete(old(driver.Abs()), btn)
    {
      hide Handles, Deinit, Contents, Inv, D.Chain, D.Entries, ButtonFleet.Delete, Without, R.RegistryInv;
      ghost var l, h, before := driver.list, R.Handle(btn, kinds[btn]), Abs();
      ghost var fleet := driver.Abs();
      LiveHandle(btn);
      KnownFacts(adc.lim, before, Config(0, 0, UNUSED));
      R.LiveDeletes(adc.lim, before, h);
      R.DeleteKeeps(adc.lim, before, h);
      HandlesWithout(l, kinds, btn);
      ReleaseInput(btn);
      assert driver.Valid() && driver.Abs() == fleet;
      var deleted := driver.DeleteCom(btn);
    }
  }
}
