/** The Wi-Fi manager as it runs, on top of the indicator object it was given. */
module WifiDriver {
  import opened LedBlink
  import opened LedDriver
  import opened WifiLed

  datatype StaEvent = EventStart | EventDisconnected | EventGotIp

  class WifiManager {
    const indicator: Indicator
    var isReady: bool
    /** s_retry_num, a static of the source file. */
    var retryNum: nat
    ghost var notes: seq<Note>

    ghost function Abs(): Wifi
      reads this, indicator, indicator.blinkSteps
    {
      Wifi(isReady, retryNum, indicator.Abs(), notes)
    }

    ghost predicate Valid()
      reads this, indicator, indicator.blinkSteps
    {
      indicator.table == BLINK_LISTS && indicator.Valid()
    }

    constructor (indicator: Indicator)
      requires indicator.table == BLINK_LISTS && indicator.Valid()
      ensures this.indicator == indicator && Valid()
      ensures Abs() == Wifi(false, 0, indicator.Abs(), [])
    {
      this.indicator := indicator;
      isReady, retryNum, notes := false, 0, [];
    }

    /** `ok` is what esp_wifi_start answers. */
    method StartWifi(ok: bool) returns (r: bool)
      requires Valid()
      modifies this, indicator, indicator.blinkSteps
      ensures Valid() && Abs() == StartManager(old(Abs()), ok)
      ensures r == (old(isReady) || ok)
    {
      if isReady {
        return true;
      }
      retryNum := 0;
      notes := notes + [RetryReset];
      if !ok {
        return false;
      }
      var err := indicator.StartBlink(CONNECTING);
      return true;
    }

    /** `ok` is what esp_wifi_stop answers. */
    method StopWifi(ok: bool) returns (r: bool)
      requires Valid()
      modifies this`isReady
      ensures Valid() && Abs() == StopManager(old(Abs()), ok)
      ensures r == (!old(isReady) || ok)
    {
      if !isReady {
        return true;
      }
      if !ok {
        return false;
      }
      isReady := false;
      return true;
    }

    method OnStaConnected()
      requires Valid()
      modifies this`isReady, indicator, indicator.blinkSteps
      ensures Valid() && Abs() == Connected(old(Abs()))
    {
      isReady := true;
      var err := indicator.StopBlink(CONNECTING);
      err := indicator.StartBlink(CONNECTED);
    }

    method OnStaConnectFailed()
      requires Valid()
      modifies this`isReady, indicator, indicator.blinkSteps
      ensures Valid() && Abs() == ConnectFailed(old(Abs()))
    {
      isReady := false;
      var err := indicator.StopBlink(CONNECTING);
      err := indicator.StopBlink(CONNECTED);
    }

    method StaEventHandler(ev: StaEvent)
      requires Valid()
      modifies this, indicator, indicator.blinkSteps
      ensures Valid()
      ensures Abs() == match ev
                       case EventStart => StationUp(old(Abs()))
                       case EventDisconnected => Disconnected(old(Abs()))
                       case EventGotIp => HasIp(old(Abs()))
    {
      match ev {
        case EventStart =>
          notes := notes + [FirstConnect];
        case EventDisconnected =>
          if retryNum < MAX_RETRY {
            notes := notes + [Reconnect];
            retryNum := retryNum + 1;
          } else {
            OnStaConnectFailed();
          }
        case EventGotIp =>
          retryNum := 0;
          notes := notes + [RetryReset];
          OnStaConnected();
      }
    }
  }
}
