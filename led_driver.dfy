/** The indicator as the firmware holds it: the global `led` record, the
    pins and the timer as fields that `set_led` and the timer callback update
    in place. Each method is specified by the function of module Indicator
    that describes its effect on the snapshot of the fields. */
module LedDriver {
  import opened Indicator

  /** The `led` record and the hardware it stands for, updated in place. */
  class RgbLed {
    var mode: LedMode
    var r: uint8
    var g: uint8
    var b: uint8
    var ledOn: bool
    /** Output levels of the red, green and blue pins. */
    var pinRed: bool
    var pinGreen: bool
    var pinBlue: bool
    /** Whether the repeating blink timer is armed, and its interval. */
    var timerArmed: bool
    var timerIntervalMs: int

    function Snapshot(): Led
      reads this
    {
      Led(mode, r, g, b, ledOn, Pins(pinRed, pinGreen, pinBlue), timerArmed, timerIntervalMs)
    }

    constructor ()
      ensures Snapshot() == INITIAL && Consistent(Snapshot())
    {
      mode, r, g, b, ledOn := LedOff, 0, 0, 0, false;
      pinRed, pinGreen, pinBlue := false, false, false;
      timerArmed, timerIntervalMs := false, 0;
    }

    method StartLedBlinking(intervalMs: int)
      modifies this
      ensures Snapshot() == Indicator.StartLedBlinking(old(Snapshot()), intervalMs)
    {
      timerArmed, timerIntervalMs := true, intervalMs;
    }

    method SetLed(r: uint8, g: uint8, b: uint8, mode: LedMode)
      modifies this
      ensures Snapshot() == Indicator.SetLed(old(Snapshot()), r, g, b, mode)
      ensures Consistent(Snapshot())
    {
      this.r, this.g, this.b := r, g, b;
      this.mode := mode;
      if mode == LedOn {
        pinRed, pinGreen, pinBlue := r != 0, g != 0, b != 0;
        timerArmed := false;
      } else if mode == LedOff {
        pinRed, pinGreen, pinBlue := false, false, false;
        timerArmed := false;
      } else {
        StartLedBlinking(BLINK_INTERVAL_MS);
      }
    }

    method BlinkTimerCallback() returns (keepRepeating: bool)
      modifies this
      ensures Snapshot() == Indicator.BlinkTimerCallback(old(Snapshot()))
      ensures keepRepeating
    {
      if mode == LedBlink {
        ledOn := !ledOn;
        pinRed := if ledOn then r != 0 else false;
        pinGreen := if ledOn then g != 0 else false;
        pinBlue := if ledOn then b != 0 else false;
      }
      keepRepeating := true;
    }
  }

  /** A client of the class: a tick that fires after the indicator went from
      blinking to off leaves all three pins low and the timer cancelled. */
  method StaleTick(r: uint8, g: uint8, b: uint8) returns (pins: Pins, armed: bool)
    ensures pins == ALL_LOW && !armed
  {
    var led := new RgbLed();
    led.SetLed(r, g, b, LedBlink);
    led.SetLed(r, g, b, LedOff);
    var _ := led.BlinkTimerCallback();
    pins, armed := Pins(led.pinRed, led.pinGreen, led.pinBlue), led.timerArmed;
  }
}
