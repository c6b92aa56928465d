/** The RGB-LED indicator of main.c: the `led` control record, the three
    output pins it drives and the repeating timer that makes it blink.
    A pin receives `value != 0` from `gpio_put`; the timer is reduced to
    whether it is armed and with which interval. */
module Indicator {

  newtype uint8 = x: int | 0 <= x < 256

  datatype LedMode = LedOff | LedOn | LedBlink

  /** Levels of the red, green and blue output pins. */
  datatype Pins = Pins(red: bool, green: bool, blue: bool)

  const ALL_LOW := Pins(false, false, false)

  /** Interval that `set_led` arms the blink timer with. */
  const BLINK_INTERVAL_MS: int := 500

  datatype Led = Led(
    mode: LedMode,
    r: uint8, g: uint8, b: uint8,
    ledOn: bool,
    pins: Pins,
    timerArmed: bool,
    timerIntervalMs: int)

  /** The record as initialised, with the pins driven low at setup and no timer. */
  const INITIAL := Led(LedOff, 0, 0, 0, false, ALL_LOW, false, 0)

  /** Pin levels for a colour: each pin is high exactly when its channel is non-zero. */
  function Levels(r: uint8, g: uint8, b: uint8): (p: Pins) {
    Pins(r != 0, g != 0, b != 0)
  }

  /** `start_led_blinking`: cancel the repeating timer, then add it again;
      the cancel-and-add is one step that leaves the timer armed. */
  function StartLedBlinking(l: Led, intervalMs: int): (l': Led)
    ensures l'.timerArmed && l'.timerIntervalMs == intervalMs
    ensures l'.(timerArmed := l.timerArmed, timerIntervalMs := l.timerIntervalMs) == l
  {
    l.(timerArmed := true, timerIntervalMs := intervalMs)
  }

  /** `set_led`: store colour and mode, then drive the pins and cancel the
      timer (on, off) or re-arm the timer and leave the pins alone (blink). */
  function SetLed(l: Led, r: uint8, g: uint8, b: uint8, mode: LedMode): (l': Led)
    ensures l'.mode == mode && l'.r == r && l'.g == g && l'.b == b
    ensures l'.ledOn == l.ledOn
    ensures l'.timerArmed <==> mode == LedBlink
    ensures mode == LedOff ==> l'.pins == ALL_LOW && l'.timerIntervalMs == l.timerIntervalMs
    ensures mode == LedOn ==>
      l'.pins.red == (r != 0) && l'.pins.green == (g != 0) && l'.pins.blue == (b != 0) &&
      l'.timerIntervalMs == l.timerIntervalMs
    ensures mode == LedBlink ==> l'.pins == l.pins && l'.timerIntervalMs == BLINK_INTERVAL_MS
  {
    var c := l.(r := r, g := g, b := b, mode := mode);
    match mode
    case LedOn => c.(pins := Levels(r, g, b), timerArmed := false)
    case LedOff => c.(pins := ALL_LOW, timerArmed := false)
    case LedBlink => StartLedBlinking(c, BLINK_INTERVAL_MS)
  }

  /** `blink_timer_callback`: in blink mode, flip the phase and drive the
      colour or all-low accordingly; in any other mode do nothing. It always
      asks the timer to keep repeating, so the timer stays armed. */
  function BlinkTimerCallback(l: Led): (l': Led)
    ensures l.mode != LedBlink ==> l' == l
    ensures l.mode == LedBlink ==>
      l'.ledOn == !l.ledOn &&
      l'.pins == (if l'.ledOn then Levels(l.r, l.g, l.b) else ALL_LOW)
    ensures l'.(ledOn := l.ledOn, pins := l.pins) == l
  {
    if l.mode == LedBlink then
      var on := !l.ledOn;
      l.(ledOn := on, pins := if on then Levels(l.r, l.g, l.b) else ALL_LOW)
    else l
  }

  /** What the pins and the timer show in each mode: everything low with no
      timer when off, the colour with no timer when on, an armed timer when
      blinking. */
  predicate Consistent(l: Led) {
    && (l.timerArmed <==> l.mode == LedBlink)
    && (l.mode == LedOff ==> l.pins == ALL_LOW)
    && (l.mode == LedOn ==> l.pins == Levels(l.r, l.g, l.b))
  }

  /** The record after `n` timer ticks. */
  function Ticks(l: Led, n: nat): (l': Led)
    // the first tick acts on the record as it is now, the rest on what it leaves
    ensures n > 0 ==> l' == Ticks(BlinkTimerCallback(l), n - 1)
    decreases n
  {
    if n == 0 then l else BlinkTimerCallback(Ticks(l, n - 1))
  }

  /** Whatever state it starts from, `set_led` leaves the indicator consistent,
      and no timer tick can make it inconsistent. */
  lemma {:induction false} ConsistentAfterSetLed(l: Led, r: uint8, g: uint8, b: uint8, mode: LedMode, n: nat)
    ensures Consistent(SetLed(l, r, g, b, mode))
    ensures Consistent(Ticks(SetLed(l, r, g, b, mode), n))
    decreases n
  {
    if n > 0 {
      ConsistentAfterSetLed(l, r, g, b, mode, n - 1);
    }
  }

  /** Outside blink mode, timer ticks change nothing. */
  lemma {:induction false} TicksOutsideBlink(l: Led, n: nat)
    requires l.mode != LedBlink
    ensures Ticks(l, n) == l
    decreases n
  {
    if n > 0 {
      TicksOutsideBlink(l, n - 1);
    }
  }

  /** A tick that was already scheduled when the indicator left blink mode
      leaves the pins low: blink, then off, then any number of ticks. */
  lemma StaleTicksAfterOff(l: Led, r: uint8, g: uint8, b: uint8, r2: uint8, g2: uint8, b2: uint8, n: nat)
    ensures Ticks(SetLed(SetLed(l, r, g, b, LedBlink), r2, g2, b2, LedOff), n).pins == ALL_LOW
  {
    TicksOutsideBlink(SetLed(SetLed(l, r, g, b, LedBlink), r2, g2, b2, LedOff), n);
  }

  /** In blink mode the phase alternates with every tick, and after the first
      tick the pins show the colour in the on phase and all-low in the off phase. */
  lemma {:induction false} BlinkAlternates(l: Led, n: nat)
    requires l.mode == LedBlink
    ensures Ticks(l, n).ledOn == (l.ledOn != (n % 2 == 1))
    ensures Ticks(l, n).(ledOn := l.ledOn, pins := l.pins) == l
    ensures n > 0 ==> Ticks(l, n).pins == if Ticks(l, n).ledOn then Levels(l.r, l.g, l.b) else ALL_LOW
    decreases n
  {
    if n > 0 {
      BlinkAlternates(l, n - 1);
    }
  }

  /** Entering blink mode does not drive the pins: until the first tick they
      keep the previous colour, which is neither the new colour nor all-low. */
  lemma BlinkKeepsPreviousPins()
    ensures var l := SetLed(SetLed(INITIAL, 255, 0, 0, LedOn), 0, 0, 255, LedBlink);
            l.mode == LedBlink && l.pins == Pins(true, false, false) &&
            l.pins != Levels(0, 0, 255) && l.pins != ALL_LOW
  {
  }
}
