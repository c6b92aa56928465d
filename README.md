# Guided-exercise firmware: session state machine and RGB indicator

This project models the control logic of `main.c`, a Raspberry Pi Pico firmware that guides a user through an exercise session. The firmware waits for authentication (button 1). It waits for the start of the exercise (button 1 again). Then it counts repetitions (button 2) in three series of twelve, with a rest state between series and a finish state at the end. A separate RGB-LED indicator can be off, on in a colour, or blinking under a repeating 500 ms timer.

The model has four modules:

- `Session` (session.dfy) holds the firmware's global variables as one value, `Globals`. It defines each state handler, the transition function `update_state` and one iteration of the main loop as functions on that value. Their contracts give the transition rules. The predicate `Inv` is the session invariant that each loop cycle preserves.
- `SessionRuns` (session_runs.dfy) models sequences of loop cycles. Each cycle is preceded by the button interrupts that fired since the previous one. The lemmas cover the invariant over any run and the counting of presses. They also cover a full session from power-up, and what a second session does because the milestone flags are never cleared.
- `MainLoop` (main_loop.dfy) is the class `Firmware`, whose fields are the globals. It has one method per handler, one for `update_state` and one for a loop cycle. Each method updates the fields in place and is specified by the matching `Session` function.
- `Indicator` (indicator.dfy) models the `led` record with its three pins and the blink timer as a value, plus the indicator's lemmas. `LedDriver` (led_driver.dfy) is the class `RgbLed`, which updates those fields in place.

Behaviour modelled as written:

- `is_user_authenticated` and `is_exercise_started` are set and never cleared. After the first session returns to Auth, the next cycles pass through Auth and ExerciseStart without any button press. `current_series` is then still 3, so with idle cycles the second session ends after a single series (`SessionRuns.SecondSessionSkipsAuth`). The exception is a button-1 press that is pending when the one ExerciseStart cycle runs: it restarts at series 1 (`Session.ExerciseStartCycle`).
- `is_resting` and `is_finish_pressed` are never cleared either. In a loop cycle the Finish handler sets `is_finish_pressed` before `update_state` reads it, so Finish always returns to Auth in the same cycle.
- `set_led(..., LED_BLINK)` re-arms the timer but does not drive the pins or reset the blink phase. So until the first tick, the pins keep the previous colour (`Indicator.BlinkKeepsPreviousPins`). A description of the indicator as "alternating between the colour and off in blink mode" holds only from the first tick on (`Indicator.BlinkAlternates`). The model follows the code.
- `total_reps` and `total_series` are mutable `int` globals in the source but are never assigned. They are the constants `TOTAL_REPS = 12` and `TOTAL_SERIES = 3`.
- The counter bounds `1 <= current_series <= total_series` and `0 <= repetitions_done <= total_reps` are not preserved by a cycle on their own (`Session.BoundsAloneNotInductive`). `Inv` adds two conditions that hold at the top of each loop cycle: in InSeries fewer than twelve repetitions are done, and in Rest none are.

## Model

| member | source | states |
|---|---|---|
| `Session.ButtonIsr` | main.c:66-78 | the interrupt for pin 5 sets the button-1 flag, for pin 6 the button-2 flag; it never clears a flag and changes nothing else |
| `Session.AuthenticateUser` | main.c:175-184 | a pending button-1 press is consumed and authenticates the user; with no press nothing changes; the state and every other global are untouched |
| `Session.StartExercise` | main.c:186-193 | a pending button-1 press is consumed, marks the exercise started and sets the series to 1; with no press nothing changes |
| `Session.InSeriesHandler` | main.c:195-209 | a pending button-2 press is consumed and adds exactly one repetition; with no press nothing changes; button 1 is never touched |
| `Session.FinishExercise` | main.c:211-214 | raises the finish milestone and changes nothing else |
| `Session.RestTime` | main.c:216-219 | raises the resting milestone and changes nothing else |
| `Session.CompleteSeries` | main.c:221-225 | the series number goes up by one and the repetition counter restarts at 0 |
| `Session.UpdateState` | main.c:227-277 | the full transition table: Auth moves to ExerciseStart iff authenticated; ExerciseStart moves to InSeries with 0 repetitions iff started; InSeries below 12 repetitions changes nothing; at 12 or more it goes to the next series and Rest when series < 3, else to Finish with both counters kept; Rest always goes to InSeries and marks resting; Finish goes to Auth iff the finish milestone is set; flags are never touched and no milestone is cleared |
| `Session.Dispatch` | main.c:287-309 | the five successive state tests of the loop body run exactly one handler, the one of the current state, and leave the state unchanged |
| `Session.Cycle` | main.c:285-312 | one loop cycle preserves the session invariant; it consumes button 1 only in Auth and ExerciseStart and button 2 only in InSeries; it never clears a milestone; Finish reaches Auth within the cycle; Rest reaches InSeries and marks resting; in Auth, Rest and Finish both counters stay the same |
| `Session.SeriesMonotone` | main.c:186-256 | within one cycle `current_series` never decreases, except by the reset to 1 on a confirm press in ExerciseStart; it increases only from InSeries into Rest, by exactly one, or by that same reset |
| `Session.AuthCycle` | main.c:229-235 | in a cycle starting in Auth, the session moves to ExerciseStart iff the user was already authenticated or button 1 was pending, and the counters do not change |
| `Session.ExerciseStartCycle` | main.c:237-244 | in a cycle starting in ExerciseStart, the session enters InSeries with 0 repetitions iff the exercise had started or button 1 was pending; the series is reset to 1 only by a press |
| `Session.InSeriesProgress` | main.c:246-256 | in InSeries each pending count press advances the total repetitions of the session by exactly one, including across a series change; the cycle reaches Finish iff all 36 repetitions are done |
| `Session.BoundsAloneNotInductive` | main.c:205-208 | a state within the counter bounds, in the last series at 12 repetitions with a press pending, leaves the cycle with 13 repetitions |
| `Session.InitialInv` | main.c:38-46 | the initial globals satisfy the session invariant |
| `SessionRuns.Deliver` | main.c:66-78 | delivering the interrupts of one inter-cycle interval sets exactly the flags of the buttons pressed and nothing else |
| `SessionRuns.Run` | main.c:285-316 | finitely many iterations of the main loop, each preceded by the button interrupts of the interval before it; from any state satisfying the session invariant, every run keeps it, whatever the buttons do |
| `SessionRuns.ReachableBounds` | main.c:38-46 | from the initial globals, any run keeps `1 <= current_series <= 3` and `0 <= repetitions_done <= 12` |
| `SessionRuns.MilestonesPersist` | main.c:43-44 | once set, `is_user_authenticated` and `is_exercise_started` stay set through any run |
| `SessionRuns.CountRepetitions` | main.c:205-208 | below the threshold, n cycles each with one count press add exactly n repetitions and change nothing else |
| `SessionRuns.SeriesThenRest` | main.c:246-263 | twelve count presses in a series that is not the last move to Rest with the next series number and 0 repetitions; one more cycle is back in InSeries |
| `SessionRuns.LastSeriesThenAuth` | main.c:246-270 | twelve count presses in the last series end in Finish with the counter at 12; one more cycle is back in Auth |
| `SessionRuns.FirstSession` | main.c:285-312 | from power-up, two confirm presses reach InSeries at series 1 with 0 repetitions; twelve count presses reach Rest at series 2; after three series the session is in Finish with series 3 and 12 repetitions, and one cycle later in Auth |
| `SessionRuns.SecondSessionSkipsAuth` | main.c:229-244 | after a full session, two idle cycles reach InSeries with no press and the series still at 3, and twelve presses end the second session in Finish |
| `SessionRuns.SeriesNonDecreasing` | main.c:188-191 | over any run with no confirm press, `current_series` never decreases |
| `SessionRuns.PressesCollapse` | main.c:66-78 | two presses of the same button before a cycle set the flag as one press does, and count as one repetition |
| `MainLoop.Firmware.constructor` | main.c:38-46 | the globals start in Auth with 0 repetitions, series 1 and all flags false |
| `MainLoop.Firmware.ButtonIsr` | main.c:66-78 | updates the flag fields as `Session.ButtonIsr` describes |
| `MainLoop.Firmware.AuthenticateUser` | main.c:175-184 | updates the fields as `Session.AuthenticateUser` describes |
| `MainLoop.Firmware.StartExercise` | main.c:186-193 | updates the fields as `Session.StartExercise` describes |
| `MainLoop.Firmware.InSeriesHandler` | main.c:195-209 | updates the fields as `Session.InSeriesHandler` describes |
| `MainLoop.Firmware.FinishExercise` | main.c:211-214 | updates the fields as `Session.FinishExercise` describes |
| `MainLoop.Firmware.RestTime` | main.c:216-219 | updates the fields as `Session.RestTime` describes |
| `MainLoop.Firmware.CompleteSeries` | main.c:221-225 | updates the fields as `Session.CompleteSeries` describes |
| `MainLoop.Firmware.UpdateState` | main.c:227-277 | updates the fields as `Session.UpdateState` describes |
| `MainLoop.Firmware.LoopCycle` | main.c:285-312 | one loop iteration updates the fields as `Session.Cycle` describes and keeps the session invariant |
| `MainLoop.StartSession` | main.c:285-312 | a client of the class: from power-up, two confirm presses, each followed by a cycle, reach InSeries at series 1 with 0 repetitions |
| `Indicator.StartLedBlinking` | main.c:158-161 | the timer ends up armed with the given interval, whatever it was before (cancel and re-add as one step); nothing else changes |
| `Indicator.SetLed` | main.c:131-155 | stores colour and mode and keeps the blink phase; off drives all pins low and cancels the timer; on drives each pin to whether its channel is non-zero and cancels the timer; blink arms the timer at 500 ms and leaves the pins as they were |
| `Indicator.BlinkTimerCallback` | main.c:104-112 | outside blink mode a tick changes nothing; in blink mode it flips the phase and shows the colour in the on phase and all-low in the off phase; only the phase and pins change, so the timer stays armed |
| `Indicator.Ticks` | main.c:104-112 | n firings of the repeating blink timer; the first firing acts on the record as it is and the remaining n - 1 on the record it leaves |
| `Indicator.ConsistentAfterSetLed` | main.c:131-155 | from any prior state, after `set_led` and any number of ticks the timer is armed iff in blink mode, off means all pins low, and on means the pins show the colour |
| `Indicator.TicksOutsideBlink` | main.c:104-112 | outside blink mode any number of ticks leaves the indicator unchanged |
| `Indicator.StaleTicksAfterOff` | main.c:104-112 | blink, then off, then any number of already scheduled ticks leaves all pins low |
| `Indicator.BlinkAlternates` | main.c:104-112 | in blink mode the phase after n ticks is the initial phase flipped n times; after at least one tick the pins show the colour exactly in the on phase; mode, colour and timer do not change |
| `Indicator.BlinkKeepsPreviousPins` | main.c:151-154 | switching from red on to blue blinking leaves the pins red until the first tick |
| `LedDriver.RgbLed.constructor` | main.c:62 | the record starts off, black, in the off phase, with the pins low and no timer |
| `LedDriver.RgbLed.StartLedBlinking` | main.c:158-161 | updates the timer fields as `Indicator.StartLedBlinking` describes |
| `LedDriver.RgbLed.SetLed` | main.c:131-155 | updates the fields as `Indicator.SetLed` describes and leaves the indicator consistent |
| `LedDriver.RgbLed.BlinkTimerCallback` | main.c:104-112 | updates the fields as `Indicator.BlinkTimerCallback` describes and asks the timer to keep repeating |
| `LedDriver.StaleTick` | main.c:104-155 | a client of the class: after blink then off, a tick leaves all pins low and the timer cancelled |

## Left out

- The debounce in `button_isr`: the modelled interrupt handler does not disable and re-enable the edge interrupt or wait 200 ms inside the interrupt. Only its effect on the flag is modelled. Timing and interrupt context are outside a sequential model.
- Concurrency between the interrupts and the main loop: interrupts are delivered only between loop cycles (`SessionRuns.Deliver`). A press that arrives while a handler is running is not modelled, and neither are the volatile accesses.
- Display output (`init_display`, `display_message`, the `ssd1306_*` calls, the `sprintf` prompt lines) and all `printf` text. These are output to a foreign display library and the console. The Rest branch of the loop body only prints, so it has no counterpart.
- Hardware setup (`stdio_init_all`, `setup_buttons`, `setup_leds`, the I2C pins): platform initialisation. Its one effect on the model, that the LED pins start low, is in the initial indicator state.
- Indicator.StartLedBlinking: the cancel followed by the add in `start_led_blinking` is merged into one step that leaves the timer armed with the new interval. The restart of the timer's period, which a re-arm while already blinking causes, is therefore not observable in the model.
- The `gpio_put`, `add_repeating_timer_ms` and `cancel_repeating_timer` calls: they are the pin fields and the `timerArmed`/`timerIntervalMs` fields. Timer drift and the timer calling the callback every 500 ms are not modelled; a tick is an explicit call.
- The `sleep_ms(1000)` at the end of each loop iteration, and the endless `while (1)`: one iteration is `MainLoop.Firmware.LoopCycle` and `Session.Cycle`, and runs of any finite length are `SessionRuns.Run`; ticks of the timer are `Indicator.Ticks`.
- The `default:` branch of `update_state`: `State` is an exhaustive datatype, so no other value exists.
- The unused local `iot_message_received` in `authenticate_user`.
- Session.InSeriesHandler: `repetitions_done++` is on an unbounded integer, so C `int` overflow is not modelled. From the initial state it cannot happen, because the counter never exceeds 12 (`SessionRuns.ReachableBounds`).
- `set_led` is never called from the main loop in the source, so the indicator is modelled as a component of its own and is not connected to the session states.
