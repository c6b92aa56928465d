/** The exercise-session state machine of main.c, as values.

    `Globals` is a snapshot of the firmware's process-wide variables: the
    current state, the two counters, the four milestone booleans and the two
    button flags that the interrupt handler sets. Each handler and the
    transition function is a function from one snapshot to the next; the
    class in module MainLoop is specified by them. */
module Session {

  datatype State = Auth | ExerciseStart | InSeries | Rest | Finish

  /** Repetitions per series and series per session (`total_reps`, `total_series`). */
  const TOTAL_REPS: int := 12
  const TOTAL_SERIES: int := 3

  /** GPIO numbers of the confirm button and the count button. */
  const BUTTON_1: int := 5
  const BUTTON_2: int := 6

  datatype Globals = Globals(
    state: State,
    repetitionsDone: int,
    currentSeries: int,
    isUserAuthenticated: bool,
    isExerciseStarted: bool,
    isResting: bool,
    isFinishPressed: bool,
    button1Pressed: bool,
    button2Pressed: bool)

  /** The values the globals are initialised with at program start. */
  const INITIAL := Globals(Auth, 0, 1, false, false, false, false, false, false)

  /** The effect of `button_isr` on the flags: the flag of the button whose
      pin raised the interrupt becomes true; nothing else changes. */
  function ButtonIsr(g: Globals, gpio: int): (r: Globals)
    ensures r.button1Pressed == (g.button1Pressed || gpio == BUTTON_1)
    ensures r.button2Pressed == (g.button2Pressed || gpio == BUTTON_2)
    ensures r.(button1Pressed := g.button1Pressed, button2Pressed := g.button2Pressed) == g
  {
    if gpio == BUTTON_1 then g.(button1Pressed := true)
    else if gpio == BUTTON_2 then g.(button2Pressed := true)
    else g
  }

  /** `authenticate_user`: a pending confirm press is consumed and marks the
      user authenticated. */
  function AuthenticateUser(g: Globals): (r: Globals)
    ensures !r.button1Pressed
    ensures r.isUserAuthenticated == (g.isUserAuthenticated || g.button1Pressed)
    ensures r.(button1Pressed := g.button1Pressed, isUserAuthenticated := g.isUserAuthenticated) == g
  {
    if g.button1Pressed then g.(button1Pressed := false, isUserAuthenticated := true) else g
  }

  /** `start_exercise`: a pending confirm press is consumed, marks the
      exercise started and restarts the series count at 1. */
  function StartExercise(g: Globals): (r: Globals)
    ensures !r.button1Pressed
    ensures r.isExerciseStarted == (g.isExerciseStarted || g.button1Pressed)
    ensures r.currentSeries == if g.button1Pressed then 1 else g.currentSeries
    ensures r.(button1Pressed := g.button1Pressed, isExerciseStarted := g.isExerciseStarted,
               currentSeries := g.currentSeries) == g
  {
    if g.button1Pressed then g.(button1Pressed := false, isExerciseStarted := true, currentSeries := 1)
    else g
  }

  /** `in_series`: a pending count press is consumed and counts exactly one
      repetition; the confirm flag is never touched. */
  function InSeriesHandler(g: Globals): (r: Globals)
    ensures !r.button2Pressed
    ensures r.repetitionsDone == g.repetitionsDone + (if g.button2Pressed then 1 else 0)
    ensures r.button1Pressed == g.button1Pressed
    ensures r.(button2Pressed := g.button2Pressed, repetitionsDone := g.repetitionsDone) == g
  {
    if g.button2Pressed then g.(button2Pressed := false, repetitionsDone := g.repetitionsDone + 1)
    else g
  }

  /** `finish_exercise`: raises the finish milestone (the report text is output only). */
  function FinishExercise(g: Globals): (r: Globals)
    ensures r.isFinishPressed
    ensures r.(isFinishPressed := g.isFinishPressed) == g
  {
    g.(isFinishPressed := true)
  }

  /** `rest_time`: raises the resting milestone. */
  function RestTime(g: Globals): (r: Globals)
    ensures r.isResting
    ensures r.(isResting := g.isResting) == g
  {
    g.(isResting := true)
  }

  /** `complete_series`: moves on to the next series with no repetitions done. */
  function CompleteSeries(g: Globals): (r: Globals)
    ensures r.currentSeries == g.currentSeries + 1 && r.repetitionsDone == 0
    ensures r.(currentSeries := g.currentSeries, repetitionsDone := g.repetitionsDone) == g
  {
    g.(currentSeries := g.currentSeries + 1, repetitionsDone := 0)
  }

  /** `update_state`: the transition function. Its `default:` branch has no
      counterpart, since `State` is exhaustive. */
  function UpdateState(g: Globals): (r: Globals)
    // the transition never touches the button flags and never clears a milestone
    ensures r.button1Pressed == g.button1Pressed && r.button2Pressed == g.button2Pressed
    ensures r.isUserAuthenticated == g.isUserAuthenticated && r.isExerciseStarted == g.isExerciseStarted
    ensures (g.isResting ==> r.isResting) && (g.isFinishPressed ==> r.isFinishPressed)
    // Auth moves on exactly when the user is authenticated, and changes nothing else
    ensures g.state == Auth ==>
      r == (if g.isUserAuthenticated then g.(state := ExerciseStart) else g)
    // ExerciseStart moves to InSeries with no repetitions exactly when the exercise has started
    ensures g.state == ExerciseStart ==>
      ((r.state == InSeries) <==> g.isExerciseStarted) &&
      r == (if g.isExerciseStarted then g.(state := InSeries, repetitionsDone := 0) else g)
    // InSeries below the threshold: nothing changes
    ensures g.state == InSeries && g.repetitionsDone < TOTAL_REPS ==> r == g
    // InSeries, series done, more to go: next series, counter reset, Rest
    ensures g.state == InSeries && g.repetitionsDone >= TOTAL_REPS && g.currentSeries < TOTAL_SERIES ==>
      r.state == Rest && r.currentSeries == g.currentSeries + 1 && r.repetitionsDone == 0 &&
      r.(state := g.state, currentSeries := g.currentSeries, repetitionsDone := g.repetitionsDone) == g
    // InSeries, last series done: Finish, both counters left as they are
    ensures g.state == InSeries && g.repetitionsDone >= TOTAL_REPS && g.currentSeries >= TOTAL_SERIES ==>
      r == g.(state := Finish)
    // Rest is a pass-through that marks resting
    ensures g.state == Rest ==> r == g.(state := InSeries, isResting := true)
    // Finish returns to Auth exactly when the finish milestone is set
    ensures g.state == Finish ==>
      r == (if g.isFinishPressed then g.(state := Auth) else g)
  {
    match g.state
    case Auth =>
      if g.isUserAuthenticated then g.(state := ExerciseStart) else g
    case ExerciseStart =>
      if g.isExerciseStarted then g.(state := InSeries, repetitionsDone := 0) else g
    case InSeries =>
      if g.repetitionsDone >= TOTAL_REPS then
        if g.currentSeries < TOTAL_SERIES then CompleteSeries(g).(state := Rest)
        else g.(state := Finish)
      else g
    case Rest =>
      RestTime(g).(state := InSeries)
    case Finish =>
      if g.isFinishPressed then FinishExercise(g).(state := Auth) else g
  }

  /** The handler calls of one loop iteration: five `if`s in a row, each
      testing the current state. The Rest branch only prints. */
  function Dispatch(g: Globals): (r: Globals)
    // no handler changes the state, so exactly one handler runs
    ensures r.state == g.state
    ensures r == match g.state
                 case Auth => AuthenticateUser(g)
                 case ExerciseStart => StartExercise(g)
                 case InSeries => InSeriesHandler(g)
                 case Rest => g
                 case Finish => FinishExercise(g)
  {
    var g1 := if g.state == Auth then AuthenticateUser(g) else g;
    var g2 := if g1.state == ExerciseStart then StartExercise(g1) else g1;
    var g3 := if g2.state == InSeries then InSeriesHandler(g2) else g2;
    var g4 := g3;
    var g5 := if g4.state == Finish then FinishExercise(g4) else g4;
    g5
  }

  /** The session invariant: the counter bounds, strengthened by what holds of
      each state at the top of the loop so that one cycle preserves it. */
  predicate Inv(g: Globals) {
    && 1 <= g.currentSeries <= TOTAL_SERIES
    && 0 <= g.repetitionsDone <= TOTAL_REPS
    && (g.state == InSeries ==> g.repetitionsDone < TOTAL_REPS)
    && (g.state == Rest ==> g.repetitionsDone == 0)
  }

  /** Repetitions counted in the session so far. */
  function Progress(g: Globals): (n: int) {
    (g.currentSeries - 1) * TOTAL_REPS + g.repetitionsDone
  }

  /** One iteration of the main loop: the handler of the current state, then
      `update_state` (the one-second delay is not modelled). */
  function Cycle(g: Globals): (r: Globals)
    ensures Inv(g) ==> Inv(r)
    ensures r.button1Pressed == (g.button1Pressed && g.state != Auth && g.state != ExerciseStart)
    ensures r.button2Pressed == (g.button2Pressed && g.state != InSeries)
    ensures (g.isUserAuthenticated ==> r.isUserAuthenticated) && (g.isExerciseStarted ==> r.isExerciseStarted)
    ensures (g.isResting ==> r.isResting) && (g.isFinishPressed ==> r.isFinishPressed)
    // Finish always returns to Auth within the same cycle
    ensures g.state == Finish ==> r.state == Auth && r.isFinishPressed
    ensures g.state == Rest ==> r.state == InSeries && r.isResting
    // only ExerciseStart and InSeries touch the counters
    ensures g.state in {Auth, Rest, Finish} ==>
      r.currentSeries == g.currentSeries && r.repetitionsDone == g.repetitionsDone
  {
    UpdateState(Dispatch(g))
  }

  /** Within a cycle `current_series` never decreases; the one way it can go
      down is the reset to 1 by a confirm press in ExerciseStart. */
  lemma SeriesMonotone(g: Globals)
    ensures Cycle(g).currentSeries >= g.currentSeries ||
            (g.state == ExerciseStart && g.button1Pressed && Cycle(g).currentSeries == 1)
    ensures Cycle(g).currentSeries > g.currentSeries ==>
            (g.state == InSeries && Cycle(g).state == Rest && Cycle(g).currentSeries == g.currentSeries + 1) ||
            (g.state == ExerciseStart && g.button1Pressed && Cycle(g).currentSeries == 1)
  {
  }

  /** Every confirm press consumed in Auth authenticates, and Auth moves on in
      that same cycle exactly when the user is (or has just become) authenticated. */
  lemma AuthCycle(g: Globals)
    requires g.state == Auth
    ensures Cycle(g).isUserAuthenticated == (g.isUserAuthenticated || g.button1Pressed)
    ensures Cycle(g).state == (if g.isUserAuthenticated || g.button1Pressed then ExerciseStart else Auth)
    ensures Cycle(g).currentSeries == g.currentSeries && Cycle(g).repetitionsDone == g.repetitionsDone
  {
  }

  /** In ExerciseStart, a confirm press restarts at series 1, and the session
      enters InSeries with zero repetitions exactly when the exercise has started. */
  lemma ExerciseStartCycle(g: Globals)
    requires g.state == ExerciseStart
    ensures Cycle(g).state == (if g.isExerciseStarted || g.button1Pressed then InSeries else ExerciseStart)
    ensures Cycle(g).currentSeries == (if g.button1Pressed then 1 else g.currentSeries)
    ensures Cycle(g).state == InSeries ==> Cycle(g).repetitionsDone == 0
  {
  }

  /** Each count press in InSeries advances the session's progress by exactly
      one repetition, whether or not it completes a series. */
  lemma InSeriesProgress(g: Globals)
    requires Inv(g) && g.state == InSeries
    ensures Progress(Cycle(g)) == Progress(g) + (if g.button2Pressed then 1 else 0)
    ensures Cycle(g).state in {InSeries, Rest, Finish}
    ensures Cycle(g).state == Finish <==> Progress(Cycle(g)) == TOTAL_REPS * TOTAL_SERIES
  {
  }

  /** The bounds alone are not preserved: in the last series with the counter
      already at the limit, a count press makes it 13. */
  lemma BoundsAloneNotInductive()
    ensures var g := Globals(InSeries, TOTAL_REPS, TOTAL_SERIES, true, true, false, false, false, true);
            1 <= g.currentSeries <= TOTAL_SERIES && 0 <= g.repetitionsDone <= TOTAL_REPS &&
            Cycle(g).repetitionsDone == TOTAL_REPS + 1
  {
  }

  lemma InitialInv()
    ensures Inv(INITIAL)
  {
  }
}
