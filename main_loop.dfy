/** The firmware's global variables and the functions of main.c that update
    them in place. Each method is specified by the function of module Session
    that describes its effect on the snapshot of all the globals. */
module MainLoop {
  import opened Session

  class Firmware {
    var currentState: State
    var repetitionsDone: int
    var currentSeries: int
    var isUserAuthenticated: bool
    var isExerciseStarted: bool
    var isResting: bool
    var isFinishPressed: bool
    /** Set by the button interrupt, cleared by the handlers. */
    var button1Pressed: bool
    var button2Pressed: bool

    function Snapshot(): Globals
      reads this
    {
      Globals(currentState, repetitionsDone, currentSeries, isUserAuthenticated, isExerciseStarted,
              isResting, isFinishPressed, button1Pressed, button2Pressed)
    }

    ghost predicate Valid()
      reads this
    {
      Inv(Snapshot())
    }

    /** The globals as initialised at program start. */
    constructor ()
      ensures Snapshot() == INITIAL && Valid()
    {
      currentState := Auth;
      repetitionsDone := 0;
      currentSeries := 1;
      isUserAuthenticated, isExerciseStarted, isResting, isFinishPressed := false, false, false, false;
      button1Pressed, button2Pressed := false, false;
    }

    method ButtonIsr(gpio: int)
      modifies this
      ensures Snapshot() == Session.ButtonIsr(old(Snapshot()), gpio)
    {
      if gpio == BUTTON_1 {
        button1Pressed := true;
      } else if gpio == BUTTON_2 {
        button2Pressed := true;
      }
    }

    method AuthenticateUser()
      modifies this
      ensures Snapshot() == Session.AuthenticateUser(old(Snapshot()))
    {
      if button1Pressed {
        button1Pressed := false;
        isUserAuthenticated := true;
      }
    }

    method StartExercise()
      modifies this
      ensures Snapshot() == Session.StartExercise(old(Snapshot()))
    {
      if button1Pressed {
        button1Pressed := false;
        isExerciseStarted := true;
        currentSeries := 1;
      }
    }

    method InSeriesHandler()
      modifies this
      ensures Snapshot() == Session.InSeriesHandler(old(Snapshot()))
    {
      if button2Pressed {
        button2Pressed := false;
        repetitionsDone := repetitionsDone + 1;
      }
    }

    method FinishExercise()
      modifies this
      ensures Snapshot() == Session.FinishExercise(old(Snapshot()))
    {
      isFinishPressed := true;
    }

    method RestTime()
      modifies this
      ensures Snapshot() == Session.RestTime(old(Snapshot()))
    {
      isResting := true;
    }

    method CompleteSeries()
      modifies this
      ensures Snapshot() == Session.CompleteSeries(old(Snapshot()))
    {
      currentSeries := currentSeries + 1;
      repetitionsDone := 0;
    }

    method UpdateState()
      modifies this
      ensures Snapshot() == Session.UpdateState(old(Snapshot()))
    {
      match currentState
      case Auth =>
        if isUserAuthenticated {
          currentState := ExerciseStart;
        }
      case ExerciseStart =>
        if isExerciseStarted {
          currentState := InSeries;
          repetitionsDone := 0;
        }
      case InSeries =>
        if repetitionsDone >= TOTAL_REPS {
          if currentSeries < TOTAL_SERIES {
            CompleteSeries();
            currentState := Rest;
          } else {
            currentState := Finish;
          }
        }
      case Rest =>
        RestTime();
        currentState := InSeries;
      case Finish =>
        if isFinishPressed {
          FinishExercise();
          currentState := Auth;
        }
    }

    /** One iteration of the `while (1)` loop, without its delay. */
    method LoopCycle()
      requires Valid()
      modifies this
      ensures Valid()
      ensures Snapshot() == Cycle(old(Snapshot()))
    {
      if currentState == Auth {
        AuthenticateUser();
      }
      if currentState == ExerciseStart {
        StartExercise();
      }
      if currentState == InSeries {
        InSeriesHandler();
      }
      // in Rest the loop body only prints
      if currentState == Finish {
        FinishExercise();
      }
      UpdateState();
    }
  }

  /** A client of the class: from power-up, one confirm press authenticates
      and the next starts the first series. */
  method StartSession() returns (state: State, series: int, reps: int)
    ensures state == InSeries && series == 1 && reps == 0
  {
    var fw := new Firmware();
    fw.ButtonIsr(BUTTON_1);
    fw.LoopCycle();
    assert fw.currentState == ExerciseStart;
    fw.ButtonIsr(BUTTON_1);
    fw.LoopCycle();
    state, series, reps := fw.currentState, fw.currentSeries, fw.repetitionsDone;
  }
}
