/** Runs of the main loop: sequences of cycles, each preceded by the button
    interrupts that fired since the previous cycle. */
module SessionRuns {
  import opened Session

  /** Which buttons raised an interrupt since the previous cycle. */
  datatype Events = Events(press1: bool, press2: bool)

  const IDLE := Events(false, false)
  const CONFIRM := Events(true, false)
  const COUNT := Events(false, true)

  /** The interrupts of `e` delivered to the flags by `button_isr`. */
  function Deliver(g: Globals, e: Events): (r: Globals)
    ensures r.button1Pressed == (g.button1Pressed || e.press1)
    ensures r.button2Pressed == (g.button2Pressed || e.press2)
    ensures r.(button1Pressed := g.button1Pressed, button2Pressed := g.button2Pressed) == g
  {
    var g1 := if e.press1 then ButtonIsr(g, BUTTON_1) else g;
    if e.press2 then ButtonIsr(g1, BUTTON_2) else g1
  }

  /** The globals after the cycles of `es`, first to last. */
  function Run(g: Globals, es: seq<Events>): (r: Globals)
    // whatever the buttons do, every cycle keeps the session invariant
    ensures Inv(g) ==> Inv(r)
    decreases |es|
  {
    if es == [] then g else Run(Cycle(Deliver(g, es[0])), es[1..])
  }

  /** `n` cycles, each preceded by one press of the count button. */
  function Counts(n: nat): (es: seq<Events>)
    ensures |es| == n && forall i :: 0 <= i < n ==> es[i] == COUNT
  {
    seq(n, _ => COUNT)
  }

  lemma {:induction false} RunAppend(g: Globals, a: seq<Events>, b: seq<Events>)
    ensures Run(g, a + b) == Run(Run(g, a), b)
    decreases |a|
  {
    if a == [] {
      assert a + b == b;
    } else {
      assert (a + b)[0] == a[0];
      assert (a + b)[1..] == a[1..] + b;
      RunAppend(Cycle(Deliver(g, a[0])), a[1..], b);
    }
  }

  /** From power-up, `1 <= current_series <= total_series` and
      `0 <= repetitions_done <= total_reps` hold after any run. */
  lemma ReachableBounds(es: seq<Events>)
    ensures var g := Run(INITIAL, es);
            1 <= g.currentSeries <= TOTAL_SERIES && 0 <= g.repetitionsDone <= TOTAL_REPS
  {
    InitialInv();
  }

  /** No cycle ever clears `is_user_authenticated` or `is_exercise_started`. */
  lemma {:induction false} MilestonesPersist(g: Globals, es: seq<Events>)
    ensures g.isUserAuthenticated ==> Run(g, es).isUserAuthenticated
    ensures g.isExerciseStarted ==> Run(g, es).isExerciseStarted
    decreases |es|
  {
    if es != [] {
      MilestonesPersist(Cycle(Deliver(g, es[0])), es[1..]);
    }
  }

  /** Below the threshold each count press adds one repetition and nothing else changes. */
  lemma {:induction false} CountRepetitions(g: Globals, n: nat)
    requires g.state == InSeries && !g.button2Pressed
    requires g.repetitionsDone + n < TOTAL_REPS
    ensures Run(g, Counts(n)) == g.(repetitionsDone := g.repetitionsDone + n)
    decreases n
  {
    if n > 0 {
      var es := Counts(n);
      assert es[1..] == Counts(n - 1);
      var g' := Cycle(Deliver(g, COUNT));
      assert g' == g.(repetitionsDone := g.repetitionsDone + 1);
      CountRepetitions(g', n - 1);
    }
  }

  /** The twelfth press of a series that is not the last completes it: the
      next series starts from zero repetitions, by way of Rest. */
  lemma SeriesThenRest(g: Globals)
    requires g.state == InSeries && !g.button2Pressed && g.repetitionsDone == 0
    requires g.currentSeries < TOTAL_SERIES
    ensures Run(g, Counts(TOTAL_REPS)) == g.(state := Rest, currentSeries := g.currentSeries + 1)
    ensures Run(g, Counts(TOTAL_REPS) + [IDLE])
         == g.(currentSeries := g.currentSeries + 1, isResting := true)
  {
    assert Counts(TOTAL_REPS) == Counts(TOTAL_REPS - 1) + [COUNT];
    RunAppend(g, Counts(TOTAL_REPS - 1), [COUNT]);
    CountRepetitions(g, TOTAL_REPS - 1);
    var g' := Run(g, Counts(TOTAL_REPS));
    RunAppend(g, Counts(TOTAL_REPS), [IDLE]);
    assert Run(g', [IDLE]) == Cycle(Deliver(g', IDLE));
  }

  /** The twelfth press of the last series ends in Finish with the counter
      left at `total_reps`, and the following cycle is back in Auth. */
  lemma LastSeriesThenAuth(g: Globals)
    requires g.state == InSeries && !g.button2Pressed && g.repetitionsDone == 0
    requires g.currentSeries >= TOTAL_SERIES
    ensures Run(g, Counts(TOTAL_REPS)) == g.(state := Finish, repetitionsDone := TOTAL_REPS)
    ensures Run(g, Counts(TOTAL_REPS) + [IDLE])
         == g.(state := Auth, repetitionsDone := TOTAL_REPS, isFinishPressed := true)
  {
    assert Counts(TOTAL_REPS) == Counts(TOTAL_REPS - 1) + [COUNT];
    RunAppend(g, Counts(TOTAL_REPS - 1), [COUNT]);
    CountRepetitions(g, TOTAL_REPS - 1);
    var g' := Run(g, Counts(TOTAL_REPS));
    RunAppend(g, Counts(TOTAL_REPS), [IDLE]);
    assert Run(g', [IDLE]) == Cycle(Deliver(g', IDLE));
  }

  /** The globals after one complete session started from power-up. */
  const AFTER_FIRST_SESSION := Globals(Auth, TOTAL_REPS, TOTAL_SERIES, true, true, true, true, false, false)

  /** One full session from power-up: two confirm presses, then three series
      of twelve count presses each followed by an idle cycle. The first two
      series pass through Rest, the third ends in Finish and, one cycle
      later, back in Auth. */
  lemma FirstSession()
    ensures Run(INITIAL, [CONFIRM]).state == ExerciseStart
    ensures Run(INITIAL, [CONFIRM, CONFIRM])
         == Globals(InSeries, 0, 1, true, true, false, false, false, false)
    ensures Run(INITIAL, [CONFIRM, CONFIRM] + Counts(TOTAL_REPS))
         == Globals(Rest, 0, 2, true, true, false, false, false, false)
    ensures Run(INITIAL, [CONFIRM, CONFIRM] + Counts(TOTAL_REPS) + [IDLE]
                         + Counts(TOTAL_REPS) + [IDLE] + Counts(TOTAL_REPS))
         == Globals(Finish, TOTAL_REPS, TOTAL_SERIES, true, true, true, false, false, false)
    ensures Run(INITIAL, [CONFIRM, CONFIRM] + Counts(TOTAL_REPS) + [IDLE]
                         + Counts(TOTAL_REPS) + [IDLE] + Counts(TOTAL_REPS) + [IDLE])
         == AFTER_FIRST_SESSION
  {
    var start := [CONFIRM, CONFIRM];
    var s1 := Globals(InSeries, 0, 1, true, true, false, false, false, false);
    assert Run(INITIAL, [CONFIRM]) == Cycle(Deliver(INITIAL, CONFIRM));
    RunAppend(INITIAL, [CONFIRM], [CONFIRM]);
    assert [CONFIRM] + [CONFIRM] == start;
    assert Run(INITIAL, start) == s1;

    var c := Counts(TOTAL_REPS);
    RunAppend(INITIAL, start, c);
    SeriesThenRest(s1);
    var s2 := s1.(currentSeries := 2, isResting := true);
    RunAppend(INITIAL, start, c + [IDLE]);
    assert start + (c + [IDLE]) == start + c + [IDLE];
    assert Run(INITIAL, start + c + [IDLE]) == s2;

    RunAppend(INITIAL, start + c + [IDLE], c + [IDLE]);
    SeriesThenRest(s2);
    var s3 := s2.(currentSeries := 3);
    assert start + c + [IDLE] + (c + [IDLE]) == start + c + [IDLE] + c + [IDLE];
    assert Run(INITIAL, start + c + [IDLE] + c + [IDLE]) == s3;

    var before := start + c + [IDLE] + c + [IDLE];
    LastSeriesThenAuth(s3);
    RunAppend(INITIAL, before, c);
    RunAppend(INITIAL, before, c + [IDLE]);
    assert before + (c + [IDLE]) == before + c + [IDLE];
  }

  /** `is_user_authenticated` and `is_exercise_started` are never cleared, so
      a second session passes Auth and ExerciseStart without any press and
      keeps `current_series` at its last value: it ends after a single series. */
  lemma SecondSessionSkipsAuth()
    ensures Run(AFTER_FIRST_SESSION, [IDLE]).state == ExerciseStart
    ensures Run(AFTER_FIRST_SESSION, [IDLE, IDLE])
         == AFTER_FIRST_SESSION.(state := InSeries, repetitionsDone := 0)
    ensures Run(AFTER_FIRST_SESSION, [IDLE, IDLE] + Counts(TOTAL_REPS)).state == Finish
  {
    var g := AFTER_FIRST_SESSION;
    assert Run(g, [IDLE]) == Cycle(Deliver(g, IDLE));
    RunAppend(g, [IDLE], [IDLE]);
    assert [IDLE] + [IDLE] == [IDLE, IDLE];
    var s := g.(state := InSeries, repetitionsDone := 0);
    assert Run(g, [IDLE, IDLE]) == s;
    RunAppend(g, [IDLE, IDLE], Counts(TOTAL_REPS));
    LastSeriesThenAuth(s);
  }

  /** A second press of a button before the next cycle is lost: the flag
      records at most one outstanding press per button. */
  /** Without confirm presses `current_series` never decreases over a run:
      the only decrease is the ExerciseStart reset, which needs button 1. */
  lemma {:induction false} SeriesNonDecreasing(g: Globals, es: seq<Events>)
    requires !g.button1Pressed
    requires forall i :: 0 <= i < |es| ==> !es[i].press1
    ensures Run(g, es).currentSeries >= g.currentSeries
    decreases |es|
  {
    if es != [] {
      var g' := Cycle(Deliver(g, es[0]));
      SeriesMonotone(Deliver(g, es[0]));
      SeriesNonDecreasing(g', es[1..]);
    }
  }

  lemma PressesCollapse(g: Globals, e: Events)
    ensures Deliver(Deliver(g, e), e) == Deliver(g, e)
    ensures Run(g, [COUNT]).repetitionsDone == Cycle(Deliver(Deliver(g, COUNT), COUNT)).repetitionsDone
  {
    assert Run(g, [COUNT]) == Cycle(Deliver(g, COUNT));
  }
}
