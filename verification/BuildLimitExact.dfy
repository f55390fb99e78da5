/** For which settings the limit stays in range and the answers are right: the settings are not validated. */
module BuildLimitExact {
  import opened Optional
  import opened BuildLimits

  /** The times of a run never go back. */
  predicate Timely(run: seq<Sample>, from: real)
    decreases run
  {
    run != [] ==> run[0].now >= from && Timely(run[1..], run[0].now)
  }

  function Later(a: real, b: real): real {
    if a <= b then b else a
  }

  /** A sample without pressure, and one past the high mark of memory, for any settings. */
  function Calm(running: int, now: real): Sample {
    Sample(Some(Health(None, None, None, Some(0.0))), running, now)
  }

  function Pressed(s: Settings, running: int, now: real): Sample {
    Sample(Some(Health(Some(Psi(s.memoryHigh, 0.0, 0.0)), None, None, None)), running, now)
  }

  lemma CalmIsSteady(s: Settings, running: int, now: real)
    ensures Verdict(s, Calm(running, now).health.value) == (Steady, false)
    ensures s.enabled ==> Signals(s, Calm(running, now))
  {
  }

  lemma PressedFalls(s: Settings, running: int, now: real)
    ensures Verdict(s, Pressed(s, running, now).health.value) == (MemoryPressure, true)
    ensures s.enabled ==> Signals(s, Pressed(s, running, now))
  {
  }

  // ------------------------------------------------------------------- the range

  ghost predicate InRange(ceiling: int, l: State) {
    1 <= l.limit <= ceiling
  }

  /** Saturated calm samples take a store in slow start to the ceiling; there one cut exceeds it. */
  lemma {:induction false} FactorBreaksRange(s: Settings, ceiling: int, l: State, from: real) returns (run: seq<Sample>)
    requires s.enabled && ceiling >= 1 && Share(ceiling, s.factor) > ceiling
    requires Bounded(ceiling, l) && l.reason != Unmonitored && l.slowStart
    ensures Timely(run, from) && !InRange(ceiling, After(s, ceiling, l, run))
    decreases ceiling - l.limit
  {
    if l.limit == ceiling {
      var x := Pressed(s, ceiling, Later(from, l.nextFall));
      PressedFalls(s, ceiling, x.now);
      run := [x];
      assert After(s, ceiling, l, run) == Next(s, ceiling, l, x).0;
    } else {
      var x := Calm(l.limit, Later(from, l.nextRise));
      CalmIsSteady(s, l.limit, x.now);
      var rest := FactorBreaksRange(s, ceiling, Next(s, ceiling, l, x).0, x.now);
      run := [x] + rest;
      assert run[1..] == rest;
    }
  }

  /** The same from a store that was not monitored. */
  lemma FactorBreaksRangeAfresh(s: Settings, ceiling: int) returns (run: seq<Sample>)
    requires s.enabled && ceiling >= 1 && Share(ceiling, s.factor) > ceiling
    ensures Timely(run, 0.0) && !InRange(ceiling, After(s, ceiling, Fresh(ceiling), run))
  {
    var x := Calm(0, 0.0);
    CalmIsSteady(s, 0, 0.0);
    var rest := FactorBreaksRange(s, ceiling, Next(s, ceiling, Fresh(ceiling), x).0, 0.0);
    run := [x] + rest;
    assert run[1..] == rest;
  }

  lemma SmallFactor(ceiling: int, factor: real)
    requires ceiling >= 1 && Share(ceiling, factor) <= ceiling
    ensures Share(1, factor) <= 1
  {
    ShareFits(1, ceiling, factor);
  }

  /** The store after a first sample under pressure with one build: at 1, and out of slow start. */
  lemma FirstCut(s: Settings, ceiling: int) returns (l: State)
    requires s.enabled && ceiling >= 1 && Share(ceiling, s.factor) <= ceiling
    ensures l == Next(s, ceiling, Fresh(ceiling), Pressed(s, 1, 0.0)).0
    ensures l.limit == 1 && !l.slowStart && l.reason != Unmonitored && l.nextRise == s.settle
  {
    PressedFalls(s, 1, 0.0);
    SmallFactor(ceiling, s.factor);
    l := Next(s, ceiling, Fresh(ceiling), Pressed(s, 1, 0.0)).0;
  }

  lemma StepBreaksRange(s: Settings, ceiling: int) returns (run: seq<Sample>)
    requires s.enabled && ceiling >= 2 && Share(ceiling, s.factor) <= ceiling && s.step < 0
    ensures Timely(run, 0.0) && !InRange(ceiling, After(s, ceiling, Fresh(ceiling), run))
  {
    var l := FirstCut(s, ceiling);
    var x, y := Pressed(s, 1, 0.0), Calm(1, Later(0.0, s.settle));
    CalmIsSteady(s, 1, y.now);
    run := [x, y];
    assert run[1..] == [y] && [y][1..] == [];
    assert After(s, ceiling, l, [y]) == Next(s, ceiling, l, y).0;
  }

  lemma NoRoom(s: Settings, ceiling: int) returns (run: seq<Sample>)
    requires ceiling < 1
    ensures Timely(run, 0.0) && !InRange(ceiling, After(s, ceiling, Fresh(ceiling), run))
  {
    run := [];
  }

  /** The limit is in range over every run if and only if the settings fit the ceiling. */
  lemma RangeIff(s: Settings, ceiling: int)
    ensures (forall run | Timely(run, 0.0) :: InRange(ceiling, After(s, ceiling, Fresh(ceiling), run)))
       <==> StaysInRange(s, ceiling)
  {
    if StaysInRange(s, ceiling) {
      forall run | Timely(run, 0.0)
        ensures InRange(ceiling, After(s, ceiling, Fresh(ceiling), run))
      {
        RunBounded(s, ceiling, Fresh(ceiling), run);
      }
    } else if ceiling < 1 {
      var run := NoRoom(s, ceiling);
    } else if Share(ceiling, s.factor) > ceiling {
      var run := FactorBreaksRangeAfresh(s, ceiling);
    } else {
      var run := StepBreaksRange(s, ceiling);
    }
  }

  // ------------------------------------------------------------------- the answers

  /** Every sample of the run is answered with whether the limit rose. */
  predicate AllRight(s: Settings, ceiling: int, l: State, run: seq<Sample>)
    decreases run
  {
    run != [] ==> Right(s, ceiling, l, run[0]) && AllRight(s, ceiling, Next(s, ceiling, l, run[0]).0, run[1..])
  }

  /** The first limit is the ceiling, whatever the sample. */
  predicate StartsAtCeiling(s: Settings, ceiling: int) {
    ceiling == 1 || (s.initial.Some? && s.initial.value >= ceiling)
  }

  /** The settings that keep the answers right. */
  predicate AnswersRight(s: Settings, ceiling: int) {
    !s.enabled || (
      && ceiling >= 1 && Share(ceiling, s.factor) <= ceiling
      && (s.step >= 1 || ceiling == 1)
      && (s.settle > 0.0 || StartsAtCeiling(s, ceiling)))
  }

  lemma {:induction false} RightRuns(s: Settings, ceiling: int, l: State, run: seq<Sample>)
    requires AnswersRight(s, ceiling) && s.enabled && Bounded(ceiling, l)
    ensures AllRight(s, ceiling, l, run)
    decreases run
  {
    if run != [] {
      var x := run[0];
      AnswerIsRiseIff(s, ceiling, l, x);
      if IsCut(s, l, x) {
        CutBelow(s, ceiling, Started(s, ceiling, l, x.health.value, x.now), x.running);
      }
      StepBounded(s, ceiling, l, x);
      RightRuns(s, ceiling, Next(s, ceiling, l, x).0, run[1..]);
    }
  }

  lemma {:induction false} DisabledIsRight(s: Settings, ceiling: int, l: State, run: seq<Sample>)
    requires !s.enabled
    ensures AllRight(s, ceiling, l, run)
    decreases run
  {
    if run != [] {
      DisabledIsRight(s, ceiling, Next(s, ceiling, l, run[0]).0, run[1..]);
    }
  }

  /** Each way the settings fail has a run with a wrong answer. */
  lemma WrongAnswer(s: Settings, ceiling: int) returns (run: seq<Sample>)
    requires !AnswersRight(s, ceiling)
    ensures Timely(run, 0.0) && !AllRight(s, ceiling, Fresh(ceiling), run)
  {
    if ceiling < 1 {
      run := [Calm(0, 0.0)];
      CalmIsSteady(s, 0, 0.0);
    } else if Share(ceiling, s.factor) > ceiling {
      run := FactorAnswersWrong(s, ceiling);
    } else if s.step < 1 && ceiling > 1 {
      run := StepAnswersWrong(s, ceiling);
    } else {
      var x := Calm(ceiling, 0.0);
      CalmIsSteady(s, ceiling, 0.0);
      AnswerIsRiseIff(s, ceiling, Fresh(ceiling), x);
      run := [x];
    }
  }

  lemma StepAnswersWrong(s: Settings, ceiling: int) returns (run: seq<Sample>)
    requires s.enabled && ceiling >= 2 && Share(ceiling, s.factor) <= ceiling && s.step < 1
    ensures Timely(run, 0.0) && !AllRight(s, ceiling, Fresh(ceiling), run)
  {
    var l := FirstCut(s, ceiling);
    var x, y := Pressed(s, 1, 0.0), Calm(1, Later(0.0, s.settle));
    CalmIsSteady(s, 1, y.now);
    run := [x, y];
    assert run[1..] == [y];
    AnswerIsRiseIff(s, ceiling, l, y);
    assert Stalls(s, ceiling, l, y);
  }

  lemma {:induction false} FactorAnswersWrongFrom(s: Settings, ceiling: int, l: State, from: real) returns (run: seq<Sample>)
    requires s.enabled && ceiling >= 1 && Share(ceiling, s.factor) > ceiling
    requires Bounded(ceiling, l) && l.reason != Unmonitored && l.slowStart
    ensures Timely(run, from) && !AllRight(s, ceiling, l, run)
    decreases ceiling - l.limit
  {
    if l.limit == ceiling {
      var x := Pressed(s, ceiling, Later(from, l.nextFall));
      PressedFalls(s, ceiling, x.now);
      run := [x];
    } else {
      var x := Calm(l.limit, Later(from, l.nextRise));
      CalmIsSteady(s, l.limit, x.now);
      var rest := FactorAnswersWrongFrom(s, ceiling, Next(s, ceiling, l, x).0, x.now);
      run := [x] + rest;
      assert run[1..] == rest;
    }
  }

  lemma FactorAnswersWrong(s: Settings, ceiling: int) returns (run: seq<Sample>)
    requires s.enabled && ceiling >= 1 && Share(ceiling, s.factor) > ceiling
    ensures Timely(run, 0.0) && !AllRight(s, ceiling, Fresh(ceiling), run)
  {
    var x := Calm(0, 0.0);
    CalmIsSteady(s, 0, 0.0);
    var rest := FactorAnswersWrongFrom(s, ceiling, Next(s, ceiling, Fresh(ceiling), x).0, 0.0);
    run := [x] + rest;
    assert run[1..] == rest;
  }

  /** Every answer of every run says whether the limit rose if and only if the settings fit the ceiling. */
  lemma AnswersIff(s: Settings, ceiling: int)
    ensures (forall run | Timely(run, 0.0) :: AllRight(s, ceiling, Fresh(ceiling), run)) <==> AnswersRight(s, ceiling)
  {
    if AnswersRight(s, ceiling) {
      forall run | Timely(run, 0.0)
        ensures AllRight(s, ceiling, Fresh(ceiling), run)
      {
        if s.enabled {
          RightRuns(s, ceiling, Fresh(ceiling), run);
        } else {
          DisabledIsRight(s, ceiling, Fresh(ceiling), run);
        }
      }
    } else {
      var run := WrongAnswer(s, ceiling);
    }
  }

  // ------------------------------------------------------------ one input for each failure

  const DEFAULTS := Settings(true, 2.0, 0.5, 25.0, 10.0, 60.0, 1.5, 1024, 0.5, 1, 10.0, None)

  /** A first sample past the high mark of memory, of a builder with four cores. */
  function FourCores(running: int): Sample {
    Sample(Some(Health(Some(Psi(2.0, 0.0, 0.0)), None, Some(4.0), None)), running, 0.0)
  }

  /** With a settle time of zero, the first sample takes the limit from 4 to 2 and is answered as a rise. */
  lemma FallAnsweredAsRise()
    ensures var (l, rose) := Next(DEFAULTS.(settle := 0.0), 4, Fresh(4), Calm(1, 0.0));
            rose && l.limit == 2 < Fresh(4).limit
  {
    CalmIsSteady(DEFAULTS.(settle := 0.0), 1, 0.0);
  }

  /** With a step of 0: a cut from 4 to 2, and then a limit that stays at 2 is answered as a rise. */
  lemma StandstillAnsweredAsRise()
    ensures var s := DEFAULTS.(step := 0);
            var l := Next(s, 4, Fresh(4), FourCores(4)).0;
            var (m, rose) := Next(s, 4, l, Calm(2, 10.0));
            l.limit == 2 && rose && m.limit == 2
  {
    CalmIsSteady(DEFAULTS.(step := 0), 2, 10.0);
    assert 4 as real * 0.5 == 2.0;
  }

  /** With a factor of 2, the first sample cuts the limit of a ceiling of 4 to 8, and is answered as no rise. */
  lemma CutLeavesRange()
    ensures var (l, rose) := Next(DEFAULTS.(factor := 2.0), 4, Fresh(4), FourCores(4));
            !rose && l.limit == 8
  {
    assert 4 as real * 2.0 == 8.0;
  }

  /** With a step of -1: a cut to 1, and then a quiet sample takes the limit to 0. */
  lemma StepLeavesRange()
    ensures var s := DEFAULTS.(step := -1);
            var l := Next(s, 4, Fresh(4), FourCores(1)).0;
            l.limit == 1 && Next(s, 4, l, Calm(1, 10.0)).0.limit == 0
  {
    CalmIsSteady(DEFAULTS.(step := -1), 1, 10.0);
    assert 1 as real * 0.5 == 0.5;
  }
}
