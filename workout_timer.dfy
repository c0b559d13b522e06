/**
 * The workout timer: how a time is shown, what the timer shows in stopwatch
 * and countdown mode, the completion and warning signals of a countdown, and
 * the colour of the display.
 *
 * Times are whole seconds.
 */
module WorkoutTimer {
  import opened Wrappers
  import Text

  datatype TimerType = ExerciseTimer | RestTimer | TotalTimer

  datatype TimerMode = Stopwatch | Countdown

  function Hours(t: nat): nat
  {
    t / 3600
  }

  function Minutes(t: nat): nat
  {
    (t % 3600) / 60
  }

  function Seconds(t: nat): nat
  {
    t % 60
  }

  /** Hours, minutes and seconds shown together account for the whole time. */
  lemma PartsRecompose(t: nat)
    ensures Minutes(t) < 60 && Seconds(t) < 60
    ensures Hours(t) * 3600 + Minutes(t) * 60 + Seconds(t) == t
  {
    var h, rest := t / 3600, t % 3600;
    assert t == h * 3600 + rest;
    assert rest == (rest / 60) * 60 + rest % 60;
    assert rest % 60 == t % 60 by {
      assert t == (h * 60 + rest / 60) * 60 + rest % 60;
    }
  }

  /** `formatTime`: `h:mm:ss` from one hour on, `m:ss` below, minutes unpadded there. */
  function FormatTime(t: nat): (r: string)
    ensures Hours(t) == 0 ==> r == Text.MinSec(t)
  {
    var mmss := Text.PadStart2(Text.NatToString(Seconds(t)));
    if Hours(t) > 0 then
      Text.NatToString(Hours(t)) + ":" + Text.PadStart2(Text.NatToString(Minutes(t))) + ":" + mmss
    else
      Text.NatToString(Minutes(t)) + ":" + mmss
  }

  /**
   * From one hour on, the display is three runs of digits split by colons,
   * the last two exactly two digits each, and the numbers read back give `t`.
   */
  lemma FormatTimeReadsBack(t: nat)
    requires Hours(t) > 0
    ensures var r, n := FormatTime(t), |Text.NatToString(Hours(t))|;
      |r| == n + 6 && r[n] == ':' && r[n + 3] == ':'
      && Text.AllDigits(r[..n]) && Text.AllDigits(r[n + 1..n + 3]) && Text.AllDigits(r[n + 4..])
      && Text.ParseNat(r[n + 1..n + 3]) < 60 && Text.ParseNat(r[n + 4..]) < 60
      && Text.ParseNat(r[..n]) * 3600 + Text.ParseNat(r[n + 1..n + 3]) * 60 + Text.ParseNat(r[n + 4..]) == t
  {
    var hh := Text.NatToString(Hours(t));
    var mm := Text.PadStart2(Text.NatToString(Minutes(t)));
    var ss := Text.PadStart2(Text.NatToString(Seconds(t)));
    var r := FormatTime(t);
    var n := |hh|;
    PartsRecompose(t);
    Text.PadStart2Small(Minutes(t));
    Text.PadStart2Small(Seconds(t));
    assert r == hh + ":" + mm + ":" + ss;
    assert r[..n] == hh;
    assert r[n + 1..n + 3] == mm;
    assert r[n + 4..] == ss;
    Text.ParseNatToString(Hours(t));
    Text.ParseNatToString(Minutes(t));
    Text.ParseNatToString(Seconds(t));
    Text.ParsePadStart2(Text.NatToString(Minutes(t)));
    Text.ParsePadStart2(Text.NatToString(Seconds(t)));
  }

  /** `targetDuration` in a condition: absent and zero are false. */
  predicate HasTarget(target: Option<int>)
  {
    target.Some? && target.value != 0
  }

  /** `getDisplayTime`: the time left, never below zero, when counting down to a target; the elapsed time otherwise. */
  function DisplayTime(mode: TimerMode, target: Option<int>, current: int): (r: int)
    ensures mode == Countdown && HasTarget(target) ==>
      r >= 0 && (current <= target.value ==> r + current == target.value) && (current >= target.value ==> r == 0)
    ensures !(mode == Countdown && HasTarget(target)) ==> r == current
  {
    if mode == Countdown && HasTarget(target) then
      if target.value - current > 0 then target.value - current else 0
    else current
  }

  /** One more elapsed second takes one second off a countdown's display until it shows zero. */
  lemma CountdownDisplayStepsDown(target: int, current: int)
    requires target != 0
    ensures var before, after := DisplayTime(Countdown, Some(target), current), DisplayTime(Countdown, Some(target), current + 1);
      after == if before > 0 then before - 1 else 0
  {
  }

  /** The seconds-left marks at which a countdown warns. */
  const WarningMarks: seq<int> := [10, 5, 3, 2, 1]

  /** What one run of the countdown effect does. */
  datatype Signal = Complete | Warn(secondsLeft: int) | Quiet

  /**
   * The countdown effect: with time up while running it completes; with 1 to
   * 10 seconds left it warns at a mark not yet warned, recording the mark;
   * otherwise, and always outside countdown mode, it does nothing.
   */
  function TickStep(lastWarning: Option<int>, mode: TimerMode, target: Option<int>, current: int, isRunning: bool): (r: (Signal, Option<int>))
    ensures r.0 == Complete <==> mode == Countdown && HasTarget(target) && target.value - current <= 0 && isRunning
    ensures r.0.Warn? ==> (target.Some? && r.0.secondsLeft in WarningMarks && r.0.secondsLeft == target.value - current
      && Some(r.0.secondsLeft) != lastWarning && r.1 == Some(r.0.secondsLeft))
    ensures !r.0.Warn? ==> r.1 == lastWarning
  {
    if mode == Countdown && HasTarget(target) then
      var remaining := target.value - current;
      if remaining <= 0 && isRunning then (Complete, lastWarning)
      else if remaining <= 10 && remaining > 0 then
        var secondsLeft := remaining;
        if secondsLeft in WarningMarks && Some(secondsLeft) != lastWarning then (Warn(secondsLeft), Some(secondsLeft))
        else (Quiet, lastWarning)
      else (Quiet, lastWarning)
    else (Quiet, lastWarning)
  }

  /** The effect running again at the same second never warns twice. */
  lemma NoRepeatedWarning(lastWarning: Option<int>, mode: TimerMode, target: Option<int>, current: int, isRunning: bool)
    ensures var (first, recorded) := TickStep(lastWarning, mode, target, current, isRunning);
      first.Warn? ==> TickStep(recorded, mode, target, current, isRunning).0 == Quiet
  {
  }

  /** A countdown warns at every mark it passes: each mark is warned the first time it is reached. */
  lemma WarnsAtEachMark(lastWarning: Option<int>, target: int, current: int, isRunning: bool)
    requires target != 0 && target - current in WarningMarks && lastWarning != Some(target - current)
    ensures TickStep(lastWarning, Countdown, Some(target), current, isRunning).0 == Warn(target - current)
  {
  }

  /** The state the countdown effect keeps between runs. */
  class CountdownWatch {
    var lastWarning: Option<int>

    constructor()
      ensures lastWarning.None?
    {
      lastWarning := None;
    }

    /** One run of the effect; `onComplete` and the beeps are the returned signal. */
    method Tick(mode: TimerMode, target: Option<int>, current: int, isRunning: bool) returns (signal: Signal)
      modifies this
      ensures (signal, lastWarning) == TickStep(old(lastWarning), mode, target, current, isRunning)
    {
      signal := Quiet;
      if mode == Countdown && HasTarget(target) {
        var remaining := target.value - current;
        if remaining <= 0 && isRunning {
          signal := Complete;
        } else if remaining <= 10 && remaining > 0 {
          var secondsLeft := remaining;
          if secondsLeft in WarningMarks && Some(secondsLeft) != lastWarning {
            signal := Warn(secondsLeft);
            lastWarning := Some(secondsLeft);
          }
        }
      }
    }
  }

  /** `getTimerColor`. */
  function TimerColor(timerType: TimerType, mode: TimerMode, target: Option<int>, current: int, isRunning: bool, isPaused: bool): (r: string)
    ensures r == "text-yellow-600" <==> !isRunning && isPaused
    ensures r == "text-gray-600" <==> !isRunning && !isPaused
    ensures r == "text-red-500" <==> isRunning && mode == Countdown && HasTarget(target) && target.value - current <= 10
    ensures r == "text-orange-500" <==> isRunning && mode == Countdown && HasTarget(target) && 10 < target.value - current <= 30
  {
    if !isRunning && isPaused then "text-yellow-600"
    else if !isRunning then "text-gray-600"
    else if mode == Countdown && HasTarget(target) && target.value - current <= 10 then "text-red-500"
    else if mode == Countdown && HasTarget(target) && target.value - current <= 30 then "text-orange-500"
    else
      match timerType
      case ExerciseTimer => "text-blue-600"
      case RestTimer => "text-orange-600"
      case TotalTimer => "text-green-600"
  }

  /** A running stopwatch, or a countdown with more than 30 seconds left, takes its type's colour. */
  lemma RelaxedColorFollowsType(timerType: TimerType, mode: TimerMode, target: Option<int>, current: int, isPaused: bool)
    requires !(mode == Countdown && HasTarget(target) && target.value - current <= 30)
    ensures TimerColor(timerType, mode, target, current, true, isPaused)
      == match timerType
         case ExerciseTimer => "text-blue-600"
         case RestTimer => "text-orange-600"
         case TotalTimer => "text-green-600"
  {
  }
}
