/**
 * The compact pomodoro: a fixed 25-minute focus countdown alternating with a 5-minute break.
 * One call of `Step` is one run of the countdown effect: either one firing of the one-second
 * interval or, at zero, the completion.
 */
module Pomodoro {

  /** The length of a focus phase, in seconds. */
  const FocusSeconds: int := 25 * 60

  /** The length of a break, in seconds. */
  const BreakSeconds: int := 5 * 60

  /** The length of a phase, in seconds. */
  function PhaseSeconds(isBreak: bool): (r: int)
    ensures 0 < r <= FocusSeconds
    ensures isBreak <==> r == BreakSeconds
    ensures !isBreak <==> r == FocusSeconds
  {
    if isBreak then BreakSeconds else FocusSeconds
  }

  class PomodoroTimer {
    /** The seconds left in the current phase. */
    var timeLeft: int
    var isRunning: bool
    var isBreak: bool

    /** The countdown lies within the current phase, hence within 0 and 1500. */
    predicate Valid()
      reads this
      ensures Valid() ==> 0 <= timeLeft <= FocusSeconds
    {
      0 <= timeLeft <= PhaseSeconds(isBreak)
    }

    constructor ()
      ensures timeLeft == FocusSeconds && !isRunning && !isBreak
      ensures Valid()
    {
      timeLeft := FocusSeconds;
      isRunning := false;
      isBreak := false;
    }

    /** `resetTimer`: the countdown restarts from the current phase's length and stops. */
    method Reset()
      modifies this
      ensures timeLeft == PhaseSeconds(isBreak) && !isRunning && isBreak == old(isBreak)
      ensures Valid()
    {
      timeLeft := if isBreak then BreakSeconds else FocusSeconds;
      isRunning := false;
    }

    /** `toggleTimer`: flips `isRunning` and nothing else. */
    method Toggle()
      requires Valid()
      modifies this
      ensures isRunning == !old(isRunning)
      ensures timeLeft == old(timeLeft) && isBreak == old(isBreak)
      ensures Valid()
    {
      isRunning := !isRunning;
    }

    /**
     * One run of the countdown effect. While running with time left, one second goes. At zero
     * the timer stops, `onComplete` is signalled, the phase flips and the new phase starts in
     * full: 1500 seconds after a break, 300 after focus. Otherwise nothing happens.
     */
    method Step() returns (completed: bool)
      requires Valid()
      modifies this
      ensures Valid()
      ensures old(isRunning) && old(timeLeft) > 0 ==>
                !completed && timeLeft == old(timeLeft) - 1 && isRunning && isBreak == old(isBreak)
      ensures old(timeLeft) == 0 ==>
                completed && !isRunning && isBreak == !old(isBreak)
                && timeLeft == (if old(isBreak) then FocusSeconds else BreakSeconds)
      ensures !old(isRunning) && old(timeLeft) > 0 ==> !completed && unchanged(this)
    {
      completed := false;
      if isRunning && timeLeft > 0 {
        timeLeft := timeLeft - 1;
      } else if timeLeft == 0 {
        var wasBreak := isBreak;
        isRunning := false;
        completed := true;
        isBreak := !wasBreak;
        timeLeft := if wasBreak then FocusSeconds else BreakSeconds;
      }
    }
  }

  /**
   * A fresh timer, started and run for `n` seconds of focus, has `1500 - n` seconds left,
   * still runs, is still in focus, and has not signalled a completion.
   */
  method RunFocus(n: nat) returns (left: int, running: bool, inBreak: bool, completed: bool)
    requires n <= FocusSeconds
    ensures left == FocusSeconds - n && running && !inBreak && !completed
  {
    var timer := new PomodoroTimer();
    timer.Toggle();
    completed := false;
    var i := 0;
    while i < n
      invariant 0 <= i <= n
      invariant timer.Valid()
      invariant timer.timeLeft == FocusSeconds - i && timer.isRunning && !timer.isBreak
      invariant !completed
    {
      var c := timer.Step();
      completed := completed || c;
      i := i + 1;
    }
    left, running, inBreak := timer.timeLeft, timer.isRunning, timer.isBreak;
  }
}
