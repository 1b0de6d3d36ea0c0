/**
 * The circular pomodoro: a focus countdown of an adjustable number of minutes alternating
 * with a fixed five-minute break. One call of `Step` is one run of the countdown effect:
 * either one firing of the one-second interval or, at zero, the completion.
 */
module PomodoroCircle {

  /** The length of a break, in seconds. */
  const BreakSeconds: int := 5 * 60

  /** The focus length a fresh timer starts with, in minutes. */
  const DefaultMinutes: int := 5

  function Max(a: int, b: int): (r: int)
    ensures r >= a && r >= b && (r == a || r == b)
  {
    if a >= b then a else b
  }

  class CircleTimer {
    /** The focus length, in minutes. */
    var initialTime: int
    /** The seconds left in the current phase. */
    var timeLeft: int
    var isRunning: bool
    var isBreak: bool

    /** At least a minute of focus, and never a negative countdown. */
    predicate Valid()
      reads this
    {
      initialTime >= 1 && timeLeft >= 0
    }

    /** The length of the current phase, against which progress is drawn. */
    function TotalTime(): (r: int)
      reads this
      ensures Valid() ==> r >= 60
      ensures isBreak ==> r == BreakSeconds
      ensures !isBreak ==> r == initialTime * 60
    {
      if isBreak then BreakSeconds else initialTime * 60
    }

    /** The countdown lies within the current phase. */
    predicate Bounded()
      reads this
    {
      Valid() && timeLeft <= TotalTime()
    }

    constructor ()
      ensures initialTime == DefaultMinutes && timeLeft == 300 && !isRunning && !isBreak
      ensures Valid() && Bounded()
    {
      initialTime := DefaultMinutes;
      timeLeft := DefaultMinutes * 60;
      isRunning := false;
      isBreak := false;
    }

    /**
     * `adjustTime`: ignored while running; otherwise the focus length moves by `amount`
     * minutes but not below one, and the countdown restarts from it. The phase is not looked
     * at, so the countdown stays within its phase only when adjusting during focus, which is
     * the only time the controls are shown.
     */
    method AdjustTime(amount: int)
      requires Valid()
      modifies this
      ensures Valid()
      ensures old(isRunning) ==> unchanged(this)
      ensures !old(isRunning) ==>
                initialTime == Max(1, old(initialTime) + amount) && timeLeft == initialTime * 60
                && isRunning == old(isRunning) && isBreak == old(isBreak)
      ensures !old(isRunning) && !isBreak ==> Bounded()
    {
      if isRunning {
        return;
      }
      var newTime := Max(1, initialTime + amount);
      initialTime := newTime;
      timeLeft := newTime * 60;
    }

    /** `resetTimer`: the countdown restarts from the current phase's length and stops. */
    method Reset()
      requires Valid()
      modifies this
      ensures timeLeft == (if isBreak then BreakSeconds else initialTime * 60)
      ensures !isRunning && isBreak == old(isBreak) && initialTime == old(initialTime)
      ensures Bounded()
    {
      timeLeft := if isBreak then BreakSeconds else initialTime * 60;
      isRunning := false;
    }

    /** `toggleTimer`: flips `isRunning` and nothing else. */
    method Toggle()
      modifies this
      ensures isRunning == !old(isRunning)
      ensures initialTime == old(initialTime) && timeLeft == old(timeLeft) && isBreak == old(isBreak)
    {
      isRunning := !isRunning;
    }

    /**
     * One run of the countdown effect. While running with time left, one second goes.
     * At zero the timer stops, `onComplete` is signalled, the phase flips, and the new phase
     * starts in full: focus after a break, a break after focus. Otherwise nothing happens.
     */
    method Step() returns (completed: bool)
      requires Valid()
      modifies this
      ensures Valid()
      ensures old(isRunning) && old(timeLeft) > 0 ==>
                !completed && timeLeft == old(timeLeft) - 1
                && isRunning && isBreak == old(isBreak) && initialTime == old(initialTime)
      ensures old(timeLeft) == 0 ==>
                completed && !isRunning && isBreak == !old(isBreak) && initialTime == old(initialTime)
                && timeLeft == (if old(isBreak) then initialTime * 60 else BreakSeconds)
                && timeLeft == TotalTime()
      ensures !old(isRunning) && old(timeLeft) > 0 ==> !completed && unchanged(this)
      ensures old(Bounded()) || old(timeLeft) == 0 ==> Bounded()
    {
      completed := false;
      if isRunning && timeLeft > 0 {
        timeLeft := timeLeft - 1;
      } else if timeLeft == 0 {
        var wasBreak := isBreak;
        isRunning := false;
        completed := true;
        isBreak := !wasBreak;
        timeLeft := if wasBreak then initialTime * 60 else BreakSeconds;
      }
    }
  }
}
