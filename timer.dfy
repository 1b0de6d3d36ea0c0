/**
 * The task timer panel: the play/pause transition and the running/stopped effect with its
 * once-a-second tick. The three state cells the panel drives (`elapsedTime`, `currentEntry`,
 * `sessionStartTime`) are the fields of `TimerState`; the calls to `createTimeEntry` and
 * `onUpdateTask` are the out-parameters of `Toggle`. Times are integer milliseconds, and
 * `now.toISOString()` is the timestamp itself.
 */
module Timer {
  import opened Wrappers
  import opened Types

  /**
   * An entry as the panel builds it (a `Partial<TimeEntry>`): the store fills in id, user
   * and day. `startTime` is optional because `currentEntry` is a partial record.
   */
  datatype EntryDraft = EntryDraft(taskId: string, startTime: Option<int>, endTime: Option<int>, duration: int)

  /** `Math.floor((now - start) / 1000)`: whole seconds between two millisecond timestamps. */
  function ElapsedSeconds(start: int, now: int): (r: int)
    ensures r * 1000 <= now - start < r * 1000 + 1000
    ensures now >= start ==> r >= 0
    ensures now < start ==> r < 0
  {
    (now - start) / 1000
  }

  /** The state cells of the timer, owned by the enclosing tracker and updated by the panel. */
  class TimerState {
    var elapsedTime: int
    var currentEntry: Option<EntryDraft>
    var sessionStartTime: Option<int>

    /** The tracker's initial state: nothing elapsed, no open entry, no session. */
    constructor ()
      ensures elapsedTime == 0 && currentEntry == None && sessionStartTime == None
    {
      elapsedTime := 0;
      currentEntry := None;
      sessionStartTime := None;
    }

    /**
     * `toggleTimer`. With no task or an update in flight nothing happens. Otherwise starting
     * posts an open entry and begins a session; stopping posts a second, closed entry carrying
     * the elapsed seconds (the open one is left as it is) and ends the session, provided an
     * entry with a task id is current. Either way the task is reported with `isRunning`
     * negated.
     */
    method Toggle(task: Option<Task>, isUpdating: bool, now: int) returns (post: Option<EntryDraft>, report: Option<Task>)
      modifies this
      ensures task.None? || isUpdating ==>
                post.None? && report.None? && unchanged(this)
      ensures task.Some? && !isUpdating ==>
                report == Some(task.value.(isRunning := !task.value.isRunning))
      ensures task.Some? && !isUpdating && !task.value.isRunning ==>
                post == Some(EntryDraft(task.value.id, Some(now), None, 0))
                && currentEntry == post && elapsedTime == 0 && sessionStartTime == Some(now)
      ensures task.Some? && !isUpdating && task.value.isRunning
              && old(currentEntry).Some? && old(currentEntry).value.taskId != "" ==>
                post == Some(EntryDraft(old(currentEntry).value.taskId,
                                        Some(old(currentEntry).value.startTime.GetOr(now)),
                                        Some(now), old(elapsedTime)))
                && currentEntry.None? && sessionStartTime.None? && elapsedTime == old(elapsedTime)
      ensures task.Some? && !isUpdating && task.value.isRunning
              && !(old(currentEntry).Some? && old(currentEntry).value.taskId != "") ==>
                post.None? && unchanged(this)
    {
      if task.None? || isUpdating {
        return None, None;
      }
      var t := task.value;
      var newIsRunning := !t.isRunning;
      post := None;
      if newIsRunning {
        var entry := EntryDraft(t.id, Some(now), None, 0);
        post := Some(entry);
        currentEntry := Some(entry);
        elapsedTime := 0;
        sessionStartTime := Some(now);
      } else if currentEntry.Some? && currentEntry.value.taskId != "" {
        var duration := elapsedTime;
        post := Some(EntryDraft(currentEntry.value.taskId, Some(currentEntry.value.startTime.GetOr(now)),
                                Some(now), duration));
        currentEntry := None;
        sessionStartTime := None;
      }
      report := Some(t.(isRunning := newIsRunning));
    }

    /**
     * The effect run when the task's running flag changes: a running task gets a session
     * start if it has none; a stopped task loses it.
     */
    method Sync(running: bool, now: int)
      modifies this
      ensures running ==> sessionStartTime == (if old(sessionStartTime).None? then Some(now) else old(sessionStartTime))
      ensures !running ==> sessionStartTime.None?
      ensures elapsedTime == old(elapsedTime) && currentEntry == old(currentEntry)
    {
      if running {
        if sessionStartTime.None? {
          sessionStartTime := Some(now);
        }
      } else {
        sessionStartTime := None;
      }
    }

    /** One firing of the interval: the elapsed time becomes the whole seconds since the session began. */
    method Tick(now: int)
      modifies this
      ensures old(sessionStartTime).Some? ==> elapsedTime == ElapsedSeconds(old(sessionStartTime).value, now)
      ensures old(sessionStartTime).None? ==> elapsedTime == old(elapsedTime)
      ensures currentEntry == old(currentEntry) && sessionStartTime == old(sessionStartTime)
    {
      if sessionStartTime.Some? {
        elapsedTime := ElapsedSeconds(sessionStartTime.value, now);
      }
    }
  }

  /**
   * A start at `t0`, the effect, one tick at `t1` and a stop at `t2` post two entries for the
   * task: the open one, and a closed one with the same start, ending at `t2`, that carries
   * the seconds counted by the last tick. The task ends up reported as stopped again.
   */
  method StartTickStop(task: Task, t0: int, t1: int, t2: int)
    returns (first: Option<EntryDraft>, second: Option<EntryDraft>, last: Option<Task>)
    requires !task.isRunning && task.id != ""
    ensures first == Some(EntryDraft(task.id, Some(t0), None, 0))
    ensures second == Some(EntryDraft(task.id, Some(t0), Some(t2), ElapsedSeconds(t0, t1)))
    ensures last == Some(task)
  {
    var timer := new TimerState();
    var started;
    first, started := timer.Toggle(Some(task), false, t0);
    timer.Sync(true, t0);
    timer.Tick(t1);
    second, last := timer.Toggle(started, false, t2);
  }

  /** A stop while no entry is current posts nothing but still reports the task as stopped. */
  method StopWithoutEntry(task: Task, now: int) returns (post: Option<EntryDraft>, report: Option<Task>)
    requires task.isRunning
    ensures post.None?
    ensures report == Some(task.(isRunning := false))
  {
    var timer := new TimerState();
    post, report := timer.Toggle(Some(task), false, now);
  }
}
