/**
 The interval timer: a countdown that alternates work and break phases and,
 when a work phase runs out, credits the selected task through the shell's
 completion callback. The timer ends in a terminal completed state once the
 credited count reaches the task's estimate.

 The host's one-second interval becomes an explicit `Tick`. The effect that
 reacts to the countdown reaching zero becomes `Settle`. Pop-up alerts become
 an `Alert` value returned next to the new state.
 */
module Pomodoro {
  import opened Wrappers
  import opened App
  import opened TimeDisplay

  /** Length of a work phase in seconds: 0.2 * 60, exactly 12 in double precision. */
  const WorkSeconds: nat := 12
  /** Length of a break phase in seconds: 0.1 * 60, exactly 6 in double precision. */
  const BreakSeconds: nat := 6

  const CompletionMessage: string :=
    "Congratulations! You've completed all estimated Pomodoros for this task!"

  /** The glyph shown instead of the countdown once the timer has completed. */
  const CheckMark: string := "\U{2713}"

  datatype Timer = Timer(
    time: nat,
    isActive: bool,
    isPaused: bool,
    isWorkTime: bool,
    isCompleted: bool,
    completionMessage: string)

  /** The state the component starts in: idle, at the top of a work phase. */
  function Initial(): Timer {
    Timer(WorkSeconds, false, false, true, false, "")
  }

  /** The countdown runs: the effect keeps the one-second interval registered. */
  predicate Counting(t: Timer) {
    t.isActive && !t.isPaused && t.time > 0 && !t.isCompleted
  }

  /** The countdown has run out and the phase transition is due. */
  predicate Expired(t: Timer) {
    t.time == 0 && !t.isCompleted
  }

  /** One firing of the interval: one second comes off a running countdown; otherwise nothing happens. */
  function Tick(t: Timer): (r: Timer)
    ensures Counting(t) ==> r.time + 1 == t.time && r == t.(time := r.time)
    ensures !Counting(t) ==> r == t
  {
    if Counting(t) then t.(time := t.time - 1) else t
  }

  /**
   What the zero branch of the effect leaves behind: the new timer, the shell's
   task after the callbacks ran, and the ids passed to the completion callback
   in order.
   */
  datatype Settlement = Settlement(timer: Timer, task: Option<Task>, credited: seq<TaskId>)

  /**
   The work branch reads the selected task's counter before it checks that a
   task is selected, so an expired work phase with no task would fail. The model
   demands a task there.
   */
  predicate CanSettle(t: Timer, task: Option<Task>) {
    Expired(t) && t.isWorkTime ==> task.Some?
  }

  /** The task's credited count after this interval would reach its estimate. */
  predicate ReachesTarget(task: Task) {
    task.completedPomodoros + 1 >= task.estimatedPomodoros
  }

  function Settle(t: Timer, task: Option<Task>): (s: Settlement)
    requires CanSettle(t, task)
    // Nothing is due: the effect's zero branch does not run.
    ensures !Expired(t) ==> s == Settlement(t, task, [])
    // Work expiry credits the selected task exactly once, whatever comes next.
    ensures Expired(t) && t.isWorkTime ==>
              && s.credited == [task.value.id]
              && s.task.Some?
              && s.task.value.completedPomodoros == task.value.completedPomodoros + 1
              && s.task.value.estimatedPomodoros == task.value.estimatedPomodoros
              && SameIdentity(s.task.value, task.value)
              && s.timer.isPaused == t.isPaused
    // ... and ends the session once the target is met,
    ensures Expired(t) && t.isWorkTime && ReachesTarget(task.value) ==>
              && s.timer.isCompleted && !s.timer.isActive
              && s.timer.time == 0 && s.timer.isWorkTime
              && s.timer.completionMessage == CompletionMessage
    // ... or moves on to a break otherwise.
    ensures Expired(t) && t.isWorkTime && !ReachesTarget(task.value) ==>
              && !s.timer.isCompleted && s.timer.isActive == t.isActive
              && s.timer.time == BreakSeconds && !s.timer.isWorkTime
              && s.timer.completionMessage == t.completionMessage
    // Break expiry returns to work and leaves the task alone.
    ensures Expired(t) && !t.isWorkTime ==>
              && s.credited == [] && s.task == task
              && s.timer == t.(time := WorkSeconds, isWorkTime := true)
  {
    if !Expired(t) then
      Settlement(t, task, [])
    else if t.isWorkTime then
      var current := task.value;
      var credited := RecordCompletion(task, current.id);
      if ReachesTarget(current) then
        var finished := t.(isCompleted := true, isActive := false, time := 0,
                           completionMessage := CompletionMessage);
        Settlement(finished, credited, [current.id])
      else
        Settlement(t.(time := BreakSeconds, isWorkTime := false), credited, [current.id])
    else
      Settlement(t.(time := WorkSeconds, isWorkTime := true), task, [])
  }

  /** Pop-ups the handlers raise instead of acting. */
  datatype Alert = AlreadyCompleted | NoEstimateSet

  /** A handler's outcome: the timer afterwards and the pop-up shown, if any. */
  datatype Reply = Reply(timer: Timer, alert: Option<Alert>)

  function Start(t: Timer): (r: Reply)
    ensures t.isCompleted <==> r.alert.Some?
    ensures t.isCompleted ==> r == Reply(t, Some(AlreadyCompleted))
    ensures !t.isCompleted ==>
              && r.timer.isActive && !r.timer.isPaused
              && r.timer.(isActive := t.isActive, isPaused := t.isPaused) == t
  {
    if t.isCompleted then Reply(t, Some(AlreadyCompleted))
    else Reply(t.(isActive := true, isPaused := false), None)
  }

  function Pause(t: Timer): (r: Timer)
    ensures r.isPaused && !Counting(r)
    ensures r.(isPaused := t.isPaused) == t
  {
    t.(isPaused := true)
  }

  /** Pausing twice is pausing once. */
  lemma PauseIdempotent(t: Timer)
    ensures Pause(Pause(t)) == Pause(t)
    ensures Tick(Pause(t)) == Pause(t)
  {
  }

  function Resume(t: Timer): (r: Reply)
    ensures t.isCompleted <==> r.alert.Some?
    ensures t.isCompleted ==> r == Reply(t, Some(AlreadyCompleted))
    ensures !t.isCompleted ==> !r.timer.isPaused && r.timer.(isPaused := t.isPaused) == t
  {
    if t.isCompleted then Reply(t, Some(AlreadyCompleted))
    else Reply(t.(isPaused := false), None)
  }

  /** Resuming right after pausing a running, uncompleted timer gives it back unchanged. */
  lemma ResumeUndoesPause(t: Timer)
    requires !t.isCompleted && !t.isPaused
    ensures Resume(Pause(t)) == Reply(t, None)
  {
  }

  /**
   The Start button's handler: it refuses a task whose estimate is zero before
   it calls `Start`. It reads the estimate of the selected task, so a task must
   be selected.
   */
  function PressStart(t: Timer, task: Option<Task>): (r: Reply)
    requires task.Some?
    ensures task.value.estimatedPomodoros == 0 ==> r == Reply(t, Some(NoEstimateSet))
    ensures task.value.estimatedPomodoros != 0 && t.isCompleted ==> r == Reply(t, Some(AlreadyCompleted))
    ensures task.value.estimatedPomodoros != 0 && !t.isCompleted ==>
              && r.alert == None && r.timer.isActive && !r.timer.isPaused
              && r.timer.(isActive := t.isActive, isPaused := t.isPaused) == t
    ensures task.value.estimatedPomodoros != 0 ==> r == Start(t)
  {
    if task.value.estimatedPomodoros == 0 then Reply(t, Some(NoEstimateSet)) else Start(t)
  }

  /** The timer together with the shell's selected task. */
  datatype Session = Session(timer: Timer, task: Option<Task>)

  /**
   Back to the initial timer from any state. The handler also writes zero into
   both counters of the selected task in place, so a task must be selected.
   */
  function Reset(t: Timer, task: Option<Task>): (r: Session)
    requires task.Some?
    ensures r.timer == Initial()
    ensures r.task.Some? && SameIdentity(r.task.value, task.value)
    ensures r.task.value.completedPomodoros == 0 && r.task.value.estimatedPomodoros == 0
  {
    Session(Initial(), Some(task.value.(completedPomodoros := 0, estimatedPomodoros := 0)))
  }

  /** The big round face: a check mark once completed, otherwise the countdown. */
  function Face(t: Timer): (r: string)
    ensures t.isCompleted ==> r == CheckMark
    ensures !t.isCompleted ==> ParseTime(r) == Some(t.time)
    ensures !t.isCompleted ==> r == FormatTime(t.time)
  {
    if t.isCompleted then CheckMark
    else
      FormatTimeRoundTrip(t.time);
      FormatTime(t.time)
  }
}
