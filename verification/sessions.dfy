/**
 Whole sessions: the user's button presses and the passing seconds as events
 applied to the timer and the selected task. Buttons the component renders as
 disabled do nothing. Every step assumes a selected task, since the Start and
 Reset handlers and the work-phase expiry all read it.
 */
module Sessions {
  import opened Wrappers
  import opened App
  import opened Pomodoro

  datatype Event =
    | Second          // one interval firing, followed by the effect's reaction
    | StartPressed
    | PausePressed
    | ResumePressed
    | ResetPressed
    | DecreasePressed // the "-" next to the counters
    | IncreasePressed // the "+" next to the counters

  /**
   The invariant of every state a session can reach: the countdown stays within
   its phase's length, it reads zero exactly when the timer has completed, and
   the completion message is shown exactly then.
   */
  predicate Valid(t: Timer) {
    && t.time <= WorkSeconds
    && (!t.isWorkTime ==> t.time <= BreakSeconds)
    && (t.time == 0 <==> t.isCompleted)
    && (t.isCompleted ==> !t.isActive && t.isWorkTime && t.completionMessage == CompletionMessage)
    && (!t.isCompleted ==> t.completionMessage == "")
  }

  /** One second of wall-clock time: the interval fires, then the effect settles a countdown that hit zero. */
  function Elapse(t: Timer, task: Option<Task>): (s: Settlement)
    requires task.Some?
  {
    Settle(Tick(t), task)
  }

  function Step(s: Session, e: Event): (r: Session)
    requires s.task.Some?
    ensures r.task.Some? && r.task.value.id == s.task.value.id
    // Only an elapsed second, reset and the estimate buttons touch the task ...
    ensures e !in {Second, ResetPressed, DecreasePressed, IncreasePressed} ==> r.task == s.task
    // ... only an elapsed second or reset change the credited count ...
    ensures e !in {Second, ResetPressed} ==>
              r.task.value.completedPomodoros == s.task.value.completedPomodoros
    // ... and a second adds at most one to it.
    ensures e == Second ==>
              r.task.value.completedPomodoros - s.task.value.completedPomodoros in {0, 1}
  {
    var task := s.task;
    var t := s.timer;
    match e
    case Second =>
      var settled := Elapse(t, task);
      Session(settled.timer, settled.task)
    case StartPressed =>
      if t.isCompleted then s else Session(PressStart(t, task).timer, task)
    case PausePressed =>
      if t.isCompleted then s else Session(Pause(t), task)
    case ResumePressed =>
      if t.isCompleted then s else Session(Resume(t).timer, task)
    case ResetPressed =>
      Reset(t, task)
    case DecreasePressed =>
      if task.value.estimatedPomodoros <= 1 then s
      else Session(t, AdjustEstimate(task, task.value.id, -1))
    case IncreasePressed =>
      Session(t, AdjustEstimate(task, task.value.id, 1))
  }

  function Run(s: Session, events: seq<Event>): (r: Session)
    requires s.task.Some?
    ensures r.task.Some? && r.task.value.id == s.task.value.id
    decreases |events|
  {
    if events == [] then s else Run(Step(s, events[0]), events[1..])
  }

  /** `n` seconds in a row. */
  function Seconds(n: nat): (es: seq<Event>)
    ensures |es| == n
    ensures forall i :: 0 <= i < n ==> es[i] == Second
  {
    if n == 0 then [] else [Second] + Seconds(n - 1)
  }

  lemma InitialValid()
    ensures Valid(Initial())
  {
  }

  lemma StepPreservesValid(s: Session, e: Event)
    requires s.task.Some? && Valid(s.timer)
    ensures Valid(Step(s, e).timer)
  {
  }

  /** Every state a session reaches from a valid one is valid. */
  lemma {:induction false} RunPreservesValid(s: Session, events: seq<Event>)
    requires s.task.Some? && Valid(s.timer)
    ensures Valid(Run(s, events).timer)
    decreases |events|
  {
    if events != [] {
      StepPreservesValid(s, events[0]);
      RunPreservesValid(Step(s, events[0]), events[1..]);
    }
  }

  /** A valid timer is never caught with an expired countdown between steps. */
  lemma ValidNeverExpired(t: Timer)
    requires Valid(t)
    ensures !Expired(t)
  {
  }

  lemma {:induction false} RunAppend(s: Session, a: seq<Event>, b: seq<Event>)
    requires s.task.Some?
    ensures Run(s, a + b) == Run(Run(s, a), b)
    decreases |a|
  {
    if a != [] {
      assert (a + b)[1..] == a[1..] + b;
      RunAppend(Step(s, a[0]), a[1..], b);
    } else {
      assert a + b == b;
    }
  }

  lemma {:induction false} SecondsSnoc(n: nat)
    ensures Seconds(n + 1) == Seconds(n) + [Second]
  {
    if n > 0 {
      SecondsSnoc(n - 1);
    }
  }

  /**
   While the countdown runs, each second takes exactly one off it and nothing
   else changes, until the last second.
   */
  lemma {:induction false} CountDown(s: Session, n: nat)
    requires s.task.Some? && Counting(s.timer) && n < s.timer.time
    ensures Run(s, Seconds(n)) == Session(s.timer.(time := s.timer.time - n), s.task)
    decreases n
  {
    if n > 0 {
      var next := Step(s, Second);
      assert next == Session(s.timer.(time := s.timer.time - 1), s.task);
      assert Seconds(n)[1..] == Seconds(n - 1);
      CountDown(next, n - 1);
    }
  }

  /** A whole phase of seconds: the countdown runs down and the phase transition fires once. */
  lemma RunOutPhase(s: Session)
    requires s.task.Some? && Counting(s.timer)
    ensures Run(s, Seconds(s.timer.time)) == Step(s.(timer := s.timer.(time := 1)), Second)
  {
    var n := s.timer.time - 1;
    SecondsSnoc(n);
    RunAppend(s, Seconds(n), [Second]);
    CountDown(s, n);
  }

  /** A full work phase short of the target: one credit, then a break. */
  lemma WorkPhaseToBreak(s: Session)
    requires s.task.Some? && Counting(s.timer) && s.timer.isWorkTime
    requires !ReachesTarget(s.task.value)
    ensures Run(s, Seconds(s.timer.time))
            == Session(s.timer.(time := BreakSeconds, isWorkTime := false),
                       RecordCompletion(s.task, s.task.value.id))
  {
    RunOutPhase(s);
  }

  /** A full work phase that meets the target: one credit, then the terminal state. */
  lemma WorkPhaseCompletes(s: Session)
    requires s.task.Some? && Counting(s.timer) && s.timer.isWorkTime
    requires ReachesTarget(s.task.value)
    ensures Run(s, Seconds(s.timer.time))
            == Session(s.timer.(time := 0, isActive := false, isCompleted := true,
                                completionMessage := CompletionMessage),
                       RecordCompletion(s.task, s.task.value.id))
  {
    RunOutPhase(s);
  }

  /** A full break: back to a full work phase, the task untouched. */
  lemma BreakPhaseToWork(s: Session)
    requires s.task.Some? && Counting(s.timer) && !s.timer.isWorkTime
    ensures Run(s, Seconds(s.timer.time))
            == Session(s.timer.(time := WorkSeconds, isWorkTime := true), s.task)
  {
    RunOutPhase(s);
  }

  /** A paused valid timer does not move, however many seconds pass. */
  lemma {:induction false} PausedStaysPut(s: Session, n: nat)
    requires s.task.Some? && Valid(s.timer) && s.timer.isPaused
    ensures Run(s, Seconds(n)) == s
    decreases n
  {
    if n > 0 {
      ValidNeverExpired(s.timer);
      assert Step(s, Second) == s;
      assert Seconds(n)[1..] == Seconds(n - 1);
      PausedStaysPut(s, n - 1);
    }
  }

  /** Pressing Pause freezes the countdown for any number of seconds. */
  lemma PauseFreezesCountdown(s: Session, n: nat)
    requires s.task.Some? && Valid(s.timer)
    ensures Run(s, [PausePressed] + Seconds(n)).timer.time == s.timer.time
  {
    RunAppend(s, [PausePressed], Seconds(n));
    var paused := Step(s, PausePressed);
    if s.timer.isCompleted {
      CompletedIsFinal(paused, Seconds(n));
    } else {
      PausedStaysPut(paused, n);
    }
  }

  /**
   Once completed, nothing but Reset moves the timer, and nothing changes the
   credited count: no second, no button, and the estimate buttons only move the
   estimate.
   */
  lemma {:induction false} CompletedIsFinal(s: Session, events: seq<Event>)
    requires s.task.Some? && s.timer.isCompleted
    requires forall i :: 0 <= i < |events| ==> events[i] != ResetPressed
    ensures Run(s, events).timer == s.timer
    ensures Run(s, events).task.value.completedPomodoros == s.task.value.completedPomodoros
    decreases |events|
  {
    if events != [] {
      var next := Step(s, events[0]);
      assert next.timer == s.timer;
      CompletedIsFinal(next, events[1..]);
    }
  }

  /** Reset from anywhere brings back a valid initial timer with zeroed counters. */
  lemma ResetRestarts(s: Session)
    requires s.task.Some?
    ensures var r := Step(s, ResetPressed);
            && r.timer == Initial() && Valid(r.timer)
            && r.task.value.completedPomodoros == 0 && r.task.value.estimatedPomodoros == 0
  {
  }

  /** After Reset the estimate is zero, so Start is refused until "+" is pressed. */
  lemma StartRefusedAfterReset(s: Session)
    requires s.task.Some?
    ensures var r := Run(s, [ResetPressed, StartPressed]);
            r.timer == Initial()
  {
    var reset := Step(s, ResetPressed);
    assert Run(s, [ResetPressed, StartPressed]) == Run(reset, [StartPressed]);
    assert Run(reset, [StartPressed]) == Step(reset, StartPressed);
  }

  /**
   A task estimated at two intervals: Start, a work phase, a break, a second
   work phase. The first work phase credits one interval and starts the break,
   the break returns to work, and the second work phase credits the second
   interval and completes the timer.
   */
  lemma TwoIntervalSession(taskId: TaskId, todo: string)
    ensures var task := Some(Task(taskId, todo, false, 0, 2));
            var events := [StartPressed] + Seconds(WorkSeconds) + Seconds(BreakSeconds) + Seconds(WorkSeconds);
            var r := Run(Session(Initial(), task), events);
            && r.timer.isCompleted && !r.timer.isActive && r.timer.time == 0
            && r.timer.completionMessage == CompletionMessage
            && r.task == Some(Task(taskId, todo, false, 2, 2))
  {
    var s0 := Session(Initial(), Some(Task(taskId, todo, false, 0, 2)));
    var s1 := Step(s0, StartPressed);
    assert s1.timer == Initial().(isActive := true);
    assert Run(s0, [StartPressed]) == s1;

    WorkPhaseToBreak(s1);
    var s2 := Run(s1, Seconds(WorkSeconds));
    assert s2.task == Some(Task(taskId, todo, false, 1, 2));
    assert s2.timer.time == BreakSeconds && Counting(s2.timer);

    BreakPhaseToWork(s2);
    var s3 := Run(s2, Seconds(BreakSeconds));
    assert s3.timer == s1.timer;

    WorkPhaseCompletes(s3);
    var s4 := Run(s3, Seconds(WorkSeconds));

    RunAppend(s0, [StartPressed], Seconds(WorkSeconds));
    RunAppend(s0, [StartPressed] + Seconds(WorkSeconds), Seconds(BreakSeconds));
    RunAppend(s0, [StartPressed] + Seconds(WorkSeconds) + Seconds(BreakSeconds), Seconds(WorkSeconds));
  }
}
