# Pomodoro interval timer — a Dafny model

This project models the interval timer of the PomoTodo application and the two task-counter updates it calls in the application shell. The timer is the `Pomodoro` component. It runs a countdown that alternates work and break phases. When a work phase runs out, it credits the selected task through the shell's completion callback, and it stops in a terminal completed state once the credited count reaches the task's estimate. The shell keeps the selected task. It can add one to the task's completed count (`handlePomodoroComplete`), and it can move the estimate up or down with a floor of one (`adjustEstimatedPomodoros`).

Modules:

- `Wrappers` — `Option`, which stands in for a JavaScript reference that may be `null`.
- `App` (`src/App.jsx`) — the `Task` record, `RecordCompletion` and `AdjustEstimate`, and lemmas about them: exactness above the floor, undoing "+" with "-", and the two updates commuting.
- `TimeDisplay` (`formatTime` in `src/components/Pomodoro.jsx`) — decimal rendering, `padStart(2, "0")` and the `MM:SS` face. `ParseTime` is an independent reader of that format, and `FormatTimeRoundTrip` proves that it recovers every duration.
- `Pomodoro` (`src/components/Pomodoro.jsx`) — the `Timer` record, `Tick` (one firing of the one-second interval), `Settle` (the effect's branch for a countdown that reached zero), the handlers `Start`, `Pause`, `Resume` and `Reset`, the Start button's estimate guard `PressStart`, and the round `Face`.
- `Sessions` — whole sessions as sequences of events: seconds passing and button presses, with disabled buttons doing nothing. This module holds the reachable-state invariant `Valid` and lemmas about whole phases, pausing, the terminal state, reset, and a complete two-interval session.

Modelling decisions:

- The durations are the ones in the code. Work is `0.2 * 60` and break is `0.1 * 60`, which are exactly 12 and 6 seconds in double precision. They become `WorkSeconds` and `BreakSeconds`. The code comments speak of 20 and 5 minutes, but the model follows the code.
- `setInterval` becomes an explicit `Tick`. The effect's reaction to a countdown at zero becomes `Settle`. In a session, one `Second` is a tick followed at once by the settle, because the effect re-runs right after the render that set the countdown to zero.
- `alert` pop-ups become an `Alert` value (`AlreadyCompleted` or `NoEstimateSet`) returned beside the unchanged timer.
- `Settle` reports the ids passed to `onPomodoroComplete` and the shell's task after the callback ran. The shell's callback is `RecordCompletion`, so the id always matches the selected task.
- The work branch of the effect reads `selectedTask.completedPomodoros` (line 29) before its `selectedTask &&` test (line 32). With no task it throws, so the null test is dead code. `Settle` therefore requires a selected task on that path (`CanSettle`). `resetTimer` (line 94) and the Start button (line 170) also dereference the task, so `Reset`, `PressStart` and all session steps require a selected task too.
- `resetTimer` writes zero into both counters of the task object in place. Since the shell holds that same object, the model returns the task with both counters zeroed. The estimate of 0 that reset leaves behind is below the floor of one that the adjustment keeps; it is modelled as written. `StartRefusedAfterReset` shows the consequence: Start is refused until "+" is pressed.
- The Start, Pause and Resume buttons are disabled once the timer has completed, and "-" is disabled at an estimate of one or less. `Step` treats a press on a disabled button as doing nothing. The handler functions keep their own guards.

## Model

| member | source | states |
|---|---|---|
| App.RecordCompletion | src/App.jsx:8-18 | When the selected task's id matches, the completed count goes up by exactly one and id, text, done flag and estimate are kept; when there is no task or the id differs, the task comes back unchanged |
| App.AdjustEstimate | src/App.jsx:20-30 | A matching task's estimate becomes the larger of one and estimate plus change, so it is always at least one; the completed count and identity are kept; with no task or another id nothing changes |
| App.AdjustExact | src/App.jsx:25 | The estimate follows the requested change exactly if and only if the result is at least one |
| App.DecrementExamples | src/App.jsx:25 | "-" at estimate 1 stays 1 and at estimate 5 gives 4 |
| App.IncrementThenDecrement | src/App.jsx:20-30 | "+" followed by "-" returns the task unchanged whenever its estimate is at least one |
| App.UpdatesCommute | src/App.jsx:8-30 | Crediting an interval and adjusting the estimate commute |
| TimeDisplay.DecimalString | src/components/Pomodoro.jsx:100-103 | The decimal text of a count is a non-empty digit string without leading zeros; it has one digit exactly below 10 and at most two exactly below 100 |
| TimeDisplay.PadStart2 | src/components/Pomodoro.jsx:100-103 | Padding to two places keeps the text as its suffix, fills only with zeros, and is at least two long |
| TimeDisplay.ParseDecimalString | src/components/Pomodoro.jsx:100-103 | Reading a count's decimal text back gives the count |
| TimeDisplay.FormatTime | src/components/Pomodoro.jsx:99-105 | The face is digits, a colon, then exactly two digits; it is exactly five characters long if and only if the time is under 6000 seconds |
| TimeDisplay.FormatTimeRoundTrip | src/components/Pomodoro.jsx:99-105 | Reading the `MM:SS` face back as 60 times the minutes plus the seconds gives the time, for every non-negative time |
| TimeDisplay.FormatTimeInjective | src/components/Pomodoro.jsx:99-105 | Two times share a face if and only if they are equal |
| Pomodoro.Tick | src/components/Pomodoro.jsx:20-23 | A firing takes exactly one second off when the timer is active, not paused, not completed and above zero, and changes nothing else; otherwise it changes nothing |
| Pomodoro.Settle | src/components/Pomodoro.jsx:24-54 | Not expired: nothing. Work expiry: one callback with the task's id and the count up by one. If that reaches the estimate: completed, inactive, time 0 and the message; otherwise a 6-second break, not completed. Break expiry: 12 seconds of work, no callback, task untouched |
| Pomodoro.Start | src/components/Pomodoro.jsx:67-74 | On a completed timer: the AlreadyCompleted alert and no change. Otherwise: active and not paused, no other field changed |
| Pomodoro.Pause | src/components/Pomodoro.jsx:76-78 | Sets paused unconditionally and leaves every other field as it was, so the countdown stops |
| Pomodoro.PauseIdempotent | src/components/Pomodoro.jsx:76-78 | Pausing a paused timer changes nothing, and a firing of the interval leaves a paused timer as it is |
| Pomodoro.Resume | src/components/Pomodoro.jsx:80-86 | On a completed timer: the AlreadyCompleted alert and no change. Otherwise: paused is cleared and nothing else changes |
| Pomodoro.ResumeUndoesPause | src/components/Pomodoro.jsx:76-86 | Resume right after Pause gives back an unpaused, uncompleted timer unchanged, with no alert |
| Pomodoro.PressStart | src/components/Pomodoro.jsx:168-175 | An estimate of zero is refused with the NoEstimateSet alert and no change; otherwise exactly Start's outcome: the AlreadyCompleted alert on a completed timer, else active and unpaused with every other field kept |
| Pomodoro.Reset | src/components/Pomodoro.jsx:88-97 | From any state: the initial timer (idle, unpaused, work, 12 seconds, not completed, empty message), and both task counters zeroed with identity kept |
| Pomodoro.Face | src/components/Pomodoro.jsx:114-116 | A completed timer shows the check mark; otherwise the face is exactly the `MM:SS` rendering of the remaining time, which reads back as that time |
| Sessions.Step | src/components/Pomodoro.jsx:17-206 | Only a second, reset and the estimate buttons touch the task; only a second or reset changes the credited count; a second adds at most one to it |
| Sessions.InitialValid | src/components/Pomodoro.jsx:10-15 | `Initial`, the component's starting state (12 seconds of work, idle, unpaused, not completed, empty message), satisfies the session invariant |
| Sessions.StepPreservesValid | src/components/Pomodoro.jsx:17-97 | Every event keeps the invariant: time within the phase length, zero exactly when completed, completion message exactly when completed |
| Sessions.RunPreservesValid | src/components/Pomodoro.jsx:17-97 | Every state reached from a valid one by any events is valid |
| Sessions.ValidNeverExpired | src/components/Pomodoro.jsx:24 | Between steps a valid timer never waits at zero without being completed, so the transition never fires outside a second |
| Sessions.CountDown | src/components/Pomodoro.jsx:20-23 | While running, each of n seconds before the last takes exactly one off and changes nothing else |
| Sessions.RunOutPhase | src/components/Pomodoro.jsx:17-65 | A running phase's full count of seconds ends in exactly one phase transition |
| Sessions.WorkPhaseToBreak | src/components/Pomodoro.jsx:43-48 | A full work phase short of the target credits the task once and starts a 6-second break |
| Sessions.WorkPhaseCompletes | src/components/Pomodoro.jsx:27-42 | A full work phase that meets the target credits the task once and ends completed, inactive, at zero, with the message |
| Sessions.BreakPhaseToWork | src/components/Pomodoro.jsx:49-53 | A full break returns to a 12-second work phase without touching the task |
| Sessions.PausedStaysPut | src/components/Pomodoro.jsx:20-24 | A paused valid timer is unchanged by any number of seconds: it neither counts down nor, being valid, waits at zero for a transition |
| Sessions.PauseFreezesCountdown | src/components/Pomodoro.jsx:76-78 | Pause followed by any number of seconds leaves the remaining time unchanged |
| Sessions.CompletedIsFinal | src/components/Pomodoro.jsx:20-24 | Once completed (any completed timer), no sequence of events without Reset changes the timer or the credited count |
| Sessions.ResetRestarts | src/components/Pomodoro.jsx:88-97 | Reset from any session gives the valid initial timer and zeroed counters |
| Sessions.StartRefusedAfterReset | src/components/Pomodoro.jsx:170-173 | Start right after Reset is refused, because reset leaves an estimate of zero |
| Sessions.TwoIntervalSession | src/components/Pomodoro.jsx:17-74 | With an estimate of two: Start, 12 seconds, a 6-second break and 12 more seconds end completed, inactive, at zero, with two intervals credited |

## Left out

- Rendering, JSX, CSS classes, the clock icon and the PropTypes declarations are presentation only. Of the rendering, only the round face (`Face`) and the disabled state of the buttons are modelled.
- `setInterval`, `clearInterval` and wall-clock timing are replaced by the explicit `Tick` and `Second` steps. React's update batching and effect scheduling are not modelled; the effect's zero branch is taken to run right after the tick that reached zero.
- The `Todo` component, task-list management and selecting another task are not part of this model. So rebinding the timer to a different task mid-session is not modelled either.
- Pomodoro.Settle: with no task selected, an expired work phase throws a TypeError in the source. The model requires a selected task there instead of modelling the crash.
- Pomodoro.Reset: with no task selected the handler throws after queuing the timer updates. The model requires a selected task, and leaves the fate of those queued updates unmodelled.
- Pomodoro.PressStart: with no task selected the button handler throws. The model requires a selected task.
- Sessions.Step: every session step requires a selected task. Without one, Start (line 170) and Reset (line 94) throw, so the countdown never starts; such a session can only toggle the paused flag through Pause and Resume, and that is not modelled. The "-" and "+" buttons are not rendered without a task (line 119).
- Counters are unbounded integers. The precision limit of JavaScript numbers above 2^53 is not modelled.
