/**
 The application shell's task state: the selected task record and the two
 functional updates the timer asks for, recording a finished work interval and
 adjusting the estimated number of intervals. Both updates act on the currently
 selected task, which may be absent, and leave it alone unless its id matches.
 */
module App {
  import opened Wrappers

  type TaskId = string

  /** A to-do entry as the timer sees it; `todo` is its display text. */
  datatype Task = Task(
    id: TaskId,
    todo: string,
    isCompleted: bool,
    completedPomodoros: int,
    estimatedPomodoros: int)

  /** The floor the estimate adjustment never goes below. */
  const MinEstimate: int := 1

  function Max(a: int, b: int): int {
    if a >= b then a else b
  }

  /** The update is aimed at the selected task: one is selected and its id matches. */
  predicate Targets(task: Option<Task>, taskId: TaskId) {
    task.Some? && task.value.id == taskId
  }

  /** The fields neither update touches. */
  predicate SameIdentity(a: Task, b: Task) {
    a.id == b.id && a.todo == b.todo && a.isCompleted == b.isCompleted
  }

  /** A finished work interval is credited to the selected task. */
  function RecordCompletion(task: Option<Task>, taskId: TaskId): (r: Option<Task>)
    ensures r.Some? == task.Some?
    ensures Targets(task, taskId) ==>
              && r.value.completedPomodoros == task.value.completedPomodoros + 1
              && r.value.estimatedPomodoros == task.value.estimatedPomodoros
              && SameIdentity(r.value, task.value)
    ensures !Targets(task, taskId) ==> r == task
  {
    if Targets(task, taskId) then
      Some(task.value.(completedPomodoros := task.value.completedPomodoros + 1))
    else
      task
  }

  /** The "-" and "+" buttons: move the estimate by `change`, never below one. */
  function AdjustEstimate(task: Option<Task>, taskId: TaskId, change: int): (r: Option<Task>)
    ensures r.Some? == task.Some?
    ensures Targets(task, taskId) ==>
              var wanted := task.value.estimatedPomodoros + change;
              && r.value.estimatedPomodoros >= MinEstimate
              && r.value.estimatedPomodoros >= wanted
              && (r.value.estimatedPomodoros == wanted || r.value.estimatedPomodoros == MinEstimate)
              && r.value.completedPomodoros == task.value.completedPomodoros
              && SameIdentity(r.value, task.value)
    ensures !Targets(task, taskId) ==> r == task
  {
    if Targets(task, taskId) then
      Some(task.value.(estimatedPomodoros := Max(MinEstimate, task.value.estimatedPomodoros + change)))
    else
      task
  }

  /** The estimate follows the requested change exactly as long as the result stays at least one. */
  lemma AdjustExact(task: Option<Task>, taskId: TaskId, change: int)
    requires Targets(task, taskId)
    ensures var r := AdjustEstimate(task, taskId, change);
            r.value.estimatedPomodoros == task.value.estimatedPomodoros + change
            <==> task.value.estimatedPomodoros + change >= MinEstimate
  {
  }

  /** Two concrete presses of "-": an estimate of 1 stays 1, an estimate of 5 becomes 4. */
  lemma DecrementExamples(taskId: TaskId, todo: string)
    ensures AdjustEstimate(Some(Task(taskId, todo, false, 0, 1)), taskId, -1)
            == Some(Task(taskId, todo, false, 0, 1))
    ensures AdjustEstimate(Some(Task(taskId, todo, false, 0, 5)), taskId, -1)
            == Some(Task(taskId, todo, false, 0, 4))
  {
  }

  /** "+" then "-" gives back the task whenever its estimate already met the floor. */
  lemma IncrementThenDecrement(task: Option<Task>, taskId: TaskId)
    requires task.Some? ==> task.value.estimatedPomodoros >= MinEstimate
    ensures AdjustEstimate(AdjustEstimate(task, taskId, 1), taskId, -1) == task
  {
  }

  /** The two updates touch different counters, so their order does not matter. */
  lemma UpdatesCommute(task: Option<Task>, taskId: TaskId, otherId: TaskId, change: int)
    ensures RecordCompletion(AdjustEstimate(task, otherId, change), taskId)
            == AdjustEstimate(RecordCompletion(task, taskId), otherId, change)
  {
  }
}
