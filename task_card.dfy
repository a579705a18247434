/** The task card (frontend/src/components/tasks/TaskCard.tsx): colour classes, the sub-task marker,
    the sub-task progress block and the "Blocked by incomplete dependencies" warning. */
module Card {
  import opened Types
  import SubTasks
  import Dependencies

  /** `getPriorityColor`; the `default` branch is unreachable over the three priorities. */
  function PriorityColor(priority: Priority): string {
    match priority
    case High => "border-l-red-500 bg-red-50"
    case Medium => "border-l-yellow-500 bg-yellow-50"
    case Low => "border-l-green-500 bg-green-50"
  }

  /** `getStatusColor`; the `default` branch is unreachable over the three statuses. */
  function StatusColor(status: Status): string {
    match status
    case Completed => "text-green-600 bg-green-100"
    case InProgress => "text-blue-600 bg-blue-100"
    case Todo => "text-gray-600 bg-gray-100"
  }

  /** Each priority is drawn in its own colour. */
  lemma PriorityColorsDistinct(a: Priority, b: Priority)
    ensures PriorityColor(a) == PriorityColor(b) <==> a == b
  {
  }

  /** The three statuses get three distinct colours; Todo shares its colour with the unreachable `default`
      branch. */
  lemma StatusColorsDistinct(a: Status, b: Status)
    ensures StatusColor(a) == StatusColor(b) <==> a == b
  {
  }

  /** `dep.predecessorTask?.status !== COMPLETED`: a missing predecessor counts as incomplete. */
  predicate Incomplete(dep: TaskDependency) {
    dep.predecessorTask.None? || dep.predecessorTask.value.status != Completed
  }

  /** `deps.some(dep => dep.predecessorTask?.status !== COMPLETED)` */
  function AnyIncomplete(deps: seq<TaskDependency>): (r: bool)
    ensures r <==> exists i :: 0 <= i < |deps| && Incomplete(deps[i])
  {
    if deps == [] then false
    else
      assert forall i :: 1 <= i < |deps| ==> deps[i] == deps[1..][i - 1];
      Incomplete(deps[0]) || AnyIncomplete(deps[1..])
  }

  /** The warning is rendered when the dependency list is present and one of its predecessors is incomplete. */
  predicate ShowsBlockedWarning(task: Task) {
    task.predecessorDependencies.Some? && AnyIncomplete(task.predecessorDependencies.value)
  }

  /** An edge whose predecessor row was not loaded raises the warning, whatever its type. */
  lemma MissingPredecessorWarns(task: Task, i: nat)
    requires task.predecessorDependencies.Some? && i < |task.predecessorDependencies.value|
    requires task.predecessorDependencies.value[i].predecessorTask.None?
    ensures ShowsBlockedWarning(task)
  {
  }

  /** No dependency list, or an empty one, raises no warning. */
  lemma NoDependenciesNoWarning(task: Task)
    requires task.predecessorDependencies.None? || task.predecessorDependencies == Some([])
    ensures !ShowsBlockedWarning(task)
  {
  }

  /** The card is at least as eager as the dependency dialog: whenever the dialog reports the task
      blocked, the card warns too. */
  lemma {:induction false} DialogBlockedImpliesCardWarning(task: Task)
    requires task.predecessorDependencies.Some?
    requires Dependencies.IsTaskBlocked(task.predecessorDependencies.value) == Some(true)
    ensures ShowsBlockedWarning(task)
  {
    var deps := task.predecessorDependencies.value;
    var i :| 0 <= i < |deps| && Dependencies.BlocksOn(deps[i]);
    assert Incomplete(deps[i]);
  }

  function SampleTask(id: int, status: Status, deps: Option<seq<TaskDependency>>): Task {
    Task(id, "", None, status, Medium, None, None, 0, None, None, None, None, deps, None)
  }

  /** The two "blocked" notions differ: a start-to-start edge onto an unfinished predecessor makes the card
      warn while the dependency dialog reports the task as not blocked. */
  lemma CardAndDialogDisagree()
    ensures var pred := SampleTask(1, InProgress, None);
            var edge := TaskDependency(1, StartToStart, None, 1, 2, Some(pred));
            var task := SampleTask(2, Todo, Some([edge]));
            ShowsBlockedWarning(task) && Dependencies.IsTaskBlocked([edge]) == Some(false)
  {
  }

  /** The sub-task block is rendered exactly for a present, non-empty `subTasks`. */
  predicate ShowsSubTaskBlock(task: Task) {
    task.subTasks.Some? && |task.subTasks.value| > 0
  }

  /** The "k/n completed" figure of the sub-task block: k never exceeds n. */
  function SubTaskFigure(task: Task): (r: (nat, nat))
    requires ShowsSubTaskBlock(task)
    ensures r.0 <= r.1 == |task.subTasks.value|
    ensures r.0 == r.1 <==> forall i :: 0 <= i < r.1 ==> task.subTasks.value[i].status == Completed
  {
    (SubTasks.CompletedCount(task.subTasks.value), |task.subTasks.value|)
  }

  /** `task.progress || 0`: the bar width, 0 for an absent or zero progress. */
  function ProgressWidth(task: Task): (r: int)
    ensures task.progress.None? ==> r == 0
    ensures r != 0 <==> task.progress.Some? && task.progress.value != 0
    ensures r != 0 ==> task.progress == Some(r)
  {
    match task.progress
    case Some(p) => if p != 0 then p else 0
    case None => 0
  }

  /** The "↳" marker: rendered for a truthy `parentTaskId`, so never for parent id 0. */
  predicate ShowsSubTaskMarker(task: Task) {
    task.parentTaskId.Some? && task.parentTaskId.value != 0
  }

  /** The marker follows `parentTaskId` alone: shown for a non-zero parent id, not for id 0 or an absent id. */
  lemma MarkerOnlyForTruthyParent(task: Task)
    ensures task.parentTaskId.None? ==> !ShowsSubTaskMarker(task)
    ensures task.parentTaskId == Some(0) ==> !ShowsSubTaskMarker(task)
    ensures task.parentTaskId.Some? && task.parentTaskId.value != 0 ==> ShowsSubTaskMarker(task)
  {
  }
}
