/** The dependency dialog (frontend/src/components/tasks/TaskDependencyManager.tsx): the "blocked" banner,
    the predecessor choices, the type labels and the create form's guard and reset. */
module Dependencies {
  import opened Types
  import Seqs

  /** Edge `dep` holds the successor back: finish-to-start onto a loaded predecessor that is not completed. */
  predicate BlocksOn(dep: TaskDependency) {
    dep.dependencyType == FinishToStart && dep.predecessorTask.Some? && dep.predecessorTask.value.status != Completed
  }

  /** Evaluating edge `dep` in `isTaskBlocked` dereferences a missing predecessor row. */
  predicate Dangling(dep: TaskDependency) {
    dep.dependencyType == FinishToStart && dep.predecessorTask.None?
  }

  /** `isTaskBlocked`: `predecessors.some(dep => dep.dependencyType === FINISH_TO_START &&
      dep.predecessorTask.status !== 'completed')`. `None` stands for the TypeError thrown when the scan,
      which stops at the first blocking edge, reaches a finish-to-start edge whose predecessor is missing. */
  function IsTaskBlocked(predecessors: seq<TaskDependency>): (r: Option<bool>)
    ensures (forall i :: 0 <= i < |predecessors| ==> !Dangling(predecessors[i])) ==>
      r == Some(exists i :: 0 <= i < |predecessors| && BlocksOn(predecessors[i]))
    ensures r == Some(true) ==> exists i :: 0 <= i < |predecessors| && BlocksOn(predecessors[i])
    ensures r.None? ==> exists i :: 0 <= i < |predecessors| && Dangling(predecessors[i])
    ensures r == Some(false) ==>
      forall i :: 0 <= i < |predecessors| ==> !BlocksOn(predecessors[i]) && !Dangling(predecessors[i])
  {
    if predecessors == [] then Some(false)
    else
      var dep := predecessors[0];
      assert forall i :: 1 <= i < |predecessors| ==> predecessors[i] == predecessors[1..][i - 1];
      if dep.dependencyType != FinishToStart then IsTaskBlocked(predecessors[1..])
      else if dep.predecessorTask.None? then None
      else if dep.predecessorTask.value.status != Completed then Some(true)
      else IsTaskBlocked(predecessors[1..])
  }

  function IsFinishToStart(): TaskDependency -> bool {
    (dep: TaskDependency) => dep.dependencyType == FinishToStart
  }

  /** Only finish-to-start edges matter: removing every other edge leaves the verdict as it was. */
  lemma {:induction false} OnlyFinishToStartBlocks(predecessors: seq<TaskDependency>)
    ensures IsTaskBlocked(Seqs.Filter(predecessors, IsFinishToStart())) == IsTaskBlocked(predecessors)
  {
    if predecessors != [] {
      var rest := Seqs.Filter(predecessors[1..], IsFinishToStart());
      OnlyFinishToStartBlocks(predecessors[1..]);
      if predecessors[0].dependencyType == FinishToStart {
        assert ([predecessors[0]] + rest)[1..] == rest;
      } else {
        assert Seqs.Filter(predecessors, IsFinishToStart()) == rest;
      }
    }
  }

  /** Edges of the other three kinds never block, whatever their predecessors' state, and no edges do not block. */
  lemma NonFinishToStartNeverBlocks(predecessors: seq<TaskDependency>)
    requires forall i :: 0 <= i < |predecessors| ==> predecessors[i].dependencyType != FinishToStart
    ensures IsTaskBlocked(predecessors) == Some(false)
  {
  }

  /** `tasks.filter(t => t.id !== task.id)`: the predecessor choices, which never include the task itself. */
  function AvailableTasks(tasks: seq<Task>, currentId: int): (r: seq<Task>)
    ensures forall i :: 0 <= i < |r| ==> r[i].id != currentId
    ensures forall t :: t in r <==> t in tasks && t.id != currentId
  {
    var r := Seqs.Filter(tasks, (t: Task) => t.id != currentId);
    assert forall i :: 0 <= i < |r| ==> r[i] in r;
    r
  }

  /** The choices keep the order of the task list: they distribute over concatenation. */
  lemma AvailableTasksKeepOrder(a: seq<Task>, b: seq<Task>, currentId: int)
    ensures AvailableTasks(a + b, currentId) == AvailableTasks(a, currentId) + AvailableTasks(b, currentId)
  {
    Seqs.FilterConcat(a, b, (t: Task) => t.id != currentId);
  }

  /** `getDependencyTypeLabel`. */
  function DependencyTypeLabel(kind: DependencyType): string {
    match kind
    case FinishToStart => "Finish to Start"
    case StartToStart => "Start to Start"
    case FinishToFinish => "Finish to Finish"
    case StartToFinish => "Start to Finish"
  }

  /** The four dependency types get four different labels. */
  lemma LabelsDistinct(a: DependencyType, b: DependencyType)
    ensures DependencyTypeLabel(a) == DependencyTypeLabel(b) <==> a == b
  {
  }

  /** CreateTaskDependencyData as the form holds it. */
  datatype DependencyForm = DependencyForm(predecessorTaskId: int, successorTaskId: int, dependencyType: DependencyType, lag: int)

  /** The form as the dialog opens and as a successful create leaves it: no predecessor chosen,
      the current task as successor, finish-to-start, no lag. */
  function InitialForm(taskId: int): DependencyForm {
    DependencyForm(0, taskId, FinishToStart, 0)
  }

  datatype DependencyLists = DependencyLists(predecessors: seq<TaskDependency>, successors: seq<TaskDependency>)

  class DependencyManager {
    const taskId: int
    var dependencies: DependencyLists
    var isCreating: bool
    var formData: DependencyForm
    var loading: bool

    constructor (task: Task)
      ensures taskId == task.id && dependencies == DependencyLists([], []) && !isCreating && !loading
      ensures formData == InitialForm(task.id)
    {
      taskId := task.id;
      dependencies := DependencyLists([], []);
      isCreating, loading := false, false;
      formData := InitialForm(task.id);
    }

    /** `loadDependencies`: the fetched lists replace the shown ones; a failure changes nothing. */
    method LoadDependencies(response: Response<DependencyLists>)
      modifies this
      ensures dependencies == (if response.Ok? then response.body else old(dependencies))
      ensures !loading && isCreating == old(isCreating) && formData == old(formData)
    {
      loading := true;
      if response.Ok? {
        dependencies := response.body;
      }
      loading := false;
    }

    /** `handleSubmit`: with no predecessor chosen nothing is sent and nothing changes; otherwise the form
        is sent, and a successful create reloads the lists, closes the form and resets it. */
    method HandleSubmit(created: Response<TaskDependency>, reloaded: Response<DependencyLists>)
      returns (sent: Option<DependencyForm>)
      modifies this
      ensures old(formData).predecessorTaskId == 0 ==>
        sent == None && dependencies == old(dependencies) && isCreating == old(isCreating)
        && formData == old(formData) && loading == old(loading)
      ensures old(formData).predecessorTaskId != 0 ==> sent == Some(old(formData)) && !loading
      ensures old(formData).predecessorTaskId != 0 && created.Ok? ==>
        dependencies == (if reloaded.Ok? then reloaded.body else old(dependencies))
        && !isCreating && formData == InitialForm(taskId)
      ensures old(formData).predecessorTaskId != 0 && created.Failed? ==>
        dependencies == old(dependencies) && isCreating == old(isCreating) && formData == old(formData)
    {
      if formData.predecessorTaskId == 0 {
        return None;
      }
      loading := true;
      sent := Some(formData);
      if created.Ok? {
        LoadDependencies(reloaded);
        isCreating := false;
        formData := InitialForm(taskId);
      }
      loading := false;
    }

    /** `handleDelete`: only a confirmed delete is sent; a successful one reloads the lists. */
    method HandleDelete(confirmed: bool, deleted: Response<()>, reloaded: Response<DependencyLists>)
      modifies this
      ensures !confirmed ==> dependencies == old(dependencies) && loading == old(loading)
      ensures confirmed ==> !loading
      ensures dependencies == (if confirmed && deleted.Ok? && reloaded.Ok? then reloaded.body else old(dependencies))
      ensures isCreating == old(isCreating) && formData == old(formData)
    {
      if confirmed {
        loading := true;
        if deleted.Ok? {
          LoadDependencies(reloaded);
        }
        loading := false;
      }
    }

    /** The banner above the lists. */
    function Blocked(): (r: Option<bool>)
      reads this
      ensures dependencies.predecessors == [] ==> r == Some(false)
    {
      IsTaskBlocked(dependencies.predecessors)
    }
  }
}
