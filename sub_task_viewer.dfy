/** The sub-task dialog (frontend/src/components/tasks/SubTaskViewer.tsx): the progress figure over the
    loaded sub-tasks, and the dialog's state as the submit and status-change handlers leave it. */
module SubTasks {
  import opened Types
  import Seqs
  import Percent

  /** `subTasks.filter(t => t.status === TaskStatus.COMPLETED).length`, the "k/n completed" figure. */
  function CompletedCount(subTasks: seq<Task>): (r: nat)
    ensures r <= |subTasks|
    ensures r == |subTasks| <==> forall i :: 0 <= i < |subTasks| ==> subTasks[i].status == Completed
    ensures r == 0 <==> forall i :: 0 <= i < |subTasks| ==> subTasks[i].status != Completed
  {
    Seqs.CountAll(subTasks, HasStatus(Completed));
    Seqs.CountZero(subTasks, HasStatus(Completed));
    Seqs.Count(subTasks, HasStatus(Completed))
  }

  /** `calculateProgress`: 0 for no sub-tasks, otherwise the completed share rounded to a whole percent. */
  function CalculateProgress(subTasks: seq<Task>): (r: nat)
    ensures |subTasks| == 0 ==> r == 0
    ensures |subTasks| > 0 ==>
      2 * |subTasks| * r <= 200 * CompletedCount(subTasks) + |subTasks| < 2 * |subTasks| * (r + 1)
  {
    if |subTasks| == 0 then 0 else Percent.RoundedPercent(CompletedCount(subTasks), |subTasks|)
  }

  /** Progress is a percentage. */
  lemma {:induction false} ProgressBounded(subTasks: seq<Task>)
    ensures CalculateProgress(subTasks) <= 100
  {
    if |subTasks| > 0 {
      Percent.PercentAtMost100(CompletedCount(subTasks), |subTasks|);
    }
  }

  /** A non-empty list of sub-tasks that are all completed shows 100. */
  lemma {:induction false} AllSubTasksCompletedIs100(subTasks: seq<Task>)
    requires |subTasks| > 0
    requires forall i :: 0 <= i < |subTasks| ==> subTasks[i].status == Completed
    ensures CalculateProgress(subTasks) == 100
  {
    Percent.AllCompletedIs100(|subTasks|);
  }

  /** A list in which no sub-task is completed shows 0. */
  lemma {:induction false} NoSubTaskCompletedIs0(subTasks: seq<Task>)
    requires forall i :: 0 <= i < |subTasks| ==> subTasks[i].status != Completed
    ensures CalculateProgress(subTasks) == 0
  {
    if |subTasks| > 0 {
      Percent.NoneCompletedIs0(|subTasks|);
    }
  }

  /** 100 does not mean "all completed": past 200 sub-tasks, one unfinished sub-task is rounded away. */
  lemma {:induction false} OneUnfinishedStillShows100(subTasks: seq<Task>)
    requires |subTasks| > 200
    requires CompletedCount(subTasks) == |subTasks| - 1
    ensures CalculateProgress(subTasks) == 100
    ensures exists i :: 0 <= i < |subTasks| && subTasks[i].status != Completed
  {
    Percent.AllButOneRoundsTo100(|subTasks|);
  }

  /** Completing one sub-task never lowers the progress. */
  lemma {:induction false} CompletingNeverLowersProgress(subTasks: seq<Task>, i: nat)
    requires i < |subTasks|
    ensures CalculateProgress(subTasks) <= CalculateProgress(subTasks[i := subTasks[i].(status := Completed)])
  {
    var after := subTasks[i := subTasks[i].(status := Completed)];
    Seqs.CountUpdate(subTasks, i, subTasks[i].(status := Completed), HasStatus(Completed));
    Percent.PercentMonotone(CompletedCount(subTasks), CompletedCount(after), |subTasks|);
  }

  /** The create form as the dialog opens and as a successful submit leaves it: empty title and
      description, the parent's id as `parentTaskId`, every other field unset. */
  function EmptyForm(parentId: int): CreateTaskData {
    CreateTaskData("", Some(""), None, None, None, None, Some(parentId))
  }

  /** `{ status: newStatus }`: an update body carrying the status and nothing else. */
  predicate StatusOnly(patch: UpdateTaskData, status: Status) {
    patch.status == Some(status) && patch.title.None? && patch.description.None? && patch.priority.None?
      && patch.dueDate.None? && patch.reminderTime.None? && patch.categoryId.None? && patch.parentTaskId.None?
  }

  class SubTaskViewer {
    const parentId: int
    var subTasks: seq<Task>
    var isCreating: bool
    var formData: CreateTaskData
    var loading: bool

    constructor (parent: Task)
      ensures parentId == parent.id && subTasks == [] && !isCreating && !loading
      ensures formData == EmptyForm(parent.id) && formData.parentTaskId == Some(parent.id)
    {
      parentId := parent.id;
      subTasks, isCreating, loading := [], false, false;
      formData := EmptyForm(parent.id);
    }

    function Progress(): (r: nat)
      reads this
      ensures r <= 100
    {
      ProgressBounded(subTasks);
      CalculateProgress(subTasks)
    }

    /** `loadSubTasks`: the fetched list replaces the shown one; a failure is logged and changes nothing. */
    method LoadSubTasks(response: Response<seq<Task>>)
      modifies this
      ensures subTasks == (if response.Ok? then response.body else old(subTasks))
      ensures !loading && isCreating == old(isCreating) && formData == old(formData)
    {
      loading := true;
      if response.Ok? {
        subTasks := response.body;
      }
      loading := false;
    }

    /** `handleSubmit`: sends the form; on success reloads, closes the form and resets it to the
        empty form for the same parent; on failure leaves everything but `loading` as it was. */
    method HandleSubmit(created: Response<Task>, reloaded: Response<seq<Task>>) returns (sent: CreateTaskData)
      modifies this
      ensures sent == old(formData)
      ensures created.Ok? ==> subTasks == (if reloaded.Ok? then reloaded.body else old(subTasks))
      ensures created.Ok? ==> !isCreating && formData == EmptyForm(parentId) && formData.parentTaskId == Some(parentId)
      ensures created.Failed? ==> subTasks == old(subTasks) && isCreating == old(isCreating) && formData == old(formData)
      ensures !loading
    {
      loading := true;
      sent := formData;
      if created.Ok? {
        LoadSubTasks(reloaded);
        isCreating := false;
        formData := EmptyForm(parentId);
      }
      loading := false;
    }

    /** `handleStatusChange`: sends a status-only patch, then reloads the list. */
    method HandleStatusChange(taskId: int, newStatus: Status, updated: Response<Task>, reloaded: Response<seq<Task>>)
      returns (patch: UpdateTaskData)
      modifies this
      ensures StatusOnly(patch, newStatus)
      ensures subTasks == (if updated.Ok? && reloaded.Ok? then reloaded.body else old(subTasks))
      ensures !loading && isCreating == old(isCreating) && formData == old(formData)
    {
      loading := true;
      patch := UpdateTaskData(None, None, None, None, None, None, None, Some(newStatus));
      if updated.Ok? {
        LoadSubTasks(reloaded);
      }
      loading := false;
    }
  }
}
