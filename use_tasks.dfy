/** The client task-list state of the `useTasks` hook (frontend/src/hooks/useTasks.ts).
    The hook's React state becomes the fields of an object; each request's outcome is a parameter. */
module UseTasks {
  import opened Types
  import Seqs

  // ---------------------------------------------------------------------------------------------
  // The list updaters

  function IdIsNot(id: int): Task -> bool {
    (t: Task) => t.id != id
  }

  /** `prev.filter(task => task.id !== taskId)` */
  function RemoveById(s: seq<Task>, id: int): seq<Task> {
    Seqs.Filter(s, IdIsNot(id))
  }

  /** `prev.map(task => task.id === taskId ? updated : task)` */
  function ReplaceById(s: seq<Task>, id: int, updated: Task): (r: seq<Task>)
    ensures |r| == |s|
    ensures forall i :: 0 <= i < |s| ==> r[i] == if s[i].id == id then updated else s[i]
  {
    if s == [] then []
    else [if s[0].id == id then updated else s[0]] + ReplaceById(s[1..], id, updated)
  }

  predicate HasId(s: seq<Task>, id: int) {
    exists i :: 0 <= i < |s| && s[i].id == id
  }

  /** After a delete no task with that id is left, and every other task is still there. */
  lemma RemoveByIdMembership(s: seq<Task>, id: int)
    ensures !HasId(RemoveById(s, id), id)
    ensures forall t :: t in RemoveById(s, id) <==> t in s && t.id != id
  {
    var r := RemoveById(s, id);
    forall i | 0 <= i < |r|
      ensures r[i].id != id
    {
      assert r[i] in r;
    }
  }

  /** Deleting from a concatenation deletes from each part: the remaining tasks keep their relative order. */
  lemma RemoveByIdKeepsOrder(a: seq<Task>, b: seq<Task>, id: int)
    ensures RemoveById(a + b, id) == RemoveById(a, id) + RemoveById(b, id)
  {
    Seqs.FilterConcat(a, b, IdIsNot(id));
  }

  /** Deleting an id no task carries changes nothing. */
  lemma RemoveAbsentIdIsIdentity(s: seq<Task>, id: int)
    requires !HasId(s, id)
    ensures RemoveById(s, id) == s
  {
    Seqs.FilterKeepsAll(s, IdIsNot(id));
  }

  /** Create followed by delete of the created task restores the list it started from. */
  lemma {:induction false} CreateThenDeleteRestores(s: seq<Task>, created: Task)
    requires !HasId(s, created.id)
    ensures RemoveById([created] + s, created.id) == s
  {
    RemoveByIdKeepsOrder([created], s, created.id);
    RemoveAbsentIdIsIdentity(s, created.id);
  }

  /** Replacing an id no task carries changes nothing. */
  lemma ReplaceAbsentIdIsIdentity(s: seq<Task>, id: int, updated: Task)
    requires !HasId(s, id)
    ensures ReplaceById(s, id, updated) == s
  {
  }

  /** An update followed by a delete of the same id ends where the delete alone would. */
  lemma {:induction false} ReplaceThenRemove(s: seq<Task>, id: int, updated: Task)
    requires updated.id == id
    ensures RemoveById(ReplaceById(s, id, updated), id) == RemoveById(s, id)
  {
    if s != [] {
      var r := ReplaceById(s, id, updated);
      assert r == [r[0]] + ReplaceById(s[1..], id, updated);
      assert s == [s[0]] + s[1..];
      RemoveByIdKeepsOrder([r[0]], ReplaceById(s[1..], id, updated), id);
      RemoveByIdKeepsOrder([s[0]], s[1..], id);
      ReplaceThenRemove(s[1..], id, updated);
    }
  }

  // ---------------------------------------------------------------------------------------------
  // fetchTasks query parameters

  /** The optional filters of `fetchTasks`; `fetchTasks()` with no argument has every filter absent. */
  datatype TaskFilters = TaskFilters(status: Option<string>, categoryId: Option<int>, search: Option<string>)

  /** One `params.append(key, value)`. */
  datatype QueryParam = StatusParam(status: string) | CategoryIdParam(categoryId: int) | SearchParam(search: string)

  function Rank(p: QueryParam): nat {
    match p
    case StatusParam(_) => 0
    case CategoryIdParam(_) => 1
    case SearchParam(_) => 2
  }

  // ---------------------------------------------------------------------------------------------
  // The hook state

  class TasksHook {
    var tasks: seq<Task>
    var categories: seq<Category>
    var loading: bool
    var error: Option<string>

    constructor ()
      ensures tasks == [] && categories == [] && !loading && error == None
    {
      tasks, categories, loading, error := [], [], false, None;
    }

    /** `fetchTasks`: one query parameter per truthy filter, in the order status, categoryId, search; the
        response replaces the list, a failure records the error and keeps the list. */
    method FetchTasks(filters: TaskFilters, response: Response<seq<Task>>) returns (params: seq<QueryParam>)
      modifies this
      ensures forall s :: StatusParam(s) in params <==> filters.status == Some(s) && s != ""
      ensures forall c :: CategoryIdParam(c) in params <==> filters.categoryId == Some(c) && c != 0
      ensures forall s :: SearchParam(s) in params <==> filters.search == Some(s) && s != ""
      ensures forall i, j :: 0 <= i < j < |params| ==> Rank(params[i]) < Rank(params[j])
      ensures response.Ok? ==> tasks == response.body && error == old(error)
      ensures response.Failed? ==> tasks == old(tasks) && error == Some("Failed to fetch tasks")
      ensures !loading && categories == old(categories)
    {
      loading := true;
      params := [];
      if filters.status.Some? && filters.status.value != "" {
        params := params + [StatusParam(filters.status.value)];
      }
      if filters.categoryId.Some? && filters.categoryId.value != 0 {
        params := params + [CategoryIdParam(filters.categoryId.value)];
      }
      if filters.search.Some? && filters.search.value != "" {
        params := params + [SearchParam(filters.search.value)];
      }
      match response {
        case Ok(body) =>
          tasks := body;
        case Failed =>
          error := Some("Failed to fetch tasks");
      }
      loading := false;
    }

    /** `createTask`: the created task goes to the front; a failure records the error and is rethrown. */
    method CreateTask(response: Response<Task>) returns (outcome: Response<Task>)
      modifies this
      ensures outcome == response
      ensures response.Ok? ==> tasks == [response.body] + old(tasks) && error == old(error)
      ensures response.Failed? ==> tasks == old(tasks) && error == Some("Failed to create task")
      ensures categories == old(categories) && loading == old(loading)
    {
      match response {
        case Ok(created) =>
          tasks := [created] + tasks;
        case Failed =>
          error := Some("Failed to create task");
      }
      outcome := response;
    }

    /** `updateTask`: every task with that id is replaced by the server's copy, the rest stay in place. */
    method UpdateTask(taskId: int, response: Response<Task>) returns (outcome: Response<Task>)
      modifies this
      ensures outcome == response
      ensures response.Ok? ==> tasks == ReplaceById(old(tasks), taskId, response.body) && error == old(error)
      ensures response.Failed? ==> tasks == old(tasks) && error == Some("Failed to update task")
      ensures categories == old(categories) && loading == old(loading)
    {
      match response {
        case Ok(updated) =>
          tasks := ReplaceById(tasks, taskId, updated);
        case Failed =>
          error := Some("Failed to update task");
      }
      outcome := response;
    }

    /** `deleteTask`: every task with that id leaves the list; a failure records the error and is rethrown. */
    method DeleteTask(taskId: int, response: Response<()>) returns (outcome: Response<()>)
      modifies this
      ensures outcome == response
      ensures response.Ok? ==> tasks == RemoveById(old(tasks), taskId) && error == old(error)
      ensures response.Failed? ==> tasks == old(tasks) && error == Some("Failed to delete task")
      ensures categories == old(categories) && loading == old(loading)
    {
      match response {
        case Ok(_) =>
          tasks := RemoveById(tasks, taskId);
        case Failed =>
          error := Some("Failed to delete task");
      }
      outcome := response;
    }

    /** `createCategory`: the new category is appended at the end. */
    method CreateCategory(response: Response<Category>) returns (outcome: Response<Category>)
      modifies this
      ensures outcome == response
      ensures response.Ok? ==> categories == old(categories) + [response.body] && error == old(error)
      ensures response.Failed? ==> categories == old(categories) && error == Some("Failed to create category")
      ensures tasks == old(tasks) && loading == old(loading)
    {
      match response {
        case Ok(created) =>
          categories := categories + [created];
        case Failed =>
          error := Some("Failed to create category");
      }
      outcome := response;
    }
  }
}
