/** The client-side data model shared by the hooks and components
    (frontend/src/types/index.ts), with the enumerations the backend entities declare. */
module Types {

  datatype Option<T> = None | Some(value: T)

  /** TaskStatus: 'todo' | 'in_progress' | 'completed'. */
  datatype Status = Todo | InProgress | Completed

  /** TaskPriority: 'low' | 'medium' | 'high'. */
  datatype Priority = Low | Medium | High

  /** DependencyType: the four scheduling relations between a predecessor and a successor. */
  datatype DependencyType = FinishToStart | StartToStart | FinishToFinish | StartToFinish

  /** The outcome of a request across the HTTP boundary: the response body, or a rejected promise. */
  datatype Response<T> = Ok(body: T) | Failed

  /** A task as the browser receives it. Dates are integer milliseconds since the epoch;
      optional JSON fields are `Option`s. */
  datatype Task = Task(
    id: int,
    title: string,
    description: Option<string>,
    status: Status,
    priority: Priority,
    dueDate: Option<int>,
    reminderTime: Option<int>,
    createdAt: int,
    completedAt: Option<int>,
    categoryId: Option<int>,
    parentTaskId: Option<int>,
    subTasks: Option<seq<Task>>,
    predecessorDependencies: Option<seq<TaskDependency>>,
    progress: Option<int>)

  /** A dependency edge; `predecessorTask` is the joined predecessor row, absent when the relation was not loaded. */
  datatype TaskDependency = TaskDependency(
    id: int,
    dependencyType: DependencyType,
    lag: Option<int>,
    predecessorTaskId: int,
    successorTaskId: int,
    predecessorTask: Option<Task>)

  datatype Category = Category(id: int, name: string, description: Option<string>, color: string)

  datatype ShareType = PublicLink | UserShare

  datatype TaskShare = TaskShare(
    id: int,
    shareToken: string,
    shareType: ShareType,
    isActive: bool,
    expiresAt: Option<string>,
    task: Task)

  /** The body of a task creation request (CreateTaskData). */
  datatype CreateTaskData = CreateTaskData(
    title: string,
    description: Option<string>,
    priority: Option<Priority>,
    dueDate: Option<int>,
    reminderTime: Option<int>,
    categoryId: Option<int>,
    parentTaskId: Option<int>)

  /** The body of a task update request (UpdateTaskData): every field optional. */
  datatype UpdateTaskData = UpdateTaskData(
    title: Option<string>,
    description: Option<string>,
    priority: Option<Priority>,
    dueDate: Option<int>,
    reminderTime: Option<int>,
    categoryId: Option<int>,
    parentTaskId: Option<int>,
    status: Option<Status>)

  /** `task => task.status === status`, the predicate the components filter and count by. */
  function HasStatus(status: Status): Task -> bool {
    (t: Task) => t.status == status
  }

  /** `task => task.priority === priority` */
  function HasPriority(priority: Priority): Task -> bool {
    (t: Task) => t.priority == priority
  }
}
