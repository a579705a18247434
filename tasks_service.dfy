/** The task rules of the backend service (backend/src/tasks/tasks.service.ts): owner-scoped lookup,
    update with its completedAt rule, delete, the filtered task list and the statistics rates.
    The TypeORM repository is an in-memory table of rows held by the service object. */
module Server {
  import opened Types
  import Seqs
  import Percent

  /** A row of the `task` table (backend/src/tasks/entities/task.entity.ts); dates are integer milliseconds. */
  datatype TaskRecord = TaskRecord(
    id: int,
    title: string,
    description: Option<string>,
    status: Status,
    priority: Priority,
    dueDate: Option<int>,
    reminderTime: Option<int>,
    createdAt: int,
    completedAt: Option<int>,
    userId: int,
    categoryId: Option<int>)

  /** A service answer, or the NotFoundException it throws. */
  datatype Result<T> = Success(value: T) | NotFound(message: string)

  /** A property of the request body for a nullable column: absent, an explicit `null`, or a value. */
  datatype Patch<T> = Keep | SetNull | Set(value: T)

  /** UpdateTaskDto: every field optional; the nullable columns may also be sent as `null`. */
  datatype UpdateTaskDto = UpdateTaskDto(
    title: Option<string>,
    description: Patch<string>,
    status: Option<Status>,
    priority: Option<Priority>,
    dueDate: Patch<int>,
    reminderTime: Patch<int>,
    categoryId: Patch<int>)

  /** What `updateData.completedAt` carries to the repository: a timestamp, null, or no property at all. */
  datatype CompletedAtWrite = Stamp(at: int) | Clear | Untouched

  /** The object handed to `taskRepository.update`: the DTO's properties plus the completedAt decision. */
  datatype UpdateData = UpdateData(dto: UpdateTaskDto, completedAt: CompletedAtWrite)

  // ---------------------------------------------------------------------------------------------
  // Lookup

  predicate Owns(t: TaskRecord, id: int, userId: int) {
    t.id == id && t.userId == userId
  }

  /** The position of the first row with this id and owner, as `findOne({ where: { id, userId } })` finds it. */
  function FindIndex(rows: seq<TaskRecord>, id: int, userId: int): (r: Option<nat>)
    ensures r.Some? ==> r.value < |rows| && Owns(rows[r.value], id, userId)
    ensures r.Some? ==> forall j :: 0 <= j < r.value ==> !Owns(rows[j], id, userId)
    ensures r.None? <==> forall j :: 0 <= j < |rows| ==> !Owns(rows[j], id, userId)
  {
    if rows == [] then None
    else if Owns(rows[0], id, userId) then Some(0)
    else match FindIndex(rows[1..], id, userId)
      case None => None
      case Some(k) => Some(k + 1)
  }

  predicate UniqueIds(rows: seq<TaskRecord>) {
    forall i, j :: 0 <= i < j < |rows| ==> rows[i].id != rows[j].id
  }

  // ---------------------------------------------------------------------------------------------
  // Update

  function Or<T>(o: Option<T>, d: T): T {
    if o.Some? then o.value else d
  }

  /** A nullable column after the write: kept when the property is absent, cleared by `null`. */
  function Apply<T>(p: Patch<T>, current: Option<T>): Option<T> {
    match p
    case Keep => current
    case SetNull => None
    case Set(v) => Some(v)
  }

  /** The row after `update(id, data)`: each property present in `data` overwrites the stored column. */
  function Written(t: TaskRecord, d: UpdateData): TaskRecord {
    t.(title := Or(d.dto.title, t.title),
       description := Apply(d.dto.description, t.description),
       status := Or(d.dto.status, t.status),
       priority := Or(d.dto.priority, t.priority),
       dueDate := Apply(d.dto.dueDate, t.dueDate),
       reminderTime := Apply(d.dto.reminderTime, t.reminderTime),
       categoryId := Apply(d.dto.categoryId, t.categoryId),
       completedAt := match d.completedAt
         case Stamp(at) => Some(at)
         case Clear => None
         case Untouched => t.completedAt)
  }

  /** The completedAt decision: stamp on entering Completed, clear on any update that does not ask for Completed. */
  function CompletedAtRule(requested: Option<Status>, current: Status, now: int): CompletedAtWrite {
    if requested == Some(Completed) && current != Completed then Stamp(now)
    else if requested != Some(Completed) then Clear
    else Untouched
  }

  /** The stored row after a successful `updateTask` of `t` with `dto` at time `now`. */
  function Updated(t: TaskRecord, dto: UpdateTaskDto, now: int): TaskRecord {
    Written(t, UpdateData(dto, CompletedAtRule(dto.status, t.status, now)))
  }

  /** Moving a task into Completed stamps the current time. */
  lemma CompletingStampsNow(t: TaskRecord, dto: UpdateTaskDto, now: int)
    requires dto.status == Some(Completed) && t.status != Completed
    ensures Updated(t, dto, now).status == Completed
    ensures Updated(t, dto, now).completedAt == Some(now)
  {
  }

  /** Any update that does not ask for Completed, including one without a status, clears completedAt. */
  lemma NonCompletingUpdateClears(t: TaskRecord, dto: UpdateTaskDto, now: int)
    requires dto.status != Some(Completed)
    ensures Updated(t, dto, now).completedAt == None
  {
  }

  /** Asking for Completed on an already Completed task leaves its completion time alone. */
  lemma RecompletingKeepsTimestamp(t: TaskRecord, dto: UpdateTaskDto, now: int)
    requires dto.status == Some(Completed) && t.status == Completed
    ensures Updated(t, dto, now).completedAt == t.completedAt
  {
  }

  /** Consequence of the clearing rule: editing only the title of a Completed task keeps it Completed
      but erases its completion time. */
  lemma MetadataEditErasesCompletionTime(t: TaskRecord, title: string, now: int)
    requires t.status == Completed
    ensures var u := Updated(t, UpdateTaskDto(Some(title), Keep, None, None, Keep, Keep, Keep), now);
            u.status == Completed && u.completedAt == None
  {
  }

  /** An explicit `null` clears a nullable column, a value overwrites it, and an absent property keeps it;
      the other columns are untouched by such a property. */
  lemma NullClearsColumn(t: TaskRecord, dto: UpdateTaskDto, now: int)
    ensures dto.dueDate == SetNull ==> Updated(t, dto, now).dueDate == None
    ensures dto.dueDate == Keep ==> Updated(t, dto, now).dueDate == t.dueDate
    ensures dto.dueDate.Set? ==> Updated(t, dto, now).dueDate == Some(dto.dueDate.value)
    ensures dto.reminderTime == SetNull ==> Updated(t, dto, now).reminderTime == None
    ensures dto.description == SetNull ==> Updated(t, dto, now).description == None
    ensures dto.categoryId == SetNull ==> Updated(t, dto, now).categoryId == None
    ensures Updated(t, dto, now).id == t.id && Updated(t, dto, now).userId == t.userId
    ensures Updated(t, dto, now).createdAt == t.createdAt
  {
  }

  /** Every updated row carries a completion time only if it is Completed, whatever it held before: the
      update either asks for Completed or clears the stamp. */
  lemma UpdateKeepsStampOnlyWhenCompleted(t: TaskRecord, dto: UpdateTaskDto, now: int)
    ensures Updated(t, dto, now).completedAt.Some? ==> Updated(t, dto, now).status == Completed
  {
  }

  /** Removing the row at `i` of a table with distinct ids leaves exactly the rows with another id, still
      with distinct ids. */
  lemma RemoveAtKeepsOthers(rows: seq<TaskRecord>, i: nat)
    requires i < |rows| && UniqueIds(rows)
    ensures UniqueIds(rows[..i] + rows[i + 1..])
    ensures forall t :: t in rows[..i] + rows[i + 1..] <==> t in rows && t.id != rows[i].id
  {
    var rest := rows[..i] + rows[i + 1..];
    assert forall k :: 0 <= k < |rest| ==> rest[k] == (if k < i then rows[k] else rows[k + 1]);
    forall t | t in rows && t.id != rows[i].id
      ensures t in rest
    {
      var k :| 0 <= k < |rows| && rows[k] == t;
      if k < i { assert rest[k] == t; } else { assert rest[k - 1] == t; }
    }
  }

  // ---------------------------------------------------------------------------------------------
  // The task list query

  /** One `where`/`andWhere` clause of the query builder. */
  datatype Condition = OwnedBy(userId: int) | StatusIs(status: Status) | CategoryIs(categoryId: int) | Mentions(search: string)

  /** `s LIKE '%sub%'`, read as plain substring containment. */
  predicate Contains(s: string, sub: string) {
    exists i :: 0 <= i <= |s| && OccursAt(s, sub, i)
  }

  predicate OccursAt(s: string, sub: string, i: nat) {
    i + |sub| <= |s| && s[i..i + |sub|] == sub
  }

  predicate Holds(c: Condition, t: TaskRecord) {
    match c
    case OwnedBy(u) => t.userId == u
    case StatusIs(s) => t.status == s
    case CategoryIs(k) => t.categoryId == Some(k)
    case Mentions(p) => Contains(t.title, p) || (t.description.Some? && Contains(t.description.value, p))
  }

  function SatisfiesAll(cs: seq<Condition>): TaskRecord -> bool {
    (t: TaskRecord) => forall i :: 0 <= i < |cs| ==> Holds(cs[i], t)
  }

  /** The rows `findAllTasks` selects: the user's own, narrowed by each filter that is truthy
      (a status, a non-zero category id, a non-empty search text matched in the title or a present description). */
  predicate Selected(t: TaskRecord, userId: int, status: Option<Status>, categoryId: Option<int>, search: Option<string>) {
    && t.userId == userId
    && (status.Some? ==> t.status == status.value)
    && (categoryId.Some? && categoryId.value != 0 ==> t.categoryId == categoryId)
    && (search.Some? && search.value != "" ==>
          Contains(t.title, search.value) || (t.description.Some? && Contains(t.description.value, search.value)))
  }

  function SelectedBy(userId: int, status: Option<Status>, categoryId: Option<int>, search: Option<string>): TaskRecord -> bool {
    (t: TaskRecord) => Selected(t, userId, status, categoryId, search)
  }

  /** The conditions the query builder collects describe exactly the selected rows. */
  lemma ConditionsSelect(conditions: seq<Condition>, userId: int, status: Option<Status>, categoryId: Option<int>, search: Option<string>)
    requires OwnedBy(userId) in conditions
    requires status.Some? ==> StatusIs(status.value) in conditions
    requires categoryId.Some? && categoryId.value != 0 ==> CategoryIs(categoryId.value) in conditions
    requires search.Some? && search.value != "" ==> Mentions(search.value) in conditions
    requires forall c :: c in conditions ==>
        || c == OwnedBy(userId)
        || (status.Some? && c == StatusIs(status.value))
        || (categoryId.Some? && categoryId.value != 0 && c == CategoryIs(categoryId.value))
        || (search.Some? && search.value != "" && c == Mentions(search.value))
    ensures forall t :: SatisfiesAll(conditions)(t) == SelectedBy(userId, status, categoryId, search)(t)
  {
    forall t
      ensures SatisfiesAll(conditions)(t) == SelectedBy(userId, status, categoryId, search)(t)
    {
      if Selected(t, userId, status, categoryId, search) {
        forall i | 0 <= i < |conditions|
          ensures Holds(conditions[i], t)
        {
          assert conditions[i] in conditions;
        }
      }
    }
  }

  lemma SameElements(a: seq<TaskRecord>, b: seq<TaskRecord>)
    requires multiset(a) == multiset(b)
    ensures forall t :: t in a <==> t in b
  {
    forall t
      ensures t in a <==> t in b
    {
      assert t in a <==> t in multiset(a);
      assert t in b <==> t in multiset(b);
    }
  }

  predicate NewestFirstOrder(s: seq<TaskRecord>) {
    forall i, j :: 0 <= i < j < |s| ==> s[i].createdAt >= s[j].createdAt
  }

  function InsertByCreated(x: TaskRecord, s: seq<TaskRecord>): (r: seq<TaskRecord>)
    requires NewestFirstOrder(s)
    ensures NewestFirstOrder(r)
    ensures multiset(r) == multiset(s) + multiset{x}
  {
    if s == [] || x.createdAt >= s[0].createdAt then [x] + s
    else
      var rest := InsertByCreated(x, s[1..]);
      assert s == [s[0]] + s[1..];
      forall y | y in rest
        ensures y.createdAt <= s[0].createdAt
      {
        assert y in multiset(rest);
        if y != x {
          assert y in multiset(s[1..]);
        }
      }
      PrependKeepsOrder(s[0], rest);
      [s[0]] + rest
  }

  lemma PrependKeepsOrder(h: TaskRecord, rest: seq<TaskRecord>)
    requires NewestFirstOrder(rest)
    requires forall y :: y in rest ==> y.createdAt <= h.createdAt
    ensures NewestFirstOrder([h] + rest)
  {
    var r := [h] + rest;
    forall i, j | 0 <= i < j < |r|
      ensures r[i].createdAt >= r[j].createdAt
    {
      assert r[j] == rest[j - 1];
      if i > 0 {
        assert r[i] == rest[i - 1];
      }
    }
  }

  /** `orderBy('task.createdAt', 'DESC')`: a rearrangement of the rows, newest first. */
  function NewestFirst(s: seq<TaskRecord>): (r: seq<TaskRecord>)
    ensures NewestFirstOrder(r)
    ensures multiset(r) == multiset(s)
  {
    if s == [] then []
    else
      assert s == [s[0]] + s[1..];
      InsertByCreated(s[0], NewestFirst(s[1..]))
  }

  // ---------------------------------------------------------------------------------------------
  // Statistics

  datatype PriorityBreakdown = PriorityBreakdown(total: nat, completed: nat)

  datatype TaskStats = TaskStats(
    total: nat,
    completed: nat,
    inProgress: nat,
    todo: nat,
    completionRate: nat,
    high: PriorityBreakdown,
    medium: PriorityBreakdown,
    low: PriorityBreakdown,
    highPriorityCompletionRate: nat,
    mediumPriorityCompletionRate: nat,
    lowPriorityCompletionRate: nat)

  /** The rows `getTaskStats` counts: the user's, and only those created within [startDate, endDate] when both are given. */
  function InScope(userId: int, startDate: Option<int>, endDate: Option<int>): TaskRecord -> bool {
    (t: TaskRecord) => t.userId == userId && (startDate.Some? && endDate.Some? ==> startDate.value <= t.createdAt <= endDate.value)
  }

  function HasStatus(s: Status): TaskRecord -> bool {
    (t: TaskRecord) => t.status == s
  }

  function HasPriority(p: Priority): TaskRecord -> bool {
    (t: TaskRecord) => t.priority == p
  }

  function CompletedWithPriority(p: Priority): TaskRecord -> bool {
    (t: TaskRecord) => t.priority == p && t.status == Completed
  }

  function Breakdown(rows: seq<TaskRecord>, p: Priority): PriorityBreakdown {
    PriorityBreakdown(Seqs.Count(rows, HasPriority(p)), Seqs.Count(rows, CompletedWithPriority(p)))
  }

  /** The statistics object computed over the rows in scope. */
  function Stats(rows: seq<TaskRecord>): TaskStats {
    var total := |rows|;
    var completed := Seqs.Count(rows, HasStatus(Completed));
    var high, medium, low := Breakdown(rows, High), Breakdown(rows, Medium), Breakdown(rows, Low);
    TaskStats(
      total, completed, Seqs.Count(rows, HasStatus(InProgress)), Seqs.Count(rows, HasStatus(Todo)),
      Percent.GuardedPercent(completed, total),
      high, medium, low,
      Percent.GuardedPercent(high.completed, high.total),
      Percent.GuardedPercent(medium.completed, medium.total),
      Percent.GuardedPercent(low.completed, low.total))
  }

  /** The per-status counts partition the total, and every rate is a percentage of its own total. */
  lemma {:induction false} StatsConsistent(rows: seq<TaskRecord>)
    ensures var s := Stats(rows);
      && s.completed + s.inProgress + s.todo == s.total
      && s.high.total + s.medium.total + s.low.total == s.total
      && s.completed <= s.total
      && s.high.completed <= s.high.total && s.medium.completed <= s.medium.total && s.low.completed <= s.low.total
      && s.completionRate <= 100
      && s.highPriorityCompletionRate <= 100 && s.mediumPriorityCompletionRate <= 100 && s.lowPriorityCompletionRate <= 100
  {
    var s := Stats(rows);
    Seqs.CountPartition3(rows, HasStatus(Completed), HasStatus(InProgress), HasStatus(Todo));
    Seqs.CountPartition3(rows, HasPriority(High), HasPriority(Medium), HasPriority(Low));
    RateBounded(s.completed, s.total);
    BreakdownConsistent(rows, High);
    BreakdownConsistent(rows, Medium);
    BreakdownConsistent(rows, Low);
  }

  lemma RateBounded(c: nat, n: nat)
    requires c <= n
    ensures Percent.GuardedPercent(c, n) <= 100
  {
    if n > 0 {
      Percent.PercentAtMost100(c, n);
    }
  }

  lemma BreakdownConsistent(rows: seq<TaskRecord>, p: Priority)
    ensures Breakdown(rows, p).completed <= Breakdown(rows, p).total
    ensures Percent.GuardedPercent(Breakdown(rows, p).completed, Breakdown(rows, p).total) <= 100
  {
    Seqs.CountMonotone(rows, CompletedWithPriority(p), HasPriority(p));
    RateBounded(Breakdown(rows, p).completed, Breakdown(rows, p).total);
  }

  /** The completion rate is 0 with no tasks, 100 when every counted task is Completed, and 0 when none is. */
  lemma {:induction false} CompletionRateExtremes(rows: seq<TaskRecord>)
    ensures rows == [] ==> Stats(rows).completionRate == 0
    ensures rows != [] && (forall i :: 0 <= i < |rows| ==> rows[i].status == Completed) ==> Stats(rows).completionRate == 100
    ensures rows != [] && (forall i :: 0 <= i < |rows| ==> rows[i].status != Completed) ==> Stats(rows).completionRate == 0
  {
    if rows != [] {
      Seqs.CountAll(rows, HasStatus(Completed));
      if forall i :: 0 <= i < |rows| ==> rows[i].status == Completed {
        Percent.AllCompletedIs100(|rows|);
      }
      if forall i :: 0 <= i < |rows| ==> rows[i].status != Completed {
        Seqs.CountComplement(rows, HasStatus(Completed), NotCompleted());
        Seqs.CountAll(rows, NotCompleted());
        Percent.NoneCompletedIs0(|rows|);
      }
    }
  }

  function NotCompleted(): TaskRecord -> bool {
    (t: TaskRecord) => t.status != Completed
  }

  // ---------------------------------------------------------------------------------------------
  // The service

  class TasksService {
    /** The rows of the `task` table, in storage order. */
    var rows: seq<TaskRecord>

    ghost predicate Valid()
      reads this
    {
      UniqueIds(rows)
    }

    constructor (initial: seq<TaskRecord>)
      requires UniqueIds(initial)
      ensures Valid() && rows == initial
    {
      rows := initial;
    }

    /** `findTaskById`: the row with this id owned by this user, or NotFound; never another user's row. */
    function FindTaskById(id: int, userId: int): (r: Result<TaskRecord>)
      reads this
      ensures r.Success? <==> exists i :: 0 <= i < |rows| && Owns(rows[i], id, userId)
      ensures r.Success? ==> r.value in rows && r.value.id == id && r.value.userId == userId
      ensures r.NotFound? ==> r.message == "Task not found"
    {
      match FindIndex(rows, id, userId)
      case Some(i) => Success(rows[i])
      case None => NotFound("Task not found")
    }

    /** `updateTask`: NotFound before any write when the user does not own the task; otherwise the row is
        rewritten with the DTO and the completedAt rule, and the re-read row is returned. */
    method UpdateTask(id: int, userId: int, dto: UpdateTaskDto, now: int) returns (r: Result<TaskRecord>)
      requires Valid()
      modifies this
      ensures Valid()
      ensures old(FindTaskById(id, userId)).NotFound? ==> r == NotFound("Task not found") && rows == old(rows)
      ensures old(FindTaskById(id, userId)).Success? ==>
        exists i :: 0 <= i < |old(rows)| && Owns(old(rows)[i], id, userId)
          && rows == old(rows)[i := Updated(old(rows)[i], dto, now)]
          && r == Success(Updated(old(rows)[i], dto, now))
    {
      var at := FindIndex(rows, id, userId);
      if at.None? {
        return NotFound("Task not found");
      }
      var i := at.value;
      var task := rows[i];
      var updateData := UpdateData(dto, Untouched);
      // dueDate and reminderTime arrive as ISO strings and are turned into Date objects; here they already are instants.
      if dto.status == Some(Completed) && task.status != Completed {
        updateData := updateData.(completedAt := Stamp(now));
      } else if dto.status != Some(Completed) {
        updateData := updateData.(completedAt := Clear);
      }
      rows := rows[i := Written(task, updateData)];
      assert rows[i] == Updated(old(rows)[i], dto, now);
      r := FindTaskById(id, userId);
      assert FindIndex(rows, id, userId) == Some(i);
    }

    /** `deleteTask`: NotFound before any write when the user does not own the task; otherwise exactly that
        row is removed and the others keep their order. */
    method DeleteTask(id: int, userId: int) returns (r: Result<()>)
      requires Valid()
      modifies this
      ensures Valid()
      ensures old(FindTaskById(id, userId)).NotFound? ==> r == NotFound("Task not found") && rows == old(rows)
      ensures old(FindTaskById(id, userId)).Success? ==>
        && r == Success(())
        && (exists i :: 0 <= i < |old(rows)| && Owns(old(rows)[i], id, userId) && rows == old(rows)[..i] + old(rows)[i + 1..])
        && (forall t :: t in rows <==> t in old(rows) && t.id != id)
    {
      var at := FindIndex(rows, id, userId);
      if at.None? {
        return NotFound("Task not found");
      }
      var i := at.value;
      RemoveAtKeepsOthers(rows, i);
      rows := rows[..i] + rows[i + 1..];
      r := Success(());
    }

    /** `findAllTasks`: the query builder collects one condition per truthy filter, then the matching rows
        come back newest first. */
    method FindAllTasks(userId: int, status: Option<Status>, categoryId: Option<int>, search: Option<string>)
      returns (r: seq<TaskRecord>)
      ensures multiset(r) == multiset(Seqs.Filter(rows, SelectedBy(userId, status, categoryId, search)))
      ensures forall t :: t in r <==> t in rows && Selected(t, userId, status, categoryId, search)
      ensures NewestFirstOrder(r)
    {
      var conditions := [OwnedBy(userId)];
      if status.Some? {
        conditions := conditions + [StatusIs(status.value)];
      }
      if categoryId.Some? && categoryId.value != 0 {
        conditions := conditions + [CategoryIs(categoryId.value)];
      }
      if search.Some? && search.value != "" {
        conditions := conditions + [Mentions(search.value)];
      }
      ConditionsSelect(conditions, userId, status, categoryId, search);
      Seqs.FilterExtensional(rows, SatisfiesAll(conditions), SelectedBy(userId, status, categoryId, search));
      var matching := Seqs.Filter(rows, SatisfiesAll(conditions));
      r := NewestFirst(matching);
      SameElements(r, matching);
    }

    /** `getTaskStats` without the completion-time block. */
    function GetTaskStats(userId: int, startDate: Option<int>, endDate: Option<int>): (s: TaskStats)
      reads this
      ensures s.total == Seqs.Count(rows, InScope(userId, startDate, endDate))
      ensures s.completed + s.inProgress + s.todo == s.total
      ensures s.completionRate <= 100 && (s.total == 0 ==> s.completionRate == 0)
      ensures s.completionRate == Percent.GuardedPercent(s.completed, s.total)
      ensures s == Stats(Seqs.Filter(rows, InScope(userId, startDate, endDate)))
    {
      var scoped := Seqs.Filter(rows, InScope(userId, startDate, endDate));
      StatsConsistent(scoped);
      Stats(scoped)
    }
  }
}
