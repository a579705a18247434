/** The month calendar (frontend/src/components/calendar/CalendarView.tsx): tasks grouped into per-day
    buckets by the date key of their due date, and what a day cell shows. The date key
    (`format(new Date(ms), 'yyyy-MM-dd')`) is an arbitrary function from instants to strings. */
module Calendar {
  import opened Types
  import Seqs

  /** The task is due on the day with key `k`. */
  predicate DueOn(t: Task, key: int -> string, k: string) {
    t.dueDate.Some? && key(t.dueDate.value) == k
  }

  function IsDueOn(key: int -> string, k: string): Task -> bool {
    (t: Task) => DueOn(t, key, k)
  }

  /** The tasks due on the day with key `k`, in list order: the bucket a day's list should be. */
  function Bucket(tasks: seq<Task>, key: int -> string, k: string): seq<Task> {
    Seqs.Filter(tasks, IsDueOn(key, k))
  }

  /** The map holds a non-empty bucket for every key some task is due on, and no other key. */
  ghost predicate IsBucketMap(m: map<string, seq<Task>>, tasks: seq<Task>, key: int -> string) {
    forall k :: (k in m <==> Bucket(tasks, key, k) != []) && (k in m ==> m[k] == Bucket(tasks, key, k))
  }

  /** One iteration of the grouping loop: create the bucket on first sight of its key, then push. */
  function Pushed(m: map<string, seq<Task>>, k: string, t: Task): map<string, seq<Task>> {
    var m1 := if k in m then m else m[k := []];
    m1[k := m1[k] + [t]]
  }

  lemma BucketMapStep(m: map<string, seq<Task>>, prefix: seq<Task>, key: int -> string, t: Task)
    requires IsBucketMap(m, prefix, key)
    ensures t.dueDate.Some? ==> IsBucketMap(Pushed(m, key(t.dueDate.value), t), prefix + [t], key)
    ensures t.dueDate.None? ==> IsBucketMap(m, prefix + [t], key)
  {
    forall k {
      Seqs.FilterSnoc(prefix, t, IsDueOn(key, k));
    }
  }

  /** `tasksForDate`: each task with a due date is pushed onto the bucket of its date key, in list order. */
  method TasksForDate(tasks: seq<Task>, key: int -> string) returns (taskMap: map<string, seq<Task>>)
    ensures IsBucketMap(taskMap, tasks, key)
  {
    taskMap := map[];
    var i := 0;
    assert tasks[..0] == [];
    while i < |tasks|
      invariant 0 <= i <= |tasks|
      invariant IsBucketMap(taskMap, tasks[..i], key)
    {
      var task := tasks[i];
      assert tasks[..i + 1] == tasks[..i] + [task];
      BucketMapStep(taskMap, tasks[..i], key, task);
      if task.dueDate.Some? {
        var dateKey := key(task.dueDate.value);
        if dateKey !in taskMap {
          taskMap := taskMap[dateKey := []];
        }
        taskMap := taskMap[dateKey := taskMap[dateKey] + [task]];
      }
      i := i + 1;
    }
    assert tasks[..i] == tasks;
  }

  /** `getTasksForDay`: the day's bucket, or an empty list for a day nothing is due on. */
  function GetTasksForDay(taskMap: map<string, seq<Task>>, k: string): (r: seq<Task>)
    ensures k !in taskMap ==> r == []
  {
    if k in taskMap then taskMap[k] else []
  }

  /** Whatever day is asked for, its list is exactly the tasks due that day, in list order. */
  lemma DayListIsBucket(taskMap: map<string, seq<Task>>, tasks: seq<Task>, key: int -> string, k: string)
    requires IsBucketMap(taskMap, tasks, key)
    ensures GetTasksForDay(taskMap, k) == Bucket(tasks, key, k)
  {
  }

  /** A task without a due date is in no bucket; a task with one is in the bucket of its key and in no other. */
  lemma EachDatedTaskInOneBucket(tasks: seq<Task>, key: int -> string, t: Task, k: string)
    requires t in tasks
    ensures t in Bucket(tasks, key, k) <==> t.dueDate.Some? && key(t.dueDate.value) == k
  {
  }

  /** Buckets keep the order of the task list: they distribute over concatenation. */
  lemma BucketKeepsOrder(a: seq<Task>, b: seq<Task>, key: int -> string, k: string)
    ensures Bucket(a + b, key, k) == Bucket(a, key, k) + Bucket(b, key, k)
  {
    Seqs.FilterConcat(a, b, IsDueOn(key, k));
  }

  function HasDueDate(): Task -> bool {
    (t: Task) => t.dueDate.Some?
  }

  /** The total size of the buckets of the keys in `keys`. */
  function BucketSizes(tasks: seq<Task>, key: int -> string, keys: seq<string>): nat {
    if keys == [] then 0 else |Bucket(tasks, key, keys[0])| + BucketSizes(tasks, key, keys[1..])
  }

  /** How many of `keys` the task is due on. */
  function Hits(t: Task, key: int -> string, keys: seq<string>): nat {
    if keys == [] then 0 else (if DueOn(t, key, keys[0]) then 1 else 0) + Hits(t, key, keys[1..])
  }

  lemma {:induction false} BucketSizesCons(t: Task, rest: seq<Task>, key: int -> string, keys: seq<string>)
    ensures BucketSizes([t] + rest, key, keys) == Hits(t, key, keys) + BucketSizes(rest, key, keys)
  {
    if keys != [] {
      assert ([t] + rest)[1..] == rest;
      BucketSizesCons(t, rest, key, keys[1..]);
    }
  }

  /** Among distinct keys a task is due on at most one, and on exactly one when its key is listed. */
  lemma {:induction false} HitsOnce(t: Task, key: int -> string, keys: seq<string>)
    requires Seqs.NoDuplicates(keys)
    ensures Hits(t, key, keys) == if t.dueDate.Some? && key(t.dueDate.value) in keys then 1 else 0
  {
    if keys != [] {
      assert Seqs.NoDuplicates(keys[1..]) by {
        forall i, j | 0 <= i < j < |keys[1..]|
          ensures keys[1..][i] != keys[1..][j]
        {
          assert keys[1..][i] == keys[i + 1] && keys[1..][j] == keys[j + 1];
        }
      }
      HitsOnce(t, key, keys[1..]);
      if DueOn(t, key, keys[0]) {
        assert keys[0] !in keys[1..] by {
          forall j | 0 <= j < |keys[1..]|
            ensures keys[1..][j] != keys[0]
          {
            assert keys[1..][j] == keys[j + 1];
          }
        }
      } else {
        assert t.dueDate.Some? && key(t.dueDate.value) in keys ==> key(t.dueDate.value) in keys[1..];
      }
    }
  }

  /** The bucket sizes over distinct keys that cover every due date add up to the number of tasks with
      a due date: no dated task is lost or shown twice. */
  lemma {:induction false} BucketSizesAddUp(tasks: seq<Task>, key: int -> string, keys: seq<string>)
    requires Seqs.NoDuplicates(keys)
    requires forall i :: 0 <= i < |tasks| && tasks[i].dueDate.Some? ==> key(tasks[i].dueDate.value) in keys
    ensures BucketSizes(tasks, key, keys) == Seqs.Count(tasks, HasDueDate())
  {
    if tasks == [] {
      BucketSizesEmpty(key, keys);
    } else {
      var t, rest := tasks[0], tasks[1..];
      assert tasks == [t] + rest;
      BucketSizesCons(t, rest, key, keys);
      HitsOnce(t, key, keys);
      assert forall i :: 0 <= i < |rest| ==> rest[i] == tasks[i + 1];
      BucketSizesAddUp(rest, key, keys);
    }
  }

  lemma {:induction false} BucketSizesEmpty(key: int -> string, keys: seq<string>)
    ensures BucketSizes([], key, keys) == 0
  {
    if keys != [] {
      BucketSizesEmpty(key, keys[1..]);
    }
  }

  /** `dayTasks.slice(0, 3)`: the tasks a day cell lists. */
  function Displayed(dayTasks: seq<Task>): (r: seq<Task>)
    ensures |r| <= 3 && r <= dayTasks
    ensures |dayTasks| <= 3 ==> r == dayTasks
  {
    if |dayTasks| <= 3 then dayTasks else dayTasks[..3]
  }

  /** The "+k more" line: present exactly when more than three tasks are due. */
  function MoreCount(dayTasks: seq<Task>): Option<nat> {
    if |dayTasks| > 3 then Some(|dayTasks| - 3) else None
  }

  /** Every task of the day is either listed or counted in "+k more", never both. */
  lemma ListedPlusMoreIsAll(dayTasks: seq<Task>)
    ensures |Displayed(dayTasks)| + (if MoreCount(dayTasks).Some? then MoreCount(dayTasks).value else 0) == |dayTasks|
    ensures MoreCount(dayTasks).Some? <==> |dayTasks| > 3
  {
  }

  /** The calendar's `getStatusColor`; the `default` branch is unreachable over the three statuses. */
  function StatusColor(status: Status): string {
    match status
    case Completed => "bg-green-100 text-green-800 border-green-200"
    case InProgress => "bg-blue-100 text-blue-800 border-blue-200"
    case Todo => "bg-gray-100 text-gray-800 border-gray-200"
  }

  lemma StatusColorsDistinct(a: Status, b: Status)
    ensures StatusColor(a) == StatusColor(b) <==> a == b
  {
  }
}
