/** The analytics panel (frontend/src/components/analytics/AnalyticsCharts.tsx): the status and priority
    tallies behind the two distribution charts, and the overview and insight figures. */
module Analytics {
  import opened Types
  import Seqs
  import Percent
  import SubTasks

  /** One slice or bar of a chart: its label, its count and its colour. */
  datatype ChartEntry = ChartEntry(name: string, value: nat, color: string)

  /** The tally loop's counter map after the first `i` tasks: one counter per status, each the count so far. */
  ghost predicate StatusTally(counts: map<Status, nat>, prefix: seq<Task>) {
    forall s: Status :: s in counts && counts[s] == Seqs.Count(prefix, HasStatus(s))
  }

  ghost predicate PriorityTally(counts: map<Priority, nat>, prefix: seq<Task>) {
    forall p: Priority :: p in counts && counts[p] == Seqs.Count(prefix, HasPriority(p))
  }

  lemma StatusTallyStart(counts: map<Status, nat>)
    requires counts == map[Todo := 0, InProgress := 0, Completed := 0]
    ensures StatusTally(counts, [])
  {
    forall s: Status
      ensures s in counts && counts[s] == 0
    {
      match s
      case Todo =>
      case InProgress =>
      case Completed =>
    }
  }

  /** One iteration of `statusCounts[task.status]++` keeps the counters equal to the counts. */
  lemma StatusTallyStep(counts: map<Status, nat>, prefix: seq<Task>, t: Task)
    requires StatusTally(counts, prefix)
    ensures StatusTally(counts[t.status := counts[t.status] + 1], prefix + [t])
  {
    forall s: Status {
      Seqs.FilterSnoc(prefix, t, HasStatus(s));
    }
  }

  lemma PriorityTallyStart(counts: map<Priority, nat>)
    requires counts == map[Low := 0, Medium := 0, High := 0]
    ensures PriorityTally(counts, [])
  {
    forall p: Priority
      ensures p in counts && counts[p] == 0
    {
      match p
      case Low =>
      case Medium =>
      case High =>
    }
  }

  lemma PriorityTallyStep(counts: map<Priority, nat>, prefix: seq<Task>, t: Task)
    requires PriorityTally(counts, prefix)
    ensures PriorityTally(counts[t.priority := counts[t.priority] + 1], prefix + [t])
  {
    forall p: Priority {
      Seqs.FilterSnoc(prefix, t, HasPriority(p));
    }
  }

  /** Every task has exactly one of the three statuses, so the three status counts add up to the list length. */
  lemma StatusCountsPartition(tasks: seq<Task>)
    ensures Seqs.Count(tasks, HasStatus(Todo)) + Seqs.Count(tasks, HasStatus(InProgress))
            + Seqs.Count(tasks, HasStatus(Completed)) == |tasks|
  {
    Seqs.CountPartition3(tasks, HasStatus(Todo), HasStatus(InProgress), HasStatus(Completed));
  }

  /** The same for the three priorities. */
  lemma PriorityCountsPartition(tasks: seq<Task>)
    ensures Seqs.Count(tasks, HasPriority(Low)) + Seqs.Count(tasks, HasPriority(Medium))
            + Seqs.Count(tasks, HasPriority(High)) == |tasks|
  {
    Seqs.CountPartition3(tasks, HasPriority(Low), HasPriority(Medium), HasPriority(High));
  }

  /** `statusData`: counters start at 0 and each task increments the one for its status; the entries come
      out as To Do, In Progress, Completed. */
  method StatusData(tasks: seq<Task>) returns (data: seq<ChartEntry>)
    ensures |data| == 3
    ensures data[0] == ChartEntry("To Do", Seqs.Count(tasks, HasStatus(Todo)), "#64748b")
    ensures data[1] == ChartEntry("In Progress", Seqs.Count(tasks, HasStatus(InProgress)), "#3b82f6")
    ensures data[2] == ChartEntry("Completed", Seqs.Count(tasks, HasStatus(Completed)), "#10b981")
    ensures data[0].value + data[1].value + data[2].value == |tasks|
  {
    var counts: map<Status, nat> := map[Todo := 0, InProgress := 0, Completed := 0];
    assert tasks[..0] == [];
    StatusTallyStart(counts);
    var i := 0;
    while i < |tasks|
      invariant 0 <= i <= |tasks|
      invariant StatusTally(counts, tasks[..i])
    {
      var t := tasks[i];
      assert tasks[..i + 1] == tasks[..i] + [t];
      StatusTallyStep(counts, tasks[..i], t);
      counts := counts[t.status := counts[t.status] + 1];
      i := i + 1;
    }
    assert tasks[..i] == tasks;
    data := [
      ChartEntry("To Do", counts[Todo], "#64748b"),
      ChartEntry("In Progress", counts[InProgress], "#3b82f6"),
      ChartEntry("Completed", counts[Completed], "#10b981")
    ];
    StatusCountsPartition(tasks);
  }

  /** `priorityData`: the same tally over priorities, as Low, Medium, High. */
  method PriorityData(tasks: seq<Task>) returns (data: seq<ChartEntry>)
    ensures |data| == 3
    ensures data[0] == ChartEntry("Low", Seqs.Count(tasks, HasPriority(Low)), "#10b981")
    ensures data[1] == ChartEntry("Medium", Seqs.Count(tasks, HasPriority(Medium)), "#f59e0b")
    ensures data[2] == ChartEntry("High", Seqs.Count(tasks, HasPriority(High)), "#ef4444")
    ensures data[0].value + data[1].value + data[2].value == |tasks|
  {
    var counts: map<Priority, nat> := map[Low := 0, Medium := 0, High := 0];
    assert tasks[..0] == [];
    PriorityTallyStart(counts);
    var i := 0;
    while i < |tasks|
      invariant 0 <= i <= |tasks|
      invariant PriorityTally(counts, tasks[..i])
    {
      var t := tasks[i];
      assert tasks[..i + 1] == tasks[..i] + [t];
      PriorityTallyStep(counts, tasks[..i], t);
      counts := counts[t.priority := counts[t.priority] + 1];
      i := i + 1;
    }
    assert tasks[..i] == tasks;
    data := [
      ChartEntry("Low", counts[Low], "#10b981"),
      ChartEntry("Medium", counts[Medium], "#f59e0b"),
      ChartEntry("High", counts[High], "#ef4444")
    ];
    PriorityCountsPartition(tasks);
  }

  /** The "In Progress" overview card; the "Completed" card is `SubTasks.CompletedCount`. */
  function InProgressCard(tasks: seq<Task>): nat {
    Seqs.Count(tasks, HasStatus(InProgress))
  }

  /** The "Completion Rate" card: `tasks.length > 0 ? Math.round(completed / tasks.length * 100) : 0`. */
  function CompletionRate(tasks: seq<Task>): (r: nat)
    ensures r <= 100
    ensures |tasks| == 0 ==> r == 0
    ensures |tasks| > 0 ==> 2 * |tasks| * r <= 200 * SubTasks.CompletedCount(tasks) + |tasks| < 2 * |tasks| * (r + 1)
  {
    if |tasks| > 0 then
      Percent.PercentAtMost100(SubTasks.CompletedCount(tasks), |tasks|);
      Percent.RoundedPercent(SubTasks.CompletedCount(tasks), |tasks|)
    else 0
  }

  /** The "Overall Success Rate" insight: `Math.round(completed / Math.max(tasks.length, 1) * 100)`. */
  function SuccessRate(tasks: seq<Task>): nat {
    Percent.RoundedPercent(SubTasks.CompletedCount(tasks), if |tasks| > 1 then |tasks| else 1)
  }

  /** The two differently written rates always show the same figure, the empty list included. */
  lemma {:induction false} SuccessRateIsCompletionRate(tasks: seq<Task>)
    ensures SuccessRate(tasks) == CompletionRate(tasks)
  {
    if |tasks| == 0 {
      Percent.NoneCompletedIs0(1);
    }
  }

  function IsHighAndCompleted(): Task -> bool {
    (t: Task) => t.status == Completed && t.priority == High
  }

  /** The "High Priority Completed" insight: never more than the completed tasks, nor than the high-priority ones. */
  function HighPriorityCompleted(tasks: seq<Task>): (r: nat)
    ensures r <= SubTasks.CompletedCount(tasks)
    ensures r <= Seqs.Count(tasks, HasPriority(High))
  {
    Seqs.CountMonotone(tasks, IsHighAndCompleted(), HasStatus(Completed));
    Seqs.CountMonotone(tasks, IsHighAndCompleted(), HasPriority(High));
    Seqs.Count(tasks, IsHighAndCompleted())
  }

  /** The completion card and the sub-task progress use the same rounding: over the same list they agree. */
  lemma CompletionRateIsProgress(tasks: seq<Task>)
    ensures CompletionRate(tasks) == SubTasks.CalculateProgress(tasks)
  {
  }
}
