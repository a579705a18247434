/** The reminder check of `useNotifications` (frontend/src/hooks/useNotifications.ts): which tasks are in
    their reminder or overdue window, and the persisted list of keys already shown, which makes each
    notification fire at most once. The list kept under `shownReminders` in local storage is a field;
    the clock reading, the permission state and `toDateString` are parameters. */
module Notifications {
  import opened Types
  import Seqs

  /** Five minutes, the reminder look-ahead. */
  const ReminderWindow: int := 5 * 60 * 1000

  /** Twenty-four hours, how long an overdue task keeps being announced. */
  const OverdueWindow: int := 24 * 60 * 60 * 1000

  /** The persisted keys: `reminder-<id>-<reminder ms>` and `overdue-<id>-<due date as toDateString>`. */
  datatype NotificationKey = ReminderKey(taskId: int, at: int) | OverdueKey(taskId: int, day: string)

  /** The reminder the task asks for at time `now`, if it is unfinished and its reminder falls within
      the next five minutes. */
  function ReminderDue(t: Task, now: int): (r: Option<NotificationKey>)
    ensures r.Some? <==>
      (t.reminderTime.Some? && t.status != Completed && 0 < t.reminderTime.value - now <= ReminderWindow)
    ensures r.Some? ==> r.value == ReminderKey(t.id, t.reminderTime.value)
  {
    if t.reminderTime.Some? && t.status != Completed then
      var timeDiff := t.reminderTime.value - now;
      if timeDiff > 0 && timeDiff <= ReminderWindow then Some(ReminderKey(t.id, t.reminderTime.value)) else None
    else None
  }

  /** The overdue notice the task asks for at time `now`, if it is unfinished and fell due within the
      last twenty-four hours. */
  function OverdueDue(t: Task, now: int, dayKey: int -> string): (r: Option<NotificationKey>)
    ensures r.Some? <==> t.dueDate.Some? && t.status != Completed && 0 < now - t.dueDate.value <= OverdueWindow
    ensures r.Some? ==> r.value == OverdueKey(t.id, dayKey(t.dueDate.value))
  {
    if t.dueDate.Some? && t.status != Completed then
      var overdueDiff := now - t.dueDate.value;
      if overdueDiff > 0 && overdueDiff <= OverdueWindow then Some(OverdueKey(t.id, dayKey(t.dueDate.value))) else None
    else None
  }

  /** `k` is one of the notifications task `t` asks for at time `now`. */
  predicate DueKey(t: Task, now: int, dayKey: int -> string, k: NotificationKey) {
    ReminderDue(t, now) == Some(k) || OverdueDue(t, now, dayKey) == Some(k)
  }

  /** Show-and-record: a due key not yet in the list is appended; anything else leaves the list alone. */
  function Record(shown: seq<NotificationKey>, due: Option<NotificationKey>): seq<NotificationKey> {
    if due.Some? && due.value !in shown then shown + [due.value] else shown
  }

  /** One task's turn in the loop: the reminder check, then the overdue check. */
  function Step(shown: seq<NotificationKey>, t: Task, now: int, dayKey: int -> string): seq<NotificationKey> {
    Record(Record(shown, ReminderDue(t, now)), OverdueDue(t, now, dayKey))
  }

  /** The shown list after the loop has visited every task of `tasks`. */
  function Pass(shown: seq<NotificationKey>, tasks: seq<Task>, now: int, dayKey: int -> string): seq<NotificationKey>
    decreases |tasks|
  {
    if tasks == [] then shown
    else Step(Pass(shown, tasks[..|tasks| - 1], now, dayKey), tasks[|tasks| - 1], now, dayKey)
  }

  /** The shown list only grows: what was there stays, in place. */
  lemma {:induction false} PassGrows(shown: seq<NotificationKey>, tasks: seq<Task>, now: int, dayKey: int -> string)
    ensures shown <= Pass(shown, tasks, now, dayKey)
  {
    if tasks != [] {
      PassGrows(shown, tasks[..|tasks| - 1], now, dayKey);
    }
  }

  /** Every key a pass adds belongs to a task of the pass, in its reminder or its overdue window. */
  lemma {:induction false} PassAddsOnlyDueKeys(shown: seq<NotificationKey>, tasks: seq<Task>, now: int,
                                               dayKey: int -> string, k: NotificationKey)
    requires k in Pass(shown, tasks, now, dayKey) && k !in shown
    ensures exists i :: 0 <= i < |tasks| && DueKey(tasks[i], now, dayKey, k)
  {
    var front := tasks[..|tasks| - 1];
    var t := tasks[|tasks| - 1];
    if k in Pass(shown, front, now, dayKey) {
      PassAddsOnlyDueKeys(shown, front, now, dayKey, k);
      var i :| 0 <= i < |front| && DueKey(front[i], now, dayKey, k);
      assert tasks[i] == front[i];
    } else {
      assert DueKey(tasks[|tasks| - 1], now, dayKey, k);
    }
  }

  /** After a pass, every notification any of its tasks asks for is in the list. */
  lemma {:induction false} PassCoversDueKeys(shown: seq<NotificationKey>, tasks: seq<Task>, now: int,
                                             dayKey: int -> string, i: nat, k: NotificationKey)
    requires i < |tasks| && DueKey(tasks[i], now, dayKey, k)
    ensures k in Pass(shown, tasks, now, dayKey)
  {
    var front := tasks[..|tasks| - 1];
    if i < |tasks| - 1 {
      assert front[i] == tasks[i];
      PassCoversDueKeys(shown, front, now, dayKey, i, k);
      PassGrows(Pass(shown, front, now, dayKey), [tasks[|tasks| - 1]], now, dayKey);
      assert [tasks[|tasks| - 1]][..0] == [];
    }
  }

  /** A pass over tasks whose every due notification is already recorded changes nothing. */
  lemma {:induction false} PassStable(shown: seq<NotificationKey>, tasks: seq<Task>, now: int, dayKey: int -> string)
    requires forall i, k :: 0 <= i < |tasks| && DueKey(tasks[i], now, dayKey, k) ==> k in shown
    ensures Pass(shown, tasks, now, dayKey) == shown
  {
    if tasks != [] {
      var front := tasks[..|tasks| - 1];
      assert forall i :: 0 <= i < |front| ==> front[i] == tasks[i];
      PassStable(shown, front, now, dayKey);
    }
  }

  /** Running the check twice at the same instant notifies nothing the second time. */
  lemma {:induction false} PassIdempotent(shown: seq<NotificationKey>, tasks: seq<Task>, now: int, dayKey: int -> string)
    ensures Pass(Pass(shown, tasks, now, dayKey), tasks, now, dayKey) == Pass(shown, tasks, now, dayKey)
  {
    forall i, k | 0 <= i < |tasks| && DueKey(tasks[i], now, dayKey, k)
      ensures k in Pass(shown, tasks, now, dayKey)
    {
      PassCoversDueKeys(shown, tasks, now, dayKey, i, k);
    }
    PassStable(Pass(shown, tasks, now, dayKey), tasks, now, dayKey);
  }

  /** Completed tasks never add a notification. */
  lemma {:induction false} CompletedTasksAddNothing(shown: seq<NotificationKey>, tasks: seq<Task>, now: int,
                                                    dayKey: int -> string)
    requires forall i :: 0 <= i < |tasks| ==> tasks[i].status == Completed
    ensures Pass(shown, tasks, now, dayKey) == shown
  {
    PassStable(shown, tasks, now, dayKey);
  }

  /** A list without repeated keys stays so: no key is ever notified twice. */
  lemma {:induction false} PassNoDuplicates(shown: seq<NotificationKey>, tasks: seq<Task>, now: int, dayKey: int -> string)
    requires Seqs.NoDuplicates(shown)
    ensures Seqs.NoDuplicates(Pass(shown, tasks, now, dayKey))
  {
    if tasks != [] {
      var front := Pass(shown, tasks[..|tasks| - 1], now, dayKey);
      var t := tasks[|tasks| - 1];
      PassNoDuplicates(shown, tasks[..|tasks| - 1], now, dayKey);
      var mid := Record(front, ReminderDue(t, now));
      if ReminderDue(t, now).Some? && ReminderDue(t, now).value !in front {
        Seqs.NoDuplicatesSnoc(front, ReminderDue(t, now).value);
      }
      if OverdueDue(t, now, dayKey).Some? && OverdueDue(t, now, dayKey).value !in mid {
        Seqs.NoDuplicatesSnoc(mid, OverdueDue(t, now, dayKey).value);
      }
    }
  }

  /** One task can be both inside its reminder window and past due within the day: the same turn then
      records two notifications. */
  lemma BothNoticesInOneTurn(shown: seq<NotificationKey>, t: Task, now: int, dayKey: int -> string)
    requires t.status != Completed && t.reminderTime.Some? && t.dueDate.Some?
    requires 0 < t.reminderTime.value - now <= ReminderWindow && 0 < now - t.dueDate.value <= OverdueWindow
    requires ReminderKey(t.id, t.reminderTime.value) !in shown && OverdueKey(t.id, dayKey(t.dueDate.value)) !in shown
    ensures Step(shown, t, now, dayKey) == shown + [ReminderKey(t.id, t.reminderTime.value), OverdueKey(t.id, dayKey(t.dueDate.value))]
  {
  }

  class Notifier {
    /** The `shownReminders` list in local storage. */
    var shown: seq<NotificationKey>
    /** The notifications the browser displayed, in order. */
    var delivered: seq<NotificationKey>

    ghost predicate Valid()
      reads this
    {
      Seqs.NoDuplicates(shown) && Seqs.NoDuplicates(delivered) && forall k :: k in delivered ==> k in shown
    }

    constructor (stored: seq<NotificationKey>)
      requires Seqs.NoDuplicates(stored)
      ensures Valid() && shown == stored && delivered == []
    {
      shown, delivered := stored, [];
    }

    /** `checkReminders`: when enabled, every unfinished task in its reminder window and then in its overdue
        window is notified once, unless its key is already recorded; the key is recorded whether or not the
        browser granted the permission to display it. */
    method CheckReminders(tasks: seq<Task>, enabled: bool, now: int, granted: bool, dayKey: int -> string)
      requires Valid()
      modifies this
      ensures Valid()
      ensures !enabled ==> shown == old(shown) && delivered == old(delivered)
      ensures enabled ==> shown == Pass(old(shown), tasks, now, dayKey)
      ensures old(shown) <= shown
      ensures delivered == old(delivered) + (if enabled && granted then shown[|old(shown)|..] else [])
    {
      if !enabled {
        return;
      }
      var i := 0;
      while i < |tasks|
        invariant 0 <= i <= |tasks|
        invariant shown == Pass(old(shown), tasks[..i], now, dayKey)
        invariant old(shown) <= shown
        invariant delivered == old(delivered) + (if granted then shown[|old(shown)|..] else [])
        invariant Valid()
      {
        var task := tasks[i];
        assert tasks[..i + 1][..i] == tasks[..i];
        if task.reminderTime.Some? && task.status != Completed {
          var timeDiff := task.reminderTime.value - now;
          if timeDiff > 0 && timeDiff <= ReminderWindow {
            var reminderKey := ReminderKey(task.id, task.reminderTime.value);
            if reminderKey !in shown {
              Notify(reminderKey, granted);
            }
          }
        }
        if task.dueDate.Some? && task.status != Completed {
          var overdueDiff := now - task.dueDate.value;
          if overdueDiff > 0 && overdueDiff <= OverdueWindow {
            var overdueKey := OverdueKey(task.id, dayKey(task.dueDate.value));
            if overdueKey !in shown {
              Notify(overdueKey, granted);
            }
          }
        }
        i := i + 1;
      }
      assert tasks[..i] == tasks;
    }

    /** `showNotification` followed by `shownReminders.push(key)`: displayed only with permission, recorded always. */
    method Notify(key: NotificationKey, granted: bool)
      requires Valid() && key !in shown
      modifies this
      ensures Valid()
      ensures shown == old(shown) + [key]
      ensures delivered == old(delivered) + (if granted then [key] else [])
    {
      Seqs.NoDuplicatesSnoc(shown, key);
      if granted {
        Seqs.NoDuplicatesSnoc(delivered, key);
        delivered := delivered + [key];
      }
      shown := shown + [key];
    }
  }
}
