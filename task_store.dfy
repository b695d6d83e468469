/** The task store (src/context/TaskContext.jsx): the mirror of the task
    collection, the filter and sort selections, the toast queue and the
    loading flag, with the subscription handlers, the three mutation wrappers
    and the derived view.

    Clock readings (`Date.now()`), the backend's answer to a mutation and the
    3-second toast timers are explicit: a reading is a `now` parameter, the
    answer is a `succeeded` parameter, and each pending timer is an id in
    `timers`, fired by `ExpireToast`. The requests handed to the backend are
    logged in `sent`. */
module TaskStore {
  import opened JsValues
  import opened TaskRecords
  import opened TaskApi
  import opened TaskView

  datatype ToastKind = Success | Error | Info

  /** `{ id, message, type }`; the id is the `Date.now()` reading taken when
      the toast was shown, so two toasts shown in one millisecond share it. */
  datatype Toast = Toast(id: int, message: string, kind: ToastKind)

  /** `toasts.filter(t => t.id !== id)` */
  function WithoutToast(toasts: seq<Toast>, id: int): (r: seq<Toast>)
    ensures |r| <= |toasts|
  {
    if toasts == [] then []
    else (if toasts[0].id != id then [toasts[0]] else []) + WithoutToast(toasts[1..], id)
  }

  /** Expiry keeps exactly the toasts whose id differs from the expired one. */
  lemma {:induction false} WithoutToastMembers(toasts: seq<Toast>, id: int)
    ensures forall t :: t in WithoutToast(toasts, id) <==> t in toasts && t.id != id
  {
    if toasts != [] {
      WithoutToastMembers(toasts[1..], id);
      assert toasts == [toasts[0]] + toasts[1..];
    }
  }

  /** Expiring an id that no queued toast carries changes nothing. */
  lemma {:induction false} WithoutAbsentId(toasts: seq<Toast>, id: int)
    requires forall u :: u in toasts ==> u.id != id
    ensures WithoutToast(toasts, id) == toasts
  {
    if toasts != [] {
      WithoutAbsentId(toasts[1..], id);
      assert toasts == [toasts[0]] + toasts[1..];
    }
  }

  /** One step of the filter: the first toast, then the rest. */
  lemma WithoutToastCons(x: Toast, rest: seq<Toast>, id: int)
    ensures WithoutToast([x] + rest, id) == (if x.id != id then [x] else []) + WithoutToast(rest, id)
  {
    assert ([x] + rest)[1..] == rest;
  }

  /** Expiry treats a toast appended last like every other toast. */
  lemma {:induction false} WithoutToastAppend(toasts: seq<Toast>, t: Toast, id: int)
    ensures WithoutToast(toasts + [t], id) ==
            WithoutToast(toasts, id) + (if t.id != id then [t] else [])
  {
    if toasts == [] {
      WithoutToastCons(t, [], id);
      assert [] + [t] == [t] + [];
    } else {
      var x, rest := toasts[0], toasts[1..];
      var head := if x.id != id then [x] else [];
      var tail := if t.id != id then [t] else [];
      assert toasts == [x] + rest;
      assert toasts + [t] == [x] + (rest + [t]);
      WithoutToastCons(x, rest + [t], id);
      WithoutToastAppend(rest, t, id);
      WithoutToastCons(x, rest, id);
      assert head + (WithoutToast(rest, id) + tail) == (head + WithoutToast(rest, id)) + tail;
    }
  }

  /** Showing a toast whose id is fresh and then expiring that id restores
      the queue as it was, the other toasts in their order. */
  lemma ExpireFreshToast(toasts: seq<Toast>, t: Toast)
    requires forall u :: u in toasts ==> u.id != t.id
    ensures WithoutToast(toasts + [t], t.id) == toasts
  {
    WithoutToastAppend(toasts, t, t.id);
    WithoutAbsentId(toasts, t.id);
  }

  /** The queue left once the given timers have fired, in order. */
  function AfterTimers(toasts: seq<Toast>, timers: seq<int>): seq<Toast>
    decreases |timers|
  {
    if timers == [] then toasts else AfterTimers(WithoutToast(toasts, timers[0]), timers[1..])
  }

  /** When every queued toast has a pending timer, no toast is left once
      all pending timers have fired. */
  lemma {:induction false} AllTimersEmptyQueue(toasts: seq<Toast>, timers: seq<int>)
    requires forall t :: t in toasts ==> t.id in timers
    ensures forall t :: t !in AfterTimers(toasts, timers)
    decreases |timers|
  {
    if timers != [] {
      var rest := WithoutToast(toasts, timers[0]);
      WithoutToastMembers(toasts, timers[0]);
      forall t | t in rest ensures t.id in timers[1..] {
        assert t.id in timers && t.id != timers[0];
      }
      AllTimersEmptyQueue(rest, timers[1..]);
    }
  }

  datatype Mutation = Create | Update | Delete

  /** The toast each mutation wrapper shows: success when the backend
      accepted the request, error when it rejected it. */
  function OutcomeToast(m: Mutation, succeeded: bool, now: int): (t: Toast)
    ensures t.id == now
    ensures t.kind == Success <==> succeeded
    ensures t.kind == Error <==> !succeeded
    ensures t.message != ""
  {
    match m
    case Create => if succeeded then Toast(now, "Task created successfully!", Success)
                   else Toast(now, "Failed to create task", Error)
    case Update => if succeeded then Toast(now, "Task updated successfully!", Success)
                   else Toast(now, "Failed to update task", Error)
    case Delete => if succeeded then Toast(now, "Task deleted!", Success)
                   else Toast(now, "Failed to delete task", Error)
  }

  const LoadFailedMessage: string := "Failed to load tasks"

  class Store {
    var tasks: seq<Record>
    var filterStatus: string
    var sortBy: string
    var toasts: seq<Toast>
    var loading: bool
    var timers: seq<int>
    var sent: seq<Command>
    /** Array identities: every array the store hands out is numbered, and
        `mirrorId` is the number of the array `tasks` holds. `nextId` is the
        number the next new array will get. */
    var mirrorId: nat
    var nextId: nat

    /** Every queued toast still has an expiry timer pending, and the mirror
        array is older than any array still to be made. */
    ghost predicate Valid()
      reads this
    {
      (forall t :: t in toasts ==> t.id in timers) && mirrorId < nextId
    }

    constructor ()
      ensures Valid()
      ensures tasks == [] && filterStatus == AllStatuses && sortBy == "date"
      ensures toasts == [] && loading && timers == [] && sent == []
      ensures mirrorId == 0 && nextId == 1
    {
      tasks := [];
      filterStatus := AllStatuses;
      sortBy := "date";
      toasts := [];
      loading := true;
      timers := [];
      sent := [];
      mirrorId := 0;
      nextId := 1;
    }

    /** `showToast(message, type = 'info')`: append the toast and schedule
        its removal. */
    method ShowToast(message: string, now: int, kind: ToastKind := Info)
      requires Valid()
      modifies this`toasts, this`timers
      ensures Valid()
      ensures toasts == old(toasts) + [Toast(now, message, kind)]
      ensures timers == old(timers) + [now]
    {
      toasts := toasts + [Toast(now, message, kind)];
      timers := timers + [now];
    }

    /** The oldest pending timer fires (all have the same 3000 ms delay):
        every toast carrying its id leaves the queue, the rest stay in order. */
    method ExpireToast()
      requires Valid() && timers != []
      modifies this`toasts, this`timers
      ensures Valid()
      ensures toasts == WithoutToast(old(toasts), old(timers[0]))
      ensures timers == old(timers[1..])
      ensures forall t :: t in toasts ==> t.id != old(timers[0])
    {
      var id := timers[0];
      WithoutToastMembers(toasts, id);
      toasts := WithoutToast(toasts, id);
      timers := timers[1..];
      forall t | t in toasts ensures t.id in timers {
        assert t.id in old(timers) && t.id != id;
      }
    }

    /** The subscription's data handler: the mirror becomes the emitted
        list, a new array. */
    method OnData(tasksData: seq<Record>)
      requires Valid()
      modifies this`tasks, this`loading, this`mirrorId, this`nextId
      ensures Valid()
      ensures tasks == tasksData && !loading
      ensures mirrorId == old(nextId) && nextId == old(nextId) + 1
    {
      tasks := tasksData;
      loading := false;
      mirrorId := nextId;
      nextId := nextId + 1;
    }

    /** The subscription's error handler: the mirror stays as it was. */
    method OnError(now: int)
      requires Valid()
      modifies this`toasts, this`timers, this`loading
      ensures Valid()
      ensures toasts == old(toasts) + [Toast(now, LoadFailedMessage, Error)]
      ensures timers == old(timers) + [now]
      ensures !loading
    {
      ShowToast(LoadFailedMessage, now, Error);
      loading := false;
    }

    /** `addTask(task)`: send the create request and report its outcome. The
        mirror is untouched; the new task arrives with a later emission. */
    method AddTask(task: Record, succeeded: bool, now: int)
      requires Valid()
      modifies this`sent, this`toasts, this`timers
      ensures Valid()
      ensures sent == old(sent) + [CreateTask(task)]
      ensures toasts == old(toasts) + [OutcomeToast(Create, succeeded, now)]
      ensures timers == old(timers) + [now]
    {
      sent := sent + [CreateTask(task)];
      var t := OutcomeToast(Create, succeeded, now);
      ShowToast(t.message, now, t.kind);
    }

    /** `updateTask(id, updates)` */
    method UpdateTask(id: Value, updates: Record, succeeded: bool, now: int)
      requires Valid()
      modifies this`sent, this`toasts, this`timers
      ensures Valid()
      ensures sent == old(sent) + [UpdateTaskData(id, updates)]
      ensures toasts == old(toasts) + [OutcomeToast(Update, succeeded, now)]
      ensures timers == old(timers) + [now]
    {
      sent := sent + [UpdateTaskData(id, updates)];
      var t := OutcomeToast(Update, succeeded, now);
      ShowToast(t.message, now, t.kind);
    }

    /** `deleteTask(id)` */
    method DeleteTask(id: Value, succeeded: bool, now: int)
      requires Valid()
      modifies this`sent, this`toasts, this`timers
      ensures Valid()
      ensures sent == old(sent) + [DeleteTaskData(id)]
      ensures toasts == old(toasts) + [OutcomeToast(Delete, succeeded, now)]
      ensures timers == old(timers) + [now]
    {
      sent := sent + [DeleteTaskData(id)];
      var t := OutcomeToast(Delete, succeeded, now);
      ShowToast(t.message, now, t.kind);
    }

    method SetFilterStatus(status: string)
      modifies this`filterStatus
      ensures filterStatus == status
    {
      filterStatus := status;
    }

    method SetSortBy(key: string)
      modifies this`sortBy
      ensures sortBy == key
    {
      sortBy := key;
    }

    /** `getFilteredTasks()`. `sort` works in place, and under 'All' the array
        it sorts is the mirror itself, so the mirror is left in view order and
        the array handed out is the mirror array (`id == mirrorId`). Under a
        status filter, `filter` makes a new array on every call. */
    method GetFilteredTasks() returns (view: seq<Record>, id: nat)
      requires Valid()
      requires AllSortable(Filtered(tasks, filterStatus), sortBy)
      modifies this`tasks, this`nextId
      ensures Valid()
      ensures view == DerivedView(old(tasks), filterStatus, sortBy)
      ensures tasks == if filterStatus == AllStatuses then view else old(tasks)
      ensures filterStatus == AllStatuses ==> id == mirrorId && nextId == old(nextId)
      ensures filterStatus != AllStatuses ==> id == old(nextId) && nextId == old(nextId) + 1
    {
      view := DerivedView(tasks, filterStatus, sortBy);
      if filterStatus == AllStatuses {
        tasks := view;
        id := mirrorId;
      } else {
        id := nextId;
        nextId := nextId + 1;
      }
    }

    /** The corrected `getFilteredTasks()`: the sort runs on a copy
        (`[...filtered].sort(...)`), so the mirror keeps the emitted order and
        every call hands out a new array. */
    method GetSortedCopy() returns (view: seq<Record>, id: nat)
      requires Valid()
      requires AllSortable(Filtered(tasks, filterStatus), sortBy)
      modifies this`nextId
      ensures Valid()
      ensures view == DerivedView(tasks, filterStatus, sortBy)
      ensures id == old(nextId) && nextId == old(nextId) + 1
    {
      view := DerivedView(tasks, filterStatus, sortBy);
      id := nextId;
      nextId := nextId + 1;
    }
  }

  /** Re-sorting the mirror under 'All' does not change what the next call
      with the same selections shows. It does once the key changes: see
      `TiedOrderAfterKeyChange`. */
  lemma ViewStableUnderInPlaceSort(tasks: seq<Record>, sortBy: string)
    requires AllSortable(tasks, sortBy)
    ensures AllSortable(DerivedView(tasks, AllStatuses, sortBy), sortBy)
    ensures DerivedView(DerivedView(tasks, AllStatuses, sortBy), AllStatuses, sortBy) ==
            DerivedView(tasks, AllStatuses, sortBy)
  {
    SortIdempotent(tasks, sortBy);
  }

  /** The in-place sort leaves its trace on tasks the next key ties. Two tasks
      created in the same millisecond, x (Low) emitted before y (High): by
      date they show as emitted, [x, y]; a priority view under 'All' leaves
      the mirror as [y, x]; the date view after it keeps that order, [y, x],
      where a sort of a copy would still show [x, y]. */
  lemma TiedOrderAfterKeyChange(x: Record, y: Record)
    requires Get(x, "createdAt").Date? && Get(y, "createdAt") == Get(x, "createdAt")
    requires Get(x, "priority") == Str("Low") && Get(y, "priority") == Str("High")
    ensures AllSortable([x, y], "date") && AllSortable([x, y], "priority")
    ensures DerivedView([x, y], AllStatuses, "date") == [x, y]
    ensures DerivedView([x, y], AllStatuses, "priority") == [y, x]
    ensures AllSortable([y, x], "date")
    ensures DerivedView([y, x], AllStatuses, "date") == [y, x] != [x, y]
  {
    TwoRecordSort(x, y, "date");
    TwoRecordSort(x, y, "priority");
    TwoRecordSort(y, x, "date");
    assert x != y by { assert Get(x, "priority") != Get(y, "priority"); }
  }

  // ---------------------------------------------------------------------------
  // The live query and the date view

  /** When every document carries its server timestamp, the query's
      ordering already is the date order, so the default view (all statuses,
      by date) shows the mirror exactly as emitted. */
  lemma DateViewOfOrderedEmission(docs: seq<Doc>, now: int, today: string)
    requires InQueryOrder(docs, LiveQuery)
    ensures AllSortable(MapSnapshot(docs, now, today), "date")
    ensures DerivedView(MapSnapshot(docs, now, today), AllStatuses, "date") == MapSnapshot(docs, now, today)
  {
    var tasks := MapSnapshot(docs, now, today);
    assert IsSortedDesc(tasks, "date") by {
      forall i, j | 0 <= i < j < |tasks|
        ensures Key(tasks[j], "date") <= Key(tasks[i], "date")
      {
        assert Key(tasks[j], "date") == Get(docs[j].data, "createdAt").ms;
        assert Key(tasks[i], "date") == Get(docs[i].data, "createdAt").ms;
      }
    }
    SortOfSorted(tasks, "date");
  }
}
