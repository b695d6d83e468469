/** The employee's dashboard (src/pages/EmployeeDashboard.jsx): out of the
    store's derived view, the tasks assigned to the signed-in user, and the
    status counts over them. */
module EmployeeDashboard {
  import opened JsValues
  import opened TaskRecords
  import opened TaskView
  import TaskStore

  /** `user?.email`: undefined when nobody is signed in. */
  function EmployeeEmail(user: Option<Record>): (e: Value)
    ensures user.None? ==> e == Undefined
    ensures user.Some? ==> e == Get(user.value, "email")
  {
    if user.Some? then Get(user.value, "email") else Undefined
  }

  /** `tasks.filter(task => task.assignedTo === employeeEmail)` */
  function EmployeeTasks(view: seq<Record>, user: Option<Record>): seq<Record>
  {
    Where(view, "assignedTo", EmployeeEmail(user))
  }

  /** The stats cards: `total` and the three status counts. */
  function EmployeeStats(view: seq<Record>, user: Option<Record>): Stats
  {
    StatsOf(EmployeeTasks(view, user))
  }

  /** Every task shown is assigned to the user, each task assigned to the
      user is shown as often as it is in the view, and the view's order is
      kept. */
  lemma EmployeeTasksExact(view: seq<Record>, user: Option<Record>, x: Record)
    ensures forall t :: t in EmployeeTasks(view, user) ==> Get(t, "assignedTo") == EmployeeEmail(user)
    ensures multiset(EmployeeTasks(view, user))[x] ==
              if Get(x, "assignedTo") == EmployeeEmail(user) then multiset(view)[x] else 0
    ensures IsSubsequence(EmployeeTasks(view, user), view)
  {
    WhereCount(view, "assignedTo", EmployeeEmail(user), x);
    WhereIsSubsequence(view, "assignedTo", EmployeeEmail(user));
  }

  /** Taken over the store's view, the employee's list holds exactly the
      mirror's tasks that pass the status filter and are assigned to the
      user, in the view's sort order. */
  lemma EmployeeTasksOfView(tasks: seq<Record>, filterStatus: string, sortBy: string,
                            user: Option<Record>, x: Record)
    requires AllSortable(Filtered(tasks, filterStatus), sortBy)
    ensures multiset(EmployeeTasks(DerivedView(tasks, filterStatus, sortBy), user))[x] ==
              if (filterStatus == AllStatuses || Get(x, "status") == Str(filterStatus))
                 && Get(x, "assignedTo") == EmployeeEmail(user)
              then multiset(tasks)[x] else 0
    ensures IsSortedDesc(EmployeeTasks(DerivedView(tasks, filterStatus, sortBy), user), sortBy)
  {
    var view := DerivedView(tasks, filterStatus, sortBy);
    WhereCount(view, "assignedTo", EmployeeEmail(user), x);
    ViewContents(tasks, filterStatus, sortBy, x);
    WhereKeepsSorted(view, sortBy, "assignedTo", EmployeeEmail(user));
  }

  /** `total` is the number of tasks shown; the three cards never add up to
      more, as a Failed task is counted in `total` only. */
  lemma EmployeeStatsBounded(view: seq<Record>, user: Option<Record>)
    ensures EmployeeStats(view, user).total == |EmployeeTasks(view, user)|
    ensures EmployeeStats(view, user).total <= |view|
    ensures EmployeeStats(view, user).newCount + EmployeeStats(view, user).activeCount
            + EmployeeStats(view, user).completedCount <= EmployeeStats(view, user).total
  {
    StatsBounded(EmployeeTasks(view, user));
  }

  /** A task assigned to someone else never reaches the list: whatever the
      rest of the view holds, adding it changes nothing. */
  lemma ForeignTaskHidden(view: seq<Record>, user: Option<Record>, t: Record)
    requires Get(t, "assignedTo") != EmployeeEmail(user)
    ensures EmployeeTasks(view + [t], user) == EmployeeTasks(view, user)
    ensures EmployeeTasks([t] + view, user) == EmployeeTasks(view, user)
  {
    WhereConcat(view, [t], "assignedTo", EmployeeEmail(user));
    WhereConcat([t], view, "assignedTo", EmployeeEmail(user));
  }

  /** An employee whose address is on none of the tasks sees an empty list,
      however many tasks there are. */
  lemma NoAssignedTasksEmptyList(view: seq<Record>, email: string)
    requires forall i :: 0 <= i < |view| ==> Get(view[i], "assignedTo") != Str(email)
    ensures EmployeeTasks(view, Some(map["email" := Str(email)])) == []
    ensures EmployeeStats(view, Some(map["email" := Str(email)])) == Stats(0, 0, 0, 0)
  {
    var user := Some(map["email" := Str(email)]);
    assert EmployeeEmail(user) == Str(email);
    WhereNoneMatch(view, "assignedTo", Str(email));
  }

  // ---------------------------------------------------------------------------
  // The memoised list

  /** `useMemo(() => ..., [tasks, employeeEmail])`: the dependencies of the
      last computation and the list it produced. React compares each
      dependency with `Object.is`: the array by identity (the number
      `TaskStore.Store` gives it), the email by value. */
  class EmployeeListMemo {
    var deps: Option<(nat, Value)>
    var cached: seq<Record>

    constructor ()
      ensures deps == None && cached == []
    {
      deps := None;
      cached := [];
    }

    /** One render: the cached list when both dependencies are those of the
        last render, a new filter of `view` otherwise. */
    method Render(view: seq<Record>, viewId: nat, user: Option<Record>) returns (shown: seq<Record>)
      modifies this
      ensures old(deps) == Some((viewId, EmployeeEmail(user))) ==> shown == old(cached)
      ensures old(deps) != Some((viewId, EmployeeEmail(user))) ==> shown == EmployeeTasks(view, user)
      ensures deps == Some((viewId, EmployeeEmail(user))) && cached == shown
    {
      var key := (viewId, EmployeeEmail(user));
      if deps != Some(key) {
        cached := EmployeeTasks(view, user);
        deps := Some(key);
      }
      shown := cached;
    }
  }

  /** The memo's array is older than any array the store will still hand
      out. */
  predicate MemoOlder(memo: EmployeeListMemo, store: TaskStore.Store)
    reads memo, store
  {
    memo.deps.Some? ==> memo.deps.value.0 < store.nextId
  }

  /** One render of the dashboard over the store as written: the list is
      the cached one when the view is the mirror array the memo last saw and
      the email is the same, the employee's part of the view otherwise. */
  method RenderAsWritten(store: TaskStore.Store, memo: EmployeeListMemo, user: Option<Record>)
      returns (shown: seq<Record>)
    requires store.Valid() && MemoOlder(memo, store)
    requires AllSortable(Filtered(store.tasks, store.filterStatus), store.sortBy)
    modifies store`tasks, store`nextId, memo
    ensures store.Valid() && MemoOlder(memo, store)
    ensures shown ==
      if store.filterStatus == AllStatuses && old(memo.deps) == Some((store.mirrorId, EmployeeEmail(user)))
      then old(memo.cached)
      else EmployeeTasks(DerivedView(old(store.tasks), store.filterStatus, store.sortBy), user)
    ensures store.tasks == if store.filterStatus == AllStatuses
                           then DerivedView(old(store.tasks), store.filterStatus, store.sortBy)
                           else old(store.tasks)
    ensures memo.cached == shown
    ensures store.filterStatus == AllStatuses ==> memo.deps == Some((store.mirrorId, EmployeeEmail(user)))
  {
    var view, id := store.GetFilteredTasks();
    shown := memo.Render(view, id, user);
  }

  /** Both tasks are the user's, so the list is the view. */
  lemma BothAssigned(h: Record, l: Record, user: Option<Record>)
    requires Get(h, "assignedTo") == EmployeeEmail(user) && Get(l, "assignedTo") == EmployeeEmail(user)
    ensures EmployeeTasks([l, h], user) == [l, h] && EmployeeTasks([h, l], user) == [h, l]
  {
    WhereAllMatch([l, h], "assignedTo", EmployeeEmail(user));
    WhereAllMatch([h, l], "assignedTo", EmployeeEmail(user));
  }

  /** The dashboard's first render after the emission [l, h] arrives, with
      the default selections ('All', by date). */
  method FirstRender(h: Record, l: Record, user: Option<Record>)
      returns (store: TaskStore.Store, memo: EmployeeListMemo, shown: seq<Record>)
    requires Get(h, "createdAt").Date? && Get(l, "createdAt").Date?
    requires Get(h, "createdAt").ms < Get(l, "createdAt").ms
    requires Get(h, "assignedTo") == EmployeeEmail(user) && Get(l, "assignedTo") == EmployeeEmail(user)
    ensures fresh(store) && fresh(memo)
    ensures store.Valid() && MemoOlder(memo, store)
    ensures store.tasks == [l, h] && store.filterStatus == AllStatuses
    ensures memo.deps == Some((store.mirrorId, EmployeeEmail(user))) && memo.cached == shown
    ensures shown == [l, h]
  {
    TwoRecordSort(l, h, "date");
    BothAssigned(h, l, user);
    store := new TaskStore.Store();
    store.OnData([l, h]);
    memo := new EmployeeListMemo();
    shown := RenderAsWritten(store, memo, user);
  }

  /** The sort key changes to priority and the dashboard renders again: the
      memo sees the same mirror array and the same email, and keeps its
      list. */
  method RenderAfterSortChange(store: TaskStore.Store, memo: EmployeeListMemo, h: Record, l: Record,
                               user: Option<Record>)
      returns (shown: seq<Record>)
    requires store.Valid() && MemoOlder(memo, store)
    requires store.tasks == [l, h] && store.filterStatus == AllStatuses
    requires memo.deps == Some((store.mirrorId, EmployeeEmail(user)))
    requires Get(h, "priority") == Str("High") && Get(l, "priority") == Str("Low")
    modifies store, memo
    ensures store.sortBy == "priority" && store.tasks == DerivedView([l, h], AllStatuses, "priority")
    ensures shown == old(memo.cached)
  {
    store.SetSortBy("priority");
    assert store.tasks == [l, h] && store.filterStatus == AllStatuses;
    assert memo.deps == Some((store.mirrorId, EmployeeEmail(user)));
    TwoRecordSort(l, h, "priority");
    shown := RenderAsWritten(store, memo, user);
  }

  /** The employee's list goes stale on a sort change. Under 'All' the view
      is the mirror array itself, sorted in place, so `setSortBy` leaves the
      memo's array dependency unchanged and the list keeps the order of the
      last recomputation, while the view it is meant to follow has changed
      order. */
  method StaleOrderAfterSortChange(h: Record, l: Record, user: Option<Record>)
      returns (before: seq<Record>, after: seq<Record>, intended: seq<Record>)
    requires Get(h, "priority") == Str("High") && Get(l, "priority") == Str("Low")
    requires Get(h, "createdAt").Date? && Get(l, "createdAt").Date?
    requires Get(h, "createdAt").ms < Get(l, "createdAt").ms
    requires Get(h, "assignedTo") == EmployeeEmail(user) && Get(l, "assignedTo") == EmployeeEmail(user)
    ensures before == [l, h] && intended == [h, l]
    ensures after == before && after != intended
  {
    var store, memo;
    store, memo, before := FirstRender(h, l, user);
    after := RenderAfterSortChange(store, memo, h, l, user);
    TwoRecordSort(l, h, "priority");
    BothAssigned(h, l, user);
    intended := EmployeeTasks(DerivedView([l, h], AllStatuses, "priority"), user);
    assert after[0] != intended[0];
  }

  /** A stale list still holds the right tasks, each as often, and so the
      stats cards over it stay right: between two views of the same mirror
      array only the order can differ. */
  lemma StaleListSameTasks(v0: seq<Record>, v1: seq<Record>, user: Option<Record>)
    requires multiset(v0) == multiset(v1)
    ensures multiset(EmployeeTasks(v0, user)) == multiset(EmployeeTasks(v1, user))
    ensures EmployeeStats(v0, user) == EmployeeStats(v1, user)
  {
    var e := EmployeeEmail(user);
    forall x ensures multiset(EmployeeTasks(v0, user))[x] == multiset(EmployeeTasks(v1, user))[x] {
      WhereCount(v0, "assignedTo", e, x);
      WhereCount(v1, "assignedTo", e, x);
    }
    assert multiset(EmployeeTasks(v0, user)) == multiset(EmployeeTasks(v1, user));
    var a, b := EmployeeTasks(v0, user), EmployeeTasks(v1, user);
    assert |a| == |multiset(a)| == |multiset(b)| == |b|;
    WherePermutationLength(a, b, "status", Str("New"));
    WherePermutationLength(a, b, "status", Str("Active"));
    WherePermutationLength(a, b, "status", Str("Completed"));
  }

  /** One render over the corrected store: the sorted copy is a new array,
      so the memo recomputes and the list shown is the employee's part of the
      current view, in its order. */
  method RenderOverCopy(store: TaskStore.Store, memo: EmployeeListMemo, user: Option<Record>)
      returns (shown: seq<Record>)
    requires store.Valid() && MemoOlder(memo, store)
    requires AllSortable(Filtered(store.tasks, store.filterStatus), store.sortBy)
    modifies store`nextId, memo
    ensures store.Valid() && MemoOlder(memo, store)
    ensures shown == EmployeeTasks(DerivedView(store.tasks, store.filterStatus, store.sortBy), user)
  {
    var view, id := store.GetSortedCopy();
    shown := memo.Render(view, id, user);
  }
}
