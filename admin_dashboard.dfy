/** The admin's dashboard (src/pages/AdminDashboard.jsx): who may manage
    tasks, the form's open/edit state, the choice between an update and a
    create when the form is saved, and the status counts over the store's
    derived view. The store operations it calls are returned as
    `StoreCall` values. */
module AdminDashboard {
  import opened JsValues
  import opened TaskRecords
  import opened TaskView
  import opened Session

  /** `user?.role === 'admin'` */
  predicate IsAdmin(user: Option<Record>)
  {
    user.Some? && Get(user.value, "role") == Str(AdminRole)
  }

  /** For a signed-in user, admin rights follow from the email alone. */
  lemma IsAdminIffEmailHasAdmin(authUser: Record)
    requires HasEmail(authUser)
    ensures IsAdmin(Some(UserRecord(authUser))) <==>
              exists i :: OccursAt(Get(authUser, "email").s, "admin", i)
    ensures !IsAdmin(None)
  {
    RoleOfUserRecord(authUser);
  }

  /** A call into the task store. */
  datatype StoreCall =
    | AddTaskCall(task: Record)
    | UpdateTaskCall(id: Value, updates: Record)

  class AdminPanel {
    var showForm: bool
    var editingTask: Option<Record>

    constructor ()
      ensures !showForm && editingTask == None
    {
      showForm := false;
      editingTask := None;
    }

    /** `handleEdit(task)`: the form opens on that task. */
    method HandleEdit(task: Record)
      modifies this
      ensures editingTask == Some(task) && showForm
    {
      editingTask := Some(task);
      showForm := true;
    }

    /** The "Add Task" and "Create Task" buttons: the form opens empty. */
    method OpenCreateForm()
      modifies this
      ensures editingTask == None && showForm
    {
      editingTask := None;
      showForm := true;
    }

    /** `handleCloseForm()` */
    method HandleCloseForm()
      modifies this
      ensures !showForm && editingTask == None
    {
      showForm := false;
      editingTask := None;
    }

    /** `handleSave(taskData)`: an update of the edited task's id when a task
        is being edited, a create otherwise; the form closes either way. */
    method HandleSave(taskData: Record) returns (call: StoreCall)
      modifies this
      ensures old(editingTask).Some? ==> call == UpdateTaskCall(Get(old(editingTask).value, "id"), taskData)
      ensures old(editingTask).None? ==> call == AddTaskCall(taskData)
      ensures !showForm && editingTask == None
    {
      if editingTask.Some? {
        call := UpdateTaskCall(Get(editingTask.value, "id"), taskData);
      } else {
        call := AddTaskCall(taskData);
      }
      HandleCloseForm();
    }
  }

  /** The counts are taken over the view, which is already filtered: under
      'All' they count the whole mirror; under a status filter the total is
      that status's count and every other card shows 0. */
  lemma AdminStatsOfView(tasks: seq<Record>, filterStatus: string, sortBy: string, status: string)
    requires AllSortable(Filtered(tasks, filterStatus), sortBy)
    ensures StatsOf(DerivedView(tasks, filterStatus, sortBy)).total == |Filtered(tasks, filterStatus)|
    ensures filterStatus == AllStatuses ==>
              CountStatus(DerivedView(tasks, filterStatus, sortBy), status) == CountStatus(tasks, status)
    ensures filterStatus != AllStatuses ==>
              CountStatus(DerivedView(tasks, filterStatus, sortBy), status) ==
              if status == filterStatus then |Filtered(tasks, filterStatus)| else 0
  {
    var view := DerivedView(tasks, filterStatus, sortBy);
    assert |multiset(view)| == |multiset(Filtered(tasks, filterStatus))|;
    ViewCounts(tasks, filterStatus, sortBy, status);
    if filterStatus != AllStatuses {
      WhereTwice(tasks, "status", Str(filterStatus), Str(status));
      if status == filterStatus {
        WhereAllMatch(Filtered(tasks, filterStatus), "status", Str(status));
      }
    }
  }
}
