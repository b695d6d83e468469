/** The task collection's client API (src/api/tasks.js): how a live-query
    snapshot becomes the list of task records the store receives, and which
    payload each create, update and delete request carries. The Firestore
    calls themselves are not modelled; a request is a `Command` value. */
module TaskApi {
  import opened JsValues

  const TasksCollection: string := "tasks"

  datatype Direction = Ascending | Descending
  datatype Query = Query(collection: string, orderBy: string, direction: Direction)

  /** `query(tasksCollection, orderBy('createdAt', 'desc'))` */
  const LiveQuery: Query := Query(TasksCollection, "createdAt", Descending)

  /** A snapshot's documents in the order a query asks for: each carries a
      server timestamp in the ordering field, and the timestamps run in the
      query's direction. */
  predicate InQueryOrder(docs: seq<Doc>, q: Query)
  {
    (forall i :: 0 <= i < |docs| ==> Get(docs[i].data, q.orderBy).Timestamp?) &&
    forall i, j :: 0 <= i < j < |docs| ==>
      if q.direction == Descending
      then Get(docs[j].data, q.orderBy).ms <= Get(docs[i].data, q.orderBy).ms
      else Get(docs[i].data, q.orderBy).ms <= Get(docs[j].data, q.orderBy).ms
  }

  /** A query document snapshot: `doc.id` and `doc.data()`. */
  datatype Doc = Doc(id: string, data: Record)

  /** A request sent to the document store. */
  datatype Command =
    | AddDoc(collection: string, data: Record)
    | UpdateDoc(collection: string, docId: Value, data: Record)
    | DeleteDoc(collection: string, docId: Value)

  // ---------------------------------------------------------------------------
  // Snapshot -> task records

  /** `doc.data().createdAt?.toDate()` only works when the stored value is a
      Timestamp, null or absent; any other value makes `toDate` throw. */
  predicate ReadableCreatedAt(data: Record)
  {
    var v := Get(data, "createdAt");
    v.Timestamp? || v == Null || v == Undefined
  }

  /** `{ id: doc.id, ...doc.data(), createdAt: …, dueDate: … }`: the stored
      fields over the document id, then the two normalised dates over both.
      `now` and `today` are the clock readings (`new Date()` and its
      `YYYY-MM-DD` prefix). */
  function ToTask(d: Doc, now: int, today: string): (t: Record)
    requires ReadableCreatedAt(d.data)
    ensures t.Keys == d.data.Keys + {"id", "createdAt", "dueDate"}
    ensures Get(t, "id") == if "id" in d.data then d.data["id"] else Str(d.id)
    ensures Get(t, "createdAt").Date?
    ensures Get(d.data, "createdAt").Timestamp? ==>
              Get(t, "createdAt").ms == Get(d.data, "createdAt").ms
    ensures !Get(d.data, "createdAt").Timestamp? ==> Get(t, "createdAt") == Date(now)
    ensures Get(t, "dueDate") == if Truthy(Get(d.data, "dueDate")) then Get(d.data, "dueDate") else Str(today)
    ensures forall k :: k != "id" && k != "createdAt" && k != "dueDate" ==> Get(t, k) == Get(d.data, k)
  {
    var createdAt := match Get(d.data, "createdAt")
                     case Timestamp(ms) => Date(ms)
                     case _ => Date(now);
    var dueDate := if Truthy(Get(d.data, "dueDate")) then Get(d.data, "dueDate") else Str(today);
    map["id" := Str(d.id)] + d.data + map["createdAt" := createdAt, "dueDate" := dueDate]
  }

  /** `snapshot.docs.map(…)`: one task per document, in the snapshot's order. */
  function MapSnapshot(docs: seq<Doc>, now: int, today: string): (tasks: seq<Record>)
    requires forall i :: 0 <= i < |docs| ==> ReadableCreatedAt(docs[i].data)
    ensures |tasks| == |docs|
    ensures forall i :: 0 <= i < |docs| ==> tasks[i] == ToTask(docs[i], now, today)
  {
    seq(|docs|, i requires 0 <= i < |docs| => ToTask(docs[i], now, today))
  }

  /** Every mapped task carries a Date `createdAt` and, when `today` is a
      date string, a truthy `dueDate`. */
  lemma MappedTasksNormalised(docs: seq<Doc>, now: int, today: string)
    requires forall i :: 0 <= i < |docs| ==> ReadableCreatedAt(docs[i].data)
    requires today != ""
    ensures forall t :: t in MapSnapshot(docs, now, today) ==>
              Get(t, "createdAt").Date? && Truthy(Get(t, "dueDate")) && "id" in t
  {
  }

  // ---------------------------------------------------------------------------
  // Payloads

  /** `{ ...task, createdAt: serverTimestamp(), updatedAt: serverTimestamp() }` */
  function CreatePayload(task: Record): (p: Record)
    ensures p.Keys == task.Keys + {"createdAt", "updatedAt"}
    ensures p["createdAt"] == ServerTimestamp && p["updatedAt"] == ServerTimestamp
    ensures forall k :: k in task && k != "createdAt" && k != "updatedAt" ==> p[k] == task[k]
  {
    task + map["createdAt" := ServerTimestamp, "updatedAt" := ServerTimestamp]
  }

  /** `{ ...updates, updatedAt: serverTimestamp() }` */
  function UpdatePayload(updates: Record): (p: Record)
    ensures p.Keys == updates.Keys + {"updatedAt"}
    ensures p["updatedAt"] == ServerTimestamp
    ensures forall k :: k in updates && k != "updatedAt" ==> p[k] == updates[k]
  {
    updates + map["updatedAt" := ServerTimestamp]
  }

  /** `createTask(task)`: one document added to the tasks collection. */
  function CreateTask(task: Record): (c: Command)
    ensures c.AddDoc? && c.collection == TasksCollection
    ensures forall k :: k in task && k != "createdAt" && k != "updatedAt" ==> k in c.data && c.data[k] == task[k]
    ensures Get(c.data, "createdAt") == ServerTimestamp && Get(c.data, "updatedAt") == ServerTimestamp
    ensures c.data.Keys == task.Keys + {"createdAt", "updatedAt"}
    ensures c.data == CreatePayload(task)
  {
    AddDoc(TasksCollection, CreatePayload(task))
  }

  /** `updateTaskData(id, updates)`: a partial update of the one document `id`. */
  function UpdateTaskData(id: Value, updates: Record): (c: Command)
    ensures c.UpdateDoc? && c.collection == TasksCollection && c.docId == id
    ensures c.data.Keys == updates.Keys + {"updatedAt"} && c.data["updatedAt"] == ServerTimestamp
    ensures forall k :: k in updates && k != "updatedAt" ==> c.data[k] == updates[k]
    ensures c.data == UpdatePayload(updates)
  {
    UpdateDoc(TasksCollection, id, UpdatePayload(updates))
  }

  /** `deleteTaskData(id)` */
  function DeleteTaskData(id: Value): (c: Command)
    ensures c.DeleteDoc? && c.collection == TasksCollection && c.docId == id
  {
    DeleteDoc(TasksCollection, id)
  }
}
