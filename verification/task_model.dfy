/**
 * The task model: a task with a status drawn from four values, an assignee,
 * an optional due date and a completion time that is present exactly while
 * the task is done. Construction fills every falsy field with its default;
 * `fromJSON` is construction again, so the JSON form round-trips.
 * Timestamps are the clock's ISO strings, passed in as `now`.
 */
module TaskModel {
  import opened Wrappers
  import opened Text

  /** The constructor's argument: every key may be absent (`None`); an empty string is falsy too. */
  datatype TaskData = TaskData(id: Option<string>, text: Option<string>, status: Option<string>,
                               assignee: Option<string>, dueDate: Option<string>, meetingId: Option<string>,
                               objectiveId: Option<string>, createdAt: Option<string>,
                               updatedAt: Option<string>, completedAt: Option<string>)

  /** A constructed task; `None` stands for `null`. */
  datatype Task = Task(id: Option<string>, text: string, status: string, assignee: string,
                       dueDate: Option<string>, meetingId: Option<string>, objectiveId: Option<string>,
                       createdAt: string, updatedAt: string, completedAt: Option<string>)

  const Statuses: seq<string> := ["TODO", "IN_PROGRESS", "DONE", "BLOCKED"]
  const Todo: string := "TODO"
  const Done: string := "DONE"
  const Unassigned: string := "Sin asignar"

  /** `new Task(data)` */
  function New(data: TaskData, now: string): (t: Task)
    ensures t.status == Or(data.status, Todo) && t.assignee == Or(data.assignee, Unassigned)
    ensures !Truthy(data.dueDate) ==> t.dueDate.None?
    ensures !Truthy(data.completedAt) ==> t.completedAt.None?
    ensures t.createdAt == Or(data.createdAt, now) && t.updatedAt == Or(data.updatedAt, now)
  {
    Task(OrNull(data.id), Or(data.text, ""), Or(data.status, Todo), Or(data.assignee, Unassigned),
         OrNull(data.dueDate), OrNull(data.meetingId), OrNull(data.objectiveId),
         Or(data.createdAt, now), Or(data.updatedAt, now), OrNull(data.completedAt))
  }

  /** `toJSON()`: every field under its own key. */
  function ToJson(t: Task): (d: TaskData)
    ensures d.status == Some(t.status) && d.assignee == Some(t.assignee) && d.text == Some(t.text)
    ensures d.id == t.id && d.dueDate == t.dueDate && d.completedAt == t.completedAt
  {
    TaskData(t.id, Some(t.text), Some(t.status), Some(t.assignee), t.dueDate, t.meetingId,
             t.objectiveId, Some(t.createdAt), Some(t.updatedAt), t.completedAt)
  }

  /** `Task.fromJSON(json)` */
  function FromJson(d: TaskData, now: string): (t: Task)
    ensures t.status == Or(d.status, Todo) && t.assignee == Or(d.assignee, Unassigned)
    ensures t.createdAt == Or(d.createdAt, now) && t.updatedAt == Or(d.updatedAt, now)
    ensures Truthy(d.text) ==> t.text == d.text.value
    ensures Truthy(d.dueDate) ==> t.dueDate == d.dueDate
  {
    New(d, now)
  }

  /**
   * A task whose JSON form reads back unchanged: no field that construction
   * would replace by a default, and no nullable field holding the empty string.
   */
  predicate Settled(t: Task) {
    && t.status != "" && t.assignee != "" && t.createdAt != "" && t.updatedAt != ""
    && (t.id.None? || Truthy(t.id)) && (t.dueDate.None? || Truthy(t.dueDate))
    && (t.meetingId.None? || Truthy(t.meetingId)) && (t.objectiveId.None? || Truthy(t.objectiveId))
    && (t.completedAt.None? || Truthy(t.completedAt))
  }

  /** Construction with a non-empty clock reading always yields a settled task. */
  lemma NewIsSettled(data: TaskData, now: string)
    requires now != ""
    ensures Settled(New(data, now))
  {
  }

  /** `fromJSON(toJSON(t))` reproduces a settled task field by field. */
  lemma JsonRoundTrip(t: Task, now: string)
    requires now != ""
    ensures FromJson(ToJson(t), now) == t <==> Settled(t)
  {
  }

  /** `validate()`: non-blank text and one of the four statuses; the due-date check cannot fail. */
  function Validate(t: Task): (ok: bool)
    ensures ok ==> t.status in Statuses && exists i :: 0 <= i < |t.text| && !IsSpace(t.text[i])
    ensures t.status in Statuses && !IsBlank(t.text) ==> ok
  {
    BlankIffAllSpace(t.text);
    if IsBlank(t.text) then false
    else t.status in Statuses
  }

  /**
   * `updateStatus(status)`: refused for a status outside the four; otherwise
   * sets the status, stamps `updatedAt`, stamps `completedAt` on a first move
   * to DONE and clears it on a move to anything else.
   */
  function UpdateStatus(t: Task, status: string, now: string): (r: (Task, bool))
    ensures !r.1 <==> status !in Statuses
    ensures !r.1 ==> r.0 == t
    ensures r.1 ==> r.0 == t.(status := status, updatedAt := now, completedAt := r.0.completedAt)
    ensures r.1 && status != Done ==> r.0.completedAt.None?
    ensures r.1 && status == Done && Truthy(t.completedAt) ==> r.0.completedAt == t.completedAt
    ensures r.1 && status == Done && !Truthy(t.completedAt) ==> r.0.completedAt == Some(now)
  {
    if status !in Statuses then (t, false)
    else
      var completedAt :=
        if status == Done && !Truthy(t.completedAt) then Some(now)
        else if status != Done then None
        else t.completedAt;
      (t.(status := status, updatedAt := now, completedAt := completedAt), true)
  }

  /** After a successful update the task carries a completion time exactly when it is done. */
  lemma CompletedIffDone(t: Task, status: string, now: string)
    requires now != ""
    ensures var r := UpdateStatus(t, status, now);
      r.1 ==> (Truthy(r.0.completedAt) <==> r.0.status == Done)
  {
  }

  /** Marking a task done twice keeps the first completion time. */
  lemma DoneTwiceKeepsFirstCompletion(t: Task, now1: string, now2: string)
    requires now1 != ""
    ensures var once := UpdateStatus(t, Done, now1).0;
      UpdateStatus(once, Done, now2).0.completedAt == once.completedAt
  {
  }

  /** `assign(name)`: refused for a blank name; otherwise sets the assignee as given, untrimmed. */
  function Assign(t: Task, name: string, now: string): (r: (Task, bool))
    ensures !r.1 <==> IsBlank(name)
    ensures !r.1 ==> r.0 == t
    ensures r.1 ==> r.0 == t.(assignee := name, updatedAt := now) && r.0.assignee != ""
  {
    if IsBlank(name) then (t, false)
    else (t.(assignee := name, updatedAt := now), true)
  }

  /** `setDueDate(date)`: `new Date(date)` never throws on a string, so the call always succeeds. */
  function SetDueDate(t: Task, dueDate: Option<string>, now: string): (r: (Task, bool))
    ensures r.1
    ensures r.0.dueDate == dueDate && r.0.updatedAt == now
    ensures r.0.(dueDate := t.dueDate, updatedAt := t.updatedAt) == t
  {
    (t.(dueDate := dueDate, updatedAt := now), true)
  }

  /** The three mutators keep a valid task valid. */
  lemma MutatorsKeepValid(t: Task, status: string, name: string, dueDate: Option<string>, now: string)
    requires Validate(t)
    ensures Validate(UpdateStatus(t, status, now).0)
    ensures Validate(Assign(t, name, now).0)
    ensures Validate(SetDueDate(t, dueDate, now).0)
  {
  }

  /**
   * The mutators keep a task settled, so its JSON form still round-trips,
   * except that `setDueDate("")` stores an empty due date that reads back as null.
   */
  lemma MutatorsKeepSettled(t: Task, status: string, name: string, dueDate: Option<string>, now: string)
    requires Settled(t) && now != ""
    ensures Settled(UpdateStatus(t, status, now).0)
    ensures Settled(Assign(t, name, now).0)
    ensures Settled(SetDueDate(t, dueDate, now).0) <==> dueDate.None? || Truthy(dueDate)
  {
    UpdateStatusKeepsSettled(t, status, now);
    AssignKeepsSettled(t, name, now);
  }

  lemma UpdateStatusKeepsSettled(t: Task, status: string, now: string)
    requires Settled(t) && now != ""
    ensures Settled(UpdateStatus(t, status, now).0)
  {
    var r := UpdateStatus(t, status, now);
    if r.1 {
      assert r.0.status == status;
    }
  }

  lemma AssignKeepsSettled(t: Task, name: string, now: string)
    requires Settled(t) && now != ""
    ensures Settled(Assign(t, name, now).0)
  {
  }
}
