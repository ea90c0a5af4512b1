/** The Task record of Backend/models/task.model.js: its fields, the status and
    type enumerations, the defaults the schema fills in and the fields it requires. */
module TaskModel {
  import opened Wrappers

  type TaskId = nat
  type UserId = nat

  datatype Status = Pending | Completed | Missed

  datatype TaskType = Task | Pyq | Test | FullRevision | General

  /** A stored task. `assignedDate` is a day ordinal, `createdAt` an instant in
      milliseconds; `parentTask` is None for the base of an occurrence group. */
  datatype TaskRecord = TaskRecord(
    id: TaskId,
    user: UserId,
    subject: string,
    title: string,
    text: string,
    assignedDate: int,
    status: Status,
    taskType: TaskType,
    revisionStep: int,
    parentTask: Option<TaskId>,
    createdAt: int)

  /** The fields handed to the store when a task is created; a field the caller
      leaves out is None (a missing or unparseable `assignedDate` is None too). */
  datatype TaskInput = TaskInput(
    user: UserId,
    subject: string,
    title: string,
    text: string,
    assignedDate: Option<int>,
    status: Option<Status>,
    taskType: Option<TaskType>,
    revisionStep: Option<int>,
    parentTask: Option<TaskId>)

  /** Schema validation and defaults: `subject`, `title`, `assignedDate` and `type` are required
      (an empty string fails a required string), `text` is optional; `status` defaults
      to pending, `revisionStep` to 0 and `parentTask` to none. */
  function CreateRecord(id: TaskId, input: TaskInput, createdAt: int): (r: Option<TaskRecord>)
    ensures r.Some? <==>
      input.subject != [] && input.title != [] && input.assignedDate.Some? && input.taskType.Some?
    ensures r.Some? ==> r.value.id == id && r.value.user == input.user && r.value.createdAt == createdAt
    ensures r.Some? ==> r.value.subject == input.subject && r.value.title == input.title && r.value.text == input.text
    ensures r.Some? ==> r.value.assignedDate == input.assignedDate.value && r.value.taskType == input.taskType.value
    ensures r.Some? && input.status.None? ==> r.value.status == Pending
    ensures r.Some? && input.status.Some? ==> r.value.status == input.status.value
    ensures r.Some? && input.revisionStep.None? ==> r.value.revisionStep == 0
    ensures r.Some? && input.revisionStep.Some? ==> r.value.revisionStep == input.revisionStep.value
    ensures r.Some? ==> r.value.parentTask == input.parentTask
  {
    if input.subject == [] || input.title == [] || input.assignedDate.None? || input.taskType.None? then None
    else Some(TaskRecord(
      id, input.user, input.subject, input.title, input.text, input.assignedDate.value,
      input.status.GetOr(Pending), input.taskType.value, input.revisionStep.GetOr(0),
      input.parentTask, createdAt))
  }
}
