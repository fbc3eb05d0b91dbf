/** Values shared by every part of the task service: the persisted task record,
    the request body as the handlers see it, and the error values the handlers
    answer with. */
module Types {

  datatype Option<+T> = None | Some(value: T)

  /** The JSON value a request body may carry for `completed`; the handlers
      check its type, so it is kept as a general JSON scalar. */
  datatype Json = JString(s: string) | JNumber(n: int) | JBool(b: bool) | JNull

  /** A request body: a key that is absent is `None`. Only the keys a task
      has are modelled. */
  datatype Body = Body(
    id: Option<int>,
    title: Option<string>,
    description: Option<string>,
    completed: Option<Json>,
    priority: Option<string>,
    createdAt: Option<string>)

  /** One persisted task record. */
  datatype Task = Task(
    id: int,
    title: string,
    description: string,
    completed: bool,
    priority: string,
    createdAt: string)

  /** The `{ error: { message, status } }` payload of a failed request. */
  datatype Error = Error(message: string, status: int)

  datatype Result<+T> = Ok(value: T) | Err(error: Error)

  /** The payload of a successful DELETE: a confirmation and the removed task. */
  datatype Deletion = Deletion(message: string, deletedTask: Task)

  /** What a validation step reports: carry on, or answer with an error. */
  datatype Outcome = Pass | Fail(error: Error)

  const BadRequest := 400
  const NotFound := 404

  const TitleRequired := Error("Title and description are required", BadRequest)
  const CompletedNotBoolean := Error("Completed must be a boolean value", BadRequest)
  const PriorityNotAllowed := Error("Priority must be low, medium, or high", BadRequest)
  const InvalidLevel := Error("Invalid priority level", BadRequest)
  const TaskNotFound := Error("Task not found", NotFound)

  const DeletedMessage := "Task deleted successfully"
  const DefaultPriority := "medium"

  /** Membership in the list `['low', 'medium', 'high']`. */
  predicate IsPriorityLevel(p: string) {
    p == "low" || p == "medium" || p == "high"
  }

  /** JavaScript truthiness of an optional string key: present and not "". */
  predicate Truthy(s: Option<string>) {
    s.Some? && s.value != ""
  }
}
