/**
 * The entities of the task service: the task record, the enumerations it uses,
 * the inputs of creation and update, and the errors the services throw.
 */
module TaskTypes {
  import opened Wrappers

  type Id = string

  /** Milliseconds since the epoch; clocks and date parsing are inputs of the model. */
  type Timestamp = int

  /** A date parser in the role of `Date.parse`: `None` where it yields NaN. */
  type DateParser = string -> Option<Timestamp>

  datatype Status = Pending | InProgress | Completed
  datatype Priority = Low | Medium | High

  /** The run-time value of each status, as stored in a task row. */
  function StatusValue(s: Status): string {
    match s
    case Pending => "PENDING"
    case InProgress => "IN_PROGRESS"
    case Completed => "COMPLETED"
  }

  function PriorityValue(p: Priority): string {
    match p
    case Low => "LOW"
    case Medium => "MEDIUM"
    case High => "HIGH"
  }

  /** `Object.values(TaskStatus).includes(raw)`. */
  predicate IsStatusValue(raw: string) {
    raw == StatusValue(Pending) || raw == StatusValue(InProgress) || raw == StatusValue(Completed)
  }

  /** `Object.values(TaskPriority).includes(raw)`. */
  predicate IsPriorityValue(raw: string) {
    raw == PriorityValue(Low) || raw == PriorityValue(Medium) || raw == PriorityValue(High)
  }

  /** JavaScript truthiness of an optional string: present and not empty. */
  predicate Present(o: Option<string>) {
    o.Some? && o.value != ""
  }

  /**
   * A task row. `status` and `priority` hold the stored strings: the update path
   * copies patch values without checking them against the enumerations.
   */
  datatype Task = Task(
    id: Id,
    title: string,
    description: string,
    status: string,
    priority: string,
    dueDate: Option<Timestamp>,
    userId: string,
    createdAt: Timestamp)

  /** A task built from a creation input, before the store assigns id and creation time. */
  datatype Draft = Draft(
    title: string,
    description: string,
    status: string,
    priority: string,
    dueDate: Option<Timestamp>,
    userId: string)
  {
    /** The row the store writes for this draft. */
    function Persisted(id: Id, createdAt: Timestamp): Task {
      Task(id, title, description, status, priority, dueDate, userId, createdAt)
    }
  }

  /** The creation input; every field may be missing from the request body. */
  datatype CreateInput = CreateInput(
    title: Option<string>,
    description: Option<string>,
    status: Option<string>,
    priority: Option<string>,
    dueDate: Option<string>,
    userId: Option<string>)

  /**
   * The update input: the fields a request may overwrite, each optional. The
   * due date is nullable, so a key that is absent (`None`) differs from one
   * sent as null (`Some(None)`), which clears it.
   */
  datatype Patch = Patch(
    title: Option<string>,
    description: Option<string>,
    status: Option<string>,
    priority: Option<string>,
    dueDate: Option<Option<Timestamp>>,
    userId: Option<string>)

  /** The exceptions the task services throw. */
  datatype Failure =
    | TitleRequired
    | InvalidDueDate
    | InvalidPriority(priority: string)
    | InvalidStatus(status: string)
    | UserIdRequired
    | NotFound(id: Id)
    | Conflict
    | QueueError(message: string)
  {
    /** Failures reported with HTTP status 400. */
    predicate IsBadRequest() {
      TitleRequired? || InvalidDueDate? || InvalidPriority? || InvalidStatus? || UserIdRequired?
    }

    /** The exception's `message`. */
    function Message(): string {
      match this
      case TitleRequired => "Task title is required"
      case InvalidDueDate => "Invalid due date format"
      case InvalidPriority(p) => "Invalid priority: " + p
      case InvalidStatus(s) => "Invalid status: " + s
      case UserIdRequired => "User ID is required"
      case NotFound(id) => "Task with ID " + id + " not found"
      case Conflict => "Task is being updated. Please try again later."
      case QueueError(m) => m
    }
  }
}
