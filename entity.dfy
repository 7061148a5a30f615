/**
 * The Task entity: its enumerations, the row a stored task occupies, and the mutable
 * object the service reads, changes through setters and hands back to the store.
 */
module Entity {
  import opened Wrappers

  datatype TaskStatus = TODO | DOING | DONE
  datatype TaskPriority = LOW | MEDIUM | HIGH

  /** A task identifier: the canonical text of a UUID. */
  type TaskId = string
  /** A calendar date (`LocalDate`), by its YYYY-MM-DD text. */
  type Date = string
  /** A local date-time (`LocalDateTime`), as an instant on an abstract clock. */
  type Timestamp = int

  /** The declared length of the `title` column. */
  const TitleMaxLength: nat := 255

  /**
   * One row of the `tasks` table. Non-nullable columns are plain fields; `description`
   * is the one nullable column.
   */
  datatype TaskRow = TaskRow(
    id: TaskId,
    title: string,
    description: Option<string>,
    status: TaskStatus,
    priority: TaskPriority,
    dueDate: Date,
    createdAt: Timestamp)

  /** The column constraints that the type of a row does not already enforce. */
  predicate RowFits(row: TaskRow) {
    |row.title| <= TitleMaxLength
  }

  /** The entity object. Every reference field of the source is nullable, hence `Option`. */
  class Task {
    var id: Option<TaskId>
    var title: Option<string>
    var description: Option<string>
    var status: Option<TaskStatus>
    var priority: Option<TaskPriority>
    var dueDate: Option<Date>
    var createdAt: Timestamp

    /** `new Task()`: the field initialisers give status TODO, priority MEDIUM and the current time. */
    constructor (now: Timestamp)
      ensures id == None && title == None && description == None && dueDate == None
      ensures status == Some(TODO) && priority == Some(MEDIUM) && createdAt == now
    {
      id := None;
      title := None;
      description := None;
      status := Some(TODO);
      priority := Some(MEDIUM);
      dueDate := None;
      createdAt := now;
    }

    /** The object–relational layer materialising a stored row as an entity. */
    constructor Load(row: TaskRow)
      ensures Mirrors(row)
    {
      id := Some(row.id);
      title := Some(row.title);
      description := row.description;
      status := Some(row.status);
      priority := Some(row.priority);
      dueDate := Some(row.dueDate);
      createdAt := row.createdAt;
    }

    /** Every field of the object holds the corresponding column of `row`. */
    predicate Mirrors(row: TaskRow)
      reads this
    {
      && id == Some(row.id)
      && title == Some(row.title)
      && description == row.description
      && status == Some(row.status)
      && priority == Some(row.priority)
      && dueDate == Some(row.dueDate)
      && createdAt == row.createdAt
    }

    /** No non-nullable column would receive null. */
    predicate Complete()
      reads this
    {
      title.Some? && status.Some? && priority.Some? && dueDate.Some?
    }

    /** Every column constraint of the `tasks` table holds: the object can be flushed. */
    predicate Persistable()
      reads this
    {
      Complete() && |title.value| <= TitleMaxLength
    }

    /** The row this object is flushed as, under key `key` and with creation time `created`. */
    function AsRow(key: TaskId, created: Timestamp): (row: TaskRow)
      requires Complete()
      reads this
      ensures row.id == key && row.createdAt == created
      ensures Some(row.title) == title && row.description == description
      ensures Some(row.status) == status && Some(row.priority) == priority
      ensures Some(row.dueDate) == dueDate
      ensures RowFits(row) <==> Persistable()
    {
      TaskRow(key, title.value, description, status.value, priority.value, dueDate.value, created)
    }

    method SetId(v: Option<TaskId>)
      modifies this`id
      ensures id == v
    {
      id := v;
    }

    method SetTitle(v: Option<string>)
      modifies this`title
      ensures title == v
    {
      title := v;
    }

    method SetDescription(v: Option<string>)
      modifies this`description
      ensures description == v
    {
      description := v;
    }

    method SetStatus(v: Option<TaskStatus>)
      modifies this`status
      ensures status == v
    {
      status := v;
    }

    method SetPriority(v: Option<TaskPriority>)
      modifies this`priority
      ensures priority == v
    {
      priority := v;
    }

    method SetDueDate(v: Option<Date>)
      modifies this`dueDate
      ensures dueDate == v
    {
      dueDate := v;
    }

    /** The Java setter also accepts null; the model takes only a time, which is all the service ever passes. */
    method SetCreatedAt(v: Timestamp)
      modifies this`createdAt
      ensures createdAt == v
    {
      createdAt := v;
    }
  }
}
