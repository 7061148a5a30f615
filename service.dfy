/**
 * The task service over its repository. The repository is the map from identifier to stored
 * row; `save` inserts an entity without an identifier under a freshly generated one and
 * otherwise overwrites the row under the entity's identifier. The generated identifier and the
 * current time are parameters.
 */
module TaskService {
  import opened Wrappers
  import opened Text
  import opened Entity
  import opened Dto
  import opened Exceptions
  import opened TaskMapper

  datatype Result<T> = Ok(value: T) | Err(failure: Failure)

  /** The message of the not-found exception raised for `id`. */
  function NotFoundMessage(id: TaskId): string {
    "Task não encontrada: " + id
  }

  /** The row `create` stores: trimmed title, status TODO, the other fields as supplied. */
  function CreatedRow(dto: TaskCreateRequest, key: TaskId, now: Timestamp): (row: TaskRow)
    requires dto.title.Some? && dto.dueDate.Some? && dto.priority.Some?
    ensures row.id == key && row.createdAt == now && row.status == TODO
    ensures row.title == JavaTrim(dto.title.value) && row.description == dto.description
    ensures row.priority == dto.priority.value && row.dueDate == dto.dueDate.value
  {
    TaskRow(key, JavaTrim(dto.title.value), dto.description, TODO, dto.priority.value,
            dto.dueDate.value, now)
  }

  /** A create request the store accepts: nothing `create` dereferences is null and every column fits. */
  predicate CanCreate(dto: TaskCreateRequest) {
    && dto.title.Some? && dto.dueDate.Some? && dto.priority.Some?
    && |JavaTrim(dto.title.value)| <= TitleMaxLength
  }

  /** The title after an update: the trimmed new title if there is one and it is not blank, else the old one. */
  function UpdatedTitle(current: string, given: Option<string>): string {
    if given.Some? && JavaTrim(given.value) != [] then JavaTrim(given.value) else current
  }

  /** The row after `update` applied `dto` to `row` through the entity's setters. */
  function ApplyUpdate(row: TaskRow, dto: TaskUpdateRequest): (r: TaskRow)
    ensures r.id == row.id && r.createdAt == row.createdAt
    ensures NotBlank(dto.title) ==> r.title == JavaTrim(dto.title.value)
    ensures !NotBlank(dto.title) ==> r.title == row.title
    ensures dto.description.Some? ==> r.description == dto.description
    ensures dto.description.None? ==> r.description == row.description
    ensures r.status == if dto.status.Some? then dto.status.value else row.status
    ensures r.priority == if dto.priority.Some? then dto.priority.value else row.priority
    ensures r.dueDate == if dto.dueDate.Some? then dto.dueDate.value else row.dueDate
  {
    row.(title := UpdatedTitle(row.title, dto.title),
         description := if dto.description.Some? then dto.description else row.description,
         status := dto.status.GetOr(row.status),
         priority := dto.priority.GetOr(row.priority),
         dueDate := dto.dueDate.GetOr(row.dueDate))
  }

  /** Applying the same update twice is applying it once. */
  lemma {:induction false} UpdateIdempotent(row: TaskRow, dto: TaskUpdateRequest)
    ensures ApplyUpdate(ApplyUpdate(row, dto), dto) == ApplyUpdate(row, dto)
  {
    if NotBlank(dto.title) {
      StripIdempotent(dto.title.value, IsJavaSpace);
    }
  }

  /** The status patch is the full update that carries only a status. */
  lemma StatusPatchIsStatusOnlyUpdate(row: TaskRow, s: TaskStatus)
    ensures row.(status := s) == ApplyUpdate(row, TaskUpdateRequest(None, None, Some(s), None, None))
  {
  }

  /** An update whose fields are all null leaves the row as it is. */
  lemma EmptyUpdateChangesNothing(row: TaskRow)
    ensures ApplyUpdate(row, TaskUpdateRequest(None, None, None, None, None)) == row
  {
  }

  /** No row of `m` has a blank title. */
  ghost predicate NoBlankTitles(m: map<TaskId, TaskRow>) {
    forall key :: key in m ==> JavaTrim(m[key].title) != []
  }

  /** An update never makes a non-blank title blank: a replacement title is itself trimmed and non-empty. */
  lemma UpdateKeepsTitleNonBlank(row: TaskRow, dto: TaskUpdateRequest)
    requires JavaTrim(row.title) != []
    ensures JavaTrim(ApplyUpdate(row, dto).title) != []
  {
    var t := ApplyUpdate(row, dto).title;
    if dto.title.Some? && JavaTrim(dto.title.value) != [] {
      assert t == JavaTrim(dto.title.value);
      StripIdempotent(dto.title.value, IsJavaSpace);
    } else {
      assert t == row.title;
    }
  }

  /** Writing a row with a non-blank title keeps every title non-blank. */
  lemma PutKeepsNoBlankTitles(m: map<TaskId, TaskRow>, key: TaskId, row: TaskRow)
    requires NoBlankTitles(m) && JavaTrim(row.title) != []
    ensures NoBlankTitles(m[key := row])
  {
  }

  class TaskService {
    var repository: map<TaskId, TaskRow>

    /** Every row is stored under its own identifier and satisfies the column constraints. */
    ghost predicate Valid()
      reads this
    {
      forall key :: key in repository ==> repository[key].id == key && RowFits(repository[key])
    }

    /** No stored title is blank. */
    ghost predicate TitlesNonBlank()
      reads this
    {
      NoBlankTitles(repository)
    }

    /** The service over the injected repository, whose rows were persisted under the column constraints. */
    constructor (repo: map<TaskId, TaskRow>)
      requires forall key :: key in repo ==> repo[key].id == key && RowFits(repo[key])
      ensures repository == repo && Valid()
    {
      repository := repo;
    }

    /**
     * `repository.save`: an entity without an identifier gets `freshId`; the row under the
     * identifier is then written, unless a column constraint fails, in which case the
     * transaction rolls back. The creation time of an existing row is never overwritten.
     */
    method Save(t: Task, freshId: TaskId) returns (ok: bool)
      requires Valid()
      requires t.id.None? ==> freshId !in repository
      modifies this, t`id
      ensures Valid()
      ensures t.id == if old(t.id).None? then Some(freshId) else old(t.id)
      ensures ok <==> t.Persistable()
      ensures ok ==> repository == old(repository)[t.id.value := t.AsRow(t.id.value,
                        if t.id.value in old(repository) then old(repository)[t.id.value].createdAt else t.createdAt)]
      ensures !ok ==> repository == old(repository)
    {
      if t.id.None? {
        t.SetId(Some(freshId));
      }
      var key := t.id.value;
      if !t.Persistable() {
        return false;
      }
      var created := if key in repository then repository[key].createdAt else t.createdAt;
      repository := repository[key := t.AsRow(key, created)];
      ok := true;
    }

    /** The entity `create` builds with `new Task()` and five setter calls. */
    static method NewTask(dto: TaskCreateRequest, now: Timestamp) returns (t: Task)
      requires dto.title.Some?
      ensures fresh(t)
      ensures t.id.None? && t.createdAt == now
      ensures t.title == Some(JavaTrim(dto.title.value)) && t.description == dto.description
      ensures t.dueDate == dto.dueDate && t.priority == dto.priority && t.status == Some(TODO)
    {
      t := new Task(now);
      t.SetTitle(Some(JavaTrim(dto.title.value)));
      t.SetDescription(dto.description);
      t.SetDueDate(dto.dueDate);
      t.SetPriority(dto.priority);
      t.SetStatus(Some(TODO));
    }

    /** The setter calls of `update`: a null field is skipped, and so is a blank title. */
    static method ApplySetters(t: Task, dto: TaskUpdateRequest, ghost row: TaskRow)
      requires t.Mirrors(row)
      modifies t
      ensures t.Mirrors(ApplyUpdate(row, dto))
    {
      if dto.title.Some? {
        var s := JavaTrim(dto.title.value);
        if s != [] {
          t.SetTitle(Some(s));
        }
      }
      if dto.description.Some? {
        t.SetDescription(dto.description);
      }
      if dto.status.Some? {
        t.SetStatus(dto.status);
      }
      if dto.priority.Some? {
        t.SetPriority(dto.priority);
      }
      if dto.dueDate.Some? {
        t.SetDueDate(dto.dueDate);
      }
    }

    /** `create`: builds a new entity through its setters and saves it. */
    method Create(dto: TaskCreateRequest, freshId: TaskId, now: Timestamp) returns (r: Result<Task>)
      requires Valid() && freshId !in repository
      modifies this
      ensures Valid()
      ensures r.Ok? <==> CanCreate(dto)
      ensures r.Ok? ==> && fresh(r.value)
                        && r.value.Mirrors(CreatedRow(dto, freshId, now))
                        && repository == old(repository)[freshId := CreatedRow(dto, freshId, now)]
      ensures r.Err? ==> r.failure.Internal? && repository == old(repository)
      ensures old(TitlesNonBlank()) && CreateRequestValid(dto) ==> TitlesNonBlank()
    {
      if dto.title.None? {
        // `dto.title().trim()` dereferences null
        return Err(Internal("NullPointerException"));
      }
      var t := NewTask(dto, now);
      assert t.Persistable() <==> CanCreate(dto);
      var ok := Save(t, freshId);
      if !ok {
        return Err(Internal("constraint violation"));
      }
      ghost var row := CreatedRow(dto, freshId, now);
      assert t.AsRow(freshId, now) == row;
      assert repository == old(repository)[freshId := row];
      if CreateRequestValid(dto) && NoBlankTitles(old(repository)) {
        StripIdempotent(dto.title.value, IsJavaSpace);
        PutKeepsNoBlankTitles(old(repository), freshId, row);
      }
      r := Ok(t);
    }

    /** `findAll`: every stored task when there is no filter, otherwise those with that status. */
    function FindAll(filter: Option<TaskStatus>): (tasks: set<TaskRow>)
      reads this
      ensures filter.None? ==> tasks == repository.Values
      ensures filter.Some? ==> forall row :: row in tasks <==> row in repository.Values && row.status == filter.value
    {
      set row | row in repository.Values && (filter.None? || row.status == filter.value)
    }

    /**
     * The three status filters split the unfiltered listing: every task is listed under
     * exactly one status, and under the status it has.
     */
    lemma FindAllPartition()
      ensures FindAll(None) == FindAll(Some(TODO)) + FindAll(Some(DOING)) + FindAll(Some(DONE))
      ensures forall s, u :: s != u ==> FindAll(Some(s)) * FindAll(Some(u)) == {}
    {
    }

    /** Every listed task is the one `findById` returns for its identifier. */
    lemma FindAllAgreesWithFind(filter: Option<TaskStatus>, row: TaskRow)
      requires Valid() && row in FindAll(filter)
      ensures row.id in repository && repository[row.id] == row
    {
      var key :| key in repository && repository[key] == row;
    }

    /** `findById`: the stored task as a newly loaded entity, or NotFound. */
    method FindById(key: TaskId) returns (r: Result<Task>)
      ensures key !in repository ==> r == Err(NotFound(NotFoundMessage(key)))
      ensures key in repository ==> r.Ok? && fresh(r.value) && r.value.Mirrors(repository[key])
    {
      if key !in repository {
        return Err(NotFound(NotFoundMessage(key)));
      }
      var t := new Task.Load(repository[key]);
      r := Ok(t);
    }

    /** `update`: loads the task, applies each non-null field through its setter and saves it. */
    method Update(key: TaskId, dto: TaskUpdateRequest) returns (r: Result<Task>)
      requires Valid()
      modifies this
      ensures Valid()
      ensures key !in old(repository) ==> r == Err(NotFound(NotFoundMessage(key))) && repository == old(repository)
      ensures key in old(repository) && RowFits(ApplyUpdate(old(repository)[key], dto)) ==>
                && r.Ok? && fresh(r.value)
                && r.value.Mirrors(ApplyUpdate(old(repository)[key], dto))
                && repository == old(repository)[key := ApplyUpdate(old(repository)[key], dto)]
      ensures key in old(repository) && !RowFits(ApplyUpdate(old(repository)[key], dto)) ==>
                r.Err? && r.failure.Internal? && repository == old(repository)
      ensures old(TitlesNonBlank()) ==> TitlesNonBlank()
    {
      var found := FindById(key);
      if found.Err? {
        return Err(found.failure);
      }
      var t := found.value;
      ghost var row := repository[key];
      ApplySetters(t, dto, row);
      ghost var next := ApplyUpdate(row, dto);
      assert t.Persistable() <==> RowFits(next);
      var ok := Save(t, key);
      if !ok {
        return Err(Internal("constraint violation"));
      }
      assert t.AsRow(key, row.createdAt) == next;
      assert repository == old(repository)[key := next];
      if NoBlankTitles(old(repository)) {
        UpdateKeepsTitleNonBlank(row, dto);
        PutKeepsNoBlankTitles(old(repository), key, next);
      }
      r := Ok(t);
    }

    /** `updateStatus`: loads the task, sets its status and saves it. */
    method UpdateStatus(key: TaskId, dto: TaskStatusUpdateRequest) returns (r: Result<Task>)
      requires Valid()
      modifies this
      ensures Valid()
      ensures key !in old(repository) ==> r == Err(NotFound(NotFoundMessage(key))) && repository == old(repository)
      ensures key in old(repository) && dto.status.Some? ==>
                && r.Ok? && fresh(r.value)
                && r.value.Mirrors(old(repository)[key].(status := dto.status.value))
                && repository == old(repository)[key := old(repository)[key].(status := dto.status.value)]
      ensures key in old(repository) && dto.status.None? ==>
                r.Err? && r.failure.Internal? && repository == old(repository)
      ensures old(TitlesNonBlank()) ==> TitlesNonBlank()
    {
      var found := FindById(key);
      if found.Err? {
        return Err(found.failure);
      }
      var t := found.value;
      t.SetStatus(dto.status);
      var ok := Save(t, key);
      if !ok {
        return Err(Internal("constraint violation"));
      }
      r := Ok(t);
    }

    /** `delete`: loads the task and removes its row. */
    method Delete(key: TaskId) returns (r: Result<()>)
      requires Valid()
      modifies this
      ensures Valid()
      ensures key !in old(repository) ==> r == Err(NotFound(NotFoundMessage(key))) && repository == old(repository)
      ensures key in old(repository) ==> r == Ok(()) && repository == old(repository) - {key}
      ensures old(TitlesNonBlank()) ==> TitlesNonBlank()
    {
      var found := FindById(key);
      if found.Err? {
        return Err(found.failure);
      }
      repository := repository - {found.value.id.value};
      r := Ok(());
    }
  }

  /** Fetching a task right after creating it gives the response that `create` gave. */
  method CreateThenFind(svc: TaskService, dto: TaskCreateRequest, freshId: TaskId, now: Timestamp)
    returns (created: Result<Task>, found: Result<Task>)
    requires svc.Valid() && freshId !in svc.repository
    modifies svc
    ensures created.Ok? ==> found.Ok? && ToResponse(found.value) == ToResponse(created.value)
  {
    created := svc.Create(dto, freshId, now);
    found := svc.FindById(freshId);
  }

  /** After a successful delete, fetching the same identifier fails with NotFound. */
  method DeleteThenFind(svc: TaskService, key: TaskId) returns (deleted: Result<()>, found: Result<Task>)
    requires svc.Valid()
    modifies svc
    ensures deleted.Ok? ==> found == Err(NotFound(NotFoundMessage(key)))
  {
    deleted := svc.Delete(key);
    found := svc.FindById(key);
  }
}
