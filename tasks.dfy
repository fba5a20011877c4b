/** The task assignment engine: task creation with cross-entity validation,
    role-scoped listing, and status updates restricted to the task's owner. */
module Tasks {
  import opened Common
  import opened Store

  /** The caller's identity, as the request's token gives it. */
  datatype RequestUser = RequestUser(id: Id, role: Role)

  datatype CreateTaskDto = CreateTaskDto(title: string, description: Option<string>,
                                         assignedTo: Id, customerId: Id, status: Option<TaskStatus>)

  const AssigneeNotFound: Error := Http(NotFound, "Assigned user not found")
  const AssigneeNotEmployee: Error := Http(BadRequest, "Assigned user must have EMPLOYEE role")
  const TaskNotFound: Error := Http(NotFound, "Task not found")
  const NotOwnTask: Error := Http(Forbidden, "You can only update your own tasks")

  /** The `where` clause of findAll: no filter for an ADMIN, the caller's own
      tasks for anyone else. */
  function ScopeFilter(u: RequestUser): (f: Option<Id>)
    ensures f.None? <==> u.role == ADMIN
    ensures f.Some? ==> f.value == u.id
  {
    if u.role == ADMIN then None else Some(u.id)
  }

  /** The ownership check of updateStatus: an EMPLOYEE may only touch a task
      assigned to it; an ADMIN may touch any. */
  function CheckOwnership(u: RequestUser, t: Task): (r: Option<Error>)
    ensures r.None? <==> u.role == ADMIN || t.assignedTo == u.id
    ensures r.Some? ==> r.value == NotOwnTask
  {
    match u.role
    case ADMIN => None
    case EMPLOYEE => if t.assignedTo != u.id then Some(NotOwnTask) else None
  }

  /** A caller may change the status of exactly the tasks its listing shows. */
  lemma OwnershipMatchesScope(u: RequestUser, t: Task)
    ensures CheckOwnership(u, t).None? <==> (ScopeFilter(u).None? || t.assignedTo == ScopeFilter(u).value)
  {
  }

  class TasksService {
    const db: Database

    constructor (db: Database)
      ensures this.db == db
    {
      this.db := db;
    }

    /** The assignee must exist and be an EMPLOYEE. */
    function ValidateAssignee(assignedTo: Id): (r: Option<Error>)
      reads db
      ensures r.None? <==> assignedTo in db.users && db.users[assignedTo].role == EMPLOYEE
      ensures assignedTo !in db.users ==> r == Some(AssigneeNotFound)
      ensures assignedTo in db.users && db.users[assignedTo].role != EMPLOYEE ==> r == Some(AssigneeNotEmployee)
    {
      if assignedTo !in db.users then Some(AssigneeNotFound)
      else if db.users[assignedTo].role != EMPLOYEE then Some(AssigneeNotEmployee)
      else None
    }

    /** The customer must exist. */
    function ValidateCustomer(customerId: Id): (r: Option<Error>)
      reads db
      ensures r.None? <==> customerId in db.customers
      ensures r.Some? ==> r.value == CustomerNotFound
    {
      if customerId !in db.customers then Some(CustomerNotFound) else None
    }

    /** The checks of create, in their order: the assignee first, then the
        customer. The first that fails decides the error. */
    function ValidateCreate(dto: CreateTaskDto): (r: Option<Error>)
      reads db
      ensures r.None? <==> && dto.assignedTo in db.users
                           && db.users[dto.assignedTo].role == EMPLOYEE
                           && dto.customerId in db.customers
      ensures dto.assignedTo !in db.users ==> r == Some(AssigneeNotFound)
      ensures dto.assignedTo in db.users && db.users[dto.assignedTo].role != EMPLOYEE ==>
                r == Some(AssigneeNotEmployee)
      ensures ValidateAssignee(dto.assignedTo).None? && dto.customerId !in db.customers ==>
                r == Some(CustomerNotFound)
    {
      var assignee := ValidateAssignee(dto.assignedTo);
      if assignee.Some? then assignee else ValidateCustomer(dto.customerId)
    }

    method Create(dto: CreateTaskDto, newId: Id, now: nat) returns (r: Result<Task, Error>)
      requires db.Valid()
      modifies db
      ensures db.Valid() && db.users == old(db.users) && db.customers == old(db.customers)
      ensures old(ValidateCreate(dto)).Some? ==>
        r == Err(old(ValidateCreate(dto)).value) && db.tasks == old(db.tasks)
      ensures old(ValidateCreate(dto)).None? && newId in old(db.tasks) ==>
        r == Err(Unhandled(StoreError(UniqueViolation, ["id"]))) && db.tasks == old(db.tasks)
      ensures old(ValidateCreate(dto)).None? && newId !in old(db.tasks) ==>
        var t := Task(newId, dto.title, dto.description, dto.status.GetOr(PENDING),
                      dto.assignedTo, dto.customerId, now, now);
        r == Ok(t) && db.tasks == old(db.tasks)[newId := t]
      // A created task is assigned to an existing EMPLOYEE and linked to an existing customer.
      ensures r.Ok? ==>
        && r.value.assignedTo in db.users && db.users[r.value.assignedTo].role == EMPLOYEE
        && r.value.customerId in db.customers
    {
      var invalid := ValidateAssignee(dto.assignedTo);
      if invalid.Some? {
        r := Err(invalid.value);
        return;
      }
      invalid := ValidateCustomer(dto.customerId);
      if invalid.Some? {
        r := Err(invalid.value);
        return;
      }
      var data := TaskData(dto.title, dto.description, dto.status.GetOr(PENDING),
                           dto.assignedTo, dto.customerId);
      var created := db.CreateTask(data, newId, now);
      match created
      case Ok(t) => r := Ok(t);
      case Err(e) => r := Err(Unhandled(e));
    }

    /** The tasks the caller may see, newest first: every task for an ADMIN,
        the tasks assigned to the caller for an EMPLOYEE. */
    method FindAll(u: RequestUser) returns (r: seq<Task>, ghost order: seq<Id>)
      requires db.Valid()
      ensures ListsNewestFirst(order, TaskTimes(Matching(db.tasks, ScopeFilter(u))))
      ensures r == Rows(order, db.tasks)
      ensures forall t :: t in r <==> t in db.tasks.Values && (u.role == ADMIN || t.assignedTo == u.id)
      ensures u.role == ADMIN ==> |r| == |db.tasks|
      ensures forall i, j :: 0 <= i < j < |r| ==> r[i].createdAt >= r[j].createdAt
    {
      r, order := db.ListTasks(ScopeFilter(u));
      ListingCount(order, TaskTimes(Matching(db.tasks, ScopeFilter(u))));
    }

    function GetTaskById(id: Id): (r: Result<Task, Error>)
      reads db
      requires db.Valid()
      ensures r.Ok? <==> id in db.tasks
      ensures r.Ok? ==> r.value == db.tasks[id] && r.value.id == id
      ensures r.Err? ==> r.error == TaskNotFound
    {
      if id in db.tasks then Ok(db.tasks[id]) else Err(TaskNotFound)
    }

    method UpdateStatus(id: Id, status: TaskStatus, u: RequestUser, now: nat) returns (r: Result<Task, Error>)
      requires db.Valid()
      modifies db
      ensures db.Valid() && db.users == old(db.users) && db.customers == old(db.customers)
      ensures id !in old(db.tasks) ==> r == Err(TaskNotFound) && db.tasks == old(db.tasks)
      ensures id in old(db.tasks) && CheckOwnership(u, old(db.tasks)[id]).Some? ==>
        r == Err(NotOwnTask) && db.tasks == old(db.tasks)
      ensures id in old(db.tasks) && CheckOwnership(u, old(db.tasks)[id]).None? ==>
        var t := old(db.tasks)[id].(status := status, updatedAt := now);
        r == Ok(t) && db.tasks == old(db.tasks)[id := t]
      // Only the addressed task changes, and only in its status and update time.
      ensures forall k :: k in old(db.tasks) && k != id ==> k in db.tasks && db.tasks[k] == old(db.tasks)[k]
      ensures db.tasks.Keys == old(db.tasks).Keys
    {
      var found := GetTaskById(id);
      if found.Err? {
        r := Err(found.error);
        return;
      }
      var denied := CheckOwnership(u, found.value);
      if denied.Some? {
        r := Err(denied.value);
        return;
      }
      var updated := db.UpdateTaskStatus(id, status, now);
      match updated
      case Ok(t) => r := Ok(t);
      case Err(e) => r := Err(Unhandled(e));
    }
  }
}
