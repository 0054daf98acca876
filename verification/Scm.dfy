/** The service control manager as its clients see it: a database of services,
    a table of open handles, and the rules of each call. The system's own
    choices (which free handle it hands out, whether it refuses a call for
    reasons outside the database) come in as a verdict. */
module Scm {

  type Name = string
  type Handle = nat

  const NULL: Handle := 0

  const NO_ERROR := 0
  const ERROR_FILE_NOT_FOUND := 2
  const ERROR_INVALID_HANDLE := 6
  const ERROR_NOT_ENOUGH_MEMORY := 8
  const ERROR_OPERATION_ABORTED := 995
  const ERROR_SERVICE_ALREADY_RUNNING := 1056
  const ERROR_SERVICE_DOES_NOT_EXIST := 1060
  const ERROR_SERVICE_NOT_ACTIVE := 1062
  const ERROR_SERVICE_MARKED_FOR_DELETE := 1072
  const ERROR_SERVICE_EXISTS := 1073

  /** Codes that report on the state of a service; the system uses them for
      nothing else. */
  predicate IsStateCode(code: nat) {
    code == ERROR_SERVICE_ALREADY_RUNNING || code == ERROR_SERVICE_DOES_NOT_EXIST
    || code == ERROR_SERVICE_NOT_ACTIVE || code == ERROR_SERVICE_MARKED_FOR_DELETE
    || code == ERROR_SERVICE_EXISTS
  }

  /** Codes for any other failure, such as 5, access denied. */
  type RefusalCode = code: nat | code != NO_ERROR && !IsStateCode(code) witness 5

  type ErrorCode = code: nat | code != NO_ERROR witness 2

  datatype Verdict = Grant(handle: Handle) | Refuse(code: RefusalCode)

  datatype Service = Service(running: bool, marked: bool)

  datatype Object = Manager | OnService(name: Name)

  datatype Database = Database(services: map<Name, Service>, handles: map<Handle, Object>)

  /** What a call leaves behind: `value` is its result, NULL (or FALSE) on
      failure, and `error` the last-error code it then sets. */
  datatype Reply = Reply(db: Database, value: nat, error: nat)

  function Failure(db: Database, code: nat): Reply {
    Reply(db, NULL, code)
  }

  predicate Refers(db: Database, h: Handle, n: Name) {
    h in db.handles && db.handles[h] == OnService(n)
  }

  predicate Referenced(db: Database, n: Name) {
    exists h :: h in db.handles && Refers(db, h, n)
  }

  /** Marked for deletion and stopped: only open handles keep it. */
  predicate Doomed(db: Database, n: Name) {
    n in db.services && db.services[n].marked && !db.services[n].running
  }

  predicate Free(db: Database, h: Handle) {
    h != NULL && h !in db.handles
  }

  /** Hands out a handle. A verdict that names no free handle is a failure. */
  function Allocate(db: Database, h: Handle, obj: Object): Reply {
    if !Free(db, h) then Failure(db, ERROR_NOT_ENOUGH_MEMORY)
    else Reply(db.(handles := db.handles[h := obj]), h, NO_ERROR)
  }

  function OpenSCManager(db: Database, v: Verdict): Reply {
    match v
    case Refuse(code) => Failure(db, code)
    case Grant(h) => Allocate(db, h, Manager)
  }

  predicate IsManager(db: Database, h: Handle) {
    h in db.handles && db.handles[h] == Manager
  }

  function CreateService(db: Database, mgr: Handle, n: Name, v: Verdict): Reply {
    if !IsManager(db, mgr) then Failure(db, ERROR_INVALID_HANDLE)
    else match v
      case Refuse(code) => Failure(db, code)
      case Grant(h) =>
        if n in db.services then
          Failure(db, if db.services[n].marked then ERROR_SERVICE_MARKED_FOR_DELETE else ERROR_SERVICE_EXISTS)
        else
          var r := Allocate(db, h, OnService(n));
          if r.value == NULL then r
          else r.(db := r.db.(services := db.services[n := Service(false, false)]))
  }

  function OpenService(db: Database, mgr: Handle, n: Name, v: Verdict): Reply {
    if !IsManager(db, mgr) then Failure(db, ERROR_INVALID_HANDLE)
    else match v
      case Refuse(code) => Failure(db, code)
      case Grant(h) =>
        if n !in db.services then Failure(db, ERROR_SERVICE_DOES_NOT_EXIST)
        else Allocate(db, h, OnService(n))
  }

  /** A call on a service handle: finds the service or fails. */
  predicate IsService(db: Database, h: Handle) {
    h in db.handles && db.handles[h].OnService? && db.handles[h].name in db.services
  }

  function Update(db: Database, n: Name, s: Service): Reply {
    Reply(db.(services := db.services[n := s]), 1, NO_ERROR)
  }

  function StartService(db: Database, h: Handle, v: Verdict): Reply {
    if !IsService(db, h) then Failure(db, ERROR_INVALID_HANDLE)
    else
      var n := db.handles[h].name;
      var s := db.services[n];
      if v.Refuse? then Failure(db, v.code)
      else if s.marked then Failure(db, ERROR_SERVICE_MARKED_FOR_DELETE)
      else if s.running then Failure(db, ERROR_SERVICE_ALREADY_RUNNING)
      else Update(db, n, s.(running := true))
  }

  /** `ControlService` with the stop control; a kernel driver stops at once. */
  function StopService(db: Database, h: Handle, v: Verdict): Reply {
    if !IsService(db, h) then Failure(db, ERROR_INVALID_HANDLE)
    else
      var n := db.handles[h].name;
      var s := db.services[n];
      if v.Refuse? then Failure(db, v.code)
      else if !s.running then Failure(db, ERROR_SERVICE_NOT_ACTIVE)
      else Update(db, n, s.(running := false))
  }

  /** Marks the service; it stays in the database while it runs or is referenced. */
  function DeleteService(db: Database, h: Handle, v: Verdict): Reply {
    if !IsService(db, h) then Failure(db, ERROR_INVALID_HANDLE)
    else
      var n := db.handles[h].name;
      var s := db.services[n];
      if v.Refuse? then Failure(db, v.code)
      else if s.marked then Failure(db, ERROR_SERVICE_MARKED_FOR_DELETE)
      else Update(db, n, s.(marked := true))
  }

  /** Removes a doomed service that nothing refers to. */
  function Reap(db: Database, n: Name): Database {
    if Doomed(db, n) && !Referenced(db, n) then db.(services := db.services - {n}) else db
  }

  function CloseServiceHandle(db: Database, h: Handle): Reply {
    if h !in db.handles then Failure(db, ERROR_INVALID_HANDLE)
    else
      var rest := db.(handles := db.handles - {h});
      Reply(match db.handles[h] case Manager => rest case OnService(n) => Reap(rest, n), 1, NO_ERROR)
  }

  // ----- Consistent databases

  /** Handles refer to services that exist, and doomed services are referenced. */
  ghost predicate Settled(db: Database) {
    && NULL !in db.handles
    && (forall h :: h in db.handles && db.handles[h].OnService? ==> db.handles[h].name in db.services)
    && (forall n :: n in db.services && Doomed(db, n) ==> Referenced(db, n))
  }
}
