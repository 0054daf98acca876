/** The four lifecycle functions as programs over the service control manager,
    one API call to a step, so that any number of clients can interleave. */
module Lifecycle {
  import opened Scm

  /** `unset` is what the local `schService` of the install function happens to
      contain before anything is assigned to it. */
  datatype Operation = Install(unset: Handle) | Start | Stop | Unload

  datatype Stage = OpenManager | Setup | OpenTarget | Act | CloseTarget | CloseManager | Done

  /** What a client did to handles, and the first failure it met, in order. */
  datatype Note = Opened(handle: Handle) | Failed(code: nat) | Closed(handle: Handle)

  /** One activation: its locals, where it stands, its history, and the verdicts it
      has met in the calls that may fail. `isSet` tells whether `svc` has been given
      a value by the program. */
  datatype Client = Client(op: Operation, name: Name, stage: Stage,
                           mgr: Handle, svc: Handle, isSet: bool, err: nat, log: seq<Note>, met: seq<Verdict>)

  function Enter(op: Operation, n: Name): Client {
    Client(op, n, OpenManager, NULL, if op.Install? then op.unset else NULL, !op.Install?, NO_ERROR, [], [])
  }

  function Fail(k: Client, code: nat, next: Stage): Client {
    k.(err := code, log := k.log + [Failed(code)], stage := next)
  }

  function Meet(k: Client, v: Verdict): Client {
    k.(met := k.met + [v])
  }

  /** The call between opening the service and the cleanup. */
  function ActCall(db: Database, k: Client, v: Verdict): Reply {
    match k.op
    case Install(_) => Reply(db, 1, NO_ERROR)
    case Start => StartService(db, k.svc, v)
    case Stop => StopService(db, k.svc, v)
    case Unload => DeleteService(db, k.svc, v)
  }

  function StepOpenManager(db: Database, k: Client, v: Verdict): (Database, Client) {
    var r, k := OpenSCManager(db, v), Meet(k, v);
    if r.value == NULL then
      // Install and stop return at once; start and unload fall into a cleanup
      // that finds both handles NULL.
      (db, Fail(k, r.error, if k.op.Install? || k.op.Stop? then Done else CloseTarget))
    else
      (r.db, k.(mgr := r.value, log := k.log + [Opened(r.value)],
                stage := if k.op.Install? then Setup else OpenTarget))
  }

  function StepSetup(db: Database, k: Client, v: Verdict): (Database, Client) {
    match v
    case Refuse(code) => (db, Fail(k, code, CloseTarget))
    case Grant(_) => (db, k.(stage := OpenTarget))
  }

  function StepOpenTarget(db: Database, k: Client, v: Verdict): (Database, Client) {
    var r := if k.op.Install? then CreateService(db, k.mgr, k.name, v) else OpenService(db, k.mgr, k.name, v);
    var k' := Meet(k, v).(svc := r.value, isSet := true);
    if r.value == NULL then (r.db, Fail(k', r.error, CloseTarget))
    else (r.db, k'.(log := k.log + [Opened(r.value)], stage := if k.op.Install? then CloseTarget else Act))
  }

  function StepAct(db: Database, k: Client, v: Verdict): (Database, Client) {
    var r, k := ActCall(db, k, v), Meet(k, v);
    (r.db, if r.value == NULL then Fail(k, r.error, CloseTarget) else k.(stage := CloseTarget))
  }

  /** `if (h) CloseServiceHandle(h);` */
  function StepClose(db: Database, k: Client, h: Handle, next: Stage): (Database, Client) {
    if h == NULL then (db, k.(stage := next))
    else (CloseServiceHandle(db, h).db, k.(log := k.log + [Closed(h)], stage := next))
  }

  /** One step of one client. */
  function Advance(db: Database, k: Client, v: Verdict): (Database, Client) {
    match k.stage
    case OpenManager => StepOpenManager(db, k, v)
    case Setup => StepSetup(db, k, v)
    case OpenTarget => StepOpenTarget(db, k, v)
    case Act => StepAct(db, k, v)
    case CloseTarget => StepClose(db, k, k.svc, CloseManager)
    case CloseManager => StepClose(db, k, k.mgr, Done)
    case Done => (db, k)
  }

  // ----- One client alone

  /** A client running by itself, one verdict to a step. */
  function Complete(db: Database, k: Client, vs: seq<Verdict>): (Database, Client)
    decreases |vs|
  {
    if vs == [] then (db, k)
    else var (db', k') := Advance(db, k, vs[0]); Complete(db', k', vs[1..])
  }

  // ----- Many clients

  datatype World = World(db: Database, clients: map<nat, Client>)

  /** A client calls one of the functions, or takes its next step. */
  datatype Event = Enters(id: nat, op: Operation, name: Name) | Advances(id: nat, verdict: Verdict)

  function Next(w: World, e: Event): World {
    match e
    case Enters(id, op, n) =>
      if id in w.clients && w.clients[id].stage != Done then w
      else w.(clients := w.clients[id := Enter(op, n)])
    case Advances(id, v) =>
      if id !in w.clients then w
      else
        var (db', k') := Advance(w.db, w.clients[id], v);
        World(db', w.clients[id := k'])
  }

  function Run(w: World, es: seq<Event>): World
    decreases |es|
  {
    if es == [] then w else Run(Next(w, es[0]), es[1..])
  }

  /** None of the events is of client `id`. */
  predicate Foreign(es: seq<Event>, id: nat) {
    forall e :: e in es ==> e.id != id
  }

  ghost predicate AllOut(w: World) {
    forall id :: id in w.clients ==> w.clients[id].stage == Done
  }
}
