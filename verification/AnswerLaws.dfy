/** What the functions answer, spelled out: which code stands for which state of the
    service, when a call must succeed, and what it then leaves behind. */
module AnswerLaws {
  import opened Scm
  import opened Lifecycle
  import opened SoloLaws
  import opened RunLaws
  import opened LinearLaws

  // ----- What the database calls for, case by case

  /** The codes as the system defines them. */
  lemma CodeNumbers()
    ensures NO_ERROR == 0 && ERROR_FILE_NOT_FOUND == 2 && ERROR_INVALID_HANDLE == 6 && ERROR_OPERATION_ABORTED == 995
    ensures ERROR_SERVICE_ALREADY_RUNNING == 1056 && ERROR_SERVICE_DOES_NOT_EXIST == 1060
    ensures ERROR_SERVICE_NOT_ACTIVE == 1062 && ERROR_SERVICE_MARKED_FOR_DELETE == 1072 && ERROR_SERVICE_EXISTS == 1073
  {
  }

  /** Each code stands for one state of the service, and each state that stands in
      the way of a request has its code. */
  lemma CodesOfStates(db: Database, op: Operation, n: Name)
    ensures var code, s := StateError(op, db, n), db.services;
      && (code == NO_ERROR <==>
            match op
            case Install(_) => n !in s
            case Start => n in s && !s[n].marked && !s[n].running
            case Stop => n in s && s[n].running
            case Unload => n in s && !s[n].marked)
      && (code == ERROR_SERVICE_EXISTS <==> op.Install? && n in s && !s[n].marked)
      && (code == ERROR_SERVICE_MARKED_FOR_DELETE <==> !op.Stop? && n in s && s[n].marked)
      && (code == ERROR_SERVICE_DOES_NOT_EXIST <==> !op.Install? && n !in s)
      && (code == ERROR_SERVICE_ALREADY_RUNNING <==> op.Start? && n in s && !s[n].marked && s[n].running)
      && (code == ERROR_SERVICE_NOT_ACTIVE <==> op.Stop? && n in s && !s[n].running)
  {
  }

  /** The request can be carried out. */
  predicate Doable(s: map<Name, Service>, op: Operation, n: Name) {
    match op
    case Install(_) => n !in s
    case Start => n in s && !s[n].marked && !s[n].running
    case Stop => n in s && s[n].running
    case Unload => n in s && !s[n].marked
  }

  /** What a code, once reported, says about the service before the call. */
  predicate Means(s: map<Name, Service>, op: Operation, n: Name, code: nat) {
    && (code == ERROR_SERVICE_EXISTS ==> op.Install? && n in s && !s[n].marked)
    && (code == ERROR_SERVICE_MARKED_FOR_DELETE ==> !op.Stop? && n in s && s[n].marked)
    && (code == ERROR_SERVICE_DOES_NOT_EXIST ==> !op.Install? && n !in s)
    && (code == ERROR_SERVICE_ALREADY_RUNNING ==> op.Start? && n in s && s[n].running && !s[n].marked)
    && (code == ERROR_SERVICE_NOT_ACTIVE ==> op.Stop? && n in s && !s[n].running)
    && (code == NO_ERROR ==> Doable(s, op, n))
  }

  /** Every code a returned call reports about the service is right. */
  lemma CodesAreMeant(db: Database, op: Operation, n: Name, vs: seq<Verdict>)
    requires Settled(db) && Complete(db, Enter(op, n), vs).1.stage == Done
    ensures Means(db.services, op, n, Complete(db, Enter(op, n), vs).1.err)
  {
    ResultIsTruthful(db, op, n, vs);
    CodesOfStates(db, op, n);
  }

  // ----- What a client met

  /** Nothing was refused: every verdict is a grant, and names a free handle where
      one is asked for. */
  predicate Granted(db: Database, met: seq<Verdict>) {
    && (forall v :: v in met ==> v.Grant?)
    && (|met| > 0 ==> Free(db, met[0].handle))
    && (|met| > 1 ==> Free(db, met[1].handle) && met[1].handle != met[0].handle)
  }

  /** An install has come to its create call; any other function needs no more than
      its grants. */
  predicate ReachedTarget(k: Client) {
    k.op.Install? ==> |k.met| == 2
  }

  /** How the verdicts met determine the result so far. */
  predicate Heeds(db0: Database, k: Client) {
    match k.stage
    case OpenManager => k.met == []
    case Setup => |k.met| == 1 && k.met[0] == Grant(k.mgr)
    case OpenTarget => |k.met| == 1 && k.met[0] == Grant(k.mgr)
    case Act => |k.met| == 2 && k.met[0] == Grant(k.mgr) && k.met[1] == Grant(k.svc)
    case _ => Obeys(db0, k)
  }

  predicate Obeys(db0: Database, k: Client) {
    && 1 <= |k.met| <= 3
    && (k.met[|k.met| - 1].Refuse? ==> k.err == k.met[|k.met| - 1].code)
    && (Granted(db0, k.met) && ReachedTarget(k) ==> k.err == StateError(k.op, db0, k.name))
  }

  lemma EnteringHeeds(db0: Database, db: Database, k: Client, v: Verdict)
    requires Settled(db0) && Progress(db0, db, k) && Heeds(db0, k)
    requires k.stage == OpenManager || k.stage == Setup
    ensures Heeds(db0, Advance(db, k, v).1)
  {
    assert k.stage == OpenManager ==> k.met + [v] == [v];
  }

  lemma OpeningHeeds(db0: Database, db: Database, k: Client, v: Verdict)
    requires Settled(db0) && Progress(db0, db, k) && Heeds(db0, k) && k.stage == OpenTarget
    ensures Heeds(db0, Advance(db, k, v).1)
  {
    assert v in k.met + [v] && (k.met + [v])[0] == k.met[0] && (k.met + [v])[1] == v;
  }

  lemma ActingHeeds(db0: Database, db: Database, k: Client, v: Verdict)
    requires Settled(db0) && Progress(db0, db, k) && Heeds(db0, k) && k.stage == Act
    ensures Heeds(db0, Advance(db, k, v).1)
  {
    assert v in k.met + [v] && (k.met + [v])[2] == v;
  }

  lemma StepHeeds(db0: Database, db: Database, k: Client, v: Verdict)
    requires Settled(db0) && Progress(db0, db, k) && Heeds(db0, k)
    ensures Heeds(db0, Advance(db, k, v).1)
  {
    match k.stage {
      case OpenManager => EnteringHeeds(db0, db, k, v);
      case Setup => EnteringHeeds(db0, db, k, v);
      case OpenTarget => OpeningHeeds(db0, db, k, v);
      case Act => ActingHeeds(db0, db, k, v);
      case CloseTarget =>
      case CloseManager =>
      case Done =>
    }
  }

  lemma {:induction false} RunHeeds(db0: Database, db: Database, k: Client, vs: seq<Verdict>)
    requires Settled(db0) && Progress(db0, db, k) && Heeds(db0, k)
    ensures Heeds(db0, Complete(db, k, vs).1)
    decreases |vs|
  {
    if vs != [] {
      StepHeeds(db0, db, k, vs[0]);
      ProgressStep(db0, db, k, vs[0]);
      var (db', k') := Advance(db, k, vs[0]);
      RunHeeds(db0, db', k', vs[1..]);
    }
  }

  /** Alone, a refusal is passed on unchanged; a function that is refused nothing
      reports exactly what the database calls for. */
  lemma {:induction false} ResultFollowsVerdicts(db: Database, op: Operation, n: Name, vs: seq<Verdict>)
    requires Settled(db) && Complete(db, Enter(op, n), vs).1.stage == Done
    ensures var k := Complete(db, Enter(op, n), vs).1;
      && k.met != []
      && (k.met[|k.met| - 1].Refuse? ==> k.err == k.met[|k.met| - 1].code)
      && (Granted(db, k.met) && ReachedTarget(k) ==> k.err == StateError(op, db, n))
  {
    RunHeeds(db, db, Enter(op, n), vs);
    SameRequest(db, Enter(op, n), vs);
  }

  // ----- When a call must succeed, and what it leaves

  predicate OpenElsewhere(db: Database, n: Name) {
    exists h :: h in db.handles && db.handles[h] == OnService(n)
  }

  lemma ReferencedIsOpen(db: Database, n: Name)
    ensures Referenced(db, n) <==> OpenElsewhere(db, n)
  {
    assert forall h :: h in db.handles ==> (Refers(db, h, n) <==> db.handles[h] == OnService(n));
  }

  lemma InstallSucceeds(db: Database, unset: Handle, n: Name, vs: seq<Verdict>)
    requires Settled(db) && Complete(db, Enter(Install(unset), n), vs).1.stage == Done
    requires var k := Complete(db, Enter(Install(unset), n), vs).1; Granted(db, k.met) && |k.met| == 2
    ensures var (db', k) := Complete(db, Enter(Install(unset), n), vs);
      && (k.err == NO_ERROR <==> n !in db.services)
      && (n !in db.services ==> db' == db.(services := db.services[n := Service(false, false)]))
  {
    ResultFollowsVerdicts(db, Install(unset), n, vs);
    CallIsAtomic(db, Install(unset), n, vs);
  }

  lemma StartSucceeds(db: Database, n: Name, vs: seq<Verdict>)
    requires Settled(db) && Complete(db, Enter(Start, n), vs).1.stage == Done
    requires Granted(db, Complete(db, Enter(Start, n), vs).1.met)
    ensures var (db', k) := Complete(db, Enter(Start, n), vs);
      var ready := n in db.services && !db.services[n].marked && !db.services[n].running;
      && (k.err == NO_ERROR <==> ready)
      && (ready ==> db' == db.(services := db.services[n := Service(true, false)]))
  {
    ResultFollowsVerdicts(db, Start, n, vs);
    CallIsAtomic(db, Start, n, vs);
  }

  /** A stop succeeds on any running service, marked or not; one that is marked and
      nobody else has open goes with it. */
  lemma StopSucceeds(db: Database, n: Name, vs: seq<Verdict>)
    requires Settled(db) && Complete(db, Enter(Stop, n), vs).1.stage == Done
    requires Granted(db, Complete(db, Enter(Stop, n), vs).1.met)
    ensures var (db', k) := Complete(db, Enter(Stop, n), vs);
      var runs := n in db.services && db.services[n].running;
      && (k.err == NO_ERROR <==> runs)
      && (runs ==> db' == db.(services :=
            if db.services[n].marked && !OpenElsewhere(db, n) then db.services - {n}
            else db.services[n := Service(false, db.services[n].marked)]))
  {
    ResultFollowsVerdicts(db, Stop, n, vs);
    CallIsAtomic(db, Stop, n, vs);
    if n in db.services && db.services[n].running {
      var mid := Database(Requested(Stop, db, n), db.handles);
      ReferencedIsOpen(mid, n);
      assert mid.services - {n} == db.services - {n};
    }
  }

  /** An unload succeeds on any service not yet marked, running or not; a stopped one
      that nobody else has open is gone at once. */
  lemma UnloadSucceeds(db: Database, n: Name, vs: seq<Verdict>)
    requires Settled(db) && Complete(db, Enter(Unload, n), vs).1.stage == Done
    requires Granted(db, Complete(db, Enter(Unload, n), vs).1.met)
    ensures var (db', k) := Complete(db, Enter(Unload, n), vs);
      var unmarked := n in db.services && !db.services[n].marked;
      && (k.err == NO_ERROR <==> unmarked)
      && (unmarked ==> db' == db.(services :=
            if !db.services[n].running && !OpenElsewhere(db, n) then db.services - {n}
            else db.services[n := Service(db.services[n].running, true)]))
  {
    ResultFollowsVerdicts(db, Unload, n, vs);
    CallIsAtomic(db, Unload, n, vs);
    if n in db.services && !db.services[n].marked {
      var mid := Database(Requested(Unload, db, n), db.handles);
      ReferencedIsOpen(mid, n);
      assert mid.services - {n} == db.services - {n};
    }
  }

  /** Forced unload: a running service that nobody else has open is gone, and nothing
      else has changed, after an unload and then a stop that are refused nothing. */
  lemma ForcedUnload(db: Database, c1: Call, c2: Call)
    requires Settled(db) && c1.op.Unload? && c2.op.Stop? && c1.name == c2.name
    requires var n := c1.name;
      n in db.services && db.services[n] == Service(true, false) && !OpenElsewhere(db, n)
    requires var (db1, k1) := Returned(db, c1);
      var k2 := Returned(db1, c2).1;
      k1.stage == Done && Granted(db, k1.met) && k2.stage == Done && Granted(db1, k2.met)
    ensures var (db1, k1) := Returned(db, c1);
      var (db2, k2) := Returned(db1, c2);
      && k1.err == NO_ERROR && k2.err == NO_ERROR
      && db1 == db.(services := db.services[c1.name := Service(true, true)])
      && db2 == db.(services := db.services - {c1.name})
  {
    var (db1, k1) := Returned(db, c1);
    UnloadSucceeds(db, c1.name, c1.verdicts);
    CallIsAtomic(db, Unload, c1.name, c1.verdicts);
    OutcomeSettled(db, k1);
    assert !OpenElsewhere(db1, c1.name);
    StopSucceeds(db1, c1.name, c2.verdicts);
    assert db1.services - {c1.name} == db.services - {c1.name};
  }

  // ----- In a run

  /** At the step that decides it, a refusal is passed on, a code that speaks of the
      service is right, and a request that is refused nothing succeeds exactly if it
      can be carried out. */
  ghost predicate AnsweredAt(w: World, e: Event, k: Client) {
    && e.Advances?
    && Means(w.db.services, k.op, k.name, k.err)
    && (e.verdict.Refuse? ==> k.err == e.verdict.code)
    && (Unrefusing(w, e) ==> (k.err == NO_ERROR <==> Doable(w.db.services, k.op, k.name)))
  }

  lemma TruthAnswers(w: World, e: Event, k: Client)
    requires Decides(w, e) && TruthfulAt(w, e, k)
    requires k.op == w.clients[e.id].op && k.name == w.clients[e.id].name
    ensures AnsweredAt(w, e, k)
  {
    CodesOfStates(w.db, k.op, k.name);
  }

  /** In every run what a function returns is answered so at its deciding step,
      unless the loss of a handle shows in that step. */
  lemma {:induction false} AnswersInRuns(w: World, es: seq<Event>, id: nat)
    requires Settled(w.db) && InShape(w, id) && Undecided(w, id)
    requires id in Run(w, es).clients && Run(w, es).clients[id].stage == Done
    ensures var k := Run(w, es).clients[id];
      exists i :: 0 <= i < |es| && DecidedAt(w, es, id, k, i)
                  && (Disturbed(Run(w, es[..i]), es[i]) || AnsweredAt(Run(w, es[..i]), es[i], k))
  {
    var k := Run(w, es).clients[id];
    ReturnsAreTruthful(w, es, id);
    var i :| 0 <= i < |es| && AccountableAt(w, es, id, k, i);
    if !Disturbed(Run(w, es[..i]), es[i]) {
      TruthAnswers(Run(w, es[..i]), es[i], k);
    }
  }

  /** Without stray closes every answer is so. */
  lemma {:induction false} AnswersInCleanRuns(w: World, es: seq<Event>, id: nat)
    requires Inv(w) && NoStrayHits(w, es) && Undecided(w, id)
    requires id in Run(w, es).clients && Run(w, es).clients[id].stage == Done
    ensures var k := Run(w, es).clients[id];
      exists i :: 0 <= i < |es| && DecidedAt(w, es, id, k, i) && AnsweredAt(Run(w, es[..i]), es[i], k)
  {
    var k := Run(w, es).clients[id];
    AnswersInRuns(w, es, id);
    var i :| 0 <= i < |es| && DecidedAt(w, es, id, k, i)
      && (Disturbed(Run(w, es[..i]), es[i]) || AnsweredAt(Run(w, es[..i]), es[i], k));
    RunOwnership(w, es);
    OwnersAreUndisturbed(Run(w, es[..i]), es[i]);
  }

  // ----- What any step may do to a service

  /** The step is granted to a client that acts on the service through its handle. */
  predicate ActsOn(w: World, e: Event, n: Name) {
    e.Advances? && e.id in w.clients && e.verdict.Grant? &&
    var k := w.clients[e.id];
    k.stage == Act && k.svc in w.db.handles && w.db.handles[k.svc] == OnService(n)
  }

  /** A service appears new, by an install of that name; it changes only by a start,
      a stop or an unload through a handle on it, as each of these is meant to; it
      disappears only when it is marked, stopped and open to nobody. */
  lemma StepChangesService(w: World, e: Event, n: Name)
    ensures var s, s' := w.db.services, Next(w, e).db.services;
      && (n !in s && n in s' ==>
            e.Advances? && e.id in w.clients && w.clients[e.id].op.Install? && w.clients[e.id].name == n
            && s'[n] == Service(false, false))
      && (n in s && n !in s' ==> s[n].marked && !s[n].running && !OpenElsewhere(Next(w, e).db, n))
      && (n in s && n in s' && s'[n] != s[n] ==>
            ActsOn(w, e, n) &&
            match w.clients[e.id].op
            case Install(_) => false
            case Start => !s[n].marked && !s[n].running && s'[n] == Service(true, false)
            case Stop => s[n].running && s'[n] == Service(false, s[n].marked)
            case Unload => !s[n].marked && s'[n] == Service(s[n].running, true))
  {
    if !Decides(w, e) {
      OtherStepsOnlyReap(w, e);
      ReferencedIsOpen(Next(w, e).db, n);
    }
  }
}
