/** One call at a time: what each lifecycle function does to the database as a
    whole, whatever the system refuses along the way. */
module SoloLaws {
  import opened Scm
  import opened Lifecycle

  // ----- The history of one activation

  function OpenNotes(k: Client): seq<Note> {
    (if k.mgr == NULL then [] else [Opened(k.mgr)])
    + (if k.isSet && k.svc != NULL then [Opened(k.svc)] else [])
  }

  function FailNotes(k: Client): seq<Note> {
    if k.err == NO_ERROR then [] else [Failed(k.err)]
  }

  function CloseNote(h: Handle): seq<Note> {
    if h == NULL then [] else [Closed(h)]
  }

  /** The function left at once, because the manager could not be opened. */
  predicate LeftEarly(k: Client) {
    k.mgr == NULL && k.err != NO_ERROR && k.log == [Failed(k.err)]
  }

  predicate InCleanup(k: Client, log: seq<Note>) {
    && k.log == log
    && (k.mgr == NULL ==> k.isSet && k.svc == NULL)
    && (k.isSet && k.svc == NULL ==> k.err != NO_ERROR)
    && (!k.isSet ==> k.op.Install? && k.svc == k.op.unset && k.err != NO_ERROR)
  }

  /** What the locals and the history are at each point of the program. */
  predicate History(k: Client) {
    match k.stage
    case OpenManager => k == Enter(k.op, k.name)
    case Setup =>
      k.op.Install? && k.mgr != NULL && k.svc == k.op.unset && !k.isSet
      && k.err == NO_ERROR && k.log == [Opened(k.mgr)]
    case OpenTarget =>
      k.mgr != NULL && k.err == NO_ERROR && k.log == [Opened(k.mgr)]
      && (if k.op.Install? then !k.isSet && k.svc == k.op.unset else k.isSet && k.svc == NULL)
    case Act =>
      !k.op.Install? && k.mgr != NULL && k.svc != NULL && k.isSet
      && k.err == NO_ERROR && k.log == [Opened(k.mgr), Opened(k.svc)]
    case CloseTarget => InCleanup(k, OpenNotes(k) + FailNotes(k))
    case CloseManager => InCleanup(k, OpenNotes(k) + FailNotes(k) + CloseNote(k.svc))
    case Done =>
      LeftEarly(k) || InCleanup(k, OpenNotes(k) + FailNotes(k) + CloseNote(k.svc) + CloseNote(k.mgr))
  }

  /** Every step of every client keeps its history in shape, whatever the
      database is and whatever the system answers. */
  lemma HistoryStep(db: Database, k: Client, v: Verdict)
    requires History(k)
    ensures History(Advance(db, k, v).1)
  {
    var k' := Advance(db, k, v).1;
    match k.stage
    case OpenManager =>
    case Setup =>
    case OpenTarget =>
      assert k.log + [Opened(k'.svc)] == [Opened(k.mgr), Opened(k'.svc)];
    case Act =>
    case CloseTarget =>
      assert k'.log == k.log + CloseNote(k.svc);
    case CloseManager =>
      assert k'.log == k.log + CloseNote(k.mgr);
    case Done =>
  }

  /** Handle discipline and error preservation, read off the history of a
      function that has returned: it failed exactly when it reports a failure
      and then reports the code of that one; what it opened and closed is bracketed,
      each handle opened closed once and the service's before the manager's, if and
      only if it is not an install whose setup failed with its local not NULL. Such
      an install closes that local too, be it its own manager handle. */
  lemma ReturnedHistory(k: Client)
    requires History(k) && k.stage == Done
    ensures k.err == NO_ERROR <==> forall note :: note in k.log ==> !note.Failed?
    ensures forall code :: Failed(code) in k.log ==> code == k.err
    ensures (exists m, s, f: seq<Note> :: Bracketed(k.log, m, s, f)) <==>
              k.isSet || k.mgr == NULL || k.op.unset == NULL
    ensures !k.isSet && k.mgr != NULL ==>
              k.op.Install? && SetupFailure(k.log, k.mgr, k.err, k.op.unset)
  {
    if k.err != NO_ERROR {
      assert Failed(k.err) in k.log;
    }
    if k.isSet || k.mgr == NULL {
      var s := if LeftEarly(k) || k.svc == NULL then [] else [k.svc];
      var m := if k.mgr == NULL then [] else [k.mgr];
      assert Bracketed(k.log, m, s, FailNotes(k));
    } else if k.op.unset == NULL {
      assert Bracketed(k.log, [k.mgr], [], FailNotes(k));
    }
  }

  /** Open the manager, open the service, at most one failure, close in reverse. */
  predicate Bracketed(log: seq<Note>, m: seq<Handle>, s: seq<Handle>, f: seq<Note>) {
    && |m| <= 1 && |s| <= 1 && |f| <= 1 && (forall note :: note in f ==> note.Failed?)
    && log == (if m == [] then [] else [Opened(m[0])]) + (if s == [] then [] else [Opened(s[0])]) + f
            + (if s == [] then [] else [Closed(s[0])]) + (if m == [] then [] else [Closed(m[0])])
  }

  /** An install whose setup failed: it closes the unset local, then the manager. */
  predicate SetupFailure(log: seq<Note>, m: Handle, err: nat, unset: Handle) {
    log == [Opened(m), Failed(err)] + CloseNote(unset) + [Closed(m)]
  }

  // ----- The effect of one activation

  /** What the database says about a request before it is carried out. */
  function StateError(op: Operation, db: Database, n: Name): nat {
    match op
    case Install(_) =>
      if n !in db.services then NO_ERROR
      else if db.services[n].marked then ERROR_SERVICE_MARKED_FOR_DELETE else ERROR_SERVICE_EXISTS
    case Start =>
      if n !in db.services then ERROR_SERVICE_DOES_NOT_EXIST
      else if db.services[n].marked then ERROR_SERVICE_MARKED_FOR_DELETE
      else if db.services[n].running then ERROR_SERVICE_ALREADY_RUNNING else NO_ERROR
    case Stop =>
      if n !in db.services then ERROR_SERVICE_DOES_NOT_EXIST
      else if !db.services[n].running then ERROR_SERVICE_NOT_ACTIVE else NO_ERROR
    case Unload =>
      if n !in db.services then ERROR_SERVICE_DOES_NOT_EXIST
      else if db.services[n].marked then ERROR_SERVICE_MARKED_FOR_DELETE else NO_ERROR
  }

  /** The services after the request, before anything is reaped. */
  function Requested(op: Operation, db: Database, n: Name): map<Name, Service>
    requires StateError(op, db, n) == NO_ERROR
  {
    match op
    case Install(_) => db.services[n := Service(false, false)]
    case Start => db.services[n := db.services[n].(running := true)]
    case Stop => db.services[n := db.services[n].(running := false)]
    case Unload => db.services[n := db.services[n].(marked := true)]
  }

  /** An install whose setup failed closes its unset local, and that happens to
      be an open handle. */
  predicate StrayClose(db: Database, k: Client) {
    k.mgr != NULL && !k.isSet && k.svc in db.handles
  }

  /** The whole database after the function has returned with `k`'s result. */
  function Outcome(db: Database, k: Client): Database
    requires k.err == NO_ERROR ==> StateError(k.op, db, k.name) == NO_ERROR
  {
    if k.err == NO_ERROR then Reap(Database(Requested(k.op, db, k.name), db.handles), k.name)
    else if StrayClose(db, k) then CloseServiceHandle(db, k.svc).db
    else db
  }

  /** A result is what the database says, or a refusal by the system. */
  predicate HonestResult(db0: Database, k: Client) {
    k.err == StateError(k.op, db0, k.name) || (k.err != NO_ERROR && !IsStateCode(k.err))
  }

  function WithManager(db0: Database, k: Client): map<Handle, Object> {
    if k.mgr == NULL then db0.handles else db0.handles[k.mgr := Manager]
  }

  /** Services when the cleanup starts. */
  function Acted(db0: Database, k: Client): map<Name, Service>
    requires k.err == NO_ERROR ==> StateError(k.op, db0, k.name) == NO_ERROR
  {
    if k.err == NO_ERROR then Requested(k.op, db0, k.name) else db0.services
  }

  /** How far one activation, started on `db0`, has changed the database. */
  predicate Progress(db0: Database, db: Database, k: Client) {
    && History(k)
    && (k.mgr != NULL ==> k.mgr !in db0.handles)
    && match k.stage
       case OpenManager => db == db0
       case Setup => db == db0.(handles := WithManager(db0, k))
       case OpenTarget => db == db0.(handles := WithManager(db0, k))
       case Act =>
         k.name in db0.services && k.svc !in WithManager(db0, k)
         && db == db0.(handles := WithManager(db0, k)[k.svc := OnService(k.name)])
       case CloseTarget =>
         HonestResult(db0, k)
         && (if k.isSet && k.svc != NULL then
               k.svc !in WithManager(db0, k)
               && k.name in Acted(db0, k)
               && db == Database(Acted(db0, k), WithManager(db0, k)[k.svc := OnService(k.name)])
             else db == db0.(handles := WithManager(db0, k)))
       case CloseManager =>
         HonestResult(db0, k)
         && db.services == Outcome(db0, k).services
         && (k.mgr != NULL ==> db.handles - {k.mgr} == Outcome(db0, k).handles)
         && (k.mgr == NULL ==> db.handles == Outcome(db0, k).handles)
         && (k.mgr in db.handles ==> db.handles[k.mgr] == Manager)
       case Done => HonestResult(db0, k) && db == Outcome(db0, k)
  }

  lemma OpenManagerStep(db0: Database, db: Database, k: Client, v: Verdict)
    requires Settled(db0) && Progress(db0, db, k) && k.stage == OpenManager
    ensures var (db', k') := Advance(db, k, v); Progress(db0, db', k')
  {
    HistoryStep(db, k, v);
  }

  lemma SetupStep(db0: Database, db: Database, k: Client, v: Verdict)
    requires Settled(db0) && Progress(db0, db, k) && k.stage == Setup
    ensures var (db', k') := Advance(db, k, v); Progress(db0, db', k')
  {
    HistoryStep(db, k, v);
  }

  lemma OpenTargetStep(db0: Database, db: Database, k: Client, v: Verdict)
    requires Settled(db0) && Progress(db0, db, k) && k.stage == OpenTarget
    ensures var (db', k') := Advance(db, k, v); Progress(db0, db', k')
  {
    HistoryStep(db, k, v);
  }

  lemma ActStep(db0: Database, db: Database, k: Client, v: Verdict)
    requires Settled(db0) && Progress(db0, db, k) && k.stage == Act
    ensures var (db', k') := Advance(db, k, v); Progress(db0, db', k')
  {
    HistoryStep(db, k, v);
  }

  /** An open manager handle does not keep any service. */
  lemma ManagerKeepsNothing(s: map<Name, Service>, hs: map<Handle, Object>, m: Handle, n: Name)
    requires m !in hs
    ensures Reap(Database(s, hs[m := Manager]), n).services == Reap(Database(s, hs), n).services
  {
    var with, without := Database(s, hs[m := Manager]), Database(s, hs);
    assert forall h :: h in hs ==> (Refers(with, h, n) <==> Refers(without, h, n));
    assert !Refers(with, m, n);
    assert Referenced(with, n) <==> Referenced(without, n);
  }

  /** Closing an own service handle leaves what the request asked for, reaped. */
  lemma OwnCloseStep(db0: Database, db: Database, k: Client)
    requires Settled(db0) && Progress(db0, db, k) && k.stage == CloseTarget && k.isSet && k.svc != NULL
    ensures CloseServiceHandle(db, k.svc).db == Database(Outcome(db0, k).services, WithManager(db0, k))
  {
    var hs := WithManager(db0, k);
    assert hs[k.svc := OnService(k.name)] - {k.svc} == hs;
    ManagerKeepsNothing(Acted(db0, k), db0.handles, k.mgr, k.name);
    if k.err != NO_ERROR {
      assert Reap(db0, k.name) == db0;
    }
  }

  /** Closing the unset local hits another's handle, or nothing that matters. */
  lemma UnsetCloseStep(db0: Database, db: Database, k: Client)
    requires Settled(db0) && Progress(db0, db, k) && k.stage == CloseTarget && !k.isSet
    ensures var db' := CloseServiceHandle(db, k.svc).db;
      db'.services == Outcome(db0, k).services && db'.handles - {k.mgr} == Outcome(db0, k).handles
      && (k.mgr in db'.handles ==> db'.handles[k.mgr] == Manager)
  {
    if k.svc in db0.handles {
      assert db.handles - {k.svc} == (db0.handles - {k.svc})[k.mgr := Manager];
      assert db.handles[k.svc] == db0.handles[k.svc];
      if db0.handles[k.svc].OnService? {
        ManagerKeepsNothing(db0.services, db0.handles - {k.svc}, k.mgr, db0.handles[k.svc].name);
      }
    } else {
      assert db.handles - {k.mgr} == db0.handles;
      assert db.handles - {k.svc} - {k.mgr} == db0.handles;
    }
  }

  lemma CloseTargetStep(db0: Database, db: Database, k: Client, v: Verdict)
    requires Settled(db0) && Progress(db0, db, k) && k.stage == CloseTarget
    ensures var (db', k') := Advance(db, k, v); Progress(db0, db', k')
  {
    HistoryStep(db, k, v);
    if k.mgr != NULL {
      assert WithManager(db0, k) - {k.mgr} == db0.handles;
    }
    if k.isSet && k.svc != NULL {
      OwnCloseStep(db0, db, k);
    } else if !k.isSet && k.svc != NULL {
      UnsetCloseStep(db0, db, k);
    }
  }

  lemma CloseManagerStep(db0: Database, db: Database, k: Client, v: Verdict)
    requires Settled(db0) && Progress(db0, db, k) && k.stage == CloseManager
    ensures var (db', k') := Advance(db, k, v); Progress(db0, db', k')
  {
    HistoryStep(db, k, v);
  }

  lemma ProgressStep(db0: Database, db: Database, k: Client, v: Verdict)
    requires Settled(db0) && Progress(db0, db, k)
    ensures var (db', k') := Advance(db, k, v); Progress(db0, db', k')
  {
    match k.stage
    case OpenManager => OpenManagerStep(db0, db, k, v);
    case Setup => SetupStep(db0, db, k, v);
    case OpenTarget => OpenTargetStep(db0, db, k, v);
    case Act => ActStep(db0, db, k, v);
    case CloseTarget => CloseTargetStep(db0, db, k, v);
    case CloseManager => CloseManagerStep(db0, db, k, v);
    case Done =>
  }

  lemma {:induction false} ProgressRun(db0: Database, db: Database, k: Client, vs: seq<Verdict>)
    requires Settled(db0) && Progress(db0, db, k)
    ensures var (db', k') := Complete(db, k, vs); Progress(db0, db', k')
    decreases |vs|
  {
    if vs != [] {
      ProgressStep(db0, db, k, vs[0]);
      var (db', k') := Advance(db, k, vs[0]);
      ProgressRun(db0, db', k', vs[1..]);
    }
  }

  lemma {:induction false} SameRequest(db: Database, k: Client, vs: seq<Verdict>)
    ensures Complete(db, k, vs).1.op == k.op && Complete(db, k, vs).1.name == k.name
    decreases |vs|
  {
    if vs != [] {
      var (db', k') := Advance(db, k, vs[0]);
      SameRequest(db', k', vs[1..]);
    }
  }

  /** Steps still to come, at most. */
  function Remaining(k: Client): nat {
    match k.stage
    case OpenManager => 5
    case Setup => if k.op.Install? then 4 else 5
    case OpenTarget => if k.op.Install? then 3 else 4
    case Act => 3
    case CloseTarget => 2
    case CloseManager => 1
    case Done => 0
  }

  /** Every function returns within five steps. */
  lemma {:induction false} AlwaysReturns(db: Database, k: Client, vs: seq<Verdict>)
    requires |vs| >= Remaining(k)
    ensures Complete(db, k, vs).1.stage == Done
    decreases |vs|
  {
    if vs != [] {
      var (db', k') := Advance(db, k, vs[0]);
      AlwaysReturns(db', k', vs[1..]);
    }
  }

  /** All or nothing: alone on a consistent database, a lifecycle function that
      has returned has done exactly what was requested, if it reports no error,
      and otherwise nothing; no handle is left behind. The one exception is the
      stray close, whose damage is stated exactly. */
  lemma CallIsAtomic(db: Database, op: Operation, n: Name, vs: seq<Verdict>)
    requires Settled(db) && Complete(db, Enter(op, n), vs).1.stage == Done
    ensures var (db', k) := Complete(db, Enter(op, n), vs);
      && k.op == op && k.name == n && History(k)
      && (k.err == NO_ERROR ==> StateError(op, db, n) == NO_ERROR)
      && db' == Outcome(db, k)
  {
    ProgressRun(db, db, Enter(op, n), vs);
    SameRequest(db, Enter(op, n), vs);
  }

  /** Truthful results: the code returned is the one the database called for, or
      a refusal of the system's own; so a state code is never wrong. */
  lemma ResultIsTruthful(db: Database, op: Operation, n: Name, vs: seq<Verdict>)
    requires Settled(db) && Complete(db, Enter(op, n), vs).1.stage == Done
    ensures var err := Complete(db, Enter(op, n), vs).1.err;
      && (err == StateError(op, db, n) || (err != NO_ERROR && !IsStateCode(err)))
      && (err == NO_ERROR || IsStateCode(err) ==> err == StateError(op, db, n))
  {
    ProgressRun(db, db, Enter(op, n), vs);
    SameRequest(db, Enter(op, n), vs);
  }

  /** After a start that reports success or "already running" the service runs;
      after a stop that reports success or "not active" it does not; after a
      successful install it exists and is new. */
  lemma ServiceIsAsReported(db: Database, op: Operation, n: Name, vs: seq<Verdict>)
    requires Settled(db) && Complete(db, Enter(op, n), vs).1.stage == Done
    ensures var (db', k) := Complete(db, Enter(op, n), vs);
      && (op.Start? && (k.err == NO_ERROR || k.err == ERROR_SERVICE_ALREADY_RUNNING) ==>
            n in db'.services && db'.services[n].running)
      && (op.Stop? && (k.err == NO_ERROR || k.err == ERROR_SERVICE_NOT_ACTIVE) ==>
            (n in db'.services ==> !db'.services[n].running))
      && (op.Install? && k.err == NO_ERROR ==>
            n !in db.services && n in db'.services && db'.services[n] == Service(false, false))
      && (op.Unload? && k.err == NO_ERROR ==>
            n in db'.services ==> db'.services[n].marked && (db'.services[n].running || Referenced(db, n)))
  {
    CallIsAtomic(db, op, n, vs);
    ResultIsTruthful(db, op, n, vs);
  }

  /** The call will close another's handle: it is an install that finds the
      manager but not the driver image, and its unset local is an open handle. */
  predicate WillStray(db: Database, op: Operation, vs: seq<Verdict>) {
    && op.Install? && op.unset in db.handles && |vs| >= 2
    && vs[0].Grant? && vs[0].handle != NULL && vs[0].handle !in db.handles
    && vs[1].Refuse?
  }

  lemma {:induction false} CleanupKeepsLocals(db: Database, k: Client, vs: seq<Verdict>)
    requires k.stage == CloseTarget || k.stage == CloseManager || k.stage == Done
    ensures var k' := Complete(db, k, vs).1;
      k'.mgr == k.mgr && k'.svc == k.svc && k'.isSet == k.isSet
    decreases |vs|
  {
    if vs != [] {
      var (db', k') := Advance(db, k, vs[0]);
      CleanupKeepsLocals(db', k', vs[1..]);
    }
  }

  lemma {:induction false} StrayForeseen(db: Database, op: Operation, n: Name, vs: seq<Verdict>)
    requires Complete(db, Enter(op, n), vs).1.stage == Done && op.Install?
    ensures StrayClose(db, Complete(db, Enter(op, n), vs).1) <==> WillStray(db, op, vs)
  {
    var (db1, k1) := Advance(db, Enter(op, n), vs[0]);
    if k1.stage == Done {
      CleanupKeepsLocals(db1, k1, vs[1..]);
    } else {
      var vs1 := vs[1..];
      var (db2, k2) := Advance(db1, k1, vs1[0]);
      if k2.stage == CloseTarget {
        CleanupKeepsLocals(db2, k2, vs1[1..]);
      } else {
        var vs2 := vs1[1..];
        assert Complete(db2, k2, vs2).1.stage == Done;
        var (db3, k3) := Advance(db2, k2, vs2[0]);
        CleanupKeepsLocals(db3, k3, vs2[1..]);
      }
    }
  }

  /** The handle table is as before if and only if the call was not bound to close
      another's handle; if it was, that handle is gone. */
  lemma TableUnchanged(db: Database, op: Operation, n: Name, vs: seq<Verdict>)
    requires Settled(db) && Complete(db, Enter(op, n), vs).1.stage == Done
    ensures var (db', k) := Complete(db, Enter(op, n), vs);
      && (StrayClose(db, k) <==> WillStray(db, op, vs))
      && (db'.handles == db.handles <==> !WillStray(db, op, vs))
      && (WillStray(db, op, vs) ==> db'.handles == db.handles - {op.unset})
  {
    CallIsAtomic(db, op, n, vs);
    if op.Install? {
      StrayForeseen(db, op, n, vs);
    }
  }

  lemma ReapSettles(db: Database, n: Name)
    requires NULL !in db.handles
    requires forall h :: h in db.handles && db.handles[h].OnService? ==> db.handles[h].name in db.services
    requires forall m :: m in db.services && m != n && Doomed(db, m) ==> Referenced(db, m)
    ensures Settled(Reap(db, n))
  {
    var db' := Reap(db, n);
    forall h | h in db'.handles && db'.handles[h].OnService? ensures db'.handles[h].name in db'.services {
      if db'.handles[h].name == n {
        assert Refers(db, h, n);
      }
    }
    forall m | m in db'.services && Doomed(db', m) ensures Referenced(db', m) {
      if m != n {
        var h :| h in db.handles && Refers(db, h, m);
        assert Refers(db', h, m);
      }
    }
  }

  /** Consistency survives every call, the stray close included. */
  lemma OutcomeSettled(db: Database, k: Client)
    requires Settled(db)
    requires k.err == NO_ERROR ==> StateError(k.op, db, k.name) == NO_ERROR
    ensures Settled(Outcome(db, k))
  {
    if k.err == NO_ERROR {
      var mid := Database(Requested(k.op, db, k.name), db.handles);
      forall m | m in mid.services && m != k.name && Doomed(mid, m) ensures Referenced(mid, m) {
        assert Doomed(db, m);
        var h :| h in db.handles && Refers(db, h, m);
        assert Refers(mid, h, m);
      }
      ReapSettles(mid, k.name);
    } else if StrayClose(db, k) {
      CloseSettled(db, k.svc);
    }
  }

  lemma CloseSettled(db: Database, h: Handle)
    requires Settled(db)
    ensures Settled(CloseServiceHandle(db, h).db)
  {
    if h in db.handles {
      var rest := db.(handles := db.handles - {h});
      forall m | m in rest.services && Doomed(rest, m) && !(db.handles[h] == OnService(m)) ensures Referenced(rest, m) {
        assert Doomed(db, m);
        var g :| g in db.handles && Refers(db, g, m);
        assert Refers(rest, g, m);
      }
      if db.handles[h].OnService? {
        ReapSettles(rest, db.handles[h].name);
      }
    }
  }

  /** The verdicts of a system that refuses nothing and has handles to give. */
  function Unrefused(op: Operation, a: Handle, b: Handle): seq<Verdict> {
    if op.Install? then [Grant(a), Grant(a), Grant(b), Grant(a), Grant(a)]
    else [Grant(a), Grant(b), Grant(a), Grant(a), Grant(a)]
  }

  lemma {:induction false} CompleteFive(db: Database, k: Client, vs: seq<Verdict>)
    requires |vs| == 5
    ensures var s1 := Advance(db, k, vs[0]);
      var s2 := Advance(s1.0, s1.1, vs[1]);
      var s3 := Advance(s2.0, s2.1, vs[2]);
      var s4 := Advance(s3.0, s3.1, vs[3]);
      Complete(db, k, vs) == Advance(s4.0, s4.1, vs[4])
  {
    var s1 := Advance(db, k, vs[0]);
    var s2 := Advance(s1.0, s1.1, vs[1]);
    var s3 := Advance(s2.0, s2.1, vs[2]);
    var s4 := Advance(s3.0, s3.1, vs[3]);
    var s5 := Advance(s4.0, s4.1, vs[4]);
    assert Complete(s5.0, s5.1, vs[5..]) == s5;
    assert vs[4..][1..] == vs[5..] && vs[3..][1..] == vs[4..] && vs[2..][1..] == vs[3..] && vs[1..][1..] == vs[2..];
    assert Complete(s4.0, s4.1, vs[4..]) == s5;
    assert Complete(s3.0, s3.1, vs[3..]) == s5;
    assert Complete(s2.0, s2.1, vs[2..]) == s5;
    assert Complete(s1.0, s1.1, vs[1..]) == s5;
  }

  lemma UnrefusedInstall(db: Database, unset: Handle, n: Name, a: Handle, b: Handle)
    requires Settled(db) && a != b && a != NULL && b != NULL && a !in db.handles && b !in db.handles
    ensures var (db', k) := Complete(db, Enter(Install(unset), n), Unrefused(Install(unset), a, b));
      k.stage == Done && k.err == StateError(Install(unset), db, n)
  {
    CompleteFive(db, Enter(Install(unset), n), Unrefused(Install(unset), a, b));
  }

  lemma UnrefusedOther(db: Database, op: Operation, n: Name, a: Handle, b: Handle)
    requires Settled(db) && a != b && a != NULL && b != NULL && a !in db.handles && b !in db.handles
    requires !op.Install?
    ensures var (db', k) := Complete(db, Enter(op, n), Unrefused(op, a, b));
      k.stage == Done && k.err == StateError(op, db, n)
  {
    var k, vs := Enter(op, n), Unrefused(op, a, b);
    CompleteFive(db, k, vs);
    var (db1, k1) := StepOpenManager(db, k, Grant(a));
    var (db2, k2) := StepOpenTarget(db1, k1, Grant(b));
    assert n in db.services ==> k2.stage == Act && db2.services == db.services && Refers(db2, k2.svc, n);
  }

  /** When nothing is refused the result is exactly what the database calls for. */
  lemma UnrefusedResult(db: Database, op: Operation, n: Name, a: Handle, b: Handle)
    requires Settled(db) && a != b && a != NULL && b != NULL && a !in db.handles && b !in db.handles
    ensures var (db', k) := Complete(db, Enter(op, n), Unrefused(op, a, b));
      k.stage == Done && k.err == StateError(op, db, n)
  {
    if op.Install? {
      UnrefusedInstall(db, op.unset, n, a, b);
    } else {
      UnrefusedOther(db, op, n, a, b);
    }
  }

  // ----- Calls in a row

  datatype Call = Call(op: Operation, name: Name, verdicts: seq<Verdict>)

  function Returned(db: Database, c: Call): (Database, Client) {
    Complete(db, Enter(c.op, c.name), c.verdicts)
  }

  function Session(db: Database, calls: seq<Call>): Database
    decreases |calls|
  {
    if calls == [] then db else Session(Returned(db, calls[0]).0, calls[1..])
  }

  predicate AllReturn(db: Database, calls: seq<Call>)
    decreases |calls|
  {
    calls == [] || (Returned(db, calls[0]).1.stage == Done && AllReturn(Returned(db, calls[0]).0, calls[1..]))
  }

  /** No call of the session is bound to close another's handle. */
  predicate CleanSession(db: Database, calls: seq<Call>)
    decreases |calls|
  {
    calls == [] ||
    (!WillStray(db, calls[0].op, calls[0].verdicts) && CleanSession(Returned(db, calls[0]).0, calls[1..]))
  }

  function Lost(db: Database, calls: seq<Call>): set<Handle>
    decreases |calls|
  {
    if calls == [] then {}
    else
      (if WillStray(db, calls[0].op, calls[0].verdicts) then {calls[0].op.unset} else {})
      + Lost(Returned(db, calls[0]).0, calls[1..])
  }

  /** Handle conservation over runs: after any sequence of calls with any pattern of
      refusals the database is consistent, the table has lost exactly the unset
      locals that were bound to hit a handle, and so is what it was if and only if
      there were none. */
  lemma {:induction false} SessionConservesHandles(db: Database, calls: seq<Call>)
    requires Settled(db) && AllReturn(db, calls)
    ensures var db' := Session(db, calls);
      && Settled(db') && db'.handles == db.handles - Lost(db, calls)
      && (db'.handles == db.handles <==> CleanSession(db, calls))
    decreases |calls|
  {
    if calls != [] {
      var c := calls[0];
      var (db1, k) := Returned(db, c);
      CallIsAtomic(db, c.op, c.name, c.verdicts);
      TableUnchanged(db, c.op, c.name, c.verdicts);
      OutcomeSettled(db, k);
      SessionConservesHandles(db1, calls[1..]);
      if WillStray(db, c.op, c.verdicts) {
        assert c.op.unset in Lost(db, calls);
      }
    }
  }

  /** With no handle open to begin with, nothing is lost whatever the unset local
      holds: there is no handle to hit. */
  lemma {:induction false} LoneSessionIsClean(db: Database, calls: seq<Call>)
    requires Settled(db) && db.handles == map[] && AllReturn(db, calls)
    ensures CleanSession(db, calls) && Session(db, calls).handles == map[]
    decreases |calls|
  {
    if calls != [] {
      var c := calls[0];
      TableUnchanged(db, c.op, c.name, c.verdicts);
      CallIsAtomic(db, c.op, c.name, c.verdicts);
      OutcomeSettled(db, Returned(db, c).1);
      LoneSessionIsClean(Returned(db, c).0, calls[1..]);
    }
  }

  /** A local that is NULL, as in the other functions, never hits a handle. */
  lemma {:induction false} NullLocalIsClean(db: Database, calls: seq<Call>)
    requires Settled(db)
    requires forall c :: c in calls ==> |c.verdicts| >= 5
    requires forall c :: c in calls && c.op.Install? ==> c.op.unset == NULL
    ensures AllReturn(db, calls) && CleanSession(db, calls)
    decreases |calls|
  {
    if calls != [] {
      var c := calls[0];
      AlwaysReturns(db, Enter(c.op, c.name), c.verdicts);
      CallIsAtomic(db, c.op, c.name, c.verdicts);
      OutcomeSettled(db, Returned(db, c).1);
      NullLocalIsClean(Returned(db, c).0, calls[1..]);
    }
  }

  predicate Succeeds(db: Database, c: Call) {
    var k := Returned(db, c).1;
    k.stage == Done && k.err == NO_ERROR
  }

  /** A successful call on a service other than a doomed, unreferenced one. */
  lemma SuccessSets(db: Database, c: Call)
    requires Settled(db) && Succeeds(db, c)
    ensures StateError(c.op, db, c.name) == NO_ERROR
    ensures Settled(Returned(db, c).0)
    ensures var mid := Database(Requested(c.op, db, c.name), db.handles);
      Returned(db, c).0 == if mid.services[c.name].marked then Reap(mid, c.name) else mid
  {
    CallIsAtomic(db, c.op, c.name, c.verdicts);
    OutcomeSettled(db, Returned(db, c).1);
  }

  lemma UnloadRemoves(db: Database, c: Call)
    requires Settled(db) && Succeeds(db, c) && c.op.Unload?
    requires c.name in db.services && !db.services[c.name].running && !Referenced(db, c.name)
    ensures Returned(db, c).0 == db.(services := db.services - {c.name})
  {
    SuccessSets(db, c);
    var mid := Database(Requested(c.op, db, c.name), db.handles);
    assert forall h :: h in mid.handles && Refers(mid, h, c.name) ==> Refers(db, h, c.name);
    assert mid.services - {c.name} == db.services - {c.name};
  }

  /** Install, start and stop in a row, all successful, add a stopped service. */
  lemma InstalledAndStopped(db: Database, c1: Call, c2: Call, c3: Call)
    requires Settled(db) && c1.op.Install? && c2.op.Start? && c3.op.Stop?
    requires c1.name == c2.name == c3.name
    requires Succeeds(db, c1)
    requires var db1 := Returned(db, c1).0; Succeeds(db1, c2) && Succeeds(Returned(db1, c2).0, c3)
    ensures c1.name !in db.services
    ensures var db3 := Returned(Returned(Returned(db, c1).0, c2).0, c3).0;
      Settled(db3) && db3 == db.(services := db.services[c1.name := Service(false, false)])
  {
    SuccessSets(db, c1);
    SuccessSets(Returned(db, c1).0, c2);
    SuccessSets(Returned(Returned(db, c1).0, c2).0, c3);
  }

  /** Lifecycle round trip: install, start, stop and unload, all reporting
      success, leave services and handles exactly as they were. */
  lemma LifecycleRoundTrip(db: Database, c1: Call, c2: Call, c3: Call, c4: Call)
    requires Settled(db) && c1.op.Install? && c2.op.Start? && c3.op.Stop? && c4.op.Unload?
    requires c1.name == c2.name == c3.name == c4.name
    requires AllSucceed(db, [c1, c2, c3, c4])
    ensures Session(db, [c1, c2, c3, c4]) == db
    ensures c1.name !in db.services
  {
    var db1 := Returned(db, c1).0;
    var db2 := Returned(db1, c2).0;
    var db3 := Returned(db2, c3).0;
    var db4 := Returned(db3, c4).0;
    FourCalls(db, c1, c2, c3, c4);
    InstalledAndStopped(db, c1, c2, c3);
    forall h | h in db.handles ensures !Refers(db3, h, c1.name) {
      assert db3.handles == db.handles;
    }
    UnloadRemoves(db3, c4);
    assert db3.services - {c1.name} == db.services;
  }

  predicate AllSucceed(db: Database, calls: seq<Call>)
    decreases |calls|
  {
    calls == [] || (Succeeds(db, calls[0]) && AllSucceed(Returned(db, calls[0]).0, calls[1..]))
  }

  lemma FourCalls(db: Database, c1: Call, c2: Call, c3: Call, c4: Call)
    ensures var db1 := Returned(db, c1).0;
      var db2 := Returned(db1, c2).0;
      var db3 := Returned(db2, c3).0;
      && Session(db, [c1, c2, c3, c4]) == Returned(db3, c4).0
      && (AllSucceed(db, [c1, c2, c3, c4]) <==>
            Succeeds(db, c1) && Succeeds(db1, c2) && Succeeds(db2, c3) && Succeeds(db3, c4))
  {
    var db1 := Returned(db, c1).0;
    var db2 := Returned(db1, c2).0;
    var db3 := Returned(db2, c3).0;
    assert [c1, c2, c3, c4][1..] == [c2, c3, c4] && [c2, c3, c4][1..] == [c3, c4];
    assert [c3, c4][1..] == [c4] && [c4][1..] == [];
    assert Session(db3, [c4]) == Returned(db3, c4).0;
    assert Session(db2, [c3, c4]) == Session(db3, [c4]);
    assert Session(db1, [c2, c3, c4]) == Session(db2, [c3, c4]);
    assert AllSucceed(db3, [c4]) == Succeeds(db3, c4);
    assert AllSucceed(db2, [c3, c4]) == (Succeeds(db2, c3) && AllSucceed(db3, [c4]));
    assert AllSucceed(db1, [c2, c3, c4]) == (Succeeds(db1, c2) && AllSucceed(db2, [c3, c4]));
  }
}
