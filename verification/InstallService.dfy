/** The lifecycle functions in the form the program gives them: calls on the
    system, a last-error cell that any call may overwrite, an error code kept in
    a local, and a cleanup at the end. Before every call any number of other
    clients may have taken any number of steps. Each function is shown to be the
    part one client plays in a run of module Lifecycle. */
module InstallService {
  import opened Scm
  import opened Lifecycle
  import opened SoloLaws
  import opened Activations
  import opened CStrings
  import DriverPath

  /** The system, as one thread sees it. */
  class Windows {
    /** The client that the thread is. */
    const me: nat
    /** What the system answers, call by call, to the calls that it may refuse. */
    const answers: nat -> Verdict
    /** How many of them the thread has made. */
    var calls: nat
    var db: Database
    /** Where all other clients stand. */
    var others: map<nat, Client>
    var lastError: nat
    /** File handles open at present. */
    var files: nat
    /** Handles opened and closed and calls failed by this thread, in order. */
    ghost var trace: seq<Note>

    constructor (me: nat, answers: nat -> Verdict, db: Database, others: map<nat, Client>)
      ensures this.me == me && this.answers == answers && calls == 0
      ensures this.db == db && this.others == others && files == 0 && trace == []
    {
      this.me := me;
      this.answers := answers;
      calls := 0;
      this.db := db;
      this.others := others;
      lastError := NO_ERROR;
      files := 0;
      trace := [];
    }

    function Around(): World
      reads this`db, this`others
    {
      World(db, others)
    }

    /** Since the thread had made `from` calls, the system has given these answers. */
    ghost predicate Answered(from: nat, met: seq<Verdict>)
      reads this`calls
    {
      calls == from + |met| && forall i :: 0 <= i < |met| ==> met[i] == answers(from + i)
    }

    /** Others take any number of steps. */
    method Interleave() returns (ghost es: seq<Event>)
      requires me !in others
      modifies this`db, this`others
      ensures Interleaved(old(Around()), me, es, Around())
    {
      es := [];
      Unconcerned(Around(), me, es);
      var events: seq<Event> := *;
      if Foreign(events, me) {
        Unconcerned(Around(), me, events);
        var w := Run(Around(), events);
        db, others := w.db, w.clients;
        es := events;
      }
    }

    /** Takes over a reply; a call that succeeds may leave any last error. */
    method Settle(r: Reply, ghost success: seq<Note>) returns (value: nat)
      modifies this`db, this`lastError, this`trace
      ensures db == r.db && value == r.value
      ensures value == NULL ==> lastError == r.error
      ensures trace == old(trace) + if value == NULL then [Failed(r.error)] else success
    {
      db := r.db;
      lastError := *;
      value := r.value;
      if value == NULL {
        lastError := r.error;
        trace := trace + [Failed(r.error)];
      } else {
        trace := trace + success;
      }
    }

    method CallOpenSCManager() returns (h: Handle, v: Verdict, ghost es: seq<Event>, ghost w1: World)
      requires me !in others
      modifies this`calls, this`db, this`others, this`lastError, this`trace
      ensures calls == old(calls) + 1 && v == answers(old(calls))
      ensures Interleaved(old(Around()), me, es, w1)
      ensures var r := OpenSCManager(w1.db, v);
        Around() == w1.(db := r.db) && h == r.value && (h == NULL ==> lastError == r.error) &&
        trace == old(trace) + if h == NULL then [Failed(r.error)] else [Opened(h)]
    {
      es := Interleave();
      w1 := Around();
      v := answers(calls);
      calls := calls + 1;
      var r := OpenSCManager(db, v);
      h := Settle(r, [Opened(r.value)]);
    }

    method CallCreateService(mgr: Handle, n: Name) returns (h: Handle, v: Verdict, ghost es: seq<Event>, ghost w1: World)
      requires me !in others
      modifies this`calls, this`db, this`others, this`lastError, this`trace
      ensures calls == old(calls) + 1 && v == answers(old(calls))
      ensures Interleaved(old(Around()), me, es, w1)
      ensures var r := CreateService(w1.db, mgr, n, v);
        Around() == w1.(db := r.db) && h == r.value && (h == NULL ==> lastError == r.error) &&
        trace == old(trace) + if h == NULL then [Failed(r.error)] else [Opened(h)]
    {
      es := Interleave();
      w1 := Around();
      v := answers(calls);
      calls := calls + 1;
      var r := CreateService(db, mgr, n, v);
      h := Settle(r, [Opened(r.value)]);
    }

    method CallOpenService(mgr: Handle, n: Name) returns (h: Handle, v: Verdict, ghost es: seq<Event>, ghost w1: World)
      requires me !in others
      modifies this`calls, this`db, this`others, this`lastError, this`trace
      ensures calls == old(calls) + 1 && v == answers(old(calls))
      ensures Interleaved(old(Around()), me, es, w1)
      ensures var r := OpenService(w1.db, mgr, n, v);
        Around() == w1.(db := r.db) && h == r.value && (h == NULL ==> lastError == r.error) &&
        trace == old(trace) + if h == NULL then [Failed(r.error)] else [Opened(h)]
    {
      es := Interleave();
      w1 := Around();
      v := answers(calls);
      calls := calls + 1;
      var r := OpenService(db, mgr, n, v);
      h := Settle(r, [Opened(r.value)]);
    }

    method CallStartService(h: Handle) returns (ok: bool, v: Verdict, ghost es: seq<Event>, ghost w1: World)
      requires me !in others
      modifies this`calls, this`db, this`others, this`lastError, this`trace
      ensures calls == old(calls) + 1 && v == answers(old(calls))
      ensures Interleaved(old(Around()), me, es, w1)
      ensures var r := StartService(w1.db, h, v);
        Around() == w1.(db := r.db) && (ok <==> r.value != NULL) && (!ok ==> lastError == r.error) &&
        trace == old(trace) + if ok then [] else [Failed(r.error)]
    {
      es := Interleave();
      w1 := Around();
      v := answers(calls);
      calls := calls + 1;
      var value := Settle(StartService(db, h, v), []);
      ok := value != NULL;
    }

    method CallControlService(h: Handle) returns (ok: bool, v: Verdict, ghost es: seq<Event>, ghost w1: World)
      requires me !in others
      modifies this`calls, this`db, this`others, this`lastError, this`trace
      ensures calls == old(calls) + 1 && v == answers(old(calls))
      ensures Interleaved(old(Around()), me, es, w1)
      ensures var r := StopService(w1.db, h, v);
        Around() == w1.(db := r.db) && (ok <==> r.value != NULL) && (!ok ==> lastError == r.error) &&
        trace == old(trace) + if ok then [] else [Failed(r.error)]
    {
      es := Interleave();
      w1 := Around();
      v := answers(calls);
      calls := calls + 1;
      var value := Settle(StopService(db, h, v), []);
      ok := value != NULL;
    }

    method CallDeleteService(h: Handle) returns (ok: bool, v: Verdict, ghost es: seq<Event>, ghost w1: World)
      requires me !in others
      modifies this`calls, this`db, this`others, this`lastError, this`trace
      ensures calls == old(calls) + 1 && v == answers(old(calls))
      ensures Interleaved(old(Around()), me, es, w1)
      ensures var r := DeleteService(w1.db, h, v);
        Around() == w1.(db := r.db) && (ok <==> r.value != NULL) && (!ok ==> lastError == r.error) &&
        trace == old(trace) + if ok then [] else [Failed(r.error)]
    {
      es := Interleave();
      w1 := Around();
      v := answers(calls);
      calls := calls + 1;
      var value := Settle(DeleteService(db, h, v), []);
      ok := value != NULL;
    }

    method CallCloseServiceHandle(h: Handle) returns (ghost es: seq<Event>, ghost w1: World)
      requires me !in others
      modifies this`db, this`others, this`lastError, this`trace
      ensures Interleaved(old(Around()), me, es, w1)
      ensures Around() == w1.(db := CloseServiceHandle(w1.db, h).db)
      ensures trace == old(trace) + [Closed(h)]
    {
      es := Interleave();
      w1 := Around();
      db := CloseServiceHandle(db, h).db;
      lastError := *;
      trace := trace + [Closed(h)];
    }

    /** Console output; leaves any last error. */
    method Print()
      modifies this`lastError
    {
      lastError := *;
    }

    /** `CreateFileW`: opens, or fails with the given code. */
    method CreateFile(opens: bool, code: ErrorCode) returns (ok: bool)
      modifies this`lastError, this`files
      ensures ok == opens && files == old(files) + (if ok then 1 else 0)
      ensures !ok ==> lastError == code
    {
      ok := opens;
      lastError := *;
      if ok {
        files := files + 1;
      } else {
        lastError := code;
      }
    }

    method CloseFile()
      requires files > 0
      modifies this`lastError, this`files
      ensures files == old(files) - 1
    {
      lastError := *;
      files := files - 1;
    }
  }

  // ----- Files

  /** NO_ERROR if and only if the device opens, otherwise the system's code; no
      handle stays open either way. */
  method FileExistedOrNot(win: Windows, opens: bool, code: ErrorCode) returns (errCode: nat)
    modifies win`lastError, win`files
    ensures errCode == NO_ERROR <==> opens
    ensures !opens ==> errCode == code
    ensures win.files == old(win.files)
  {
    var ok := win.CreateFile(opens, code);
    if !ok {
      errCode := win.lastError;
      if errCode == ERROR_FILE_NOT_FOUND {
        return ERROR_FILE_NOT_FOUND;
      }
      win.Print();
      return errCode;
    }
    win.CloseFile();
    return NO_ERROR;
  }

  /** Builds the path of the driver image and checks that it can be opened. The
      byte count is passed where the first call takes characters; where that call
      then writes past the buffer, which C leaves undefined, `overrun` says so and
      the model goes no further. */
  method SetupDriverName(win: Windows, location: array<char>, length: nat,
                         d: DriverPath.Directory, imageOpens: bool, code: ErrorCode)
    returns (errCode: nat, overrun: bool)
    requires length / 2 == location.Length
    requires DriverPath.WellFormed(d)
    modifies win`lastError, win`files, win`trace, location
    ensures overrun <==> DriverPath.Overruns(d, length, location.Length)
    ensures overrun ==> location[..] == old(location[..]) && win.trace == old(win.trace)
    ensures !overrun ==>
      errCode == DriverPath.SetupResult(d, length, old(location[..]), imageOpens)
      && win.trace == old(win.trace) + if errCode == NO_ERROR then [] else [Failed(errCode)]
    ensures !overrun ==>
      errCode == NO_ERROR || errCode == ERROR_FILE_NOT_FOUND || d.Unavailable? || errCode == ERROR_OPERATION_ABORTED
    ensures !overrun && d.Unavailable? ==> errCode == d.code
    ensures !overrun && d.Path? ==>
      var start := if |d.path| + 1 <= length then d.path else Held(old(location[..]));
      var fits := |start| + 16 <= length / 2;
      && (!fits ==> errCode == ERROR_OPERATION_ABORTED)
      && (fits ==> errCode == if imageOpens then NO_ERROR else ERROR_FILE_NOT_FOUND)
      && (fits ==> Held(location[..]) == start + ['\\'] + DriverPath.DRIVER_NAME + ".sys"
                   && Terminator(location[..]) < location.Length)
    ensures win.files == old(win.files)
  {
    errCode := NO_ERROR;
    DriverPath.SuffixSpelled();
    overrun := DriverPath.Overruns(d, length, location.Length);
    if overrun {
      return;
    }
    var n := DriverPath.GetCurrentDirectory(d, length, location);
    if n == 0 {
      win.lastError := d.code;
      errCode := win.lastError;
      win.Print();
      win.trace := win.trace + [Failed(errCode)];
      return;
    }
    var ok := DriverPath.StringCbCat(location, length, DriverPath.SUFFIX);
    if !ok {
      errCode := ERROR_OPERATION_ABORTED;
      win.trace := win.trace + [Failed(errCode)];
      return;
    }
    ok := win.CreateFile(imageOpens, code);
    if !ok {
      win.Print();
      errCode := ERROR_FILE_NOT_FOUND;
      win.trace := win.trace + [Failed(errCode)];
      return;
    }
    win.CloseFile();
  }

  // ----- The calls, as steps of an activation

  /** The activation has come to where the system stands: the trace since `t0` is the
      client's history, and the answers since call `c0` are those it has met. */
  ghost predicate Tracks(win: Windows, a: Activation, t0: seq<Note>, c0: nat)
    reads win`calls, win`db, win`others, win`trace
  {
    && a.id == win.me && At(a, win.Around())
    && win.trace == t0 + a.k.log && win.Answered(c0, a.k.met)
  }

  /** The client opens the manager. */
  method OpenManagerStep(win: Windows, ghost a: Activation, ghost t0: seq<Note>, ghost c0: nat)
    returns (h: Handle, ghost b: Activation)
    requires Tracks(win, a, t0, c0) && a.k.stage == OpenManager
    modifies win`calls, win`db, win`others, win`lastError, win`trace
    ensures Tracks(win, b, t0, c0) && Continues(a, b) && |b.k.met| == |a.k.met| + 1
    ensures b.k == (if h == NULL then
                      Fail(a.k, win.lastError, if a.op.Install? || a.op.Stop? then Done else CloseTarget)
                    else a.k.(mgr := h, log := a.k.log + [Opened(h)],
                              stage := if a.op.Install? then Setup else OpenTarget)).(met := b.k.met)
  {
    ghost var w := win.Around();
    var v: Verdict;
    ghost var fs, w1;
    h, v, fs, w1 := win.CallOpenSCManager();
    b := Moves(a, w, fs, w1, v);
  }

  /** The install client creates the service. */
  method CreateServiceStep(win: Windows, mgr: Handle, n: Name, ghost a: Activation, ghost t0: seq<Note>, ghost c0: nat)
    returns (h: Handle, ghost b: Activation)
    requires Tracks(win, a, t0, c0) && a.k.stage == OpenTarget && a.op.Install? && a.k.mgr == mgr && a.name == n
    modifies win`calls, win`db, win`others, win`lastError, win`trace
    ensures Tracks(win, b, t0, c0) && Continues(a, b) && |b.k.met| == |a.k.met| + 1
    ensures b.k == (if h == NULL then Fail(a.k.(svc := NULL, isSet := true), win.lastError, CloseTarget)
                    else a.k.(svc := h, isSet := true, log := a.k.log + [Opened(h)],
                              stage := CloseTarget)).(met := b.k.met)
  {
    ghost var w := win.Around();
    var v: Verdict;
    ghost var fs, w1;
    h, v, fs, w1 := win.CallCreateService(mgr, n);
    b := Moves(a, w, fs, w1, v);
  }

  /** Any other client opens it. */
  method OpenServiceStep(win: Windows, mgr: Handle, n: Name, ghost a: Activation, ghost t0: seq<Note>, ghost c0: nat)
    returns (h: Handle, ghost b: Activation)
    requires Tracks(win, a, t0, c0) && a.k.stage == OpenTarget && !a.op.Install? && a.k.mgr == mgr && a.name == n
    modifies win`calls, win`db, win`others, win`lastError, win`trace
    ensures Tracks(win, b, t0, c0) && Continues(a, b) && |b.k.met| == |a.k.met| + 1
    ensures b.k == (if h == NULL then Fail(a.k.(svc := NULL, isSet := true), win.lastError, CloseTarget)
                    else a.k.(svc := h, isSet := true, log := a.k.log + [Opened(h)],
                              stage := Act)).(met := b.k.met)
  {
    ghost var w := win.Around();
    var v: Verdict;
    ghost var fs, w1;
    h, v, fs, w1 := win.CallOpenService(mgr, n);
    b := Moves(a, w, fs, w1, v);
  }

  /** The start client starts it. */
  method StartServiceStep(win: Windows, svc: Handle, ghost a: Activation, ghost t0: seq<Note>, ghost c0: nat)
    returns (ok: bool, ghost b: Activation)
    requires Tracks(win, a, t0, c0) && a.k.stage == Act && a.op.Start? && a.k.svc == svc
    modifies win`calls, win`db, win`others, win`lastError, win`trace
    ensures Tracks(win, b, t0, c0) && Continues(a, b) && |b.k.met| == |a.k.met| + 1
    ensures b.k == (if !ok then Fail(a.k, win.lastError, CloseTarget)
                    else a.k.(stage := CloseTarget)).(met := b.k.met)
  {
    ghost var w := win.Around();
    var v: Verdict;
    ghost var fs, w1;
    ok, v, fs, w1 := win.CallStartService(svc);
    b := Moves(a, w, fs, w1, v);
  }

  /** The stop client stops it. */
  method ControlServiceStep(win: Windows, svc: Handle, ghost a: Activation, ghost t0: seq<Note>, ghost c0: nat)
    returns (ok: bool, ghost b: Activation)
    requires Tracks(win, a, t0, c0) && a.k.stage == Act && a.op.Stop? && a.k.svc == svc
    modifies win`calls, win`db, win`others, win`lastError, win`trace
    ensures Tracks(win, b, t0, c0) && Continues(a, b) && |b.k.met| == |a.k.met| + 1
    ensures b.k == (if !ok then Fail(a.k, win.lastError, CloseTarget)
                    else a.k.(stage := CloseTarget)).(met := b.k.met)
  {
    ghost var w := win.Around();
    var v: Verdict;
    ghost var fs, w1;
    ok, v, fs, w1 := win.CallControlService(svc);
    b := Moves(a, w, fs, w1, v);
  }

  /** The unload client deletes it. */
  method DeleteServiceStep(win: Windows, svc: Handle, ghost a: Activation, ghost t0: seq<Note>, ghost c0: nat)
    returns (ok: bool, ghost b: Activation)
    requires Tracks(win, a, t0, c0) && a.k.stage == Act && a.op.Unload? && a.k.svc == svc
    modifies win`calls, win`db, win`others, win`lastError, win`trace
    ensures Tracks(win, b, t0, c0) && Continues(a, b) && |b.k.met| == |a.k.met| + 1
    ensures b.k == (if !ok then Fail(a.k, win.lastError, CloseTarget)
                    else a.k.(stage := CloseTarget)).(met := b.k.met)
  {
    ghost var w := win.Around();
    var v: Verdict;
    ghost var fs, w1;
    ok, v, fs, w1 := win.CallDeleteService(svc);
    b := Moves(a, w, fs, w1, v);
  }

  /** `if (h) CloseServiceHandle(h);` */
  method CloseStep(win: Windows, h: Handle, ghost a: Activation, ghost t0: seq<Note>, ghost c0: nat)
    returns (ghost b: Activation)
    requires Tracks(win, a, t0, c0)
    requires (a.k.stage == CloseTarget && a.k.svc == h) || (a.k.stage == CloseManager && a.k.mgr == h)
    modifies win`db, win`others, win`lastError, win`trace
    ensures Tracks(win, b, t0, c0) && Continues(a, b)
    ensures b.k == a.k.(log := a.k.log + CloseNote(h),
                        stage := if a.k.stage == CloseTarget then CloseManager else Done)
  {
    ghost var w, any := win.Around(), Grant(NULL);
    if h == NULL {
      b := MovesAtOnce(a, w, any);
    } else {
      ghost var fs, w1 := win.CallCloseServiceHandle(h);
      b := Moves(a, w, fs, w1, any);
    }
  }

  /** The common cleanup: close the service, then the manager, where not NULL. */
  method Cleanup(win: Windows, schService: Handle, schSCManager: Handle,
                 ghost a: Activation, ghost t0: seq<Note>, ghost c0: nat)
    returns (ghost b: Activation)
    requires Tracks(win, a, t0, c0)
    requires a.k.stage == CloseTarget && a.k.svc == schService && a.k.mgr == schSCManager
    modifies win`db, win`others, win`lastError, win`trace
    ensures Tracks(win, b, t0, c0) && Continues(a, b)
    ensures b.k == a.k.(log := a.k.log + CloseNote(schService) + CloseNote(schSCManager), stage := Done)
  {
    b := CloseStep(win, schService, a, t0, c0);
    b := CloseStep(win, schSCManager, b, t0, c0);
  }

  // ----- The four functions

  /** What the path step reports to the install function. */
  function SetupCode(d: DriverPath.Directory, imageOpens: bool): nat {
    DriverPath.SetupResult(d, 2 * DriverPath.MAX_PATH, seq(DriverPath.MAX_PATH, _ => NUL), imageOpens)
  }

  predicate SetupOverruns(d: DriverPath.Directory) {
    DriverPath.Overruns(d, 2 * DriverPath.MAX_PATH, DriverPath.MAX_PATH)
  }

  /** For every directory and image: the install goes on exactly if the directory is
      available, has at most 244 characters (or 520 and more, and is dropped), and the
      image opens; otherwise this is the code it fails with. */
  lemma SetupCodes(d: DriverPath.Directory, imageOpens: bool)
    requires DriverPath.WellFormed(d)
    ensures SetupOverruns(d) <==> d.Path? && 260 <= |d.path| < 520
    ensures !SetupOverruns(d) ==>
      var code := SetupCode(d, imageOpens);
      && (d.Unavailable? ==> code == d.code)
      && (d.Path? && 245 <= |d.path| < 260 ==> code == ERROR_OPERATION_ABORTED)
      && (d.Path? && !(245 <= |d.path| < 260) ==> code == if imageOpens then NO_ERROR else ERROR_FILE_NOT_FOUND)
  {
    if !SetupOverruns(d) {
      DriverPath.SetupAnswers(d, seq(DriverPath.MAX_PATH, _ => NUL), imageOpens);
    }
  }

  /** The path step on the install function's own buffer, as a step of the activation. */
  method SetupStep(win: Windows, d: DriverPath.Directory, imageOpens: bool, code: ErrorCode,
                   ghost a: Activation, ghost t0: seq<Note>, ghost c0: nat)
    returns (errCode: nat, overrun: bool, ghost b: Activation)
    requires DriverPath.WellFormed(d)
    requires Tracks(win, a, t0, c0) && a.k.stage == Setup
    modifies win`lastError, win`files, win`trace
    ensures overrun <==> SetupOverruns(d)
    ensures overrun ==> b == a
    ensures !overrun ==> errCode == SetupCode(d, imageOpens)
    ensures Tracks(win, b, t0, c0) && Continues(a, b)
    ensures !overrun ==>
      b.k == if errCode == NO_ERROR then a.k.(stage := OpenTarget) else Fail(a.k, errCode, CloseTarget)
    ensures win.files == old(win.files)
  {
    var driverLocation := new char[DriverPath.MAX_PATH](_ => NUL);
    assert driverLocation[..] == seq(DriverPath.MAX_PATH, _ => NUL);
    errCode, overrun := SetupDriverName(win, driverLocation, 2 * DriverPath.MAX_PATH, d, imageOpens, code);
    b := a;
    if !overrun {
      b := MovesAtOnce(a, win.Around(), if errCode == NO_ERROR then Grant(NULL) else Refuse(errCode));
    }
  }

  /** With the manager open, an install fails with the setup's code, has asked for
      nothing more and closes its unset local, if the setup fails; if it does not, the
      install asks for the service and is bracketed. */
  ghost predicate InstallHistory(k: Client, setup: nat) {
    k.log != [] && k.op.Install? && (k.log[0].Opened? ==>
      if setup != NO_ERROR then |k.met| == 1 && SetupFailure(k.log, k.mgr, setup, k.op.unset)
      else |k.met| == 2 && exists m, s, f: seq<Note> :: Bracketed(k.log, m, s, f))
  }

  lemma CleanupHistory(a: Activation, w: World, b: Client, setup: nat)
    requires At(a, w) && a.k.stage == CloseTarget && a.k.mgr != NULL && a.op.Install?
    requires b == a.k.(log := a.k.log + CloseNote(a.k.svc) + CloseNote(a.k.mgr), stage := Done)
    requires if setup == NO_ERROR then a.k.isSet && |a.k.met| == 2 else !a.k.isSet && a.k.err == setup && |a.k.met| == 1
    ensures InstallHistory(b, setup)
  {
    AtInShape(a, w);
    if a.k.isSet {
      assert Bracketed(b.log, [b.mgr], if b.svc == NULL then [] else [b.svc], FailNotes(b));
    }
  }

  method InstallDriver(win: Windows, driverName: Name, unset: Handle,
                       d: DriverPath.Directory, imageOpens: bool, code: ErrorCode)
    returns (errCode: nat, overrun: bool, ghost a: Activation)
    requires DriverPath.WellFormed(d) && win.me !in win.others
    modifies win`calls, win`db, win`others, win`lastError, win`files, win`trace
    ensures Continues(Begin(old(win.Around()), win.me, Install(unset), driverName), a)
    ensures Tracks(win, a, old(win.trace), old(win.calls)) && win.files == old(win.files)
    ensures overrun <==> SetupOverruns(d) && a.k.log != [] && a.k.log[0].Opened?
    ensures overrun ==> a.k.stage == Setup
    ensures !overrun ==> Performed(a, win.Around(), errCode) && InstallHistory(a.k, SetupCode(d, imageOpens))
  {
    ghost var t0, c0 := win.trace, win.calls;
    a := Begin(win.Around(), win.me, Install(unset), driverName);
    Begins(win.Around(), win.me, Install(unset), driverName);
    var schSCManager: Handle;
    var schService := unset;
    errCode := NO_ERROR;
    overrun := false;

    schSCManager, a := OpenManagerStep(win, a, t0, c0);
    if schSCManager == NULL {
      errCode := win.lastError;
      win.Print();
      return;
    }
    errCode, overrun, a := SetupStep(win, d, imageOpens, code, a, t0, c0);
    if overrun {
      return;
    }
    if errCode == NO_ERROR {
      schService, a := CreateServiceStep(win, schSCManager, driverName, a, t0, c0);
      if schService == NULL {
        errCode := win.lastError;
        if errCode == ERROR_SERVICE_EXISTS {
          win.Print();
        } else if errCode == ERROR_SERVICE_MARKED_FOR_DELETE {
          win.Print();
        } else {
          win.Print();
        }
      } else {
        win.Print();
      }
    }
    ghost var before, w := a, win.Around();
    a := Cleanup(win, schService, schSCManager, a, t0, c0);
    CleanupHistory(before, w, a.k, SetupCode(d, imageOpens));
  }

  method CustomOpenService(win: Windows, serviceName: Name) returns (errCode: nat, ghost a: Activation)
    requires win.me !in win.others
    modifies win`calls, win`db, win`others, win`lastError, win`trace
    ensures Continues(Begin(old(win.Around()), win.me, Start, serviceName), a)
    ensures Tracks(win, a, old(win.trace), old(win.calls))
    ensures Performed(a, win.Around(), errCode)
  {
    ghost var t0, c0 := win.trace, win.calls;
    a := Begin(win.Around(), win.me, Start, serviceName);
    Begins(win.Around(), win.me, Start, serviceName);
    var schSCManager, schService := NULL, NULL;
    errCode := NO_ERROR;

    schSCManager, a := OpenManagerStep(win, a, t0, c0);
    if schSCManager == NULL {
      errCode := win.lastError;
      win.Print();
    } else {
      schService, a := OpenServiceStep(win, schSCManager, serviceName, a, t0, c0);
      if schService == NULL {
        errCode := win.lastError;
        win.Print();
      } else {
        var ok;
        ok, a := StartServiceStep(win, schService, a, t0, c0);
        if !ok {
          errCode := win.lastError;
        }
        win.Print();
      }
    }
    a := Cleanup(win, schService, schSCManager, a, t0, c0);
  }

  method CustomCloseService(win: Windows, serviceName: Name) returns (errCode: nat, ghost a: Activation)
    requires win.me !in win.others
    modifies win`calls, win`db, win`others, win`lastError, win`trace
    ensures Continues(Begin(old(win.Around()), win.me, Stop, serviceName), a)
    ensures Tracks(win, a, old(win.trace), old(win.calls))
    ensures Performed(a, win.Around(), errCode)
  {
    ghost var t0, c0 := win.trace, win.calls;
    a := Begin(win.Around(), win.me, Stop, serviceName);
    Begins(win.Around(), win.me, Stop, serviceName);
    var schSCManager, schService: Handle;
    errCode := NO_ERROR;

    schSCManager, a := OpenManagerStep(win, a, t0, c0);
    if schSCManager == NULL {
      errCode := win.lastError;
      win.Print();
      return;
    }
    schService, a := OpenServiceStep(win, schSCManager, serviceName, a, t0, c0);
    if schService == NULL {
      errCode := win.lastError;
      win.Print();
    } else {
      var ok;
      ok, a := ControlServiceStep(win, schService, a, t0, c0);
      if !ok {
        errCode := win.lastError;
      }
      win.Print();
    }
    a := Cleanup(win, schService, schSCManager, a, t0, c0);
  }

  method UnloadDriver(win: Windows, driverName: Name) returns (errCode: nat, ghost a: Activation)
    requires win.me !in win.others
    modifies win`calls, win`db, win`others, win`lastError, win`trace
    ensures Continues(Begin(old(win.Around()), win.me, Unload, driverName), a)
    ensures Tracks(win, a, old(win.trace), old(win.calls))
    ensures Performed(a, win.Around(), errCode)
  {
    ghost var t0, c0 := win.trace, win.calls;
    a := Begin(win.Around(), win.me, Unload, driverName);
    Begins(win.Around(), win.me, Unload, driverName);
    var schService, schSCManager := NULL, NULL;
    errCode := NO_ERROR;

    schSCManager, a := OpenManagerStep(win, a, t0, c0);
    if schSCManager == NULL {
      errCode := win.lastError;
      win.Print();
    } else {
      schService, a := OpenServiceStep(win, schSCManager, driverName, a, t0, c0);
      if schService == NULL {
        errCode := win.lastError;
        win.Print();
      } else {
        var ok;
        ok, a := DeleteServiceStep(win, schService, a, t0, c0);
        if !ok {
          errCode := win.lastError;
        }
        win.Print();
      }
    }
    a := Cleanup(win, schService, schSCManager, a, t0, c0);
  }
}
