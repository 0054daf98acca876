/** What an unset local can do: concrete runs in which a failed install closes a
    handle that belongs to another client of the same process. */
module StrayRuns {
  import opened Scm
  import opened Lifecycle
  import opened SoloLaws
  import opened RunLaws
  import opened CountLaws
  import opened LinearLaws

  const DRIVER: Name := "NetworkMnt"
  const OTHER: Name := "Other"

  function BothStopped(): map<Name, Service> {
    map[DRIVER := Service(false, false), OTHER := Service(false, false)]
  }

  function Quiet(): World {
    World(Database(BothStopped(), map[]), map[])
  }

  /** Client 0 opens the driver to start it. */
  function Opening(): seq<Event> {
    [Enters(0, Start, DRIVER), Advances(0, Grant(1)), Advances(0, Grant(2))]
  }

  function ReadyToStart(): Client {
    Client(Start, DRIVER, Act, 1, 2, true, NO_ERROR, [Opened(1), Opened(2)], [Grant(1), Grant(2)])
  }

  function StartReady(): World {
    World(Database(BothStopped(), map[1 := Manager, 2 := OnService(DRIVER)]), map[0 := ReadyToStart()])
  }

  /** Client 1 installs and fails in its setup; its unset local equals 2. */
  function FailingInstall(): seq<Event> {
    [Enters(1, Install(2), DRIVER), Advances(1, Grant(3)), Advances(1, Refuse(ERROR_FILE_NOT_FOUND))]
  }

  function FailedInstall(stage: Stage, log: seq<Note>): Client {
    Client(Install(2), DRIVER, stage, 3, 2, false, ERROR_FILE_NOT_FOUND,
           [Opened(3), Failed(ERROR_FILE_NOT_FOUND)] + log, [Grant(3)])
  }

  function InstallFailed(): World {
    World(Database(BothStopped(), map[1 := Manager, 2 := OnService(DRIVER), 3 := Manager]),
          map[0 := ReadyToStart(), 1 := FailedInstall(CloseTarget, [])])
  }

  /** Client 1 has closed client 0's service handle. */
  function HandleLost(): World {
    World(Database(BothStopped(), map[1 := Manager, 3 := Manager]),
          map[0 := ReadyToStart(), 1 := FailedInstall(CloseManager, [Closed(2)])])
  }

  /** Client 2 opens the other service to stop it, and is given handle 2. */
  function Reusing(): seq<Event> {
    [Enters(2, Stop, OTHER), Advances(2, Grant(4)), Advances(2, Grant(2))]
  }

  function ReadyToStop(): Client {
    Client(Stop, OTHER, Act, 4, 2, true, NO_ERROR, [Opened(4), Opened(2)], [Grant(4), Grant(2)])
  }

  function HandleReused(): World {
    World(Database(BothStopped(), map[1 := Manager, 2 := OnService(OTHER), 3 := Manager, 4 := Manager]),
          HandleLost().clients[2 := ReadyToStop()])
  }

  // ----- The runs, piece by piece

  lemma RunThree(w: World, es: seq<Event>)
    requires |es| == 3
    ensures Run(w, es) == Next(Next(Next(w, es[0]), es[1]), es[2])
  {
    RunSnoc(w, es[..2], es[2]);
    RunSnoc(w, es[..1], es[1]);
    RunSnoc(w, [], es[0]);
    assert es == es[..2] + [es[2]] && es[..2] == es[..1] + [es[1]] && es[..1] == [] + [es[0]];
  }

  lemma StartOpens()
    ensures Run(Quiet(), Opening()) == StartReady()
  {
    RunThree(Quiet(), Opening());
    var w1 := Next(Next(Quiet(), Opening()[0]), Opening()[1]);
    assert w1.clients[0] == Client(Start, DRIVER, OpenTarget, 1, NULL, true, NO_ERROR, [Opened(1)], [Grant(1)]);
    assert [Grant(1)] + [Grant(2)] == [Grant(1), Grant(2)];
    assert [Opened(1)] + [Opened(2)] == [Opened(1), Opened(2)];
    assert Next(w1, Opening()[2]).clients == StartReady().clients;
  }

  lemma InstallFails()
    ensures Run(StartReady(), FailingInstall()) == InstallFailed()
  {
    var es := FailingInstall();
    RunThree(StartReady(), es);
    var w1 := Next(Next(StartReady(), es[0]), es[1]);
    assert w1.clients[1] == Client(Install(2), DRIVER, Setup, 3, 2, false, NO_ERROR, [Opened(3)], [Grant(3)]);
    assert [Opened(3)] + [Failed(ERROR_FILE_NOT_FOUND)] == FailedInstall(CloseTarget, []).log;
    assert Next(w1, es[2]).clients == InstallFailed().clients;
  }

  lemma StrayCloseHits()
    ensures Next(InstallFailed(), Advances(1, Grant(NULL))) == HandleLost()
  {
    var w := Next(InstallFailed(), Advances(1, Grant(NULL)));
    assert InstallFailed().db.handles - {2} == HandleLost().db.handles;
    assert FailedInstall(CloseTarget, []).log + [Closed(2)] == FailedInstall(CloseManager, [Closed(2)]).log;
    assert w.clients == HandleLost().clients;
  }

  lemma StopOpens()
    ensures Run(HandleLost(), Reusing()) == HandleReused()
  {
    var es := Reusing();
    RunThree(HandleLost(), es);
    var w1 := Next(Next(HandleLost(), es[0]), es[1]);
    assert w1.clients[2] == Client(Stop, OTHER, OpenTarget, 4, NULL, true, NO_ERROR, [Opened(4)], [Grant(4)]);
    assert [Grant(4)] + [Grant(2)] == [Grant(4), Grant(2)];
    assert [Opened(4)] + [Opened(2)] == [Opened(4), Opened(2)];
    assert Next(w1, es[2]).clients == HandleReused().clients;
    assert Next(w1, es[2]).db.handles == HandleReused().db.handles;
  }

  /** From nobody at work to the stray close, and on to the reuse of the handle. */
  function LosingRun(): seq<Event> {
    Opening() + FailingInstall() + [Advances(1, Grant(NULL))]
  }

  lemma RunsReach()
    ensures Run(Quiet(), LosingRun()) == HandleLost()
    ensures Run(Quiet(), LosingRun() + Reusing()) == HandleReused()
  {
    RunSplit(Quiet(), Opening(), FailingInstall());
    StartOpens();
    InstallFails();
    RunSnoc(Quiet(), Opening() + FailingInstall(), Advances(1, Grant(NULL)));
    StrayCloseHits();
    RunSplit(Quiet(), LosingRun(), Reusing());
    StopOpens();
  }

  // ----- The harm

  lemma HandleLostCounts()
    ensures HandlesOn(HandleLost().db, DRIVER) == {} && Inside(HandleLost(), DRIVER) == {0}
  {
    assert forall h :: h in HandleLost().db.handles ==> !Refers(HandleLost().db, h, DRIVER);
  }

  lemma StartIsRobbed(v: Verdict)
    requires v.Grant?
    ensures var w, e := HandleLost(), Advances(0, v);
      && Decides(w, e) && Unrefusing(w, e) && Robbed(w, e)
      && StateError(Start, w.db, DRIVER) == NO_ERROR
      && Next(w, e).clients[0].err == ERROR_INVALID_HANDLE
  {
    assert StartService(HandleLost().db, 2, v) == Failure(HandleLost().db, ERROR_INVALID_HANDLE);
  }

  /** Handle conservation and exact results fail with the local left unset: the run
      closes a handle its owner is still using. The start then fails although the
      service could be started and the system has refused it nothing. */
  lemma UnsetLocalHarms(v: Verdict)
    requires v.Grant?
    ensures Initial(Quiet())
    ensures var w, e := Run(Quiet(), LosingRun()), Advances(0, v);
      var k := Next(w, e).clients[0];
      && HandlesOn(w.db, DRIVER) == {} && Inside(w, DRIVER) == {0}
      && Decides(w, e) && Unrefusing(w, e) && Robbed(w, e) && !TruthfulAt(w, e, k)
      && StateError(Start, w.db, DRIVER) == NO_ERROR && k.err == ERROR_INVALID_HANDLE
  {
    RunsReach();
    HandleLostCounts();
    StartIsRobbed(v);
    RunKeepsSettled(Quiet(), LosingRun(), 0);
    DecisionIsTruthful(HandleLost(), Advances(0, v));
  }

  lemma StartsTheOther(v: Verdict)
    requires v.Grant?
    ensures var w, e := HandleReused(), Advances(0, v);
      var w' := Next(w, e);
      && Decides(w, e) && Misreports(w, e)
      && w'.clients[0].op == Start && w'.clients[0].name == DRIVER && w'.clients[0].err == NO_ERROR
      && w'.db.services == map[DRIVER := Service(false, false), OTHER := Service(true, false)]
  {
    var w, e := HandleReused(), Advances(0, v);
    assert w.clients[0] == ReadyToStart();
    assert DRIVER != OTHER by { assert |DRIVER| != |OTHER|; }
  }

  lemma SettledThroughout()
    ensures Settled(HandleReused().db) && InShape(HandleReused(), 0)
  {
    RunsReach();
    RunKeepsSettled(Quiet(), LosingRun() + Reusing(), 0);
  }

  /** Truthfulness fails too: when the handle has been handed out again, the start
      reports success, the other service runs, and the driver stays stopped. */
  lemma UnsetLocalMisleads(v: Verdict)
    requires v.Grant?
    ensures Initial(Quiet())
    ensures var w, e := Run(Quiet(), LosingRun() + Reusing()), Advances(0, v);
      var w' := Next(w, e);
      && Decides(w, e) && Misreports(w, e) && !TruthfulAt(w, e, w'.clients[0])
      && w'.clients[0].op == Start && w'.clients[0].name == DRIVER && w'.clients[0].err == NO_ERROR
      && w'.db.services == map[DRIVER := Service(false, false), OTHER := Service(true, false)]
  {
    RunsReach();
    StartsTheOther(v);
    SettledThroughout();
    DecisionIsTruthful(HandleReused(), Advances(0, v));
  }
}
