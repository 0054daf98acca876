/** Any number of clients, interleaved at every API call: who holds what. */
module RunLaws {
  import opened Scm
  import opened Lifecycle
  import opened SoloLaws

  // ----- Who holds what

  predicate HoldsManager(k: Client) {
    k.mgr != NULL && k.stage != OpenManager && k.stage != Done
  }

  /** Between a successful open or create and the close in the cleanup. */
  predicate HoldsService(k: Client) {
    k.isSet && k.svc != NULL && (k.stage == Act || k.stage == CloseTarget)
  }

  function Holdings(k: Client): set<Handle> {
    (if HoldsManager(k) then {k.mgr} else {}) + (if HoldsService(k) then {k.svc} else {})
  }

  ghost predicate Intact(db: Database, k: Client) {
    && (HoldsManager(k) ==> IsManager(db, k.mgr))
    && (HoldsService(k) ==> Refers(db, k.svc, k.name))
  }

  ghost predicate Owned(w: World, h: Handle) {
    exists id :: id in w.clients && h in Holdings(w.clients[id])
  }

  ghost predicate Histories(w: World) {
    forall id :: id in w.clients ==> History(w.clients[id])
  }

  /** What no stray close can break: the database is consistent, and every open
      handle is in some client's hands. */
  ghost predicate Accounted(w: World) {
    && Settled(w.db)
    && Histories(w)
    && (forall h :: h in w.db.handles ==> Owned(w, h))
  }

  /** Moreover every client's handles are open, refer to what it opened, and are
      its own. */
  ghost predicate Inv(w: World) {
    && Accounted(w)
    && (forall id :: id in w.clients ==> Intact(w.db, w.clients[id]))
    && (forall i, j :: i in w.clients && j in w.clients && i != j ==>
          Holdings(w.clients[i]) !! Holdings(w.clients[j]))
  }

  /** The step is the cleanup of an install whose setup failed, and its unset
      local happens to be an open handle. */
  predicate StrayHit(w: World, e: Event) {
    e.Advances? && e.id in w.clients &&
    var k := w.clients[e.id];
    k.stage == CloseTarget && !k.isSet && k.svc in w.db.handles
  }

  // ----- Consistency of the database, call by call

  lemma AllocateSettled(db: Database, h: Handle, obj: Object)
    requires Settled(db)
    requires obj.OnService? ==> obj.name in db.services
    ensures Settled(Allocate(db, h, obj).db)
  {
    var db' := Allocate(db, h, obj).db;
    forall n | n in db'.services && Doomed(db', n) ensures Referenced(db', n) {
      assert Doomed(db, n);
      var g :| g in db.handles && Refers(db, g, n);
      assert Refers(db', g, n);
    }
  }

  lemma CreateSettled(db: Database, mgr: Handle, n: Name, v: Verdict)
    requires Settled(db)
    ensures Settled(CreateService(db, mgr, n, v).db)
  {
    var db' := CreateService(db, mgr, n, v).db;
    if db' != db {
      forall m | m in db'.services && Doomed(db', m) ensures Referenced(db', m) {
        assert Doomed(db, m);
        var g :| g in db.handles && Refers(db, g, m);
        assert Refers(db', g, m);
      }
    }
  }

  lemma UpdateSettled(db: Database, h: Handle, s: Service)
    requires Settled(db) && IsService(db, h)
    ensures Settled(Update(db, db.handles[h].name, s).db)
  {
    var n := db.handles[h].name;
    var db' := Update(db, n, s).db;
    forall m | m in db'.services && Doomed(db', m) ensures Referenced(db', m) {
      if m == n {
        assert Refers(db', h, n);
      } else {
        assert Doomed(db, m);
        var g :| g in db.handles && Refers(db, g, m);
        assert Refers(db', g, m);
      }
    }
  }

  lemma AdvanceSettled(db: Database, k: Client, v: Verdict)
    requires Settled(db)
    ensures Settled(Advance(db, k, v).0)
  {
    match k.stage
    case OpenManager =>
      if v.Grant? { AllocateSettled(db, v.handle, Manager); }
    case Setup =>
    case OpenTarget =>
      if k.op.Install? {
        CreateSettled(db, k.mgr, k.name, v);
      } else if v.Grant? && k.name in db.services {
        AllocateSettled(db, v.handle, OnService(k.name));
      }
    case Act =>
      ActSettled(db, k, v);
    case CloseTarget =>
      CloseSettled(db, k.svc);
    case CloseManager =>
      CloseSettled(db, k.mgr);
    case Done =>
  }

  lemma ActSettled(db: Database, k: Client, v: Verdict)
    requires Settled(db)
    ensures Settled(ActCall(db, k, v).db)
  {
    if !k.op.Install? && IsService(db, k.svc) {
      var s := db.services[db.handles[k.svc].name];
      UpdateSettled(db, k.svc, s.(running := true));
      UpdateSettled(db, k.svc, s.(running := false));
      UpdateSettled(db, k.svc, s.(marked := true));
    }
  }

  // ----- One step of any kind

  /** A step takes handles from the table only into the client's own hands, and
      drops from its hands only what is closed. */
  lemma StepAccounts(db: Database, k: Client, v: Verdict)
    requires History(k)
    ensures var (db', k') := Advance(db, k, v);
      && (forall h :: h in db'.handles && h !in db.handles ==> h in Holdings(k'))
      && (forall h :: h in Holdings(k) && h !in Holdings(k') ==> h !in db'.handles)
  {
  }

  lemma StepKeepsOwned(w: World, id: nat, v: Verdict, h: Handle)
    requires Accounted(w) && id in w.clients && h in Next(w, Advances(id, v)).db.handles
    ensures Owned(Next(w, Advances(id, v)), h)
  {
    var w' := Next(w, Advances(id, v));
    StepAccounts(w.db, w.clients[id], v);
    if h in w.db.handles {
      assert Owned(w, h);
      var o :| o in w.clients && h in Holdings(w.clients[o]);
      assert h in Holdings(w'.clients[o]);
    } else {
      assert h in Holdings(w'.clients[id]);
    }
  }

  /** What every step keeps, the stray close included. */
  lemma StepKeepsAccounts(w: World, e: Event)
    requires Accounted(w)
    ensures Accounted(Next(w, e))
  {
    var w' := Next(w, e);
    if e.Enters? {
      forall h | h in w'.db.handles ensures Owned(w', h) {
        assert Owned(w, h);
        var o :| o in w.clients && h in Holdings(w.clients[o]);
        assert h in Holdings(w'.clients[o]);
      }
    } else if e.id in w.clients {
      AdvanceSettled(w.db, w.clients[e.id], e.verdict);
      HistoryStep(w.db, w.clients[e.id], e.verdict);
      forall h | h in w'.db.handles ensures Owned(w', h) {
        StepKeepsOwned(w, e.id, e.verdict, h);
      }
    }
  }

  lemma {:induction false} RunKeepsAccounts(w: World, es: seq<Event>)
    requires Accounted(w)
    ensures Accounted(Run(w, es))
    decreases |es|
  {
    if es != [] {
      StepKeepsAccounts(w, es[0]);
      RunKeepsAccounts(Next(w, es[0]), es[1..]);
    }
  }

  // ----- One step that is no stray close

  /** A step opens and closes handles only for the client that takes it. */
  ghost predicate OwnHandlesOnly(db: Database, k: Client, db': Database, k': Client) {
    && (forall h :: h in db.handles && h in db'.handles ==> db.handles[h] == db'.handles[h])
    && (forall h :: h in db'.handles && h !in db.handles ==> h in Holdings(k'))
    && (forall h :: h in db.handles && h !in db'.handles ==> h in Holdings(k) && h !in Holdings(k'))
    && (forall h :: h in Holdings(k') ==> h in Holdings(k) || h !in db.handles)
    && (forall h :: h in Holdings(k) && h !in Holdings(k') ==> h !in db'.handles)
  }

  lemma EnteringStep(db: Database, k: Client, v: Verdict)
    requires History(k) && Settled(db) && Intact(db, k) && (k.stage == OpenManager || k.stage == Setup)
    ensures var (db', k') := Advance(db, k, v); Intact(db', k') && OwnHandlesOnly(db, k, db', k')
  {
    HistoryStep(db, k, v);
  }

  lemma OpeningStep(db: Database, k: Client, v: Verdict)
    requires History(k) && Settled(db) && Intact(db, k) && k.stage == OpenTarget
    ensures var (db', k') := Advance(db, k, v); Intact(db', k') && OwnHandlesOnly(db, k, db', k')
  {
    HistoryStep(db, k, v);
  }

  lemma ActingStep(db: Database, k: Client, v: Verdict)
    requires History(k) && Settled(db) && Intact(db, k) && k.stage == Act
    ensures var (db', k') := Advance(db, k, v); Intact(db', k') && OwnHandlesOnly(db, k, db', k')
  {
    HistoryStep(db, k, v);
  }

  lemma ClosingStep(db: Database, k: Client, v: Verdict)
    requires History(k) && Settled(db) && Intact(db, k) && (k.stage == CloseTarget || k.stage == CloseManager)
    requires k.stage == CloseTarget && !k.isSet ==> k.svc !in db.handles
    ensures var (db', k') := Advance(db, k, v); Intact(db', k') && OwnHandlesOnly(db, k, db', k')
  {
    HistoryStep(db, k, v);
  }

  lemma StepOwnHandles(db: Database, k: Client, v: Verdict)
    requires History(k) && Settled(db) && Intact(db, k)
    requires k.stage == CloseTarget && !k.isSet ==> k.svc !in db.handles
    ensures var (db', k') := Advance(db, k, v); Intact(db', k') && OwnHandlesOnly(db, k, db', k')
  {
    match k.stage {
      case OpenManager => EnteringStep(db, k, v);
      case Setup => EnteringStep(db, k, v);
      case OpenTarget => OpeningStep(db, k, v);
      case Act => ActingStep(db, k, v);
      case CloseTarget => ClosingStep(db, k, v);
      case CloseManager => ClosingStep(db, k, v);
      case Done =>
    }
  }

  lemma AdvanceKeepsOthers(w: World, id: nat, v: Verdict, j: nat)
    requires Inv(w) && id in w.clients && !StrayHit(w, Advances(id, v)) && j in w.clients && j != id
    ensures var w' := Next(w, Advances(id, v));
      Intact(w'.db, w.clients[j]) && Holdings(w.clients[j]) !! Holdings(w'.clients[id])
  {
    var k, w' := w.clients[id], Next(w, Advances(id, v));
    StepOwnHandles(w.db, k, v);
    assert Holdings(w.clients[j]) !! Holdings(k);
    OthersKeep(w.db, k, w'.db, w'.clients[id], w.clients[j]);
  }

  lemma AdvanceKeepsInv(w: World, id: nat, v: Verdict)
    requires Inv(w) && id in w.clients && !StrayHit(w, Advances(id, v))
    ensures Inv(Next(w, Advances(id, v)))
  {
    var w' := Next(w, Advances(id, v));
    StepOwnHandles(w.db, w.clients[id], v);
    assert w'.clients.Keys == w.clients.Keys;
    forall j | j in w.clients && j != id
      ensures Intact(w'.db, w'.clients[j]) && Holdings(w'.clients[j]) !! Holdings(w'.clients[id])
    {
      AdvanceKeepsOthers(w, id, v, j);
    }
    forall i, j | i in w'.clients && j in w'.clients && i != j
      ensures Holdings(w'.clients[i]) !! Holdings(w'.clients[j])
    {
      if i != id && j != id {
        assert Holdings(w.clients[i]) !! Holdings(w.clients[j]);
      }
    }
    StepKeepsAccounts(w, Advances(id, v));
  }

  /** Another client neither loses a handle nor finds one of its own reused. */
  lemma OthersKeep(db: Database, k: Client, db': Database, k': Client, o: Client)
    requires OwnHandlesOnly(db, k, db', k') && Intact(db, o) && Holdings(o) !! Holdings(k)
    ensures Intact(db', o) && Holdings(o) !! Holdings(k')
  {
    assert forall h :: h in Holdings(o) ==> h in db.handles && h !in Holdings(k);
    assert HoldsManager(o) ==> o.mgr in Holdings(o);
    assert HoldsService(o) ==> o.svc in Holdings(o);
  }

  lemma EnterKeepsInv(w: World, id: nat, op: Operation, n: Name)
    requires Inv(w)
    ensures Inv(Next(w, Enters(id, op, n)))
  {
    StepKeepsAccounts(w, Enters(id, op, n));
  }

  lemma StrayHitCloses(w: World, e: Event)
    requires Settled(w.db) && StrayHit(w, e)
    ensures w.clients[e.id].svc !in Next(w, e).db.handles
    ensures forall o :: o in w.clients ==> o in Next(w, e).clients
    ensures forall o, h :: o in w.clients && h in Holdings(w.clients[o]) ==> h in Holdings(Next(w, e).clients[o])
  {
  }

  lemma StrayHitBreaksInv(w: World, e: Event)
    requires Inv(w) && StrayHit(w, e)
    ensures !Inv(Next(w, e))
  {
    var k, w' := w.clients[e.id], Next(w, e);
    assert Owned(w, k.svc);
    var o :| o in w.clients && k.svc in Holdings(w.clients[o]);
    StrayHitCloses(w, e);
    assert k.svc in Holdings(w'.clients[o]);
    assert !Intact(w'.db, w'.clients[o]);
  }

  /** What every step keeps, exactly: ownership of handles and consistency of
      the database survive a step if and only if it is no stray close. */
  lemma StepKeepsInv(w: World, e: Event)
    requires Inv(w)
    ensures Inv(Next(w, e)) <==> !StrayHit(w, e)
  {
    if StrayHit(w, e) {
      StrayHitBreaksInv(w, e);
    } else {
      match e
      case Enters(id, op, n) => EnterKeepsInv(w, id, op, n);
      case Advances(id, v) =>
        if id in w.clients {
          AdvanceKeepsInv(w, id, v);
        }
    }
  }

  // ----- Runs

  predicate NoStrayHits(w: World, es: seq<Event>)
    decreases |es|
  {
    es == [] || (!StrayHit(w, es[0]) && NoStrayHits(Next(w, es[0]), es[1..]))
  }

  lemma {:induction false} RunKeepsInv(w: World, es: seq<Event>)
    requires Inv(w) && NoStrayHits(w, es)
    ensures Inv(Run(w, es))
    decreases |es|
  {
    if es != [] {
      StepKeepsInv(w, es[0]);
      RunKeepsInv(Next(w, es[0]), es[1..]);
    }
  }

  ghost predicate AlwaysInv(w: World, es: seq<Event>) {
    forall i :: 0 <= i <= |es| ==> Inv(Run(w, es[..i]))
  }

  /** Ownership holds all along a run if and only if no step is a stray close. */
  lemma {:induction false} RunOwnership(w: World, es: seq<Event>)
    requires Inv(w)
    ensures AlwaysInv(w, es) <==> NoStrayHits(w, es)
    decreases |es|
  {
    if es != [] {
      var w', rest := Next(w, es[0]), es[1..];
      assert forall i :: 0 < i <= |es| ==> es[..i][0] == es[0] && es[..i][1..] == rest[..i - 1];
      assert forall i :: 0 <= i <= |rest| ==> Run(w, es[..i + 1]) == Run(w', rest[..i]);
      StepKeepsInv(w, es[0]);
      if Inv(w') {
        RunOwnership(w', rest);
      } else {
        assert Run(w, es[..1]) == w' by { assert rest[..0] == []; }
      }
      assert AlwaysInv(w, es) <==> Inv(w') && AlwaysInv(w', rest);
    }
  }

  /** A database nobody has open, and no clients: where every run starts. */
  ghost predicate Initial(w: World) {
    Settled(w.db) && w.db.handles == map[] && w.clients == map[]
  }

  ghost predicate NullLocals(w: World) {
    forall id :: id in w.clients && w.clients[id].op.Install? ==> w.clients[id].op.unset == NULL
  }

  lemma StepKeepsRequest(db: Database, k: Client, v: Verdict)
    ensures Advance(db, k, v).1.op == k.op && Advance(db, k, v).1.name == k.name
  {
  }

  lemma NullLocalsStep(w: World, e: Event)
    requires NullLocals(w) && (e.Enters? && e.op.Install? ==> e.op.unset == NULL)
    ensures NullLocals(Next(w, e))
  {
    if e.Advances? && e.id in w.clients {
      StepKeepsRequest(w.db, w.clients[e.id], e.verdict);
    }
  }

  lemma NullLocalNoHit(w: World, e: Event)
    requires Inv(w) && NullLocals(w)
    ensures !StrayHit(w, e)
  {
    if e.Advances? && e.id in w.clients {
      assert Intact(w.db, w.clients[e.id]);
    }
  }

  /** With the local initialised to NULL, as in the other functions, no run has a
      stray close. */
  lemma {:induction false} NullLocalsNeverStray(w: World, es: seq<Event>)
    requires Inv(w) && NullLocals(w)
    requires forall e :: e in es && e.Enters? && e.op.Install? ==> e.op.unset == NULL
    ensures NoStrayHits(w, es)
    decreases |es|
  {
    if es != [] {
      NullLocalNoHit(w, es[0]);
      StepKeepsInv(w, es[0]);
      NullLocalsStep(w, es[0]);
      NullLocalsNeverStray(Next(w, es[0]), es[1..]);
    }
  }

  /** In every run, stray closes included, every activation keeps its history in
      shape; so what ReturnedHistory says holds of every function that returns. */
  lemma {:induction false} RunKeepsHistories(w: World, es: seq<Event>)
    requires Histories(w)
    ensures Histories(Run(w, es))
    decreases |es|
  {
    if es != [] {
      var e := es[0];
      if e.Advances? && e.id in w.clients {
        HistoryStep(w.db, w.clients[e.id], e.verdict);
      }
      RunKeepsHistories(Next(w, e), es[1..]);
    }
  }

  // ----- Returning

  /** Steps that client `id` takes in the run. */
  function OwnSteps(es: seq<Event>, id: nat): nat {
    if es == [] then 0
    else (if es[0].Advances? && es[0].id == id then 1 else 0) + OwnSteps(es[1..], id)
  }

  lemma StepReturns(db: Database, k: Client, v: Verdict)
    ensures k.stage == Done ==> Advance(db, k, v).1.stage == Done
    ensures k.stage != Done ==> Remaining(Advance(db, k, v).1) < Remaining(k)
  {
  }

  /** In every run an activation has returned once it has taken its remaining steps,
      five at most, whatever all others do in between. */
  lemma {:induction false} ReturnsInRuns(w: World, es: seq<Event>, id: nat)
    requires id in w.clients && OwnSteps(es, id) >= Remaining(w.clients[id])
    requires forall e :: e in es && e.id == id ==> e.Advances?
    ensures id in Run(w, es).clients && Run(w, es).clients[id].stage == Done
    decreases |es|
  {
    if es != [] {
      if es[0].Advances? && es[0].id == id {
        StepReturns(w.db, w.clients[id], es[0].verdict);
      }
      ReturnsInRuns(Next(w, es[0]), es[1..], id);
    }
  }

  lemma {:induction false} RunSplit(w: World, es: seq<Event>, fs: seq<Event>)
    ensures Run(w, es + fs) == Run(Run(w, es), fs)
    decreases |es|
  {
    if es == [] {
      assert es + fs == fs;
    } else {
      assert (es + fs)[1..] == es[1..] + fs;
      RunSplit(Next(w, es[0]), es[1..], fs);
    }
  }
}
