/** The handles open on a service are as many as the clients inside: when this
    holds, exactly. A stray close of a manager handle leaves it alone. */
module CountLaws {
  import opened Scm
  import opened Lifecycle
  import opened SoloLaws
  import opened RunLaws

  function HandlesOn(db: Database, n: Name): set<Handle> {
    set h | h in db.handles && Refers(db, h, n)
  }

  /** Clients between their open (or create) and their close of service `n`. */
  function Inside(w: World, n: Name): set<nat> {
    set id | id in w.clients && HoldsService(w.clients[id]) && w.clients[id].name == n
  }

  ghost predicate CountsRight(w: World) {
    forall n :: |HandlesOn(w.db, n)| == |Inside(w, n)|
  }

  predicate OnAService(db: Database, h: Handle) {
    h in db.handles && db.handles[h].OnService?
  }

  /** The step closes a service handle that it did not open as one: in the unset
      local of an install, or in place of a manager handle that it has lost. */
  predicate Theft(w: World, e: Event) {
    e.Advances? && e.id in w.clients &&
    var k := w.clients[e.id];
    || (k.stage == CloseTarget && !k.isSet && OnAService(w.db, k.svc))
    || (k.stage == CloseManager && OnAService(w.db, k.mgr))
  }

  // ----- Handles on services and the clients that hold them

  ghost predicate HasHolder(w: World, h: Handle) {
    exists id :: id in w.clients && HoldsService(w.clients[id]) && w.clients[id].svc == h
  }

  predicate Apart(k: Client, o: Client) {
    HoldsService(k) && HoldsService(o) ==> k.svc != o.svc
  }

  /** Clients inside a service have each a handle of their own on it, and there are
      no other handles on services. */
  ghost predicate Matched(w: World) {
    && Settled(w.db)
    && Histories(w)
    && (forall id :: id in w.clients && HoldsService(w.clients[id]) ==>
          Refers(w.db, w.clients[id].svc, w.clients[id].name))
    && (forall i, j :: i in w.clients && j in w.clients && i != j ==> Apart(w.clients[i], w.clients[j]))
    && (forall h :: OnAService(w.db, h) ==> HasHolder(w, h))
  }

  lemma OwnersAreMatched(w: World)
    requires Inv(w)
    ensures Matched(w)
  {
    forall i, j | i in w.clients && j in w.clients && i != j ensures Apart(w.clients[i], w.clients[j]) {
      assert Holdings(w.clients[i]) !! Holdings(w.clients[j]);
    }
    forall h | OnAService(w.db, h) ensures HasHolder(w, h) {
      assert Owned(w, h);
      var o :| o in w.clients && h in Holdings(w.clients[o]);
      assert Intact(w.db, w.clients[o]);
    }
  }

  function Image(ids: set<nat>, m: map<nat, Handle>): set<Handle>
    requires ids <= m.Keys
  {
    set i | i in ids :: m[i]
  }

  lemma {:induction false} ImageSize(ids: set<nat>, m: map<nat, Handle>)
    requires ids <= m.Keys
    requires forall i, j :: i in ids && j in ids && i != j ==> m[i] != m[j]
    ensures |Image(ids, m)| == |ids|
    decreases ids
  {
    if ids != {} {
      var x :| x in ids;
      var rest := ids - {x};
      ImageSize(rest, m);
      assert Image(ids, m) == Image(rest, m) + {m[x]};
    }
  }

  function ServiceHandles(w: World, n: Name): map<nat, Handle> {
    map id | id in Inside(w, n) :: w.clients[id].svc
  }

  /** The handles open on a service are as many as the clients inside. */
  lemma HandleCount(w: World, n: Name)
    requires Matched(w)
    ensures |HandlesOn(w.db, n)| == |Inside(w, n)|
  {
    var ids, m := Inside(w, n), ServiceHandles(w, n);
    forall h | h in HandlesOn(w.db, n) ensures exists id :: id in ids && m[id] == h {
      assert OnAService(w.db, h) && HasHolder(w, h);
      var id :| id in w.clients && HoldsService(w.clients[id]) && w.clients[id].svc == h;
      assert id in ids;
    }
    forall i, j | i in ids && j in ids && i != j ensures m[i] != m[j] {
      assert Apart(w.clients[i], w.clients[j]);
    }
    ImageSize(ids, m);
    assert forall id :: id in ids ==> Refers(w.db, m[id], n);
    assert HandlesOn(w.db, n) == Image(ids, m);
  }

  // ----- One step

  /** What a step that is no theft does to handles on services. */
  ghost predicate MovesServices(db: Database, k: Client, db': Database, k': Client) {
    && k'.name == k.name
    && (forall h :: h in db.handles && h in db'.handles ==> db.handles[h] == db'.handles[h])
    && (forall h :: OnAService(db', h) && h !in db.handles ==> HoldsService(k') && k'.svc == h)
    && (forall h :: OnAService(db, h) && h !in db'.handles ==> HoldsService(k) && k.svc == h && !HoldsService(k'))
    && (HoldsService(k) && HoldsService(k') ==> k'.svc == k.svc)
    && (HoldsService(k) && !HoldsService(k') ==> k.svc !in db'.handles)
    && (HoldsService(k') && !HoldsService(k) ==> k'.svc !in db.handles && Refers(db', k'.svc, k'.name))
  }

  lemma EnteringMoves(db: Database, k: Client, v: Verdict)
    requires Settled(db) && History(k) && (k.stage == OpenManager || k.stage == Setup)
    ensures var (db', k') := Advance(db, k, v); MovesServices(db, k, db', k')
  {
  }

  lemma OpeningMoves(db: Database, k: Client, v: Verdict)
    requires Settled(db) && History(k) && k.stage == OpenTarget
    ensures var (db', k') := Advance(db, k, v); MovesServices(db, k, db', k')
  {
  }

  lemma ActingMoves(db: Database, k: Client, v: Verdict)
    requires Settled(db) && History(k) && k.stage == Act
    ensures var (db', k') := Advance(db, k, v); MovesServices(db, k, db', k')
  {
  }

  lemma ClosingMoves(db: Database, k: Client, v: Verdict)
    requires Settled(db) && History(k) && k.stage == CloseTarget
    requires k.isSet || !OnAService(db, k.svc)
    ensures var (db', k') := Advance(db, k, v); MovesServices(db, k, db', k')
  {
  }

  lemma LeavingMoves(db: Database, k: Client, v: Verdict)
    requires Settled(db) && History(k) && k.stage == CloseManager && !OnAService(db, k.mgr)
    ensures var (db', k') := Advance(db, k, v); MovesServices(db, k, db', k')
  {
  }

  lemma StepMovesServices(w: World, id: nat, v: Verdict)
    requires Settled(w.db) && id in w.clients && History(w.clients[id]) && !Theft(w, Advances(id, v))
    ensures var (db', k') := Advance(w.db, w.clients[id], v); MovesServices(w.db, w.clients[id], db', k')
  {
    var k := w.clients[id];
    match k.stage {
      case OpenManager => EnteringMoves(w.db, k, v);
      case Setup => EnteringMoves(w.db, k, v);
      case OpenTarget => OpeningMoves(w.db, k, v);
      case Act => ActingMoves(w.db, k, v);
      case CloseTarget => ClosingMoves(w.db, k, v);
      case CloseManager => LeavingMoves(w.db, k, v);
      case Done =>
    }
  }

  lemma AdvanceKeepsHolders(w: World, id: nat, v: Verdict, h: Handle)
    requires Matched(w) && id in w.clients && !Theft(w, Advances(id, v))
    requires OnAService(Next(w, Advances(id, v)).db, h)
    ensures HasHolder(Next(w, Advances(id, v)), h)
  {
    var w' := Next(w, Advances(id, v));
    StepMovesServices(w, id, v);
    if h in w.db.handles {
      assert OnAService(w.db, h) && HasHolder(w, h);
      var o :| o in w.clients && HoldsService(w.clients[o]) && w.clients[o].svc == h;
      assert HoldsService(w'.clients[o]) && w'.clients[o].svc == h;
    } else {
      assert HoldsService(w'.clients[id]) && w'.clients[id].svc == h;
    }
  }

  lemma AdvanceKeepsMatched(w: World, id: nat, v: Verdict)
    requires Matched(w) && id in w.clients && !Theft(w, Advances(id, v))
    ensures Matched(Next(w, Advances(id, v)))
  {
    var w' := Next(w, Advances(id, v));
    StepMovesServices(w, id, v);
    AdvanceSettled(w.db, w.clients[id], v);
    HistoryStep(w.db, w.clients[id], v);
    forall j | j in w.clients && j != id && HoldsService(w.clients[j])
      ensures Refers(w'.db, w.clients[j].svc, w.clients[j].name)
    {
      assert OnAService(w.db, w.clients[j].svc);
    }
    forall h | OnAService(w'.db, h) ensures HasHolder(w', h) {
      AdvanceKeepsHolders(w, id, v, h);
    }
  }

  lemma EnterKeepsMatched(w: World, id: nat, op: Operation, n: Name)
    requires Matched(w)
    ensures Matched(Next(w, Enters(id, op, n)))
  {
    var w' := Next(w, Enters(id, op, n));
    forall h | OnAService(w'.db, h) ensures HasHolder(w', h) {
      assert HasHolder(w, h);
      var o :| o in w.clients && HoldsService(w.clients[o]) && w.clients[o].svc == h;
      assert HoldsService(w'.clients[o]) && w'.clients[o].svc == h;
    }
  }

  function Stolen(k: Client): Handle {
    if k.stage == CloseTarget then k.svc else k.mgr
  }

  lemma TheftTakes(w: World, e: Event)
    requires Settled(w.db) && Theft(w, e)
    ensures var k, w' := w.clients[e.id], Next(w, e);
      && w'.db.handles == w.db.handles - {Stolen(k)}
      && w'.clients == w.clients[e.id := w'.clients[e.id]]
      && !HoldsService(k) && !HoldsService(w'.clients[e.id])
  {
  }

  /** A theft takes a handle from a service and nobody out of it. */
  lemma TheftMiscounts(w: World, e: Event)
    requires Matched(w) && Theft(w, e)
    ensures !CountsRight(Next(w, e))
  {
    var h, w' := Stolen(w.clients[e.id]), Next(w, e);
    var n := w.db.handles[h].name;
    HandleCount(w, n);
    TheftTakes(w, e);
    assert h in HandlesOn(w.db, n);
    assert HandlesOn(w'.db, n) == HandlesOn(w.db, n) - {h};
    assert Inside(w', n) == Inside(w, n);
  }

  lemma StepKeepsMatched(w: World, e: Event)
    requires Matched(w)
    ensures if Theft(w, e) then !CountsRight(Next(w, e)) else Matched(Next(w, e))
  {
    if Theft(w, e) {
      TheftMiscounts(w, e);
    } else {
      match e
      case Enters(id, op, n) => EnterKeepsMatched(w, id, op, n);
      case Advances(id, v) =>
        if id in w.clients {
          AdvanceKeepsMatched(w, id, v);
        }
    }
  }

  /** While ownership holds, what is no stray close is no theft. */
  lemma OwnersStealNothing(w: World, e: Event)
    requires Inv(w) && Theft(w, e)
    ensures StrayHit(w, e)
  {
    var k := w.clients[e.id];
    assert History(k) && Intact(w.db, k);
  }

  // ----- Runs

  predicate NoThefts(w: World, es: seq<Event>)
    decreases |es|
  {
    es == [] || (!Theft(w, es[0]) && NoThefts(Next(w, es[0]), es[1..]))
  }

  ghost predicate AlwaysCountsRight(w: World, es: seq<Event>) {
    forall i :: 0 <= i <= |es| ==> CountsRight(Run(w, es[..i]))
  }

  /** The count, exactly: all along a run the handles on every service are as many as
      the clients inside, if and only if no step is a theft. */
  lemma {:induction false} CountsAlongRuns(w: World, es: seq<Event>)
    requires Matched(w)
    ensures AlwaysCountsRight(w, es) <==> NoThefts(w, es)
    decreases |es|
  {
    forall n ensures |HandlesOn(w.db, n)| == |Inside(w, n)| {
      HandleCount(w, n);
    }
    if es != [] {
      var w', rest := Next(w, es[0]), es[1..];
      assert forall i :: 0 < i <= |es| ==> es[..i][0] == es[0] && es[..i][1..] == rest[..i - 1];
      assert forall i :: 0 <= i <= |rest| ==> Run(w, es[..i + 1]) == Run(w', rest[..i]);
      assert Run(w', rest[..0]) == w' by { assert rest[..0] == []; }
      StepKeepsMatched(w, es[0]);
      if !Theft(w, es[0]) {
        CountsAlongRuns(w', rest);
        assert AlwaysCountsRight(w, es) <==> AlwaysCountsRight(w', rest);
      } else {
        assert !CountsRight(Run(w, es[..1]));
      }
    }
  }

  /** In particular without stray closes, from any state in which ownership holds. */
  lemma {:induction false} NoStrayNoTheft(w: World, es: seq<Event>)
    requires Inv(w) && NoStrayHits(w, es)
    ensures NoThefts(w, es)
    decreases |es|
  {
    if es != [] {
      StepKeepsInv(w, es[0]);
      if Theft(w, es[0]) {
        OwnersStealNothing(w, es[0]);
      }
      NoStrayNoTheft(Next(w, es[0]), es[1..]);
    }
  }
}
