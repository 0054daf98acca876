/** What results are worth under interleaving: each function that returns in a run
    settled its result at one step of its own, and whether the result was true and
    its effect took place there can be told from that step, exactly. */
module LinearLaws {
  import opened Scm
  import opened Lifecycle
  import opened SoloLaws
  import opened RunLaws

  /** The result is settled; only the cleanup is left. */
  predicate Decided(k: Client) {
    k.stage == CloseTarget || k.stage == CloseManager || k.stage == Done
  }

  /** The client's own step at which its result is settled. */
  predicate Decides(w: World, e: Event) {
    e.Advances? && e.id in w.clients &&
    !Decided(w.clients[e.id]) && Decided(Next(w, e).clients[e.id])
  }

  /** The step asks for a new handle. */
  predicate Opens(k: Client) {
    k.stage == OpenManager || k.stage == OpenTarget
  }

  /** The system refuses the step nothing: it grants the call, and has a free handle
      where one is asked for. */
  predicate Unrefusing(w: World, e: Event) {
    e.Advances? && e.id in w.clients && e.verdict.Grant? &&
    (Opens(w.clients[e.id]) ==> Free(w.db, e.verdict.handle))
  }

  /** The object to be opened can be: the manager always, a service that exists, a
      service to be created that does not. */
  predicate CanOpen(db: Database, k: Client) {
    k.stage == OpenTarget ==> (k.op.Install? <==> k.name !in db.services)
  }

  /** What a deciding step has to report: the system's own code if it refuses,
      otherwise what the database calls for. */
  function Expected(w: World, e: Event): nat
    requires e.Advances? && e.id in w.clients
  {
    var k := w.clients[e.id];
    match e.verdict
    case Refuse(code) => code
    case Grant(h) =>
      if Opens(k) && !Free(w.db, h) && CanOpen(w.db, k) then ERROR_NOT_ENOUGH_MEMORY
      else StateError(k.op, w.db, k.name)
  }

  /** With NO_ERROR the step carries the request out, otherwise it changes nothing. */
  ghost predicate EffectAt(w: World, e: Event, k: Client) {
    var services := Next(w, e).db.services;
    if k.err == NO_ERROR then
      StateError(k.op, w.db, k.name) == NO_ERROR && services == Requested(k.op, w.db, k.name)
    else services == w.db.services
  }

  ghost predicate TruthfulAt(w: World, e: Event, k: Client) {
    e.Advances? && e.id in w.clients && k.err == Expected(w, e) && EffectAt(w, e, k)
  }

  /** The result is what the database calls for, and nothing else. */
  ghost predicate ExactAt(w: World, e: Event, k: Client) {
    k.err == StateError(k.op, w.db, k.name) && EffectAt(w, e, k)
  }

  /** The handle the step uses was closed under the client, and does not stand for
      an object of the right kind now. */
  predicate Robbed(w: World, e: Event) {
    e.Advances? && e.id in w.clients &&
    var k := w.clients[e.id];
    (k.stage == OpenTarget && !IsManager(w.db, k.mgr)) || (k.stage == Act && !IsService(w.db, k.svc))
  }

  /** The client acts on a service other than the one it was called for: its handle
      was closed under it and handed out again. */
  predicate Misdirected(w: World, e: Event) {
    e.Advances? && e.id in w.clients &&
    var k := w.clients[e.id];
    k.stage == Act && IsService(w.db, k.svc) && w.db.handles[k.svc].name != k.name
  }

  /** Both services give the same reason not to carry out the request. */
  predicate SameComplaint(db: Database, op: Operation, m: Name, n: Name) {
    StateError(op, db, m) == StateError(op, db, n) != NO_ERROR
  }

  /** A misdirected step is granted, and the two services differ in the matter. */
  predicate Misreports(w: World, e: Event) {
    Misdirected(w, e) && e.verdict.Grant? &&
    var k := w.clients[e.id];
    !SameComplaint(w.db, k.op, w.db.handles[k.svc].name, k.name)
  }

  /** The loss of a handle shows in the result. */
  predicate Disturbed(w: World, e: Event) {
    (Robbed(w, e) && e.verdict != Refuse(ERROR_INVALID_HANDLE)) || Misreports(w, e)
  }

  lemma EnteringDecides(w: World, e: Event)
    requires Decides(w, e) && (w.clients[e.id].stage == OpenManager || w.clients[e.id].stage == Setup)
    ensures TruthfulAt(w, e, Next(w, e).clients[e.id])
  {
  }

  lemma OpeningDecides(w: World, e: Event)
    requires Settled(w.db) && Decides(w, e) && History(w.clients[e.id]) && w.clients[e.id].stage == OpenTarget
    ensures TruthfulAt(w, e, Next(w, e).clients[e.id]) <==> !Disturbed(w, e)
  {
    if Robbed(w, e) {
      assert Next(w, e).clients[e.id].err == ERROR_INVALID_HANDLE;
    }
  }

  lemma ActingDecides(w: World, e: Event)
    requires Settled(w.db) && Decides(w, e) && History(w.clients[e.id]) && w.clients[e.id].stage == Act
    ensures TruthfulAt(w, e, Next(w, e).clients[e.id]) <==> !Disturbed(w, e)
  {
    var k, w' := w.clients[e.id], Next(w, e);
    if Robbed(w, e) {
      assert w'.clients[e.id].err == ERROR_INVALID_HANDLE;
    } else if Misdirected(w, e) && e.verdict.Grant? {
      var m := w.db.handles[k.svc].name;
      var err := w'.clients[e.id].err;
      assert err == StateError(k.op, w.db, m);
      if err == NO_ERROR {
        assert w'.db.services[m] != w.db.services[m];
        assert StateError(k.op, w.db, k.name) == NO_ERROR ==>
          Requested(k.op, w.db, k.name)[m] == w.db.services[m];
      }
    }
  }

  /** What a deciding step reports is true at the state in which it is taken, if and
      only if the loss of a handle does not show in it: the system's refusal, or else
      exactly what the database calls for. Stray closes may have happened before. */
  lemma DecisionIsTruthful(w: World, e: Event)
    requires Settled(w.db) && Decides(w, e) && History(w.clients[e.id])
    ensures TruthfulAt(w, e, Next(w, e).clients[e.id]) <==> !Disturbed(w, e)
  {
    match w.clients[e.id].stage {
      case OpenManager => EnteringDecides(w, e);
      case Setup => EnteringDecides(w, e);
      case OpenTarget => OpeningDecides(w, e);
      case Act => ActingDecides(w, e);
      case CloseTarget =>
      case CloseManager =>
      case Done =>
    }
  }

  /** A step that is refused nothing reports exactly what the database calls for, if
      and only if it has lost no handle it needs and does not misreport. */
  lemma UnrefusedStepIsExact(w: World, e: Event)
    requires Settled(w.db) && Decides(w, e) && History(w.clients[e.id]) && Unrefusing(w, e)
    ensures ExactAt(w, e, Next(w, e).clients[e.id]) <==> !Robbed(w, e) && !Misreports(w, e)
  {
    DecisionIsTruthful(w, e);
    StepKeepsRequest(w.db, w.clients[e.id], e.verdict);
  }

  /** As long as handles are their owners' no step is robbed or misdirected. */
  lemma OwnersAreUndisturbed(w: World, e: Event)
    requires Inv(w)
    ensures !Robbed(w, e) && !Misdirected(w, e) && !Disturbed(w, e)
  {
    if e.Advances? && e.id in w.clients {
      assert History(w.clients[e.id]) && Intact(w.db, w.clients[e.id]);
    }
  }

  /** The handle a step of the cleanup closes. */
  function Closing(k: Client): Handle {
    if k.stage == CloseTarget then k.svc else k.mgr
  }

  /** The step closes the last handle on a doomed service, and so removes it. */
  predicate Reaps(w: World, e: Event) {
    e.Advances? && e.id in w.clients &&
    var k := w.clients[e.id];
    && (k.stage == CloseTarget || k.stage == CloseManager)
    && Closing(k) != NULL && Closing(k) in w.db.handles && w.db.handles[Closing(k)].OnService?
    && var n := w.db.handles[Closing(k)].name;
       Doomed(w.db, n) && !Referenced(Next(w, e).db, n)
  }

  /** Every other step leaves the services alone, except that closing the last
      handle removes a doomed service. */
  lemma OtherStepsOnlyReap(w: World, e: Event)
    requires !Decides(w, e)
    ensures Next(w, e).db.services ==
      if Reaps(w, e) then w.db.services - {w.db.handles[Closing(w.clients[e.id])].name} else w.db.services
  {
    if e.Advances? && e.id in w.clients {
      var k := w.clients[e.id];
      match k.stage {
        case OpenManager =>
        case Setup =>
        case OpenTarget =>
        case Act =>
        case CloseTarget => CloseOnlyReaps(w.db, k.svc);
        case CloseManager => CloseOnlyReaps(w.db, k.mgr);
        case Done =>
      }
    }
  }

  lemma CloseOnlyReaps(db: Database, h: Handle)
    ensures h in db.handles && db.handles[h].OnService? ==>
      var db', n := CloseServiceHandle(db, h).db, db.handles[h].name;
      db'.services == if Doomed(db, n) && !Referenced(db', n) then db.services - {n} else db.services
  {
    if h !in db.handles || db.handles[h].Manager? {
      return;
    }
    var n, rest := db.handles[h].name, db.(handles := db.handles - {h});
    var db' := CloseServiceHandle(db, h).db;
    assert db' == Reap(rest, n) && db'.handles == rest.handles;
    assert forall g :: g in db'.handles ==> (Refers(db', g, n) <==> Refers(rest, g, n));
    assert Referenced(db', n) <==> Referenced(rest, n);
  }

  // ----- Runs

  /** Event `i` of the run is the deciding step of the activation that `k` is now. */
  ghost predicate DecidedAt(w: World, es: seq<Event>, id: nat, k: Client, i: nat)
    requires i < |es|
  {
    var before := Run(w, es[..i]);
    && es[i].Advances? && es[i].id == id && Decides(before, es[i])
    && before.clients[id].op == k.op && before.clients[id].name == k.name
    && Next(before, es[i]).clients[id].err == k.err && Next(before, es[i]).clients[id].met == k.met
    && StillDecided(w, es, id, i)
  }

  /** No later call of the same client intervenes. */
  ghost predicate StillDecided(w: World, es: seq<Event>, id: nat, i: nat) {
    forall j :: i < j <= |es| ==>
      id in Run(w, es[..j]).clients && Decided(Run(w, es[..j]).clients[id])
  }

  lemma RunSnoc(w: World, es: seq<Event>, e: Event)
    ensures Run(w, es + [e]) == Next(Run(w, es), e)
  {
    RunSplit(w, es, [e]);
    assert [e][1..] == [];
  }

  lemma {:induction false} DecidedNow(w: World, es: seq<Event>, e: Event)
    requires Decides(Run(w, es), e)
    ensures e.id in Run(w, es + [e]).clients
    ensures DecidedAt(w, es + [e], e.id, Run(w, es + [e]).clients[e.id], |es|)
  {
    var all := es + [e];
    RunSnoc(w, es, e);
    assert all[..|es|] == es && all[..|es| + 1] == all;
    var k := Run(w, es).clients[e.id];
    StepKeepsRequest(Run(w, es).db, k, e.verdict);
  }

  lemma {:induction false} DecidedEarlier(w: World, es: seq<Event>, e: Event, id: nat, k: Client, k': Client, i: nat)
    requires i < |es| && DecidedAt(w, es, id, k, i)
    requires id in Run(w, es + [e]).clients && Run(w, es + [e]).clients[id] == k' && Decided(k')
    requires k'.op == k.op && k'.name == k.name && k'.err == k.err && k'.met == k.met
    ensures DecidedAt(w, es + [e], id, k', i)
  {
    var all := es + [e];
    assert all[..i] == es[..i];
    forall j | i < j <= |all| ensures id in Run(w, all[..j]).clients && Decided(Run(w, all[..j]).clients[id]) {
      if j <= |es| {
        assert all[..j] == es[..j];
      } else {
        assert all[..j] == all;
      }
    }
  }

  lemma CleanupKeepsResult(db: Database, k: Client, v: Verdict)
    requires Decided(k)
    ensures var k' := Advance(db, k, v).1;
      Decided(k') && k'.op == k.op && k'.name == k.name && k'.err == k.err && k'.met == k.met
  {
  }

  ghost predicate Undecided(w: World, id: nat) {
    id in w.clients ==> !Decided(w.clients[id])
  }

  /** Linearization points: in every run, each activation whose result is settled
      settled it at one step of its own. */
  lemma {:induction false} EveryResultWasDecided(w: World, es: seq<Event>, id: nat)
    requires Undecided(w, id)
    requires id in Run(w, es).clients && Decided(Run(w, es).clients[id])
    ensures exists i :: 0 <= i < |es| && DecidedAt(w, es, id, Run(w, es).clients[id], i)
    decreases |es|
  {
    if es != [] {
      var n := |es| - 1;
      var es0, e := es[..n], es[n];
      assert es == es0 + [e];
      RunSnoc(w, es0, e);
      var w0 := Run(w, es0);
      var k' := Run(w, es).clients[id];
      if e.Advances? && e.id == id && Decides(w0, e) {
        DecidedNow(w, es0, e);
        assert DecidedAt(w, es, id, k', n);
      } else {
        var k := w0.clients[id];
        if e.Advances? && e.id == id {
          CleanupKeepsResult(w0.db, k, e.verdict);
        }
        EveryResultWasDecided(w, es0, id);
        var i :| 0 <= i < |es0| && DecidedAt(w, es0, id, k, i);
        DecidedEarlier(w, es0, e, id, k, k', i);
        assert DecidedAt(w, es, id, k', i);
      }
    }
  }

  ghost predicate InShape(w: World, id: nat) {
    id in w.clients ==> History(w.clients[id])
  }

  lemma {:induction false} RunKeepsSettled(w: World, es: seq<Event>, id: nat)
    requires Settled(w.db) && InShape(w, id)
    ensures Settled(Run(w, es).db) && InShape(Run(w, es), id)
    decreases |es|
  {
    if es != [] {
      if es[0].Advances? && es[0].id in w.clients {
        AdvanceSettled(w.db, w.clients[es[0].id], es[0].verdict);
        if es[0].id == id {
          HistoryStep(w.db, w.clients[id], es[0].verdict);
        }
      }
      RunKeepsSettled(Next(w, es[0]), es[1..], id);
    }
  }

  /** The result is true if and only if the loss of a handle does not show in it;
      and when nothing was refused, exact if and only if there was none. */
  ghost predicate Accountable(w: World, e: Event, k: Client) {
    && (TruthfulAt(w, e, k) <==> !Disturbed(w, e))
    && (Unrefusing(w, e) ==> (ExactAt(w, e, k) <==> !Robbed(w, e) && !Misreports(w, e)))
  }

  lemma DecisionAccounts(w: World, e: Event, k: Client)
    requires Settled(w.db) && Decides(w, e) && History(w.clients[e.id])
    requires w.clients[e.id].op == k.op && w.clients[e.id].name == k.name
    requires Next(w, e).clients[e.id].err == k.err
    ensures Accountable(w, e, k)
  {
    DecisionIsTruthful(w, e);
    StepKeepsRequest(w.db, w.clients[e.id], e.verdict);
    if Unrefusing(w, e) {
      UnrefusedStepIsExact(w, e);
    }
  }

  /** Step `i` of the run settled what `k` returns. */
  ghost predicate AccountableAt(w: World, es: seq<Event>, id: nat, k: Client, i: nat)
    requires i < |es|
  {
    DecidedAt(w, es, id, k, i) && Accountable(Run(w, es[..i]), es[i], k)
  }

  /** Truthful results under interleaving: in every run, stray closes included,
      whatever a function returns was settled at one of its own steps and was true
      at that step, if and only if the loss of a handle did not show in that step. */
  lemma {:induction false} ReturnsAreTruthful(w: World, es: seq<Event>, id: nat)
    requires Settled(w.db) && InShape(w, id) && Undecided(w, id)
    requires id in Run(w, es).clients && Run(w, es).clients[id].stage == Done
    ensures exists i :: 0 <= i < |es| && AccountableAt(w, es, id, Run(w, es).clients[id], i)
  {
    EveryResultWasDecided(w, es, id);
    var k := Run(w, es).clients[id];
    var i :| 0 <= i < |es| && DecidedAt(w, es, id, k, i);
    RunKeepsSettled(w, es[..i], id);
    DecisionAccounts(Run(w, es[..i]), es[i], k);
    assert AccountableAt(w, es, id, k, i);
  }

  /** True, and exact unless the system itself refused. */
  ghost predicate SoundAt(w: World, e: Event, k: Client) {
    TruthfulAt(w, e, k) && (Unrefusing(w, e) ==> ExactAt(w, e, k))
  }

  /** Without stray closes every result is sound. */
  lemma {:induction false} CleanRunsAreTruthful(w: World, es: seq<Event>, id: nat)
    requires Inv(w) && NoStrayHits(w, es) && Undecided(w, id)
    requires id in Run(w, es).clients && Run(w, es).clients[id].stage == Done
    ensures var k := Run(w, es).clients[id];
      exists i :: 0 <= i < |es| && DecidedAt(w, es, id, k, i) && SoundAt(Run(w, es[..i]), es[i], k)
  {
    ReturnsAreTruthful(w, es, id);
    var k := Run(w, es).clients[id];
    var i :| 0 <= i < |es| && AccountableAt(w, es, id, k, i);
    RunOwnership(w, es);
    OwnersAreUndisturbed(Run(w, es[..i]), es[i]);
    assert SoundAt(Run(w, es[..i]), es[i], k);
  }
}
