/** Linearizability: interleaved calls amount to a sequence of requests, each carried
    out at once and answered by the state it meets, with removals of doomed services
    in between. */
module ReplayLaws {
  import opened Scm
  import opened Lifecycle
  import opened SoloLaws
  import opened RunLaws
  import opened LinearLaws

  type Services = map<Name, Service>

  /** `Answered`: a request that the system did not refuse, and the code it got. */
  datatype Entry = Answered(op: Operation, name: Name, code: nat) | Removed(name: Name)

  function Sole(s: Services): Database {
    Database(s, map[])
  }

  /** The entry may come next: the code is what the services call for, or the service
      removed is marked and stopped. */
  predicate Allowed(s: Services, x: Entry) {
    match x
    case Answered(op, n, code) => code == StateError(op, Sole(s), n)
    case Removed(n) => Doomed(Sole(s), n)
  }

  function Apply(s: Services, x: Entry): Services
    requires Allowed(s, x)
  {
    match x
    case Answered(op, n, code) => if code == NO_ERROR then Requested(op, Sole(s), n) else s
    case Removed(n) => s - {n}
  }

  /** A history one client alone could have seen, from `s` to `s'`. */
  predicate Replays(s: Services, log: seq<Entry>, s': Services)
    decreases |log|
  {
    if log == [] then s == s' else Allowed(s, log[0]) && Replays(Apply(s, log[0]), log[1..], s')
  }

  /** What a step adds to the history: the answer to an unrefused request at the step
      that decides it, or a removal. */
  function Logged(w: World, e: Event): seq<Entry> {
    if Decides(w, e) then
      if Unrefusing(w, e) then
        [Answered(w.clients[e.id].op, w.clients[e.id].name, Next(w, e).clients[e.id].err)]
      else []
    else if Reaps(w, e) then [Removed(w.db.handles[Closing(w.clients[e.id])].name)]
    else []
  }

  function Log(w: World, es: seq<Event>): seq<Entry>
    decreases |es|
  {
    if es == [] then [] else Logged(w, es[0]) + Log(Next(w, es[0]), es[1..])
  }

  /** An unrefused request is decided by a client that has lost the handle it needs,
      or that acts on another service in another condition. */
  predicate Slips(w: World, e: Event) {
    Decides(w, e) && Unrefusing(w, e) && (Robbed(w, e) || Misreports(w, e))
  }

  predicate NoSlips(w: World, es: seq<Event>)
    decreases |es|
  {
    es == [] || (!Slips(w, es[0]) && NoSlips(Next(w, es[0]), es[1..]))
  }

  // ----- One step

  lemma StateErrorOfServices(op: Operation, db: Database, n: Name)
    ensures StateError(op, db, n) == StateError(op, Sole(db.services), n)
    ensures StateError(op, db, n) == NO_ERROR ==> Requested(op, db, n) == Requested(op, Sole(db.services), n)
  {
  }

  /** A refused step changes no service, whatever its handles are. */
  lemma RefusedChangesNothing(w: World, e: Event)
    requires Settled(w.db) && Decides(w, e) && History(w.clients[e.id]) && !Unrefusing(w, e)
    ensures Next(w, e).db.services == w.db.services
  {
  }

  lemma AnswerReplays(w: World, e: Event)
    requires Settled(w.db) && Decides(w, e) && History(w.clients[e.id]) && Unrefusing(w, e)
    ensures !Slips(w, e) <==> Replays(w.db.services, Logged(w, e), Next(w, e).db.services)
  {
    var k, k' := w.clients[e.id], Next(w, e).clients[e.id];
    UnrefusedStepIsExact(w, e);
    StepKeepsRequest(w.db, k, e.verdict);
    StateErrorOfServices(k.op, w.db, k.name);
    assert Logged(w, e)[1..] == [];
  }

  lemma StepReplays(w: World, e: Event)
    requires Settled(w.db) && Histories(w)
    ensures !Slips(w, e) <==> Replays(w.db.services, Logged(w, e), Next(w, e).db.services)
  {
    if !Decides(w, e) {
      OtherStepsOnlyReap(w, e);
    } else if Unrefusing(w, e) {
      AnswerReplays(w, e);
    } else {
      RefusedChangesNothing(w, e);
    }
  }

  // ----- Runs

  ghost predicate Explained(w: World, es: seq<Event>) {
    Replays(w.db.services, Log(w, es), Run(w, es).db.services)
  }

  ghost predicate AlwaysExplained(w: World, es: seq<Event>) {
    forall i :: 0 <= i <= |es| ==> Explained(w, es[..i])
  }

  lemma OneStepLog(w: World, e: Event)
    ensures Run(w, [e]) == Next(w, e) && Log(w, [e]) == Logged(w, e)
  {
    assert [e][1..] == [] && Logged(w, e) + [] == Logged(w, e);
  }

  /** Linearizability, exactly: all along a run the services are those of a sequential
      replay of the unrefused requests, each answered as the replay calls for, in the
      order of their deciding steps, if and only if no step slips. */
  lemma {:induction false} RunsReplay(w: World, es: seq<Event>)
    requires Settled(w.db) && Histories(w)
    ensures AlwaysExplained(w, es) <==> NoSlips(w, es)
    decreases |es|
  {
    if es != [] {
      var e, w', rest := es[0], Next(w, es[0]), es[1..];
      assert forall i :: 0 < i <= |es| ==> es[..i][0] == e && es[..i][1..] == rest[..i - 1];
      StepReplays(w, e);
      assert es[..1] == [e];
      OneStepLog(w, e);
      if !Slips(w, e) {
        if e.Advances? && e.id in w.clients {
          AdvanceSettled(w.db, w.clients[e.id], e.verdict);
          HistoryStep(w.db, w.clients[e.id], e.verdict);
        }
        RunsReplay(w', rest);
        forall i | 0 <= i <= |rest| ensures Explained(w, es[..i + 1]) <==> Explained(w', rest[..i]) {
          assert es[..i + 1][1..] == rest[..i];
          LoggedFirst(w, e, Log(w', rest[..i]), Run(w', rest[..i]).db.services);
        }
        assert AlwaysExplained(w, es) <==> AlwaysExplained(w', rest);
      }
    }
  }

  lemma LoggedFirst(w: World, e: Event, log: seq<Entry>, s': Services)
    requires Replays(w.db.services, Logged(w, e), Next(w, e).db.services)
    ensures Replays(w.db.services, Logged(w, e) + log, s') <==> Replays(Next(w, e).db.services, log, s')
  {
    if Logged(w, e) == [] {
      assert Logged(w, e) + log == log;
    } else {
      assert Logged(w, e)[1..] == [] && (Logged(w, e) + log)[1..] == log;
    }
  }

  lemma {:induction false} NoStrayNoSlip(w: World, es: seq<Event>)
    requires Inv(w) && NoStrayHits(w, es)
    ensures NoSlips(w, es)
    decreases |es|
  {
    if es != [] {
      OwnersAreUndisturbed(w, es[0]);
      StepKeepsInv(w, es[0]);
      NoStrayNoSlip(Next(w, es[0]), es[1..]);
    }
  }

  /** In particular without stray closes: interleaved runs are linearizable. */
  lemma {:induction false} CleanRunsReplay(w: World, es: seq<Event>)
    requires Inv(w) && NoStrayHits(w, es)
    ensures NoSlips(w, es) && Explained(w, es)
  {
    NoStrayNoSlip(w, es);
    RunsReplay(w, es);
    assert es[..|es|] == es;
  }

  // ----- What functions return is in the history

  lemma {:induction false} LogSplit(w: World, es: seq<Event>, fs: seq<Event>)
    ensures Log(w, es + fs) == Log(w, es) + Log(Run(w, es), fs)
    decreases |es|
  {
    if es == [] {
      assert es + fs == fs;
    } else {
      assert (es + fs)[1..] == es[1..] + fs;
      LogSplit(Next(w, es[0]), es[1..], fs);
    }
  }

  /** Step `i` settled what `k` returns, and unless the system refused, the answer
      stands in the history there, behind all that was logged before. */
  ghost predicate LoggedAt(w: World, es: seq<Event>, id: nat, k: Client, i: nat)
    requires i < |es|
  {
    && DecidedAt(w, es, id, k, i)
    && (Unrefusing(Run(w, es[..i]), es[i]) ==>
          Log(w, es) == Log(w, es[..i]) + [Answered(k.op, k.name, k.err)] + Log(Run(w, es[..i + 1]), es[i + 1..]))
  }

  /** In every run the history has, for each function that has returned and was not
      refused, its answer, at a step between its call and its return. */
  lemma {:induction false} ReturnsAreLogged(w: World, es: seq<Event>, id: nat)
    requires Undecided(w, id)
    requires id in Run(w, es).clients && Run(w, es).clients[id].stage == Done
    ensures exists i :: 0 <= i < |es| && LoggedAt(w, es, id, Run(w, es).clients[id], i)
  {
    EveryResultWasDecided(w, es, id);
    var k := Run(w, es).clients[id];
    var i :| 0 <= i < |es| && DecidedAt(w, es, id, k, i);
    var before := Run(w, es[..i]);
    assert es == es[..i] + [es[i]] + es[i + 1..] && es[..i + 1] == es[..i] + [es[i]];
    LogSplit(w, es[..i + 1], es[i + 1..]);
    LogSplit(w, es[..i], [es[i]]);
    OneStepLog(before, es[i]);
    assert Unrefusing(before, es[i]) ==> Logged(before, es[i]) == [Answered(k.op, k.name, k.err)];
    assert LoggedAt(w, es, id, k, i);
  }
}
