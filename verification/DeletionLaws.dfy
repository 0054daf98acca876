/** When a deletion completes, under any interleaving. A stray close may take a
    handle from its owner, but it can never leave one behind. */
module DeletionLaws {
  import opened Scm
  import opened Lifecycle
  import opened SoloLaws
  import opened RunLaws
  import opened CountLaws

  /** Once every client is out, no handle is open and nothing waits for deletion. */
  lemma AllOutMeansClean(w: World)
    requires Accounted(w) && AllOut(w)
    ensures w.db.handles == map[]
    ensures forall n :: !Doomed(w.db, n)
  {
    assert forall id :: id in w.clients ==> Holdings(w.clients[id]) == {};
    assert forall h :: h in w.db.handles ==> Owned(w, h);
    assert w.db.handles == map[];
  }

  /** The client has an open handle on the service in its hands. */
  predicate Keeps(w: World, n: Name, id: nat, h: Handle) {
    id in w.clients && h in Holdings(w.clients[id]) && Refers(w.db, h, n)
  }

  /** Interleaved deletion: in every run of any number of clients, stray closes
      included, a service that is marked and stopped is still there only while a
      client has a handle on it in its hands; once all clients have left it is
      absent and no handle is open. All along the run the handles on each service
      are as many as the clients inside, if and only if no step is a theft. */
  lemma {:induction false} InterleavedDeletion(w: World, es: seq<Event>, n: Name)
    requires Initial(w)
    ensures var w' := Run(w, es);
      && (Doomed(w'.db, n) ==> exists id, h :: Keeps(w', n, id, h))
      && (AllOut(w') ==> w'.db.handles == map[])
      && (AllOut(w') && n in w'.db.services && w'.db.services[n].marked ==> w'.db.services[n].running)
    ensures AlwaysCountsRight(w, es) <==> NoThefts(w, es)
  {
    var w' := Run(w, es);
    RunKeepsAccounts(w, es);
    if Doomed(w'.db, n) {
      var h :| h in w'.db.handles && Refers(w'.db, h, n);
      assert Owned(w', h);
      var id :| id in w'.clients && h in Holdings(w'.clients[id]);
      assert Keeps(w', n, id, h);
    }
    if AllOut(w') {
      AllOutMeansClean(w');
    }
    CountsAlongRuns(w, es);
  }

  // ----- Deletion over time

  predicate Marked(db: Database, n: Name) {
    n in db.services && db.services[n].marked
  }

  /** A mark is never taken back, and a doomed service never runs again: either
      stands until the service is removed. */
  lemma MarkStays(w: World, e: Event, n: Name)
    ensures Marked(w.db, n) ==> n !in Next(w, e).db.services || Marked(Next(w, e).db, n)
    ensures Doomed(w.db, n) ==> n !in Next(w, e).db.services || Doomed(Next(w, e).db, n)
  {
  }

  /** The service is missing at some point of the run. */
  ghost predicate RemovedDuring(w: World, es: seq<Event>, n: Name) {
    exists i :: 0 <= i <= |es| && n !in Run(w, es[..i]).db.services
  }

  lemma RemovedLater(w: World, es: seq<Event>, n: Name)
    requires es != [] && RemovedDuring(Next(w, es[0]), es[1..], n)
    ensures RemovedDuring(w, es, n)
  {
    var i :| 0 <= i <= |es| - 1 && n !in Run(Next(w, es[0]), es[1..][..i]).db.services;
    assert es[..i + 1][1..] == es[1..][..i];
  }

  lemma {:induction false} MarkedUntilRemoved(w: World, es: seq<Event>, n: Name)
    requires Marked(w.db, n)
    ensures RemovedDuring(w, es, n) || Marked(Run(w, es).db, n)
    ensures Doomed(w.db, n) ==> RemovedDuring(w, es, n) || Doomed(Run(w, es).db, n)
    decreases |es|
  {
    if es != [] {
      var w' := Next(w, es[0]);
      MarkStays(w, es[0], n);
      if n in w'.db.services {
        MarkedUntilRemoved(w', es[1..], n);
        if RemovedDuring(w', es[1..], n) {
          RemovedLater(w, es, n);
        }
      } else {
        assert Run(w, es[..1]) == w' by { assert es[..1][1..] == []; }
      }
    }
  }

  /** Deletion completes: from any reachable state in which a service is marked,
      along any run at whose end all clients are out, the service has been
      removed at some point, or has been running when the run ended; if it was
      already stopped, it has been removed. */
  lemma {:induction false} DeletionCompletes(w: World, es: seq<Event>, n: Name)
    requires Accounted(w) && AllOut(Run(w, es)) && Marked(w.db, n)
    ensures RemovedDuring(w, es, n)
      || (Marked(Run(w, es).db, n) && Run(w, es).db.services[n].running)
    ensures Doomed(w.db, n) ==> RemovedDuring(w, es, n)
  {
    MarkedUntilRemoved(w, es, n);
    RunKeepsAccounts(w, es);
    AllOutMeansClean(Run(w, es));
  }

  lemma {:induction false} NobodyNew(w: World, es: seq<Event>)
    requires forall e :: e in es ==> e.Advances?
    ensures forall id :: id in Run(w, es).clients ==> id in w.clients
    decreases |es|
  {
    if es != [] {
      var w' := Next(w, es[0]);
      assert es[0].Advances? && forall id :: id in w'.clients ==> id in w.clients;
      NobodyNew(w', es[1..]);
      assert Run(w, es) == Run(w', es[1..]);
    }
  }

  /** Deletion happens: with nobody new, once every client has taken its remaining
      steps, in any order, a service that was marked and stopped has been removed. */
  lemma {:induction false} DeletionHappens(w: World, es: seq<Event>, n: Name)
    requires Accounted(w) && Doomed(w.db, n)
    requires forall e :: e in es ==> e.Advances?
    requires forall id :: id in w.clients ==> OwnSteps(es, id) >= Remaining(w.clients[id])
    ensures AllOut(Run(w, es)) && RemovedDuring(w, es, n)
  {
    NobodyNew(w, es);
    forall id | id in Run(w, es).clients ensures Run(w, es).clients[id].stage == Done {
      ReturnsInRuns(w, es, id);
    }
    DeletionCompletes(w, es, n);
  }
}
