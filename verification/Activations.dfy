/** One client's part in a run, from its call to its return, with any steps of others
    between; and what follows for a function that plays it. */
module Activations {
  import opened Scm
  import opened Lifecycle
  import opened SoloLaws
  import opened RunLaws
  import opened LinearLaws
  import opened AnswerLaws

  /** Client `id` was called with `op` on `name` in the world `w0`; the events `es`
      have happened since, and the client has become `k`. */
  datatype Activation = Activation(w0: World, id: nat, op: Operation, name: Name, es: seq<Event>, k: Client)

  /** The same activation, further on. */
  predicate Continues(a: Activation, b: Activation) {
    b == a.(es := b.es, k := b.k)
  }

  /** The events are those of one activation, from its call on. */
  ghost predicate Activates(es: seq<Event>, id: nat, op: Operation, n: Name) {
    es != [] && es[0] == Enters(id, op, n)
    && forall i :: 1 <= i < |es| && es[i].id == id ==> es[i].Advances?
  }

  /** The run has come to the client `k` and, around it, the world `w`. */
  ghost predicate At(a: Activation, w: World) {
    && a.id !in a.w0.clients && a.id !in w.clients && Activates(a.es, a.id, a.op, a.name)
    && a.k.op == a.op && a.k.name == a.name
    && Run(a.w0, a.es) == w.(clients := w.clients[a.id := a.k])
  }

  /** The activation has returned with this code. */
  ghost predicate Performed(a: Activation, w: World, errCode: nat) {
    At(a, w) && a.k.stage == Done && a.k.err == errCode
  }

  function Begin(w0: World, id: nat, op: Operation, n: Name): Activation {
    Activation(w0, id, op, n, [Enters(id, op, n)], Enter(op, n))
  }

  lemma Begins(w0: World, id: nat, op: Operation, n: Name)
    requires id !in w0.clients
    ensures At(Begin(w0, id, op, n), w0)
  {
    var es := [Enters(id, op, n)];
    assert Run(w0, es) == Next(w0, es[0]) by { assert es[1..] == []; }
  }

  /** Whoever takes no step is not concerned by the others' steps. */
  lemma {:induction false} Bystander(w: World, id: nat, k: Client, es: seq<Event>)
    requires id !in w.clients && Foreign(es, id)
    ensures var w' := Run(w, es);
      id !in w'.clients && Run(w.(clients := w.clients[id := k]), es) == w'.(clients := w'.clients[id := k])
    decreases |es|
  {
    if es != [] {
      var e, with := es[0], w.(clients := w.clients[id := k]);
      assert Next(with, e).clients == Next(w, e).clients[id := k];
      assert Foreign(es[1..], id);
      Bystander(Next(w, e), id, k, es[1..]);
    }
  }

  /** The others' steps `es` lead from `w` to `w'`, whatever client `id` is. */
  ghost predicate Interleaved(w: World, id: nat, es: seq<Event>, w': World) {
    && Foreign(es, id) && id !in w'.clients
    && forall k {:trigger Run(w.(clients := w.clients[id := k]), es)} ::
         Run(w.(clients := w.clients[id := k]), es) == w'.(clients := w'.clients[id := k])
  }

  lemma Unconcerned(w: World, id: nat, es: seq<Event>)
    requires id !in w.clients && Foreign(es, id)
    ensures Interleaved(w, id, es, Run(w, es))
  {
    var w' := Run(w, es);
    forall k {:trigger Run(w.(clients := w.clients[id := k]), es)}
      ensures Run(w.(clients := w.clients[id := k]), es) == w'.(clients := w'.clients[id := k])
    {
      Bystander(w, id, k, es);
    }
    Bystander(w, id, Enter(Start, ""), es);
  }

  /** Others take the steps `fs`, then the client takes one. */
  lemma Moves(a: Activation, w: World, fs: seq<Event>, w1: World, v: Verdict) returns (b: Activation)
    requires At(a, w) && Interleaved(w, a.id, fs, w1)
    ensures var (db', k') := Advance(w1.db, a.k, v);
      Continues(a, b) && b.k == k' && At(b, w1.(db := db'))
  {
    var e, k' := Advances(a.id, v), Advance(w1.db, a.k, v).1;
    b := a.(es := a.es + fs + [e], k := k');
    StepKeepsRequest(w1.db, a.k, v);
    RunSplit(a.w0, a.es, fs);
    RunSnoc(a.w0, a.es + fs, e);
    assert w1.clients[a.id := a.k][a.id := k'] == w1.clients[a.id := k'];
  }

  /** The client takes a step at once. */
  lemma MovesAtOnce(a: Activation, w: World, v: Verdict) returns (b: Activation)
    requires At(a, w)
    ensures var (db', k') := Advance(w.db, a.k, v);
      Continues(a, b) && b.k == k' && At(b, w.(db := db'))
  {
    Unconcerned(w, a.id, []);
    b := Moves(a, w, [], w, v);
  }

  /** Until it returns and is called again a client keeps its request, and its
      history stays in shape. */
  lemma {:induction false} ActivationStays(w: World, es: seq<Event>, id: nat)
    requires id in w.clients && History(w.clients[id])
    requires forall e :: e in es && e.id == id ==> e.Advances?
    ensures var r := Run(w, es);
      id in r.clients && History(r.clients[id])
      && r.clients[id].op == w.clients[id].op && r.clients[id].name == w.clients[id].name
    decreases |es|
  {
    if es != [] {
      if es[0].id == id {
        StepKeepsRequest(w.db, w.clients[id], es[0].verdict);
        HistoryStep(w.db, w.clients[id], es[0].verdict);
      }
      ActivationStays(Next(w, es[0]), es[1..], id);
    }
  }

  lemma AtInShape(a: Activation, w: World)
    requires At(a, w)
    ensures History(a.k)
  {
    var w1 := Next(a.w0, a.es[0]);
    assert Run(w1, a.es[1..]).clients[a.id] == a.k;
    ActivationStays(w1, a.es[1..], a.id);
  }

  // ----- Alone

  ghost predicate Alone(a: Activation) {
    forall e :: e in a.es ==> e.id == a.id
  }

  function Verdicts(es: seq<Event>): seq<Verdict>
    requires forall e :: e in es ==> e.Advances?
  {
    if es == [] then [] else [es[0].verdict] + Verdicts(es[1..])
  }

  /** With nobody else acting, a run is one client's completion. */
  lemma {:induction false} RunAlone(w: World, id: nat, es: seq<Event>)
    requires id in w.clients
    requires forall e :: e in es ==> e.Advances? && e.id == id
    ensures var (db', k') := Complete(w.db, w.clients[id], Verdicts(es));
      Run(w, es) == World(db', w.clients[id := k'])
    decreases |es|
  {
    if es == [] {
      assert w.clients[id := w.clients[id]] == w.clients;
    } else {
      var w' := Next(w, es[0]);
      RunAlone(w', id, es[1..]);
      assert Verdicts(es)[1..] == Verdicts(es[1..]);
      var k' := Complete(w'.db, w'.clients[id], Verdicts(es[1..])).1;
      assert w.clients[id := w'.clients[id]][id := k'] == w.clients[id := k'];
    }
  }

  lemma PerformedAlone(a: Activation, w: World) returns (vs: seq<Verdict>)
    requires At(a, w) && Alone(a)
    ensures Complete(a.w0.db, Enter(a.op, a.name), vs) == (w.db, a.k)
  {
    assert forall e :: e in a.es[1..] ==> exists i :: 1 <= i < |a.es| && a.es[i] == e;
    assert Run(a.w0, a.es).clients[a.id] == a.k;
    vs := Verdicts(a.es[1..]);
    RunAlone(Next(a.w0, a.es[0]), a.id, a.es[1..]);
  }

  /** With nobody else acting, an activation with a NULL or closed local is all or
      nothing, tells the truth, and leaves the handle table alone. */
  lemma PerformedIsAtomic(a: Activation, w: World, errCode: nat)
    requires Settled(a.w0.db) && Performed(a, w, errCode) && Alone(a)
    requires a.op.Install? ==> a.op.unset !in a.w0.db.handles
    ensures var db, op, n := a.w0.db, a.op, a.name;
      && (errCode == StateError(op, db, n) || (errCode != NO_ERROR && !IsStateCode(errCode)))
      && (errCode == NO_ERROR ==> w.db == Reap(Database(Requested(op, db, n), db.handles), n))
      && (errCode != NO_ERROR ==> w.db == db)
      && w.db.handles == db.handles && Settled(w.db)
  {
    var vs := PerformedAlone(a, w);
    CallIsAtomic(a.w0.db, a.op, a.name, vs);
    ResultIsTruthful(a.w0.db, a.op, a.name, vs);
    OutcomeSettled(a.w0.db, a.k);
  }

  /** With nobody else acting and nothing refused, each function does what it is for
      whenever that can be done, and only then reports NO_ERROR. */
  lemma PerformedSucceeds(a: Activation, w: World, errCode: nat)
    requires Settled(a.w0.db) && Performed(a, w, errCode) && Alone(a)
    requires Granted(a.w0.db, a.k.met) && (a.op.Install? ==> |a.k.met| == 2)
    ensures errCode == NO_ERROR <==> Doable(a.w0.db.services, a.op, a.name)
    ensures errCode == NO_ERROR ==>
      var db, s, n := a.w0.db, a.w0.db.services, a.name;
      match a.op
      case Install(_) => w.db == db.(services := s[n := Service(false, false)])
      case Start => w.db == db.(services := s[n := Service(true, false)])
      case Stop =>
        w.db == db.(services := if s[n].marked && !OpenElsewhere(db, n) then s - {n}
                                else s[n := Service(false, s[n].marked)])
      case Unload =>
        w.db == db.(services := if !s[n].running && !OpenElsewhere(db, n) then s - {n}
                                else s[n := Service(s[n].running, true)])
  {
    var vs := PerformedAlone(a, w);
    match a.op
    case Install(unset) => InstallSucceeds(a.w0.db, unset, a.name, vs);
    case Start => StartSucceeds(a.w0.db, a.name, vs);
    case Stop => StopSucceeds(a.w0.db, a.name, vs);
    case Unload => UnloadSucceeds(a.w0.db, a.name, vs);
  }

  // ----- Whatever the others do

  /** The code returned is that of the one failure, if any, and handles are opened and
      closed like brackets, but for the unset local of an install whose setup failed. */
  lemma PerformedHistory(a: Activation, w: World, errCode: nat)
    requires Performed(a, w, errCode)
    ensures errCode == NO_ERROR <==> forall note :: note in a.k.log ==> !note.Failed?
    ensures forall code :: Failed(code) in a.k.log ==> code == errCode
    ensures (exists m, s, f: seq<Note> :: Bracketed(a.k.log, m, s, f))
         || (a.op.Install? && a.op.unset != NULL && exists m :: SetupFailure(a.k.log, m, errCode, a.op.unset))
  {
    AtInShape(a, w);
    ReturnedHistory(a.k);
  }

  /** And the code was settled at one step of the activation; it is true there, and
      answers the request as it should, unless the loss of a handle shows in it. */
  lemma {:induction false} PerformedIsAccountable(a: Activation, w: World, errCode: nat)
    requires Settled(a.w0.db) && Performed(a, w, errCode)
    ensures var w1, rest := Next(a.w0, a.es[0]), a.es[1..];
      exists i :: 0 <= i < |rest| && AccountableAt(w1, rest, a.id, a.k, i)
                  && (Disturbed(Run(w1, rest[..i]), rest[i]) || AnsweredAt(Run(w1, rest[..i]), rest[i], a.k))
  {
    AtInShape(a, w);
    var w1, rest := Next(a.w0, a.es[0]), a.es[1..];
    assert Run(w1, rest).clients[a.id] == a.k;
    ReturnsAreTruthful(w1, rest, a.id);
    var i :| 0 <= i < |rest| && AccountableAt(w1, rest, a.id, a.k, i);
    if !Disturbed(Run(w1, rest[..i]), rest[i]) {
      TruthAnswers(Run(w1, rest[..i]), rest[i], a.k);
    }
  }
}
