// Both halves together: clients take the lock of an id, work on the id action by action, and
// give the lock up, in any interleaving. The lock makes every operation atomic.

module LockedExtents {
  import opened DiskLayout
  import opened LockTypes
  import opened ExtentNet
  import opened ExtentSteps
  import P = LockProtocol
  import T = LockTheorems
  import V = LockInvariant

  // An operation that has performed so many of its actions.
  datatype Flight = Flight(op: Op, k: nat)

  // The locks by id; the caches, the owner map and the store; the operations under way, by id
  // and thread. sched and done only record: the steps of the locks, and the operations in the
  // order in which they were completed.
  datatype World = World(locks: T.World, net: Net, flights: map<T.Turn, Flight>, sched: seq<T.Turn>, done: seq<Op>)

  datatype Event =
    | Lock(turn: T.Turn)               // the thread runs a section of acquire or release
    | Begin(turn: T.Turn, op: Op)      // it begins an operation on the id
    | Continue(turn: T.Turn)           // it performs the next action
    | Make(id: nat)                    // a new id, which nobody knows yet, is created

  ghost predicate Holds(w: World, m: T.Turn) {
    P.PcOf(T.At(w.locks, m.lid), m.thread) == P.Holding
  }

  // A thread works on an id only while it holds its lock, and leaves the lock alone
  // meanwhile. Nothing else is asked: names may be any names of the clients.
  ghost predicate Allowed(w: World, ev: Event, names: nat -> ClientId) {
    match ev
    case Lock(m) => m.thread.client != NOBODY && m !in w.flights
    case Begin(m, op) =>
      m !in w.flights && Holds(w, m) && !op.DoCreate? && op.id == m.lid && op.c == names(m.thread.client) && Legal(w.net.store.Keys, op)
    case Continue(m) => m in w.flights && !w.flights[m].op.DoCreate? && w.flights[m].k < |Program(w.flights[m].op)|
    case Make(id) => id !in w.net.store
  }

  ghost function Next(w: World, ev: Event, names: nat -> ClientId): World
    requires Allowed(w, ev, names)
  {
    match ev
    case Lock(m) => w.(locks := w.locks[m.lid := P.Step(T.At(w.locks, m.lid), m.thread)], sched := w.sched + [m])
    case Begin(m, op) => w.(flights := w.flights[m := Flight(op, 0)])
    case Continue(m) =>
      var f := w.flights[m];
      var net := Perform(w.net, Program(f.op)[f.k], f.op.c, f.op.id, BufOf(f.op));
      if f.k + 1 < |Program(f.op)| then w.(net := net, flights := w.flights[m := f.(k := f.k + 1)])
      else w.(net := net, flights := w.flights - {m}, done := w.done + [f.op])
    case Make(id) => w.(net := Create(w.net, id), done := w.done + [DoCreate(id)])
  }

  // The state after the events; one that is not allowed does nothing.
  ghost function After(n: Net, names: nat -> ClientId, evs: seq<Event>): World {
    if evs == [] then World(map[], n, map[], [], [])
    else
      var w, ev := After(n, names, evs[..|evs| - 1]), evs[|evs| - 1];
      if Allowed(w, ev, names) then Next(w, ev, names) else w
  }

  // ---- The invariant ----

  // The locks have run by the schedule that is recorded.
  ghost predicate LocksOk(w: World) {
    w.locks == T.RunAll(w.sched) && T.Named(w.sched)
  }

  predicate Flying(f: Flight) {
    !f.op.DoCreate? && f.k < |Program(f.op)|
  }

  ghost predicate FlightOk(w: World, base: Net, m: T.Turn) {
    m in w.flights ==>
      Flying(w.flights[m]) && w.flights[m].op.id == m.lid && Legal(base.store.Keys, w.flights[m].op) && Holds(w, m)
  }

  // As far as id is concerned the state is that after the completed operations and the
  // actions performed by the one under way.
  ghost predicate IdOk(w: World, base: Net, id: nat) {
    && ((forall m :: m in w.flights ==> m.lid != id) ==> Like(base, w.net, id))
    && (forall m :: m in w.flights && m.lid == id && Flying(w.flights[m]) ==> Like(Partial(base, w.flights[m].op, w.flights[m].k), w.net, id))
  }

  ghost predicate Good(n: Net, w: World, base: Net) {
    && LocksOk(w) && LegalRun(n, w.done) && base == Run(n, w.done) && Coherent(base)
    && (forall m :: FlightOk(w, base, m)) && (forall id :: IdOk(w, base, id))
  }

  lemma OneFlight(w: World, m: T.Turn, m': T.Turn)
    requires LocksOk(w) && Holds(w, m) && Holds(w, m') && m.lid == m'.lid
    ensures m == m'
  {
    T.MutualExclusionEverywhere(w.sched, m.lid, m.thread, m'.thread);
  }

  lemma LikeSym(n: Net, n': Net, id: nat)
    requires Like(n, n', id)
    ensures Like(n', n, id)
  {
  }

  // ---- Steps of the locks ----

  lemma LockKeeps(n: Net, w: World, base: Net, m: T.Turn, names: nat -> ClientId)
    requires Good(n, w, base) && Allowed(w, Lock(m), names)
    ensures Good(n, Next(w, Lock(m), names), base)
  {
    var w' := Next(w, Lock(m), names);
    assert w'.sched[..|w.sched|] == w.sched;
    forall m2 ensures FlightOk(w', base, m2) {
      assert FlightOk(w, base, m2);
      if m2 in w.flights && m2.lid == m.lid {
        T.OthersKept(T.At(w.locks, m.lid), m.thread, m2.thread);
      }
    }
    forall id ensures IdOk(w', base, id) { assert IdOk(w, base, id); }
  }

  // ---- An operation begins ----

  lemma BeginKeeps(n: Net, w: World, base: Net, m: T.Turn, op: Op, names: nat -> ClientId)
    requires Good(n, w, base) && Allowed(w, Begin(m, op), names)
    ensures Good(n, Next(w, Begin(m, op), names), base)
  {
    var w' := Next(w, Begin(m, op), names);
    forall m2 | m2 in w.flights ensures m2.lid != m.lid {
      assert FlightOk(w, base, m2);
      if m2.lid == m.lid { OneFlight(w, m, m2); }
    }
    assert IdOk(w, base, m.lid);
    forall m2 ensures FlightOk(w', base, m2) { assert FlightOk(w, base, m2); }
    forall id ensures IdOk(w', base, id) {
      assert IdOk(w, base, id);
      if id != m.lid {
        forall m2 | m2 in w.flights && m2.lid == id ensures m2 in w'.flights { }
      }
      assert m in w'.flights;
    }
  }

  // ---- An operation goes on ----

  // The net after the next action of m, seen from another id.
  lemma IdElsewhere(w: World, w': World, base: Net, base': Net, id: nat)
    requires IdOk(w, base, id) && Like(base, base', id) && Like(w.net, w'.net, id)
    requires forall m: T.Turn :: m.lid == id ==> (m in w.flights <==> m in w'.flights) && (m in w.flights ==> w.flights[m] == w'.flights[m])
    requires forall m :: m in w.flights && m.lid == id ==> w.flights[m].op.id == id
    ensures IdOk(w', base', id)
  {
    if forall m :: m in w'.flights ==> m.lid != id {
      LikeSym(base, base', id);
      LikeTrans(base', base, w.net, id);
      LikeTrans(base', w.net, w'.net, id);
    }
    forall m | m in w'.flights && m.lid == id && Flying(w'.flights[m])
      ensures Like(Partial(base', w'.flights[m].op, w'.flights[m].k), w'.net, id)
    {
      var f := w.flights[m];
      PartialLike(base, base', f.op, f.k);
      LikeSym(Partial(base, f.op, f.k), Partial(base', f.op, f.k), id);
      LikeTrans(Partial(base', f.op, f.k), Partial(base, f.op, f.k), w.net, id);
      LikeTrans(Partial(base', f.op, f.k), w.net, w'.net, id);
    }
  }

  lemma LikeSelf(n: Net, id: nat)
    ensures Like(n, n, id)
  {
  }

  // What one action does to its own id.
  lemma ActionHere(n: Net, w: World, base: Net, m: T.Turn)
    requires Good(n, w, base) && m in w.flights
    ensures var f := w.flights[m];
            && Flying(f) && f.op.id == m.lid
            && Like(Partial(base, f.op, f.k + 1), Perform(w.net, Program(f.op)[f.k], f.op.c, f.op.id, BufOf(f.op)), m.lid)
    ensures forall m2 :: m2 in w.flights && m2.lid == m.lid ==> m2 == m
  {
    var f := w.flights[m];
    assert FlightOk(w, base, m) && IdOk(w, base, m.lid);
    PerformLike(Partial(base, f.op, f.k), w.net, Program(f.op)[f.k], f.op.c, f.op.id, BufOf(f.op));
    forall m2 | m2 in w.flights && m2.lid == m.lid ensures m2 == m {
      assert FlightOk(w, base, m2);
      OneFlight(w, m, m2);
    }
  }

  lemma ContinueKeeps(n: Net, w: World, base: Net, m: T.Turn, names: nat -> ClientId)
    requires Good(n, w, base) && Allowed(w, Continue(m), names) && w.flights[m].k + 1 < |Program(w.flights[m].op)|
    ensures Good(n, Next(w, Continue(m), names), base)
  {
    var w', f := Next(w, Continue(m), names), w.flights[m];
    ActionHere(n, w, base, m);
    forall m2 ensures FlightOk(w', base, m2) { assert FlightOk(w, base, m2); }
    forall id ensures IdOk(w', base, id) {
      assert IdOk(w, base, id);
      if id != m.lid {
        PerformElsewhere(w.net, Program(f.op)[f.k], f.op.c, f.op.id, BufOf(f.op), id);
        LikeSelf(base, id);
        forall m2 | m2 in w.flights && m2.lid == id ensures w.flights[m2].op.id == id { assert FlightOk(w, base, m2); }
        IdElsewhere(w, w', base, base, id);
      } else {
        assert m in w'.flights;
      }
    }
  }

  lemma FinishKeeps(n: Net, w: World, base: Net, m: T.Turn, names: nat -> ClientId)
    requires Good(n, w, base) && Allowed(w, Continue(m), names) && w.flights[m].k + 1 == |Program(w.flights[m].op)|
    requires Legal(base.store.Keys, w.flights[m].op)
    ensures Good(n, Next(w, Continue(m), names), Apply(base, w.flights[m].op))
  {
    var w', f := Next(w, Continue(m), names), w.flights[m];
    var base' := Apply(base, f.op);
    ActionHere(n, w, base, m);
    assert FlightOk(w, base, m);
    AllActions(base, f.op);
    RunMore(n, w.done, f.op);
    StepRefines(base, f.op);
    forall m2 ensures FlightOk(w', base', m2) {
      assert FlightOk(w, base, m2);
      if m2 in w'.flights { ApplyElsewhere(base, f.op, m2.lid); }
    }
    forall id ensures IdOk(w', base', id) {
      assert IdOk(w, base, id);
      if id != m.lid {
        PerformElsewhere(w.net, Program(f.op)[f.k], f.op.c, f.op.id, BufOf(f.op), id);
        ApplyElsewhere(base, f.op, id);
        forall m2 | m2 in w.flights && m2.lid == id ensures w.flights[m2].op.id == id { assert FlightOk(w, base, m2); }
        IdElsewhere(w, w', base, base', id);
      }
    }
  }

  // ---- A new id ----

  lemma PerformStore(n: Net, a: Action, c: ClientId, id: nat, buf: seq<Byte>, g: nat)
    requires g in n.store
    ensures g in Perform(n, a, c, id, buf).store
  {
  }

  lemma {:induction false} PartialStore(n: Net, op: Op, k: nat, id: nat)
    requires !op.DoCreate? && k <= |Program(op)| && id in n.store
    ensures id in Partial(n, op, k).store
  {
    if k > 0 {
      PartialStore(n, op, k - 1, id);
      PerformStore(Partial(n, op, k - 1), Program(op)[k - 1], op.c, op.id, BufOf(op), id);
    }
  }

  lemma MakeKeeps(n: Net, w: World, base: Net, id: nat, names: nat -> ClientId)
    requires Good(n, w, base) && Allowed(w, Make(id), names)
    ensures Legal(base.store.Keys, DoCreate(id)) && Good(n, Next(w, Make(id), names), Create(base, id))
  {
    var w', base' := Next(w, Make(id), names), Create(base, id);
    assert IdOk(w, base, id);
    forall m | m in w.flights ensures m.lid != id {
      assert FlightOk(w, base, m);
      if m.lid == id { PartialStore(base, w.flights[m].op, w.flights[m].k, id); }
    }
    RunMore(n, w.done, DoCreate(id));
    StepRefines(base, DoCreate(id));
    forall m ensures FlightOk(w', base', m) { assert FlightOk(w, base, m); }
    forall g ensures IdOk(w', base', g) {
      assert IdOk(w, base, g);
      if g != id {
        forall m | m in w.flights && m.lid == g ensures w.flights[m].op.id == g { assert FlightOk(w, base, m); }
        IdElsewhere(w, w', base, base', g);
      }
    }
  }

  // ---- All runs ----

  ghost function Base(n: Net, w: World): Net {
    Run(n, w.done)
  }

  lemma StepGood(n: Net, w: World, ev: Event, names: nat -> ClientId)
    requires Good(n, w, Base(n, w)) && Allowed(w, ev, names)
    ensures Good(n, Next(w, ev, names), Base(n, Next(w, ev, names)))
  {
    var base := Base(n, w);
    match ev
    case Lock(m) => LockKeeps(n, w, base, m, names);
    case Begin(m, op) => BeginKeeps(n, w, base, m, op, names);
    case Continue(m) =>
      assert FlightOk(w, base, m);
      if w.flights[m].k + 1 < |Program(w.flights[m].op)| { ContinueKeeps(n, w, base, m, names); } else { FinishKeeps(n, w, base, m, names); }
    case Make(id) => MakeKeeps(n, w, base, id, names);
  }

  lemma {:induction false} RunGood(n: Net, names: nat -> ClientId, evs: seq<Event>)
    requires Started(n)
    ensures var w := After(n, names, evs); Good(n, w, Base(n, w))
  {
    if evs == [] {
      StartedCoherent(n);
      forall id ensures IdOk(After(n, names, evs), n, id) { LikeSelf(n, id); }
    } else {
      var w, ev := After(n, names, evs[..|evs| - 1]), evs[|evs| - 1];
      RunGood(n, names, evs[..|evs| - 1]);
      if Allowed(w, ev, names) { StepGood(n, w, ev, names); }
    }
  }

  lemma LikeLatest(n: Net, n': Net, id: nat)
    requires Like(n, n', id) && id in n.store
    ensures id in n'.store && Latest(n', id) == Latest(n, id)
  {
  }

  /** In any interleaving at most one operation is under way on an id; and while none is, the
      id holds what the completed operations, each taken as one step, have left. */
  lemma OperationsAreAtomic(n: Net, names: nat -> ClientId, evs: seq<Event>, id: nat)
    requires Started(n)
    ensures var w := After(n, names, evs);
            && (forall m, m2 :: m in w.flights && m2 in w.flights && m.lid == m2.lid ==> m == m2)
            && LegalRun(n, w.done)
            && ((forall m :: m in w.flights ==> m.lid != id) && id in w.net.store ==> Latest(w.net, id) == LastPut(View(n), w.done, id))
  {
    var w := After(n, names, evs);
    var base := Base(n, w);
    RunGood(n, names, evs);
    forall m, m2 | m in w.flights && m2 in w.flights && m.lid == m2.lid ensures m == m2 {
      assert FlightOk(w, base, m) && FlightOk(w, base, m2);
      OneFlight(w, m, m2);
    }
    assert IdOk(w, base, id);
    if (forall m :: m in w.flights ==> m.lid != id) && id in w.net.store {
      StartedCoherent(n);
      RunRefines(n, w.done);
      LikeLatest(base, w.net, id);
      assert View(base)[id] == Latest(base, id);
      EffectsAreLast(View(n), w.done, id);
    }
  }

  /** A get that has just been completed has put in the client's cache what the latest
      completed put has left, whatever ran in between. */
  lemma GetIsAtomic(n: Net, names: nat -> ClientId, evs: seq<Event>, m: T.Turn)
    requires Started(n) && Allowed(After(n, names, evs), Continue(m), names)
    requires var f := After(n, names, evs).flights[m]; f.op.DoGet? && f.k + 1 == |Program(f.op)|
    ensures var w := After(n, names, evs);
            var op, w' := w.flights[m].op, Next(w, Continue(m), names);
            && w'.done == w.done + [op] && Slot(w'.net.caches, op.c, op.id).dataStat == CacheState.OK
            && Slot(w'.net.caches, op.c, op.id).fileData == LastPut(View(n), w.done, op.id)
  {
    var w := After(n, names, evs);
    var op, base := w.flights[m].op, Base(n, w);
    RunGood(n, names, evs);
    ActionHere(n, w, base, m);
    assert FlightOk(w, base, m);
    AllActions(base, op);
    StartedCoherent(n);
    RunRefines(n, w.done);
    GetReturnsLatestPut(n, w.done, op.c, op.id);
  }
}
