// Clients are not served in the order in which they ask: the server picks the least waiting
// one. When a client is passed over, and that this can happen any number of times.

module LockFairness {
  import opened LockTypes
  import opened LockProtocol
  import opened LockInvariant
  import opened LockTheorems
  import Server = LockServer
  import Client = LockClient

  /** At a release a waiting client is passed over exactly if a smaller one waits. */
  lemma PassedOver(sched: seq<Thread>, t: Thread, c: nat)
    requires Scheduled(sched) && t.client != NOBODY && c in Run(sched).srv.waiting
    requires HasRel(PcOf(Run(sched), t)) && PcOf(Run(sched), t).rel == RelRequest
    ensures c in Step(Run(sched), t).srv.waiting <==> exists d :: d in Run(sched).srv.waiting && d < c
  {
    RunInv(sched);
    PassesLeast(Run(sched), t);
    LeastPasses(Run(sched).srv.waiting, c);
  }

  lemma PassesLeast(s: System, t: Thread)
    requires Inv(s) && t.client != NOBODY && HasRel(PcOf(s, t)) && PcOf(s, t).rel == RelRequest && s.srv.waiting != {}
    ensures Step(s, t).srv.waiting == s.srv.waiting - {Server.Least(s.srv.waiting)}
  {
    ReleaseRole(s, t);
  }

  lemma LeastPasses(waiting: set<nat>, c: nat)
    requires c in waiting
    ensures Server.Least(waiting) != c <==> exists d :: d in waiting && d < c
  {
  }

  // ---- One client, one thread ----

  // The part that thread t and its client, which has no other threads, have in a state.
  datatype Part = Part(state: Client.State, message: Client.Message, pc: Pc)

  predicate Is(s: System, t: Thread, p: Part) {
    && PcOf(s, t) == p.pc
    && EntryOf(s, t.client) == Client.Entry(p.state, p.message, if p.pc == Idle then [] else [t])
    && (p.pc != Idle ==> t.client in s.ents)
  }

  // A step that concerns the clients of t and u only.
  ghost predicate Others(s: System, s': System, t: Thread, u: Thread) {
    forall v: Thread, p :: v.client != t.client && v.client != u.client && Is(s, v, p) ==> Is(s', v, p)
  }

  // A step of t that changes nothing but t's own part.
  ghost predicate Own(s: System, s': System, t: Thread, p: Part) {
    Is(s', t, p) && Others(s, s', t, t) && s'.srv == s.srv && s'.log.grants == s.log.grants
  }

  lemma Enters(s: System, t: Thread)
    requires Is(s, t, Part(Client.None, Client.Empty, Idle))
    ensures Own(s, Step(s, t), t, Part(Client.Acquiring, Client.Empty, Request))
  {
  }

  lemma Served(s: System, t: Thread, p: Part, srv: Server.Entry, reply: Reply, follow: Server.Follow)
    requires Is(s, t, p) && p.pc == Request && Server.AcquireSection(s.srv, t.client) == Server.Acquired(srv, reply, follow)
    ensures var s' := Step(s, t);
            && s'.srv == srv && Others(s, s', t, t) && s'.log.grants == s.log.grants + (if reply == OK then 1 else 0)
            && Is(s', t, p.(pc := match follow case Nothing => Answer(reply) case RevokeOwner => ReadOwner
                                  case RevokeCaller => RevokeSent(t.client, reply)))
  {
  }

  lemma Granted(s: System, t: Thread, m: Client.Message)
    requires Is(s, t, Part(Client.Acquiring, m, Answer(OK)))
    ensures Own(s, Step(s, t), t, Part(Client.Locked, m, Holding))
  {
  }

  lemma Refused(s: System, t: Thread)
    requires Is(s, t, Part(Client.Acquiring, Client.Empty, Answer(RETRY)))
    ensures Own(s, Step(s, t), t, Part(Client.Acquiring, Client.Empty, WaitRetry(false)))
  {
  }

  lemma ReadsOwner(s: System, t: Thread, p: Part)
    requires Is(s, t, p) && p.pc == ReadOwner && s.srv.owner != NOBODY
    ensures Own(s, Step(s, t), t, p.(pc := RevokeSent(s.srv.owner, RETRY)))
  {
  }

  lemma RevokesOther(s: System, t: Thread, p: Part, u: Thread, q: Part)
    requires Is(s, t, p) && Is(s, u, q) && t.client != u.client && p.pc == RevokeSent(u.client, RETRY)
    requires q.state != Client.Free && q.pc != Idle
    ensures var s' := Step(s, t);
            && s'.srv == s.srv && s'.log.grants == s.log.grants && Others(s, s', t, u)
            && Is(s', t, p.(pc := Answer(RETRY))) && Is(s', u, q.(message := Client.Revoke))
  {
  }

  lemma RevokesSelf(s: System, t: Thread)
    requires Is(s, t, Part(Client.Acquiring, Client.Empty, RevokeSent(t.client, OK)))
    ensures Own(s, Step(s, t), t, Part(Client.Acquiring, Client.Revoke, Answer(OK)))
  {
  }

  lemma Leaves(s: System, t: Thread)
    requires Is(s, t, Part(Client.Locked, Client.Revoke, Holding))
    ensures Own(s, Step(s, t), t, Part(Client.Releasing, Client.Revoke, Releasing(RelRequest)))
  {
  }

  lemma ReleaseServed(s: System, t: Thread, p: Part, next: nat)
    requires Is(s, t, p) && p.pc == Releasing(RelRequest) && s.srv.state == Server.Revoking && s.srv.owner == t.client
    requires Server.IsLeast(next, s.srv.waiting)
    ensures var s' := Step(s, t);
            && s'.srv == Server.Entry(Server.Retrying, NOBODY, next, s.srv.waiting - {next})
            && s'.log.grants == s.log.grants && Others(s, s', t, t) && Is(s', t, p.(pc := Releasing(RelRetry(next))))
  {
    assert Server.Least(s.srv.waiting) == next;
  }

  lemma Retries(s: System, t: Thread, p: Part, u: Thread)
    requires Is(s, t, p) && t.client != u.client && p.pc == Releasing(RelRetry(u.client))
    requires Is(s, u, Part(Client.Acquiring, Client.Empty, WaitRetry(false)))
    ensures var s' := Step(s, t);
            && s'.srv == s.srv && s'.log.grants == s.log.grants && Others(s, s', t, u)
            && Is(s', t, p.(pc := Releasing(RelReply))) && Is(s', u, Part(Client.Acquiring, Client.Retry, WaitRetry(true)))
  {
  }

  lemma Released(s: System, t: Thread, p: Part)
    requires Is(s, t, p) && p.pc == Releasing(RelReply)
    ensures Own(s, Step(s, t), t, Part(Client.None, Client.Empty, Idle))
  {
  }

  lemma Wakes(s: System, t: Thread)
    requires Is(s, t, Part(Client.Acquiring, Client.Retry, WaitRetry(true)))
    ensures Own(s, Step(s, t), t, Part(Client.Acquiring, Client.Empty, Request))
  {
  }

  // ---- Two clients pass the lock to and fro while a third one waits ----

  const WAITS: Part := Part(Client.Acquiring, Client.Empty, WaitRetry(false))

  predicate Scene(s: System, x: Thread, px: Part, y: Thread, py: Part, z: Thread, srv: Server.Entry) {
    Is(s, x, px) && Is(s, y, py) && Is(s, z, WAITS) && s.srv == srv
  }

  predicate Three(x: Thread, y: Thread, z: Thread) {
    && x.client != y.client && x.client < z.client && y.client < z.client
    && x.client != NOBODY && y.client != NOBODY
  }

  // x has the lock and has been told to give it up; y and z wait.
  predicate Contest(s: System, x: Thread, y: Thread, z: Thread) {
    Scene(s, x, Part(Client.Locked, Client.Revoke, Holding), y, WAITS, z,
          Server.Entry(Server.Revoking, x.client, NOBODY, {y.client, z.client}))
  }

  // Client c waits at the server throughout the schedule.
  ghost predicate Waits(s: System, sched: seq<Thread>, c: nat)
    decreases |sched|
  {
    c in s.srv.waiting && (sched != [] ==> Waits(Step(s, sched[0]), sched[1..], c))
  }

  // After the schedule, c having waited, so many locks have been granted.
  ghost predicate Leads(s: System, sched: seq<Thread>, s': System, c: nat, grants: nat) {
    RunFrom(s, sched) == s' && Waits(s, sched, c) && Scheduled(sched) && s'.log.grants == s.log.grants + grants
  }

  lemma {:induction false} LeadsOn(s: System, sched: seq<Thread>, s1: System, t: Thread, c: nat, grants: nat, more: nat)
    requires Leads(s, sched, s1, c, grants) && c in Step(s1, t).srv.waiting && t.client != NOBODY
    requires Step(s1, t).log.grants == s1.log.grants + more
    ensures Leads(s, sched + [t], Step(s1, t), c, grants + more)
    decreases |sched|
  {
    RunOneMore(s, sched, t, c);
  }

  lemma {:induction false} RunOneMore(s: System, sched: seq<Thread>, t: Thread, c: nat)
    requires Waits(s, sched, c) && c in Step(RunFrom(s, sched), t).srv.waiting
    ensures RunFrom(s, sched + [t]) == Step(RunFrom(s, sched), t) && Waits(s, sched + [t], c)
    decreases |sched|
  {
    if sched != [] {
      RunOneMore(Step(s, sched[0]), sched[1..], t, c);
      assert (sched + [t])[1..] == sched[1..] + [t];
    } else {
      assert [t][1..] == [] && [] + [t] == [t];
    }
  }

  // x gives the lock up, and y is told to retry.
  lemma HandsOver(s: System, x: Thread, y: Thread, z: Thread) returns (sched: seq<Thread>, s': System)
    requires Three(x, y, z) && Contest(s, x, y, z)
    ensures Leads(s, sched, s', z.client, 0)
    ensures Scene(s', x, Part(Client.None, Client.Empty, Idle), y, Part(Client.Acquiring, Client.Retry, WaitRetry(true)), z,
                  Server.Entry(Server.Retrying, NOBODY, y.client, {z.client}))
  {
    sched, s' := [], s;
    Leaves(s', x);
    LeadsOn(s, sched, s', x, z.client, 0, 0);
    sched, s' := sched + [x], Step(s', x);
    ReleaseServed(s', x, Part(Client.Releasing, Client.Revoke, Releasing(RelRequest)), y.client);
    assert {y.client, z.client} - {y.client} == {z.client};
    LeadsOn(s, sched, s', x, z.client, 0, 0);
    sched, s' := sched + [x], Step(s', x);
    Retries(s', x, Part(Client.Releasing, Client.Revoke, Releasing(RelRetry(y.client))), y);
    LeadsOn(s, sched, s', x, z.client, 0, 0);
    sched, s' := sched + [x], Step(s', x);
    Released(s', x, Part(Client.Releasing, Client.Revoke, Releasing(RelReply)));
    LeadsOn(s, sched, s', x, z.client, 0, 0);
    sched, s' := sched + [x], Step(s', x);
  }

  // y gets it, and is told at once to give it up again.
  lemma TakesOver(s: System, x: Thread, y: Thread, z: Thread) returns (sched: seq<Thread>, s': System)
    requires Three(x, y, z)
    requires Scene(s, x, Part(Client.None, Client.Empty, Idle), y, Part(Client.Acquiring, Client.Retry, WaitRetry(true)), z,
                   Server.Entry(Server.Retrying, NOBODY, y.client, {z.client}))
    ensures Leads(s, sched, s', z.client, 1)
    ensures Scene(s', x, Part(Client.None, Client.Empty, Idle), y, Part(Client.Locked, Client.Revoke, Holding), z,
                  Server.Entry(Server.Revoking, y.client, NOBODY, {z.client}))
  {
    sched, s' := [], s;
    Wakes(s', y);
    LeadsOn(s, sched, s', y, z.client, 0, 0);
    sched, s' := sched + [y], Step(s', y);
    Served(s', y, Part(Client.Acquiring, Client.Empty, Request), Server.Entry(Server.Revoking, y.client, NOBODY, {z.client}), OK, Server.RevokeCaller);
    LeadsOn(s, sched, s', y, z.client, 0, 1);
    sched, s' := sched + [y], Step(s', y);
    RevokesSelf(s', y);
    LeadsOn(s, sched, s', y, z.client, 1, 0);
    sched, s' := sched + [y], Step(s', y);
    Granted(s', y, Client.Revoke);
    LeadsOn(s, sched, s', y, z.client, 1, 0);
    sched, s' := sched + [y], Step(s', y);
  }

  // x asks again and waits, too.
  lemma AsksAgain(s: System, x: Thread, y: Thread, z: Thread) returns (sched: seq<Thread>, s': System)
    requires Three(x, y, z)
    requires Scene(s, x, Part(Client.None, Client.Empty, Idle), y, Part(Client.Locked, Client.Revoke, Holding), z,
                   Server.Entry(Server.Revoking, y.client, NOBODY, {z.client}))
    ensures Leads(s, sched, s', z.client, 0) && Contest(s', y, x, z)
  {
    sched, s' := [], s;
    Enters(s', x);
    LeadsOn(s, sched, s', x, z.client, 0, 0);
    sched, s' := sched + [x], Step(s', x);
    var srv := Server.Entry(Server.Revoking, y.client, NOBODY, {x.client, z.client});
    assert {z.client} + {x.client} == {x.client, z.client};
    Served(s', x, Part(Client.Acquiring, Client.Empty, Request), srv, RETRY, Server.Nothing);
    LeadsOn(s, sched, s', x, z.client, 0, 0);
    sched, s' := sched + [x], Step(s', x);
    Refused(s', x);
    LeadsOn(s, sched, s', x, z.client, 0, 0);
    sched, s' := sched + [x], Step(s', x);
  }

  lemma LeadsJoin(s: System, a: seq<Thread>, s1: System, b: seq<Thread>, s2: System, c: nat, g: nat, h: nat)
    requires Leads(s, a, s1, c, g) && Leads(s1, b, s2, c, h)
    ensures Leads(s, a + b, s2, c, g + h)
  {
    WaitsJoin(s, a, s1, b, c);
    FromJoin(s, a, s1, b);
  }

  lemma {:induction false} FromJoin(s: System, a: seq<Thread>, s1: System, b: seq<Thread>)
    requires RunFrom(s, a) == s1
    ensures RunFrom(s, a + b) == RunFrom(s1, b)
    decreases |a|
  {
    if a != [] {
      assert (a + b)[0] == a[0] && (a + b)[1..] == a[1..] + b;
      FromJoin(Step(s, a[0]), a[1..], s1, b);
    } else {
      assert [] + b == b;
    }
  }

  lemma {:induction false} WaitsJoin(s: System, a: seq<Thread>, s1: System, b: seq<Thread>, c: nat)
    requires RunFrom(s, a) == s1 && Waits(s, a, c) && Waits(s1, b, c)
    ensures Waits(s, a + b, c)
    decreases |a|
  {
    if a != [] {
      assert (a + b)[0] == a[0] && (a + b)[1..] == a[1..] + b;
      WaitsJoin(Step(s, a[0]), a[1..], s1, b, c);
    } else {
      assert [] + b == b;
    }
  }

  lemma Passes(s: System, x: Thread, y: Thread, z: Thread) returns (sched: seq<Thread>, s': System)
    requires Three(x, y, z) && Contest(s, x, y, z)
    ensures Leads(s, sched, s', z.client, 1) && Contest(s', y, x, z)
  {
    var a, s1 := HandsOver(s, x, y, z);
    var b, s2 := TakesOver(s1, x, y, z);
    var c, s3 := AsksAgain(s2, x, y, z);
    LeadsJoin(s, a, s1, b, s2, z.client, 0, 1);
    LeadsJoin(s, a + b, s2, c, s3, z.client, 1, 0);
    sched, s' := a + b + c, s3;
  }

  lemma {:induction false} PassesOn(s: System, x: Thread, y: Thread, z: Thread, n: nat) returns (sched: seq<Thread>, s': System)
    requires Three(x, y, z) && Contest(s, x, y, z)
    ensures Leads(s, sched, s', z.client, n) && Is(s', z, WAITS)
    decreases n
  {
    if n == 0 {
      sched, s' := [], s;
    } else {
      var a, s1 := Passes(s, x, y, z);
      var b, s2 := PassesOn(s1, y, x, z, n - 1);
      LeadsJoin(s, a, s1, b, s2, z.client, 1, n - 1);
      sched, s' := a + b, s2;
    }
  }

  // ---- Such a contest is reached ----

  const X: Thread := Thread(1, 0)
  const Y: Thread := Thread(2, 0)
  const Z: Thread := Thread(3, 0)

  const RESTS: Part := Part(Client.None, Client.Empty, Idle)

  predicate Stage(s: System, px: Part, py: Part, pz: Part, srv: Server.Entry) {
    Is(s, X, px) && Is(s, Y, py) && Is(s, Z, pz) && s.srv == srv
  }

  ghost predicate Goes(sched: seq<Thread>, s: System) {
    Run(sched) == s && Scheduled(sched)
  }

  lemma GoesOn(sched: seq<Thread>, s: System, t: Thread)
    requires Goes(sched, s) && t.client != NOBODY
    ensures Goes(sched + [t], Step(s, t))
  {
    RunNext(sched, t);
  }

  lemma XHolds() returns (sched: seq<Thread>, s: System)
    ensures Goes(sched, s)
    ensures Stage(s, Part(Client.Locked, Client.Empty, Holding), RESTS, RESTS, Server.Entry(Server.Locked, 1, NOBODY, {}))
  {
    sched, s := [], INIT;
    Enters(s, X);
    GoesOn(sched, s, X);
    sched, s := sched + [X], Step(s, X);
    Served(s, X, Part(Client.Acquiring, Client.Empty, Request), Server.Entry(Server.Locked, 1, NOBODY, {}), OK, Server.Nothing);
    GoesOn(sched, s, X);
    sched, s := sched + [X], Step(s, X);
    Granted(s, X, Client.Empty);
    GoesOn(sched, s, X);
    sched, s := sched + [X], Step(s, X);
  }

  lemma YAsks() returns (sched: seq<Thread>, s: System)
    ensures Goes(sched, s)
    ensures Stage(s, Part(Client.Locked, Client.Empty, Holding), Part(Client.Acquiring, Client.Empty, RevokeSent(1, RETRY)), RESTS,
                  Server.Entry(Server.Revoking, 1, NOBODY, {2}))
  {
    sched, s := XHolds();
    Enters(s, Y);
    GoesOn(sched, s, Y);
    sched, s := sched + [Y], Step(s, Y);
    assert {} + {2} == {2};
    Served(s, Y, Part(Client.Acquiring, Client.Empty, Request), Server.Entry(Server.Revoking, 1, NOBODY, {2}), RETRY, Server.RevokeOwner);
    GoesOn(sched, s, Y);
    sched, s := sched + [Y], Step(s, Y);
    ReadsOwner(s, Y, Part(Client.Acquiring, Client.Empty, ReadOwner));
    GoesOn(sched, s, Y);
    sched, s := sched + [Y], Step(s, Y);
  }

  lemma YWaits() returns (sched: seq<Thread>, s: System)
    ensures Goes(sched, s)
    ensures Stage(s, Part(Client.Locked, Client.Revoke, Holding), WAITS, RESTS, Server.Entry(Server.Revoking, 1, NOBODY, {2}))
  {
    sched, s := YAsks();
    RevokesOther(s, Y, Part(Client.Acquiring, Client.Empty, RevokeSent(1, RETRY)), X, Part(Client.Locked, Client.Empty, Holding));
    GoesOn(sched, s, Y);
    sched, s := sched + [Y], Step(s, Y);
    Refused(s, Y);
    GoesOn(sched, s, Y);
    sched, s := sched + [Y], Step(s, Y);
  }

  lemma ContestIsReached() returns (sched: seq<Thread>, s: System)
    ensures Goes(sched, s) && Contest(s, X, Y, Z)
  {
    sched, s := YWaits();
    Enters(s, Z);
    GoesOn(sched, s, Z);
    sched, s := sched + [Z], Step(s, Z);
    assert {2} + {3} == {2, 3};
    Served(s, Z, Part(Client.Acquiring, Client.Empty, Request), Server.Entry(Server.Revoking, 1, NOBODY, {2, 3}), RETRY, Server.Nothing);
    GoesOn(sched, s, Z);
    sched, s := sched + [Z], Step(s, Z);
    Refused(s, Z);
    GoesOn(sched, s, Z);
    sched, s := sched + [Z], Step(s, Z);
  }

  /** For every n there is a run in which a client goes on waiting while the lock is granted n
      times to others. */
  lemma Overtaken(n: nat) returns (sched: seq<Thread>, more: seq<Thread>)
    ensures Scheduled(sched) && Scheduled(more) && Waits(Run(sched), more, Z.client)
    ensures PcOf(Run(sched), Z) == WaitRetry(false) && PcOf(RunFrom(Run(sched), more), Z) == WaitRetry(false)
    ensures RunFrom(Run(sched), more).log.grants == Run(sched).log.grants + n
  {
    var s, s';
    sched, s := ContestIsReached();
    more, s' := PassesOn(s, X, Y, Z, n);
  }
}
