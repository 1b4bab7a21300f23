// The invariant of the lock system, and the proof that every step keeps it.

module LockInvariant {
  import opened LockTypes
  import opened LockProtocol
  import Server = LockServer
  import Client = LockClient

  function Queue(s: System, c: nat): seq<Thread> {
    EntryOf(s, c).threads
  }

  // The program counter of the front of client c's queue; Idle if the queue is empty.
  function Front(s: System, c: nat): Pc {
    if Queue(s, c) == [] then Idle else PcOf(s, Queue(s, c)[0])
  }

  // Exactly the threads inside acquire or release are queued, once, at their own
  // client, and only the front is not waiting for its turn.
  ghost predicate QueueInv(s: System) {
    && (forall t :: PcOf(s, t) != Idle ==> t.client in s.ents && t in Queue(s, t.client))
    && (forall c, i :: 0 <= i < |Queue(s, c)| ==> Queue(s, c)[i].client == c && PcOf(s, Queue(s, c)[i]) != Idle)
    && (forall c, i, j :: 0 <= i < j < |Queue(s, c)| ==> Queue(s, c)[i] != Queue(s, c)[j])
    && (forall c, i :: 0 < i < |Queue(s, c)| ==> PcOf(s, Queue(s, c)[i]) == WaitQueued(false))
    && NOBODY !in s.ents
  }

  // All that the invariant says about one client: its own state, the front of its
  // queue, and what the server and the calls in flight know about it.
  datatype View = View(state: Client.State, message: Client.Message, front: Pc,
                       hosted: bool,    // its revoke handler is inside a release call
                       unserved: bool,  // a release call for it has not reached the server
                       owner: bool, waiting: bool, retrying: bool,
                       duty: Duty)      // the duty, if it concerns this client

  function ViewOf(s: System, c: nat): View {
    ViewAt(s, c, Front(s, c))
  }

  function ViewAt(s: System, c: nat, front: Pc): View {
    var e := EntryOf(s, c);
    View(e.state, e.message, front, c in s.hosts,
         if c in s.hosts then PcOf(s, s.hosts[c]) == RevokeRelease(c, RETRY, RelRequest)
         else front == Releasing(RelRequest),
         s.srv.owner == c, c in s.srv.waiting, s.srv.retrying == c,
         if s.srv.owner == c || s.srv.retrying == c then s.duty else NoDuty)
  }

  // The acquire of v's client has been granted and the reply is on its way.
  predicate Granted(v: View) {
    v.state == Client.Acquiring && ((v.front.RevokeSent? && v.front.ret == OK) || v.front == Answer(OK))
  }

  // It has been registered at the server without a grant.
  predicate Registered(v: View) {
    v.state == Client.Acquiring
    && (v.front.WaitRetry? || v.front.ReadOwner? || (v.front.RevokeSent? && v.front.ret == RETRY)
        || v.front.RevokeRelease? || v.front == Answer(RETRY))
  }

  predicate Owns(v: View) {
    v.state == Client.Locked || v.state == Client.Free || Granted(v) || (v.state == Client.Releasing && v.unserved)
  }

  // The front's program counter and the mailbox, per client state.
  predicate FrontOk(v: View) {
    match v.state
    case None =>
      v.message == Client.Empty && (v.front == Idle || v.front == WaitFirst(true) || v.front == WaitQueued(true))
    case Free => v.message == Client.Empty && v.front == Idle
    case Locked => (v.front == Holding || v.front == WaitQueued(true)) && v.message != Client.Retry
    case Acquiring => Registered(v) || Granted(v) || (v.front == Request && v.message == Client.Empty)
    case Releasing =>
      if v.hosted then v.message == Client.Empty && (v.front == Idle || v.front == WaitFirst(false))
      else v.front.Releasing? && v.message == Client.Revoke
  }

  // What the server believes about a client, against the client's own state.
  predicate RoleOk(v: View) {
    && (v.hosted ==> v.state == Client.Releasing)
    && (v.owner <==> Owns(v))
    && (v.owner && v.state == Client.Releasing ==> v.duty.ReleaseCall?)
    && (Registered(v) <==> v.waiting || (v.retrying && v.duty != Reacquire))
    && (v.waiting ==> v.message == Client.Empty && v.front != WaitRetry(true))
    && (v.message == Client.Retry ==> v.retrying && v.duty == RetryMail)
    && (v.message == Client.Revoke ==> (v.owner && v.duty == RevokeMail) || (v.state == Client.Releasing && !v.hosted))
    && (v.retrying ==>
          match v.duty
          case RetryCall(_) => v.message == Client.Empty && v.front != WaitRetry(true)
          case RetryMail => v.message == Client.Retry && v.front != WaitRetry(false)
          case Reacquire => v.state == Client.Acquiring && v.front == Request
          case _ => false)
  }

  predicate ViewOk(v: View) {
    FrontOk(v) && RoleOk(v)
  }

  predicate ServerInv(s: System) {
    var v := s.srv;
    && NOBODY !in v.waiting
    && v.owner !in v.waiting
    && (match v.state
        case None => v.owner == NOBODY && v.retrying == NOBODY && v.waiting == {}
        case Locked => v.owner != NOBODY && v.retrying == NOBODY && v.waiting == {}
        case Revoking => v.owner != NOBODY && v.retrying == NOBODY && v.waiting != {}
        case Retrying => v.owner == NOBODY && v.retrying != NOBODY && v.retrying !in v.waiting)
  }

  ghost predicate ClientInv(s: System) {
    forall c :: c != NOBODY ==> ViewOk(ViewOf(s, c))
  }

  // Where the duty lies, from the server's side ...
  predicate DutyInv(s: System) {
    match s.srv.state
    case Revoking =>
      var o := EntryOf(s, s.srv.owner);
      (match s.duty
       case RevokeCall(t) =>
         o.message == Client.Empty
         && (PcOf(s, t) == ReadOwner || (PcOf(s, t).RevokeSent? && PcOf(s, t).target == s.srv.owner))
       case RevokeMail => o.message == Client.Revoke && o.state != Client.Releasing
       case ReleaseCall(t) => o.state == Client.Releasing && RelPc(PcOf(s, t), t, s.srv.owner, RelRequest)
       case _ => false)
    case Retrying =>
      (match s.duty
       case RetryCall(t) => HasRel(PcOf(s, t)) && PcOf(s, t).rel == RelRetry(s.srv.retrying)
       case RetryMail => true
       case Reacquire => true
       case _ => false)
    case _ => s.duty == NoDuty
  }

  predicate HasRel(p: Pc) {
    p.RevokeRelease? || p.Releasing?
  }

  predicate RelPc(p: Pc, t: Thread, a: nat, rel: Rel) {
    (p.RevokeRelease? && p.target == a && p.rel == rel) || (p == Releasing(rel) && t.client == a)
  }

  // ... and from the threads' side.
  predicate ThreadOk(s: System, t: Thread) {
    var p := PcOf(s, t);
    && (p.ReadOwner? || p.RevokeSent? ==> s.duty == RevokeCall(t) && s.srv.state == Server.Revoking)
    && (p.RevokeSent? ==> p.target == s.srv.owner && (p.ret == OK <==> p.target == t.client))
    && (HasRel(p) && p.rel == RelRequest ==> s.duty == ReleaseCall(t) && s.srv.state == Server.Revoking)
    && (HasRel(p) && p.rel.RelRetry? ==> s.duty == RetryCall(t) && s.srv.state == Server.Retrying)
    && (p.RevokeRelease? ==> p.ret == RETRY && p.target in s.hosts && s.hosts[p.target] == t)
  }

  ghost predicate HostInv(s: System) {
    && (forall t :: ThreadOk(s, t))
    && (forall c :: c in s.hosts ==> Hosted(s, c))
  }

  predicate Hosted(s: System, c: nat)
    requires c in s.hosts
  {
    EntryOf(s, c).state == Client.Releasing
    && PcOf(s, s.hosts[c]).RevokeRelease? && PcOf(s, s.hosts[c]).target == c
  }

  // Counting, and the order in which threads are served.
  ghost predicate LogInv(s: System) {
    var st := s.srv.state;
    && s.log.revokes == s.log.releases + (if st == Server.Revoking then 1 else 0)
    && s.log.grants == s.log.releases + (if st == Server.Locked || st == Server.Revoking then 1 else 0)
    && forall c :: ServedInOrder(s, c)
  }

  predicate ServedInOrder(s: System, c: nat) {
    InOrder(SeqOf(s.log.joined, c), SeqOf(s.log.got, c), Queue(s, c), Served(Front(s, c)))
  }

  // The queue q holds the threads that joined last, and all before them have got the
  // lock, in that order; so has the front if it is served.
  predicate InOrder(joined: seq<Thread>, got: seq<Thread>, q: seq<Thread>, served: bool) {
    && |q| <= |joined|
    && joined[|joined| - |q|..] == q
    && got == joined[..|joined| - |q|] + if served && q != [] then [q[0]] else []
  }

  predicate Served(p: Pc) {
    p == Holding || p.Releasing?
  }

  ghost predicate Inv(s: System) {
    && !s.fault
    && QueueInv(s)
    && ServerInv(s)
    && ClientInv(s)
    && DutyInv(s)
    && HostInv(s)
    && LogInv(s)
  }

  lemma InitInv()
    ensures Inv(INIT)
  {
  }

  // ---- How a step changes queues, fronts and the record of who was served ----

  // A thread that moves is at the front of its client's queue.
  lemma MoverIsFront(s: System, t: Thread)
    requires QueueInv(s) && PcOf(s, t) != Idle && PcOf(s, t) != WaitQueued(false)
    ensures t.client in s.ents && Queue(s, t.client) != [] && Queue(s, t.client)[0] == t
    ensures Front(s, t.client) == PcOf(s, t)
  {
    var i :| 0 <= i < |Queue(s, t.client)| && Queue(s, t.client)[i] == t;
  }

  // Client c's entry becomes e, thread t moves to p, and if woken the front of e is signalled.
  ghost predicate Effect(s: System, s': System, t: Thread, p: Pc, c: nat, e: Client.Entry, woken: bool) {
    && (woken ==> e.threads != [])
    && s'.fault == s.fault
    && s'.ents.Keys == s.ents.Keys + {c}
    && (forall d :: EntryOf(s', d) == if d == c then e else EntryOf(s, d))
    && (forall u :: PcOf(s', u) ==
          if woken && u == e.threads[0] then Woken(if u == t then p else PcOf(s, u))
          else if u == t then p else PcOf(s, u))
  }

  function Woken(p: Pc): Pc {
    match p
    case WaitFirst(_) => WaitFirst(true)
    case WaitQueued(_) => WaitQueued(true)
    case WaitRetry(_) => WaitRetry(true)
    case _ => p
  }

  lemma MoveEffect(s: System, t: Thread, p: Pc, c: nat, out: Client.Outcome)
    requires out.signal ==> out.entry.threads != []
    ensures Effect(s, Move(s, t, p, c, out), t, p, c, out.entry, out.signal)
  {
  }

  // No queue changes, t stays in its queue, and any signal goes to a front.
  lemma QueuesKept(s: System, s': System, t: Thread, p: Pc, c: nat, e: Client.Entry, woken: bool)
    requires QueueInv(s) && Effect(s, s', t, p, c, e, woken)
    requires c in s.ents && e.threads == Queue(s, c)
    requires PcOf(s, t) != Idle && PcOf(s, t) != WaitQueued(false) && p != Idle
    ensures QueueInv(s')
  {
    MoverIsFront(s, t);
    assert forall d :: Queue(s', d) == Queue(s, d);
    forall d, i | 0 < i < |Queue(s', d)| ensures PcOf(s', Queue(s', d)[i]) == WaitQueued(false) {
      assert Queue(s, d)[i].client == d && Queue(s, d)[0] != Queue(s, d)[i];
    }
  }

  // The fronts of all clients but the mover's, if c is not it, change only by a signal.
  lemma FrontsAfter(s: System, s': System, t: Thread, p: Pc, c: nat, e: Client.Entry, woken: bool)
    requires QueueInv(s) && Effect(s, s', t, p, c, e, woken)
    requires c != t.client ==> e.threads == Queue(s, c)
    requires e.threads != [] ==> e.threads[0].client == c
    ensures forall d :: d != t.client ==>
              Queue(s', d) == Queue(s, d) && Front(s', d) == if d == c && woken then Woken(Front(s, d)) else Front(s, d)
  {
    forall d | d != t.client
      ensures Queue(s', d) == Queue(s, d) && Front(s', d) == if d == c && woken then Woken(Front(s, d)) else Front(s, d)
    {
      if Queue(s, d) != [] { assert Queue(s, d)[0].client == d; }
    }
  }

  // The record of all clients but c is not touched.
  lemma ServedAfter(s: System, s': System, c: nat)
    requires forall d :: d != c ==> Queue(s', d) == Queue(s, d) && Served(Front(s', d)) == Served(Front(s, d))
    requires forall d :: d != c ==> SeqOf(s'.log.joined, d) == SeqOf(s.log.joined, d)
    requires forall d :: d != c ==> SeqOf(s'.log.got, d) == SeqOf(s.log.got, d)
    requires ServedInOrder(s', c)
    requires forall d :: ServedInOrder(s, d)
    ensures forall d :: ServedInOrder(s', d)
  {
    forall d | d != c ensures ServedInOrder(s', d) {
      assert ServedInOrder(s, d);
    }
  }

  // t joins the queue of its client.
  lemma QueuePushed(s: System, s': System, t: Thread, p: Pc, e: Client.Entry)
    requires QueueInv(s) && t.client != NOBODY && PcOf(s, t) == Idle && p != Idle
    requires Effect(s, s', t, p, t.client, e, false) && e.threads == Queue(s, t.client) + [t]
    requires Queue(s, t.client) != [] ==> p == WaitQueued(false)
    ensures QueueInv(s')
  {
    var c, q := t.client, Queue(s, t.client);
    assert forall d :: Queue(s', d) == if d == c then q + [t] else Queue(s, d);
    forall u | PcOf(s', u) != Idle ensures u.client in s'.ents && u in Queue(s', u.client) {
      if u == t { assert (q + [t])[|q|] == t; }
    }
    forall i | 0 <= i < |q| ensures q[i] != t { }
  }

  lemma OrderPushed(joined: seq<Thread>, got: seq<Thread>, q: seq<Thread>, served: bool, t: Thread, now: bool)
    requires InOrder(joined, got, q, served) && (now ==> q == [])
    ensures InOrder(joined + [t], got + if now then [t] else [], q + [t], if q == [] then now else served)
  {
    assert (joined + [t])[..|joined| - |q|] == joined[..|joined| - |q|];
  }

  lemma OrderPopped(joined: seq<Thread>, got: seq<Thread>, q: seq<Thread>)
    requires InOrder(joined, got, q, true) && q != []
    ensures InOrder(joined, got, q[1..], false)
  {
    assert joined[..|joined| - |q|] + [q[0]] == joined[..|joined| - |q| + 1];
  }

  // t leaves the queue, of which it was the front.
  lemma QueuePopped(s: System, s': System, t: Thread, e: Client.Entry)
    requires QueueInv(s) && Served(PcOf(s, t))
    requires Effect(s, s', t, Idle, t.client, e, e.threads != []) && Queue(s, t.client) != [] && e.threads == Queue(s, t.client)[1..]
    ensures QueueInv(s')
  {
    MoverIsFront(s, t);
    var c, q := t.client, Queue(s, t.client);
    assert forall d :: Queue(s', d) == if d == c then q[1..] else Queue(s, d);
    forall u | PcOf(s', u) != Idle ensures u.client in s'.ents && u in Queue(s', u.client) {
      if u.client == c {
        var i :| 0 <= i < |q| && q[i] == u;
        assert q[1..][i - 1] == u;
      }
    }
    forall d, i | 0 < i < |Queue(s', d)| ensures PcOf(s', Queue(s', d)[i]) == WaitQueued(false) {
      if d == c {
        assert q[1..][i] == q[i + 1] && q[1..][0] == q[1] && q[i + 1] != q[1] && q[i + 1] != q[0];
      } else {
        assert Queue(s, d)[i].client == d;
      }
    }
  }

  // ---- Steps that only touch the mover's own client ----

  lemma ClientsAfter(s: System, s': System, xs: set<nat>)
    requires ClientInv(s)
    requires forall d :: d !in xs && d != NOBODY ==> ViewOf(s', d) == ViewOf(s, d)
    requires forall d :: d in xs && d != NOBODY ==> ViewOk(ViewOf(s', d))
    ensures ClientInv(s')
  {
    forall d | d != NOBODY ensures ViewOk(ViewOf(s', d)) {
      assert ViewOk(ViewOf(s, d));
    }
  }

  // Program counters that carry no call of the server or of another client.
  predicate Local(p: Pc) {
    !p.ReadOwner? && !p.RevokeSent? && !p.RevokeRelease? && (p.Releasing? ==> p.rel == RelReply)
  }

  lemma LocalViews(s: System, s': System, t: Thread, p: Pc, e: Client.Entry, woken: bool)
    requires QueueInv(s) && HostInv(s) && Effect(s, s', t, p, t.client, e, woken)
    requires Local(PcOf(s, t)) && s'.srv == s.srv && s'.hosts == s.hosts
    requires s'.duty == s.duty || s.srv.retrying == t.client
    requires e.threads != [] ==> e.threads[0].client == t.client
    requires s.srv.owner != NOBODY ==> s.srv.retrying == NOBODY
    requires t.client != NOBODY
    ensures forall d :: d != t.client && d != NOBODY ==> ViewOf(s', d) == ViewOf(s, d)
  {
    FrontsAfter(s, s', t, p, t.client, e, woken);
    forall d | d in s.hosts ensures s.hosts[d] != t { assert Hosted(s, d); }
    RemoteViews(s, s', t, p, t.client, e, woken, {t.client, NOBODY});
  }

  lemma LocalThreads(s: System, s': System, t: Thread, p: Pc, e: Client.Entry, woken: bool)
    requires (forall u :: ThreadOk(s, u)) && Effect(s, s', t, p, t.client, e, woken)
    requires Local(p) && s'.srv == s.srv && s'.hosts == s.hosts
    requires s'.duty == s.duty || (s.duty == RetryMail && s'.duty == Reacquire)
    ensures forall u :: ThreadOk(s', u)
  {
    forall u ensures ThreadOk(s', u) {
      assert ThreadOk(s, u);
      assert PcOf(s', u) == PcOf(s, u) || Local(PcOf(s', u));
    }
  }

  lemma LocalHosts(s: System, s': System, t: Thread, p: Pc, e: Client.Entry, woken: bool)
    requires HostInv(s) && Effect(s, s', t, p, t.client, e, woken)
    requires Local(PcOf(s, t)) && s'.hosts == s.hosts
    requires t.client !in s.hosts || e.state == Client.Releasing
    ensures forall d :: d in s'.hosts ==> Hosted(s', d)
  {
    forall d | d in s'.hosts ensures Hosted(s', d) {
      assert Hosted(s, d);
      assert PcOf(s', s.hosts[d]) == PcOf(s, s.hosts[d]);
    }
  }

  // The duty stays where it is when nothing it rests on changes.
  lemma LocalDuty(s: System, s': System, t: Thread, p: Pc, e: Client.Entry, woken: bool)
    requires DutyInv(s) && Effect(s, s', t, p, t.client, e, woken)
    requires Local(PcOf(s, t)) && s'.srv == s.srv
    requires s'.duty == s.duty || (s.duty == RetryMail && s'.duty == Reacquire)
    requires s.srv.owner == t.client ==>
               e.message == EntryOf(s, t.client).message
               && (e.state == Client.Releasing <==> EntryOf(s, t.client).state == Client.Releasing)
    ensures DutyInv(s')
  {
    var h := if s.duty.RevokeCall? || s.duty.ReleaseCall? || s.duty.RetryCall? then s.duty.host else t;
    assert h != t ==> PcOf(s', h) == PcOf(s, h) || Local(PcOf(s, h));
    assert EntryOf(s', s.srv.owner) == if s.srv.owner == t.client then e else EntryOf(s, s.srv.owner);
  }

  // t stays in its queue; if it becomes served, it is recorded.
  lemma ServedKept(s: System, s': System, t: Thread, p: Pc)
    requires forall d :: ServedInOrder(s, d)
    requires forall d :: d != t.client ==> Queue(s', d) == Queue(s, d) && Front(s', d) == Front(s, d)
    requires Queue(s', t.client) == Queue(s, t.client) != [] && Queue(s, t.client)[0] == t
    requires PcOf(s', t) == p && !Served(PcOf(s, t)) && !p.Releasing?
    requires s'.log.joined == s.log.joined
    requires s'.log.got == if p == Holding then s.log.got[t.client := SeqOf(s.log.got, t.client) + [t]] else s.log.got
    ensures forall d :: ServedInOrder(s', d)
  {
    assert ServedInOrder(s, t.client);
    ServedAfter(s, s', t.client);
  }

  // A thread that waits, or gets its reply, goes on to p.
  lemma WokenInv(s: System, s': System, t: Thread, p: Pc, e: Client.Entry)
    requires Inv(s) && t.client != NOBODY && Local(PcOf(s, t)) && Local(p)
    requires PcOf(s, t) != Idle && PcOf(s, t) != WaitQueued(false) && p != Idle
    requires !Served(PcOf(s, t)) && !p.Releasing?
    requires Effect(s, s', t, p, t.client, e, false) && s'.srv == s.srv && s'.hosts == s.hosts
    requires s'.duty == s.duty || (s.duty == RetryMail && s'.duty == Reacquire && s.srv.retrying == t.client)
    requires e.threads == Queue(s, t.client)
    requires s'.log == if p == Holding then LogGot(s, t).log else s.log
    requires ViewOk(ViewOf(s', t.client))
    requires s.srv.owner == t.client ==>
               e.message == EntryOf(s, t.client).message
               && (e.state == Client.Releasing <==> EntryOf(s, t.client).state == Client.Releasing)
    requires t.client !in s.hosts || e.state == Client.Releasing
    ensures Inv(s')
  {
    MoverIsFront(s, t);
    assert e.threads[0].client == t.client;
    QueuesKept(s, s', t, p, t.client, e, false);
    FrontsAfter(s, s', t, p, t.client, e, false);
    ServedKept(s, s', t, p);
    LocalViews(s, s', t, p, e, false);
    ClientsAfter(s, s', {t.client});
    LocalThreads(s, s', t, p, e, false);
    LocalHosts(s, s', t, p, e, false);
    LocalDuty(s, s', t, p, e, false);
  }

  lemma WakeFirstInv(s: System, t: Thread)
    requires Inv(s) && t.client != NOBODY && PcOf(s, t) == WaitFirst(true)
    ensures Inv(Step(s, t))
  {
    var out := Client.WakeFirst(EntryOf(s, t.client));
    MoverIsFront(s, t);
    assert ViewOk(ViewOf(s, t.client));
    MoveEffect(s, t, Request, t.client, out);
    WokenInv(s, Step(s, t), t, Request, out.entry);
  }

  lemma WakeQueuedInv(s: System, t: Thread)
    requires Inv(s) && t.client != NOBODY && PcOf(s, t) == WaitQueued(true)
    ensures Inv(Step(s, t))
  {
    var out := Client.WakeQueued(EntryOf(s, t.client));
    MoverIsFront(s, t);
    assert ViewOk(ViewOf(s, t.client));
    MoveEffect(s, t, ExitPc(out.exit), t.client, out);
    WokenInv(s, Step(s, t), t, ExitPc(out.exit), out.entry);
  }

  lemma WakeRetryInv(s: System, t: Thread)
    requires Inv(s) && t.client != NOBODY && PcOf(s, t) == WaitRetry(true)
    ensures Inv(Step(s, t))
  {
    var out := Client.WakeRetry(EntryOf(s, t.client));
    MoverIsFront(s, t);
    assert ViewOk(ViewOf(s, t.client));
    MoveEffect(s, t, Request, t.client, out);
    WokenInv(s, Step(s, t), t, Request, out.entry);
  }

  lemma AnswerInv(s: System, t: Thread)
    requires Inv(s) && t.client != NOBODY && PcOf(s, t).Answer?
    ensures Inv(Step(s, t))
  {
    var out := Client.AcquireReply(EntryOf(s, t.client), PcOf(s, t).ret);
    MoverIsFront(s, t);
    assert ViewOk(ViewOf(s, t.client));
    MoveEffect(s, t, ExitPc(out.exit), t.client, out);
    WokenInv(s, Step(s, t), t, ExitPc(out.exit), out.entry);
  }

  lemma Appended(m: map<nat, seq<Thread>>, m': map<nat, seq<Thread>>, c: nat, t: Thread)
    requires m' == m[c := SeqOf(m, c) + [t]]
    ensures SeqOf(m', c) == SeqOf(m, c) + [t] && forall d :: d != c ==> SeqOf(m', d) == SeqOf(m, d)
  {
  }

  lemma ServedPushedHere(s: System, s': System, t: Thread, p: Pc)
    requires forall d :: ServedInOrder(s, d)
    requires Queue(s', t.client) == Queue(s, t.client) + [t]
    requires !p.Releasing? && (p == Holding ==> Queue(s, t.client) == [])
    requires Front(s', t.client) == if Queue(s, t.client) == [] then p else Front(s, t.client)
    requires SeqOf(s'.log.joined, t.client) == SeqOf(s.log.joined, t.client) + [t]
    requires SeqOf(s'.log.got, t.client) == SeqOf(s.log.got, t.client) + if p == Holding then [t] else []
    ensures ServedInOrder(s', t.client)
  {
    var c := t.client;
    assert ServedInOrder(s, c);
    OrderPushed(SeqOf(s.log.joined, c), SeqOf(s.log.got, c), Queue(s, c), Served(Front(s, c)), t, p == Holding);
  }

  lemma EnteredServed(s: System, s': System, t: Thread, p: Pc)
    requires forall d :: ServedInOrder(s, d)
    requires forall d :: d != t.client ==> Queue(s', d) == Queue(s, d) && Served(Front(s', d)) == Served(Front(s, d))
    requires Queue(s', t.client) == Queue(s, t.client) + [t]
    requires !p.Releasing? && (p == Holding ==> Queue(s, t.client) == [])
    requires Front(s', t.client) == if Queue(s, t.client) == [] then p else Front(s, t.client)
    requires s'.log.joined == s.log.joined[t.client := SeqOf(s.log.joined, t.client) + [t]]
    requires s'.log.got == if p == Holding then s.log.got[t.client := SeqOf(s.log.got, t.client) + [t]] else s.log.got
    ensures forall d :: ServedInOrder(s', d)
  {
    Appended(s.log.joined, s'.log.joined, t.client, t);
    if p == Holding { Appended(s.log.got, s'.log.got, t.client, t); }
    ServedPushedHere(s, s', t, p);
    ServedAfter(s, s', t.client);
  }

  lemma EnterBehindInv(s: System, t: Thread)
    requires Inv(s) && t.client != NOBODY && PcOf(s, t) == Idle && Queue(s, t.client) != []
    ensures Inv(Step(s, t))
  {
    var c, out := t.client, Client.Enter(EntryOf(s, t.client), t);
    assert ViewOk(ViewOf(s, c));
    MoveEffect(s, t, WaitQueued(false), c, out);
    assert Queue(s, c)[0] != t && Queue(s, c)[0].client == c;
    EnteredInv(s, Step(s, t), t, WaitQueued(false), out.entry);
  }

  lemma EnterFirstInv(s: System, t: Thread)
    requires Inv(s) && t.client != NOBODY && PcOf(s, t) == Idle && Queue(s, t.client) == []
    ensures Inv(Step(s, t))
  {
    var c, out := t.client, Client.Enter(EntryOf(s, t.client), t);
    assert ViewOk(ViewOf(s, c));
    MoveEffect(s, t, ExitPc(out.exit), c, out);
    EnteredInv(s, Step(s, t), t, ExitPc(out.exit), out.entry);
  }

  lemma EnteredInv(s: System, s': System, t: Thread, p: Pc, e: Client.Entry)
    requires Inv(s) && t.client != NOBODY && PcOf(s, t) == Idle && Local(p) && p != Idle
    requires Effect(s, s', t, p, t.client, e, false) && s'.srv == s.srv && s'.hosts == s.hosts && s'.duty == s.duty
    requires e.threads == Queue(s, t.client) + [t]
    requires if Queue(s, t.client) == [] then !p.Releasing? else p == WaitQueued(false) && Front(s', t.client) == Front(s, t.client)
    requires s'.log.joined == s.log.joined[t.client := SeqOf(s.log.joined, t.client) + [t]]
    requires s'.log.got == if p == Holding then s.log.got[t.client := SeqOf(s.log.got, t.client) + [t]] else s.log.got
    requires (s'.log.grants, s'.log.revokes, s'.log.releases) == (s.log.grants, s.log.revokes, s.log.releases)
    requires ViewOk(ViewOf(s', t.client))
    requires s.srv.owner == t.client ==>
               e.message == EntryOf(s, t.client).message
               && (e.state == Client.Releasing <==> EntryOf(s, t.client).state == Client.Releasing)
    requires t.client !in s.hosts || e.state == Client.Releasing
    ensures Inv(s')
  {
    assert e.threads[0].client == t.client;
    QueuePushed(s, s', t, p, e);
    FrontsAfter(s, s', t, p, t.client, e, false);
    EnteredServed(s, s', t, p);
    LocalViews(s, s', t, p, e, false);
    ClientsAfter(s, s', {t.client});
    LocalThreads(s, s', t, p, e, false);
    LocalHosts(s, s', t, p, e, false);
    LocalDuty(s, s', t, p, e, false);
  }

  lemma ServedPopped(s: System, s': System, t: Thread)
    requires forall d :: ServedInOrder(s, d)
    requires forall d :: d != t.client ==> Queue(s', d) == Queue(s, d) && Front(s', d) == Front(s, d)
    requires Queue(s, t.client) != [] && Queue(s', t.client) == Queue(s, t.client)[1..]
    requires Served(Front(s, t.client)) && !Served(Front(s', t.client))
    requires s'.log == s.log
    ensures forall d :: ServedInOrder(s', d)
  {
    var c := t.client;
    assert ServedInOrder(s, c);
    OrderPopped(SeqOf(s.log.joined, c), SeqOf(s.log.got, c), Queue(s, c));
    ServedAfter(s, s', c);
  }

  // t returns from release: it leaves the queue and the next thread is signalled.
  lemma LeftInv(s: System, s': System, t: Thread, e: Client.Entry)
    requires Inv(s) && t.client != NOBODY && Served(PcOf(s, t)) && Local(PcOf(s, t))
    requires Effect(s, s', t, Idle, t.client, e, e.threads != [])
    requires Queue(s, t.client) != [] && e.threads == Queue(s, t.client)[1..]
    requires s'.srv == s.srv && s'.hosts == s.hosts && s'.duty == s.duty && s'.log == s.log
    requires e.threads != [] ==> Front(s', t.client) == WaitQueued(true)
    requires ViewOk(ViewOf(s', t.client))
    requires s.srv.owner == t.client ==>
               e.message == EntryOf(s, t.client).message
               && (e.state == Client.Releasing <==> EntryOf(s, t.client).state == Client.Releasing)
    requires t.client !in s.hosts
    ensures Inv(s')
  {
    var woken := e.threads != [];
    MoverIsFront(s, t);
    if woken { assert e.threads[0] == Queue(s, t.client)[1] && e.threads[0].client == t.client; }
    QueuePopped(s, s', t, e);
    FrontsAfter(s, s', t, Idle, t.client, e, woken);
    ServedPopped(s, s', t);
    LocalViews(s, s', t, Idle, e, woken);
    ClientsAfter(s, s', {t.client});
    LocalThreads(s, s', t, Idle, e, woken);
    LocalHosts(s, s', t, Idle, e, woken);
    LocalDuty(s, s', t, Idle, e, woken);
  }

  // The thread behind the front waits for its turn.
  lemma NextInQueue(s: System, t: Thread)
    requires QueueInv(s) && PcOf(s, t) != Idle && PcOf(s, t) != WaitQueued(false) && |Queue(s, t.client)| > 1
    ensures var u := Queue(s, t.client)[1]; u != t && PcOf(s, u) == WaitQueued(false)
  {
    MoverIsFront(s, t);
  }

  lemma LeaveInv(s: System, t: Thread)
    requires Inv(s) && t.client != NOBODY && PcOf(s, t) == Holding && EntryOf(s, t.client).message != Client.Revoke
    ensures Inv(Step(s, t))
  {
    var out := Client.Leave(EntryOf(s, t.client));
    MoverIsFront(s, t);
    if |Queue(s, t.client)| > 1 { NextInQueue(s, t); }
    assert ViewOk(ViewOf(s, t.client));
    MoveEffect(s, t, Idle, t.client, out);
    LeftInv(s, Step(s, t), t, out.entry);
  }

  lemma ReleaseFinishInv(s: System, t: Thread)
    requires Inv(s) && t.client != NOBODY && PcOf(s, t) == Releasing(RelReply)
    ensures Inv(Step(s, t))
  {
    var out := Client.ReleaseReply(EntryOf(s, t.client));
    MoverIsFront(s, t);
    if |Queue(s, t.client)| > 1 { NextInQueue(s, t); }
    assert ViewOk(ViewOf(s, t.client));
    MoveEffect(s, t, Idle, t.client, out);
    LeftInv(s, Step(s, t), t, out.entry);
  }

  // ---- Steps that also touch the server or another client ----

  // The clients outside xs look as before.
  lemma RemoteViews(s: System, s': System, t: Thread, p: Pc, c: nat, e: Client.Entry, woken: bool, xs: set<nat>)
    requires HostInv(s) && Effect(s, s', t, p, c, e, woken)
    requires c in xs && t.client in xs && NOBODY in xs
    requires forall d :: d !in xs ==> Queue(s', d) == Queue(s, d) && Front(s', d) == Front(s, d)
    requires forall d :: d !in xs ==> (d in s'.hosts <==> d in s.hosts) && (d in s.hosts ==> s'.hosts[d] == s.hosts[d])
    requires forall d :: d !in xs && d in s.hosts && s.hosts[d] == t ==> IsRel(PcOf(s, t)) && IsRel(p)
    requires forall d :: d !in xs ==> (s'.srv.owner == d <==> s.srv.owner == d)
    requires forall d :: d !in xs ==> (d in s'.srv.waiting <==> d in s.srv.waiting)
    requires forall d :: d !in xs ==> (s'.srv.retrying == d <==> s.srv.retrying == d)
    requires s'.duty == s.duty || (s.srv.owner in xs && s.srv.retrying in xs)
    ensures forall d :: d !in xs ==> ViewOf(s', d) == ViewOf(s, d)
  {
    forall d | d !in xs ensures ViewOf(s', d) == ViewOf(s, d) {
      if d in s.hosts {
        assert Hosted(s, d);
        assert s.hosts[d] == t || PcOf(s', s.hosts[d]) == PcOf(s, s.hosts[d]);
      }
    }
  }

  // Past the server's section of a release call.
  predicate IsRel(p: Pc) {
    p.RevokeRelease? && p.rel != RelRequest
  }

  // What remains to be shown of a step that leaves every queue as it is.
  lemma RemoteInv(s: System, s': System, t: Thread, p: Pc, c: nat, e: Client.Entry, woken: bool, xs: set<nat>)
    requires Inv(s) && Effect(s, s', t, p, c, e, woken)
    requires c in s.ents && e.threads == Queue(s, c)
    requires PcOf(s, t) != Idle && PcOf(s, t) != WaitQueued(false) && p != Idle
    requires Served(p) == Served(PcOf(s, t)) && s'.log.joined == s.log.joined && s'.log.got == s.log.got
    requires forall d :: d !in xs && d != NOBODY ==> ViewOf(s', d) == ViewOf(s, d)
    requires forall d :: d in xs && d != NOBODY ==> ViewOk(ViewOf(s', d))
    requires ServerInv(s') && DutyInv(s') && (forall u :: ThreadOk(s', u)) && (forall d :: d in s'.hosts ==> Hosted(s', d))
    requires var st := s'.srv.state;
             s'.log.revokes == s'.log.releases + (if st == Server.Revoking then 1 else 0)
             && s'.log.grants == s'.log.releases + (if st == Server.Locked || st == Server.Revoking then 1 else 0)
    ensures Inv(s')
  {
    QueuesKept(s, s', t, p, c, e, woken);
    RemoteServed(s, s', t, p, c, e, woken);
    ClientsAfter(s, s', xs);
  }

  lemma RemoteServed(s: System, s': System, t: Thread, p: Pc, c: nat, e: Client.Entry, woken: bool)
    requires QueueInv(s) && (forall d :: ServedInOrder(s, d)) && Effect(s, s', t, p, c, e, woken)
    requires c in s.ents && e.threads == Queue(s, c)
    requires PcOf(s, t) != Idle && PcOf(s, t) != WaitQueued(false)
    requires Served(p) == Served(PcOf(s, t)) && s'.log.joined == s.log.joined && s'.log.got == s.log.got
    ensures forall d :: ServedInOrder(s', d)
  {
    assert forall d :: Queue(s', d) == Queue(s, d) && Served(Front(s', d)) == Served(Front(s, d)) by {
      MoverIsFront(s, t);
      if e.threads != [] { assert e.threads[0].client == c; }
      FrontsAfter(s, s', t, p, c, e, woken);
    }
    ServedSame(s, s');
  }

  lemma ServedSame(s: System, s': System)
    requires forall d :: ServedInOrder(s, d)
    requires forall d :: Queue(s', d) == Queue(s, d) && Served(Front(s', d)) == Served(Front(s, d))
    requires s'.log.joined == s.log.joined && s'.log.got == s.log.got
    ensures forall d :: ServedInOrder(s', d)
  {
    forall d ensures ServedInOrder(s', d) {
      assert ServedInOrder(s, d);
    }
  }

  lemma LeaveRevokedInv(s: System, t: Thread)
    requires Inv(s) && t.client != NOBODY && PcOf(s, t) == Holding && EntryOf(s, t.client).message == Client.Revoke
    ensures Inv(Step(s, t))
  {
    var c, s' := t.client, Step(s, t);
    var out := Client.Leave(EntryOf(s, c));
    var p, xs := Releasing(RelRequest), {c, NOBODY};
    MoverIsFront(s, t);
    assert ViewOk(ViewOf(s, c)) && ThreadOk(s, t);
    MoveEffect(s, t, p, c, out);
    assert Effect(s, s', t, p, c, out.entry, false);
    FrontsAfter(s, s', t, p, c, out.entry, false);
    RemoteViews(s, s', t, p, c, out.entry, false, xs);
    forall u ensures ThreadOk(s', u) { assert ThreadOk(s, u); }
    forall d | d in s'.hosts ensures Hosted(s', d) { assert Hosted(s, d); }
    RemoteInv(s, s', t, p, c, out.entry, false, xs);
  }

  lemma StayEffect(s: System, s': System, t: Thread, p: Pc)
    requires t.client in s.ents && s'.ents == s.ents && s'.pcs == s.pcs[t := p] && s'.fault == s.fault
    ensures Effect(s, s', t, p, t.client, EntryOf(s, t.client), false)
  {
  }

  // t moves to p, and the duty does not name another thread or stays as it is.
  lemma StayThreads(s: System, s': System, t: Thread, p: Pc)
    requires HostInv(s) && Effect(s, s', t, p, t.client, EntryOf(s, t.client), false) && s'.hosts == s.hosts
    requires (s'.duty == s.duty && s'.srv.state == s.srv.state && s'.srv.owner == s.srv.owner)
             || s.duty.NoDuty? || s.duty.Reacquire? || s.duty == ReleaseCall(t)
    requires ThreadOk(s', t)
    requires PcOf(s, t).RevokeRelease? ==> p.RevokeRelease? && p.target == PcOf(s, t).target
    ensures forall u :: ThreadOk(s', u)
    ensures forall d :: d in s'.hosts ==> Hosted(s', d)
  {
    forall u ensures ThreadOk(s', u) { assert ThreadOk(s, u); }
    forall d | d in s'.hosts ensures Hosted(s', d) { assert Hosted(s, d); }
  }

  lemma StayDuty(s: System, s': System, t: Thread, p: Pc)
    requires DutyInv(s) && Effect(s, s', t, p, t.client, EntryOf(s, t.client), false)
    requires Local(PcOf(s, t)) && s'.duty == s.duty && s'.srv == s.srv.(waiting := s'.srv.waiting)
    ensures DutyInv(s')
  {
    var h := if s.duty.RevokeCall? || s.duty.ReleaseCall? || s.duty.RetryCall? then s.duty.host else t;
    assert h != t ==> PcOf(s', h) == PcOf(s, h);
    assert EntryOf(s', s.srv.owner) == EntryOf(s, s.srv.owner);
  }

  // What remains to be shown of a step at the server alone: t moves to p, the clients
  // in xs are seen differently, and the duty may pass on.
  lemma StayInv(s: System, s': System, t: Thread, p: Pc, xs: set<nat>)
    requires Inv(s) && Effect(s, s', t, p, t.client, EntryOf(s, t.client), false) && s'.hosts == s.hosts
    requires PcOf(s, t) != Idle && PcOf(s, t) != WaitQueued(false) && p != Idle
    requires Served(p) == Served(PcOf(s, t)) && s'.log.joined == s.log.joined && s'.log.got == s.log.got
    requires t.client in xs && NOBODY in xs && (HasRel(PcOf(s, t)) ==> s.srv.owner in xs)
    requires forall d :: d !in xs ==> (s'.srv.owner == d <==> s.srv.owner == d)
    requires forall d :: d !in xs ==> (d in s'.srv.waiting <==> d in s.srv.waiting)
    requires forall d :: d !in xs ==> (s'.srv.retrying == d <==> s.srv.retrying == d)
    requires s'.duty == s.duty || (s.srv.owner in xs && s.srv.retrying in xs)
    requires (s'.duty == s.duty && s'.srv.state == s.srv.state && s'.srv.owner == s.srv.owner)
             || s.duty.NoDuty? || s.duty.Reacquire? || s.duty == ReleaseCall(t)
    requires PcOf(s, t).RevokeRelease? ==> p.RevokeRelease? && p.target == PcOf(s, t).target == s.srv.owner
    requires forall d :: d in xs && d != NOBODY ==> ViewOk(ViewAt(s', d, if d == t.client then p else Front(s, d)))
    requires ServerInv(s') && ThreadOk(s', t)
    requires DutyInv(s')
             || (Local(PcOf(s, t)) && s'.duty == s.duty && s'.srv == s.srv.(waiting := s'.srv.waiting))
    requires var st := s'.srv.state;
             s'.log.revokes == s'.log.releases + (if st == Server.Revoking then 1 else 0)
             && s'.log.grants == s'.log.releases + (if st == Server.Locked || st == Server.Revoking then 1 else 0)
    ensures Inv(s')
  {
    var c, e := t.client, EntryOf(s, t.client);
    MoverIsFront(s, t);
    FrontsAfter(s, s', t, p, c, e, false);
    RemoteViews(s, s', t, p, c, e, false, xs);
    StayThreads(s, s', t, p);
    if !DutyInv(s') { StayDuty(s, s', t, p); }
    RemoteInv(s, s', t, p, c, e, false, xs);
  }

  lemma ReadOwnerInv(s: System, t: Thread)
    requires Inv(s) && t.client != NOBODY && PcOf(s, t) == ReadOwner
    ensures Inv(Step(s, t))
  {
    var c, s', p := t.client, Step(s, t), RevokeSent(s.srv.owner, RETRY);
    MoverIsFront(s, t);
    assert ViewOk(ViewOf(s, c)) && ThreadOk(s, t);
    StayEffect(s, s', t, p);
    StayInv(s, s', t, p, {c, NOBODY});
  }

  lemma ServeFreshInv(s: System, t: Thread)
    requires Inv(s) && t.client != NOBODY && PcOf(s, t) == Request && s.srv.state == Server.None
    ensures Inv(Step(s, t))
  {
    var c, s', p := t.client, Step(s, t), Answer(OK);
    MoverIsFront(s, t);
    assert ViewOk(ViewOf(s, c)) && ThreadOk(s, t);
    StayEffect(s, s', t, p);
    StayInv(s, s', t, p, {c, NOBODY});
  }

  // A client with a fresh acquire is in no role at the server.
  lemma RequestRole(s: System, t: Thread)
    requires Inv(s) && t.client != NOBODY && PcOf(s, t) == Request
    ensures t.client in s.ents && t.client !in s.srv.waiting && s.srv.owner != t.client
    ensures Front(s, t.client) == Request
    ensures EntryOf(s, t.client).state == Client.Acquiring && EntryOf(s, t.client).message == Client.Empty
    ensures t.client !in s.hosts
  {
    MoverIsFront(s, t);
    assert ViewOk(ViewOf(s, t.client));
  }

  // The owner of a lock nobody else wants has an empty mailbox.
  lemma LockedOwner(s: System)
    requires Inv(s) && s.srv.state == Server.Locked
    ensures var o := ViewOf(s, s.srv.owner); ViewOk(o) && o.message == Client.Empty && ViewOk(o.(duty := RevokeCall(Thread(0, 0))))
    ensures forall t :: ViewOk(ViewOf(s, s.srv.owner).(duty := RevokeCall(t)))
  {
    assert ViewOk(ViewOf(s, s.srv.owner));
  }

  lemma ServeLockedInv(s: System, t: Thread)
    requires Inv(s) && t.client != NOBODY && PcOf(s, t) == Request && s.srv.state == Server.Locked
    ensures Inv(Step(s, t))
  {
    RequestRole(s, t);
    FirstWaitingInv(s, Step(s, t), t);
  }

  lemma FirstWaitingInv(s: System, s': System, t: Thread)
    requires Inv(s) && t.client != NOBODY && PcOf(s, t) == Request && s.srv.state == Server.Locked
    requires s' == s.(srv := s.srv.(state := Server.Revoking, waiting := s.srv.waiting + {t.client}), pcs := s.pcs[t := ReadOwner],
                      duty := RevokeCall(t), log := s.log.(revokes := s.log.revokes + 1))
    ensures Inv(s')
  {
    var c, o := t.client, s.srv.owner;
    RequestRole(s, t);
    LockedOwner(s);
    assert ViewOk(ViewOf(s, c)) && ThreadOk(s, t) && c in s'.srv.waiting;
    StayEffect(s, s', t, ReadOwner);
    assert ViewAt(s', c, ReadOwner) == ViewOf(s, c).(front := ReadOwner, waiting := true);
    assert ViewAt(s', o, Front(s, o)) == ViewOf(s, o).(duty := RevokeCall(t));
    StayInv(s, s', t, ReadOwner, {c, o, NOBODY});
  }

  lemma ServeWaitingInv(s: System, t: Thread)
    requires Inv(s) && t.client != NOBODY && PcOf(s, t) == Request
    requires s.srv.state == Server.Revoking || (s.srv.state == Server.Retrying && s.srv.retrying != t.client)
    ensures Inv(Step(s, t))
  {
    RequestRole(s, t);
    AlsoWaitingInv(s, Step(s, t), t);
  }

  lemma AlsoWaitingInv(s: System, s': System, t: Thread)
    requires Inv(s) && t.client != NOBODY && PcOf(s, t) == Request
    requires s.srv.state == Server.Revoking || (s.srv.state == Server.Retrying && s.srv.retrying != t.client)
    requires s' == s.(srv := s.srv.(waiting := s.srv.waiting + {t.client}), pcs := s.pcs[t := Answer(RETRY)])
    ensures Inv(s')
  {
    var c, p := t.client, Answer(RETRY);
    RequestRole(s, t);
    assert ViewOk(ViewOf(s, c)) && ThreadOk(s, t) && c in s'.srv.waiting;
    StayEffect(s, s', t, p);
    assert ViewAt(s', c, p) == ViewOf(s, c).(front := p, waiting := true);
    StayInv(s, s', t, p, {c, NOBODY});
  }

  lemma ServeRetryingInv(s: System, t: Thread)
    requires Inv(s) && t.client != NOBODY && PcOf(s, t) == Request && s.srv.state == Server.Retrying && s.srv.retrying == t.client
    ensures Inv(Step(s, t))
  {
    var c, s', p := t.client, Step(s, t), if s.srv.waiting == {} then Answer(OK) else RevokeSent(t.client, OK);
    MoverIsFront(s, t);
    assert ViewOk(ViewOf(s, c)) && ThreadOk(s, t);
    StayEffect(s, s', t, p);
    StayInv(s, s', t, p, {c, NOBODY});
  }

  // The release call in t's RPC is for the owner, and the server waits for it.
  lemma ReleaseRole(s: System, t: Thread)
    requires Inv(s) && t.client != NOBODY && HasRel(PcOf(s, t)) && PcOf(s, t).rel == RelRequest
    ensures s.srv.state == Server.Revoking && s.duty == ReleaseCall(t)
    ensures PcOf(s, t) == if s.srv.owner in s.hosts then RevokeRelease(s.srv.owner, RETRY, RelRequest) else Releasing(RelRequest)
    ensures s.srv.owner in s.hosts ==> s.hosts[s.srv.owner] == t && t.client != s.srv.owner
    ensures s.srv.owner !in s.hosts ==> t.client == s.srv.owner
    ensures Front(s, t.client) == PcOf(s, t) && t.client in s.ents
  {
    MoverIsFront(s, t);
    assert ThreadOk(s, t) && ViewOk(ViewOf(s, t.client)) && ViewOk(ViewOf(s, s.srv.owner));
    if PcOf(s, t).RevokeRelease? { assert Hosted(s, PcOf(s, t).target); }
  }

  lemma ServeReleaseInv(s: System, t: Thread)
    requires Inv(s) && t.client != NOBODY && HasRel(PcOf(s, t)) && PcOf(s, t).rel == RelRequest
    ensures Inv(Step(s, t))
  {
    ReleaseRole(s, t);
    PassedOnInv(s, Step(s, t), t, Server.Least(s.srv.waiting));
  }

  // The lock passes from the owner to client next, which is to be told to retry.
  ghost predicate PassedOn(s: System, s': System, t: Thread, next: nat) {
    && next in s.srv.waiting
    && s' == s.(srv := Server.Entry(Server.Retrying, NOBODY, next, s.srv.waiting - {next}),
                pcs := s.pcs[t := WithRel(PcOf(s, t), RelRetry(next))], duty := RetryCall(t),
                log := s.log.(releases := s.log.releases + 1))
  }

  // Client d's front after the lock has passed on.
  function PassedFront(s: System, t: Thread, next: nat, d: nat): Pc {
    if d == t.client then WithRel(PcOf(s, t), RelRetry(next)) else Front(s, d)
  }

  lemma PassedOnOwner(s: System, s': System, t: Thread, next: nat)
    requires Inv(s) && t.client != NOBODY && HasRel(PcOf(s, t)) && PcOf(s, t).rel == RelRequest
    requires PassedOn(s, s', t, next)
    ensures ViewOk(ViewAt(s', s.srv.owner, PassedFront(s, t, next, s.srv.owner)))
  {
    var a, front := s.srv.owner, PassedFront(s, t, next, s.srv.owner);
    ReleaseRole(s, t);
    assert ViewOk(ViewOf(s, a));
    assert ViewAt(s', a, front) == ViewOf(s, a).(front := front, unserved := false, owner := false, duty := NoDuty);
  }

  lemma PassedOnOther(s: System, s': System, t: Thread, next: nat, d: nat)
    requires Inv(s) && t.client != NOBODY && HasRel(PcOf(s, t)) && PcOf(s, t).rel == RelRequest
    requires PassedOn(s, s', t, next)
    requires d == next || d == t.client != s.srv.owner
    ensures ViewOk(ViewAt(s', d, PassedFront(s, t, next, d)))
  {
    var front := PassedFront(s, t, next, d);
    ReleaseRole(s, t);
    assert ViewOk(ViewOf(s, d));
    if d == next {
      assert ViewAt(s', d, front) == ViewOf(s, d).(front := front, waiting := false, retrying := true, duty := RetryCall(t));
    } else {
      assert ViewAt(s', d, front) == ViewOf(s, d).(front := front);
    }
  }

  lemma PassedOnInv(s: System, s': System, t: Thread, next: nat)
    requires Inv(s) && t.client != NOBODY && HasRel(PcOf(s, t)) && PcOf(s, t).rel == RelRequest
    requires PassedOn(s, s', t, next)
    ensures Inv(s')
  {
    var p := WithRel(PcOf(s, t), RelRetry(next));
    ReleaseRole(s, t);
    PassedOnOwner(s, s', t, next);
    PassedOnOther(s, s', t, next, next);
    if t.client != s.srv.owner { PassedOnOther(s, s', t, next, t.client); }
    assert ThreadOk(s, t);
    StayEffect(s, s', t, p);
    StayInv(s, s', t, p, {t.client, s.srv.owner, next, NOBODY});
  }

  // ---- The handlers, which run at another client than the thread they belong to ----

  lemma RevokeSelfInv(s: System, t: Thread)
    requires Inv(s) && t.client != NOBODY && PcOf(s, t).RevokeSent? && PcOf(s, t).target == t.client
    ensures Inv(Step(s, t))
  {
    var c, s' := t.client, Step(s, t);
    var out, xs := Client.RevokeHandler(EntryOf(s, t.client)), {t.client, NOBODY};
    MoverIsFront(s, t);
    assert ViewOk(ViewOf(s, c)) && ThreadOk(s, t);
    MoveEffect(s, t, Answer(OK), c, out);
    HandlerInv(s, s', t, Answer(OK), c, out.entry, false);
  }

  lemma RevokeMailInv(s: System, t: Thread)
    requires Inv(s) && t.client != NOBODY && PcOf(s, t).RevokeSent? && PcOf(s, t).target != t.client
    requires EntryOf(s, PcOf(s, t).target).state != Client.Free
    ensures Inv(Step(s, t))
  {
    var c, a, s' := t.client, PcOf(s, t).target, Step(s, t);
    var out := Client.RevokeHandler(EntryOf(s, a));
    MoverIsFront(s, t);
    assert ThreadOk(s, t);
    assert ViewOk(ViewOf(s, c)) && ViewOk(ViewOf(s, a));
    MoveEffect(s, t, Answer(RETRY), a, out);
    HandlerInv(s, s', t, Answer(RETRY), a, out.entry, false);
  }

  lemma RevokeFreeInv(s: System, t: Thread)
    requires Inv(s) && t.client != NOBODY && PcOf(s, t).RevokeSent? && PcOf(s, t).target != t.client
    requires EntryOf(s, PcOf(s, t).target).state == Client.Free
    ensures Inv(Step(s, t))
  {
    var c, a, s' := t.client, PcOf(s, t).target, Step(s, t);
    var out := Client.RevokeHandler(EntryOf(s, a));
    var p := RevokeRelease(a, RETRY, RelRequest);
    MoverIsFront(s, t);
    assert ThreadOk(s, t);
    assert ViewOk(ViewOf(s, c)) && ViewOk(ViewOf(s, a));
    MoveEffect(s, t, p, a, out);
    HandlerInv(s, s', t, p, a, out.entry, false);
  }

  // A retry that has not been handled is for the retrying client, which waits for it.
  lemma RetryRole(s: System, t: Thread)
    requires Inv(s) && t.client != NOBODY && HasRel(PcOf(s, t)) && PcOf(s, t).rel.RelRetry?
    ensures var n := PcOf(s, t).rel.next;
            n == s.srv.retrying != NOBODY && s.duty == RetryCall(t) && s.srv.state == Server.Retrying
            && n in s.ents && Queue(s, n) != [] && n !in s.hosts
            && ViewOk(ViewOf(s, n)) && Registered(ViewOf(s, n))
    ensures PcOf(s, t).RevokeRelease? ==> PcOf(s, t).ret == RETRY
    ensures Front(s, t.client) == PcOf(s, t) && ViewOk(ViewOf(s, t.client)) && t.client in s.ents
  {
    MoverIsFront(s, t);
    assert ThreadOk(s, t) && ViewOk(ViewOf(s, t.client)) && ViewOk(ViewOf(s, s.srv.retrying));
    assert PcOf(s, Queue(s, s.srv.retrying)[0]) != Idle;
  }

  lemma RetryInv(s: System, t: Thread)
    requires Inv(s) && t.client != NOBODY && HasRel(PcOf(s, t)) && PcOf(s, t).rel.RelRetry?
    ensures Inv(Step(s, t))
  {
    var n := PcOf(s, t).rel.next;
    RetryRole(s, t);
    var out := Client.RetryHandler(EntryOf(s, n));
    MoveEffect(s, t, WithRel(PcOf(s, t), RelReply), n, out);
    RetriedInv(s, Step(s, t), t, n, out.entry);
  }

  lemma RetriedInv(s: System, s': System, t: Thread, n: nat, e: Client.Entry)
    requires Inv(s) && t.client != NOBODY && HasRel(PcOf(s, t)) && PcOf(s, t).rel == RelRetry(n)
    requires e == EntryOf(s, n).(message := Client.Retry) && e.threads != []
    requires Effect(s, s', t, WithRel(PcOf(s, t), RelReply), n, e, true)
    requires s'.duty == RetryMail && s'.hosts == s.hosts && s'.srv == s.srv && s'.log == s.log
    ensures Inv(s')
  {
    RetryRole(s, t);
    RetriedViews(s, s', t, n, e);
    RetriedThread(s, s', t, n, e);
    HandlerInv(s, s', t, WithRel(PcOf(s, t), RelReply), n, e, true);
  }

  lemma RetriedThread(s: System, s': System, t: Thread, n: nat, e: Client.Entry)
    requires HostInv(s) && HasRel(PcOf(s, t)) && PcOf(s, t).rel == RelRetry(n)
    requires Effect(s, s', t, WithRel(PcOf(s, t), RelReply), n, e, true) && e.threads != []
    requires s'.hosts == s.hosts
    ensures ThreadOk(s', t)
    ensures forall d :: d in s.hosts && s.hosts[d] == t ==> PcOf(s, t).RevokeRelease? && PcOf(s, t).target == d
  {
    assert ThreadOk(s, t);
    forall d | d in s.hosts && s.hosts[d] == t
      ensures PcOf(s, t).RevokeRelease? && PcOf(s, t).target == d
    {
      assert Hosted(s, d);
    }
  }

  lemma RetriedViews(s: System, s': System, t: Thread, n: nat, e: Client.Entry)
    requires Inv(s) && t.client != NOBODY && HasRel(PcOf(s, t)) && PcOf(s, t).rel == RelRetry(n)
    requires e == EntryOf(s, n).(message := Client.Retry) && e.threads != []
    requires Effect(s, s', t, WithRel(PcOf(s, t), RelReply), n, e, true)
    requires s'.duty == RetryMail && s'.hosts == s.hosts && s'.srv == s.srv
    ensures var p := WithRel(PcOf(s, t), RelReply);
            ViewOk(ViewAt(s', n, Woken(if n == t.client then p else Front(s, n))))
            && (t.client != n ==> ViewOk(ViewAt(s', t.client, p)))
  {
    var c, p := t.client, WithRel(PcOf(s, t), RelReply);
    RetryRole(s, t);
    var front := Woken(if n == c then p else Front(s, n));
    assert ViewAt(s', n, front) == ViewOf(s, n).(message := Client.Retry, front := front, duty := RetryMail);
    if c != n {
      assert c !in s.hosts;
      assert ViewAt(s', c, p) == ViewOf(s, c).(front := p);
    }
  }

  // A handler that gets its release reply belongs to a client that has lost the lock.
  lemma RevokeFinishRole(s: System, t: Thread)
    requires Inv(s) && t.client != NOBODY && PcOf(s, t).RevokeRelease? && PcOf(s, t).rel == RelReply
    ensures var a := PcOf(s, t).target;
            a in s.ents && a in s.hosts && s.hosts[a] == t && a != t.client && a != NOBODY && PcOf(s, t).ret == RETRY
            && a != s.srv.owner && ViewOk(ViewOf(s, a)) && EntryOf(s, a).state == Client.Releasing
    ensures Front(s, t.client) == PcOf(s, t) && ViewOk(ViewOf(s, t.client)) && t.client in s.ents && t.client !in s.hosts
    ensures forall d :: d in s.hosts && s.hosts[d] == t ==> d == PcOf(s, t).target
  {
    MoverIsFront(s, t);
    var a := PcOf(s, t).target;
    assert ThreadOk(s, t) && Hosted(s, a) && ViewOk(ViewOf(s, t.client)) && ViewOk(ViewOf(s, a));
    forall d | d in s.hosts && s.hosts[d] == t ensures d == a { assert Hosted(s, d); }
  }

  lemma RevokeFinishInv(s: System, t: Thread)
    requires Inv(s) && t.client != NOBODY && PcOf(s, t).RevokeRelease? && PcOf(s, t).rel == RelReply
    ensures Inv(Step(s, t))
  {
    RevokeFinishRole(s, t);
    var a := PcOf(s, t).target;
    var out := Client.RevokeReleaseReply(EntryOf(s, a));
    MoveEffect(s, t, Answer(RETRY), a, out);
    RevokeFinishedInv(s, Step(s, t), t, out.entry);
  }

  lemma RevokeFinishedInv(s: System, s': System, t: Thread, e: Client.Entry)
    requires Inv(s) && t.client != NOBODY && PcOf(s, t).RevokeRelease? && PcOf(s, t).rel == RelReply
    requires var a := PcOf(s, t).target;
             e == EntryOf(s, a).(state := Client.None) && Effect(s, s', t, Answer(RETRY), a, e, e.threads != [])
             && s'.hosts == s.hosts - {a}
    requires s'.duty == s.duty && s'.srv == s.srv && s'.log == s.log
    ensures Inv(s')
  {
    RevokeFinishRole(s, t);
    RevokeFinishedViews(s, s', t, e);
    RevokeFinishedDuty(s, s', t, e);
    assert ThreadOk(s', t);
    HandlerInv(s, s', t, Answer(RETRY), PcOf(s, t).target, e, e.threads != []);
  }

  lemma RevokeFinishedViews(s: System, s': System, t: Thread, e: Client.Entry)
    requires Inv(s) && t.client != NOBODY && PcOf(s, t).RevokeRelease? && PcOf(s, t).rel == RelReply
    requires var a := PcOf(s, t).target;
             e == EntryOf(s, a).(state := Client.None) && EntryOf(s', a) == e && EntryOf(s', t.client) == EntryOf(s, t.client)
             && s'.hosts == s.hosts - {a}
    requires s'.duty == s.duty && s'.srv == s.srv
    ensures var a := PcOf(s, t).target;
            ViewOk(ViewAt(s', a, if e.threads != [] then Woken(Front(s, a)) else Front(s, a)))
            && ViewOk(ViewAt(s', t.client, Answer(RETRY)))
  {
    var c, a, p := t.client, PcOf(s, t).target, Answer(RETRY);
    RevokeFinishRole(s, t);
    var front := if e.threads != [] then Woken(Front(s, a)) else Front(s, a);
    assert ViewAt(s', a, front) == ViewOf(s, a).(state := Client.None, front := front, hosted := false, unserved := false);
    assert ViewAt(s', c, p) == ViewOf(s, c).(front := p);
  }

  lemma RevokeFinishedDuty(s: System, s': System, t: Thread, e: Client.Entry)
    requires Inv(s) && t.client != NOBODY && PcOf(s, t).RevokeRelease? && PcOf(s, t).rel == RelReply
    requires Effect(s, s', t, Answer(RETRY), PcOf(s, t).target, e, e.threads != [])
    requires s'.duty == s.duty && s'.srv == s.srv
    ensures DutyInv(s')
  {
    RevokeFinishRole(s, t);
    var h := if s.duty.RevokeCall? || s.duty.ReleaseCall? || s.duty.RetryCall? then s.duty.host else t;
    assert h != t ==> PcOf(s', h) == PcOf(s, h) || Local(PcOf(s, h));
    assert EntryOf(s', s.srv.owner) == EntryOf(s, s.srv.owner);
  }

  // What remains to be shown of a handler's section at client a.
  lemma HandlerInv(s: System, s': System, t: Thread, p: Pc, a: nat, e: Client.Entry, woken: bool)
    requires Inv(s) && t.client != NOBODY && Effect(s, s', t, p, a, e, woken)
    requires a in s.ents && e.threads == Queue(s, a)
    requires PcOf(s, t) != Idle && PcOf(s, t) != WaitQueued(false) && p != Idle
    requires Served(p) == Served(PcOf(s, t)) && s'.log == s.log && s'.srv == s.srv
    requires forall d :: d != a ==> (d in s'.hosts <==> d in s.hosts) && (d in s.hosts ==> s'.hosts[d] == s.hosts[d])
    requires a in s'.hosts ==> s'.hosts[a] == t && p.RevokeRelease? && p.target == a && e.state == Client.Releasing
    requires forall d :: d != a && d in s.hosts && s.hosts[d] == t ==> IsRel(PcOf(s, t)) && IsRel(p) && p.target == d
    requires a in s.hosts ==> s.hosts[a] == t
    requires s'.duty == s.duty || s.srv.owner == a || s.srv.retrying == a
    requires s'.duty == s.duty || (s.duty == RevokeCall(t)) || s.duty == RetryCall(t)
    requires var fa := if a == t.client then p else Front(s, a); ViewOk(ViewAt(s', a, if woken then Woken(fa) else fa))
    requires ViewOk(ViewAt(s', t.client, if a == t.client && woken then Woken(p) else p))
    requires DutyInv(s') && ThreadOk(s', t)
    ensures Inv(s')
  {
    var c, xs := t.client, {t.client, a, NOBODY};
    HandlerFronts(s, s', t, p, a, e, woken);
    RemoteViews(s, s', t, p, a, e, woken, xs);
    HandlerThreads(s, s', t, p, a, e, woken);
    RemoteInv(s, s', t, p, a, e, woken, xs);
  }

  lemma HandlerFronts(s: System, s': System, t: Thread, p: Pc, a: nat, e: Client.Entry, woken: bool)
    requires QueueInv(s) && Effect(s, s', t, p, a, e, woken)
    requires a in s.ents && e.threads == Queue(s, a)
    requires PcOf(s, t) != Idle && PcOf(s, t) != WaitQueued(false)
    ensures forall d :: d != t.client && d != a ==> Queue(s', d) == Queue(s, d) && Front(s', d) == Front(s, d)
    ensures Front(s', t.client) == if woken && a == t.client then Woken(p) else p
    ensures a != t.client ==> Front(s', a) == if woken then Woken(Front(s, a)) else Front(s, a)
  {
    MoverIsFront(s, t);
    if e.threads != [] { assert e.threads[0].client == a; }
    FrontsAfter(s, s', t, p, a, e, woken);
  }

  lemma HandlerThreads(s: System, s': System, t: Thread, p: Pc, a: nat, e: Client.Entry, woken: bool)
    requires HostInv(s) && Effect(s, s', t, p, a, e, woken) && s'.srv == s.srv
    requires forall d :: d != a ==> (d in s'.hosts <==> d in s.hosts) && (d in s.hosts ==> s'.hosts[d] == s.hosts[d])
    requires a in s'.hosts ==> s'.hosts[a] == t && p.RevokeRelease? && p.target == a && e.state == Client.Releasing
    requires forall d :: d != a && d in s.hosts && s.hosts[d] == t ==> p.RevokeRelease? && p.target == d
    requires a in s.hosts ==> s.hosts[a] == t
    requires s'.duty == s.duty || s.duty == RevokeCall(t) || s.duty == RetryCall(t)
    requires ThreadOk(s', t)
    ensures forall u :: ThreadOk(s', u)
    ensures forall d :: d in s'.hosts ==> Hosted(s', d)
  {
    forall u ensures ThreadOk(s', u) {
      assert ThreadOk(s, u);
    }
    forall d | d in s'.hosts ensures Hosted(s', d) {
      if d == a {
        assert PcOf(s', t) == p;
      } else {
        assert Hosted(s, d);
        assert PcOf(s', s.hosts[d]) == if s.hosts[d] == t then p else PcOf(s, s.hosts[d]);
      }
    }
  }

  /** Every step of every thread keeps the invariant. */
  lemma StepInv(s: System, t: Thread)
    requires Inv(s) && t.client != NOBODY
    ensures Inv(Step(s, t))
  {
    match PcOf(s, t)
    case Idle => if Queue(s, t.client) == [] { EnterFirstInv(s, t); } else { EnterBehindInv(s, t); }
    case WaitFirst(sig) => if sig { WakeFirstInv(s, t); }
    case WaitQueued(sig) => if sig { WakeQueuedInv(s, t); }
    case WaitRetry(sig) => if sig { WakeRetryInv(s, t); }
    case Request =>
      match s.srv.state {
        case None => ServeFreshInv(s, t);
        case Locked => ServeLockedInv(s, t);
        case Revoking => ServeWaitingInv(s, t);
        case Retrying => if s.srv.retrying == t.client { ServeRetryingInv(s, t); } else { ServeWaitingInv(s, t); }
      }
    case ReadOwner => ReadOwnerInv(s, t);
    case RevokeSent(a, ret) =>
      if a == t.client { RevokeSelfInv(s, t); }
      else if EntryOf(s, a).state == Client.Free { RevokeFreeInv(s, t); }
      else { RevokeMailInv(s, t); }
    case RevokeRelease(a, ret, rel) =>
      match rel {
        case RelRequest => ServeReleaseInv(s, t);
        case RelRetry(_) => RetryInv(s, t);
        case RelReply => RevokeFinishInv(s, t);
      }
    case Answer(_) => AnswerInv(s, t);
    case Holding => if EntryOf(s, t.client).message == Client.Revoke { LeaveRevokedInv(s, t); } else { LeaveInv(s, t); }
    case Releasing(rel) =>
      match rel {
        case RelRequest => ServeReleaseInv(s, t);
        case RelRetry(_) => RetryInv(s, t);
        case RelReply => ReleaseFinishInv(s, t);
      }
  }

  /** The invariant holds after every schedule. */
  lemma {:induction false} RunInv(sched: seq<Thread>)
    requires Scheduled(sched)
    ensures Inv(Run(sched))
  {
    if sched == [] {
      InitInv();
    } else {
      RunInv(sched[..|sched| - 1]);
      StepInv(Run(sched[..|sched| - 1]), sched[|sched| - 1]);
    }
  }
}
