// What the lock system promises over whole runs.

module LockTheorems {
  import opened LockTypes
  import opened LockProtocol
  import opened LockInvariant
  import Server = LockServer
  import Client = LockClient

  // ---- Safety ----

  /** At most one thread is between an OK from acquire and its release. */
  lemma MutualExclusion(sched: seq<Thread>, t: Thread, u: Thread)
    requires Scheduled(sched)
    requires PcOf(Run(sched), t) == Holding && PcOf(Run(sched), u) == Holding
    ensures t == u
  {
    var s := Run(sched);
    RunInv(sched);
    MoverIsFront(s, t);
    MoverIsFront(s, u);
    assert ViewOk(ViewOf(s, t.client)) && ViewOk(ViewOf(s, u.client));
  }

  /** No assert of either half fails, and no list or set is read when it is empty. */
  lemma NoAssertFails(sched: seq<Thread>)
    requires Scheduled(sched)
    ensures !Run(sched).fault
  {
    RunInv(sched);
  }

  /** The server names c as owner exactly when c has the lock in one of four ways. */
  lemma OwnershipAgreement(sched: seq<Thread>, c: nat)
    requires Scheduled(sched) && c != NOBODY
    ensures var s := Run(sched);
            var e, f := EntryOf(s, c), Front(s, c);
            s.srv.owner == c <==>
              || e.state == Client.Locked
              || e.state == Client.Free
              || (e.state == Client.Acquiring && (f == RevokeSent(c, OK) || f == Answer(OK)))
              || (e.state == Client.Releasing && exists t :: RelPc(PcOf(s, t), t, c, RelRequest))
  {
    var s := Run(sched);
    RunInv(sched);
    var v := ViewOf(s, c);
    assert ViewOk(v);
    if Queue(s, c) != [] { assert ThreadOk(s, Queue(s, c)[0]); }
    if v.state == Client.Releasing && v.unserved {
      var t := if c in s.hosts then s.hosts[c] else Queue(s, c)[0];
      assert RelPc(PcOf(s, t), t, c, RelRequest);
    }
    forall t | RelPc(PcOf(s, t), t, c, RelRequest) ensures s.srv.owner == c {
      assert ThreadOk(s, t);
    }
  }

  // ---- The mailbox ----

  /** Messages appear only where they belong, and the slot is empty in NONE and FREE. */
  lemma MailboxFresh(sched: seq<Thread>, c: nat)
    requires Scheduled(sched) && c != NOBODY
    ensures var s := Run(sched); var e := EntryOf(s, c);
            && (e.state == Client.None || e.state == Client.Free ==> e.message == Client.Empty)
            && (e.message == Client.Retry ==> e.state == Client.Acquiring && s.srv.retrying == c)
            && (e.message == Client.Revoke && e.state != Client.Releasing ==> s.srv.owner == c && s.srv.state == Server.Revoking)
  {
    RunInv(sched);
    assert ViewOk(ViewOf(Run(sched), c));
  }

  /** A handler that writes the slot finds it empty, so no message is lost. */
  lemma MailboxNeverOverwritten(sched: seq<Thread>, t: Thread)
    requires Scheduled(sched) && t.client != NOBODY
    ensures var s := Run(sched); var p := PcOf(s, t);
            && (p.RevokeSent? ==> p.target in s.ents && EntryOf(s, p.target).message == Client.Empty)
            && (HasRel(p) && p.rel.RelRetry? ==>
                  p.rel.next in s.ents && EntryOf(s, p.rel.next).message == Client.Empty
                  && EntryOf(s, p.rel.next).state == Client.Acquiring)
  {
    var s := Run(sched);
    RunInv(sched);
    assert ThreadOk(s, t);
    if s.srv.owner != NOBODY { assert ViewOk(ViewOf(s, s.srv.owner)); }
    if s.srv.retrying != NOBODY { assert ViewOk(ViewOf(s, s.srv.retrying)); }
  }

  // ---- Where a contested lock waits ----

  ghost predicate RevokeUnhandled(s: System) {
    exists t :: PcOf(s, t) == ReadOwner || PcOf(s, t).RevokeSent?
  }

  ghost predicate RevokeInMailbox(s: System) {
    EntryOf(s, s.srv.owner).message == Client.Revoke && EntryOf(s, s.srv.owner).state != Client.Releasing
  }

  ghost predicate ReleaseInFlight(s: System) {
    exists t :: RelPc(PcOf(s, t), t, s.srv.owner, RelRequest)
  }

  ghost predicate RetryUnhandled(s: System) {
    exists t :: HasRel(PcOf(s, t)) && PcOf(s, t).rel == RelRetry(s.srv.retrying)
  }

  ghost predicate RetryInMailbox(s: System) {
    EntryOf(s, s.srv.retrying).message == Client.Retry
  }

  ghost predicate ReacquireInFlight(s: System) {
    Front(s, s.srv.retrying) == Request
  }

  predicate ExactlyOne(a: bool, b: bool, c: bool) {
    (a && !b && !c) || (!a && b && !c) || (!a && !b && c)
  }

  lemma RevokingExactlyOne(sched: seq<Thread>)
    requires Scheduled(sched) && Run(sched).srv.state == Server.Revoking
    ensures var s := Run(sched); ExactlyOne(RevokeUnhandled(s), RevokeInMailbox(s), ReleaseInFlight(s))
  {
    var s := Run(sched);
    RunInv(sched);
    forall t ensures PcOf(s, t) == ReadOwner || PcOf(s, t).RevokeSent? ==> s.duty == RevokeCall(t) { assert ThreadOk(s, t); }
    forall t ensures RelPc(PcOf(s, t), t, s.srv.owner, RelRequest) ==> s.duty == ReleaseCall(t) { assert ThreadOk(s, t); }
    match s.duty
    case RevokeCall(t) => assert PcOf(s, t) == ReadOwner || PcOf(s, t).RevokeSent?;
    case ReleaseCall(t) => assert RelPc(PcOf(s, t), t, s.srv.owner, RelRequest);
    case _ =>
  }

  lemma RetryingExactlyOne(sched: seq<Thread>)
    requires Scheduled(sched) && Run(sched).srv.state == Server.Retrying
    ensures var s := Run(sched); ExactlyOne(RetryUnhandled(s), RetryInMailbox(s), ReacquireInFlight(s))
  {
    var s := Run(sched);
    RunInv(sched);
    assert ViewOk(ViewOf(s, s.srv.retrying));
    forall t ensures HasRel(PcOf(s, t)) && PcOf(s, t).rel.RelRetry? ==> s.duty == RetryCall(t) { assert ThreadOk(s, t); }
    match s.duty
    case RetryCall(t) => assert HasRel(PcOf(s, t)) && PcOf(s, t).rel == RelRetry(s.srv.retrying);
    case _ =>
  }

  /** One revoke per ownership that ends, one grant per ownership. */
  lemma Counting(sched: seq<Thread>)
    requires Scheduled(sched)
    ensures var s := Run(sched);
            && s.log.revokes - s.log.releases == (if s.srv.state == Server.Revoking then 1 else 0)
            && s.log.grants - s.log.releases == (if s.srv.state == Server.Locked || s.srv.state == Server.Revoking then 1 else 0)
  {
    RunInv(sched);
  }

  ghost function RunFrom(s: System, sched: seq<Thread>): System
    decreases |sched|
  {
    if sched == [] then s else RunFrom(Step(s, sched[0]), sched[1..])
  }

  // Only the two server sections change the server's entry.
  lemma ServerUntouched(s: System, u: Thread)
    requires PcOf(s, u) != Request && !(HasRel(PcOf(s, u)) && PcOf(s, u).rel == RelRequest)
    ensures Step(s, u).srv == s.srv
  {
  }

  // A step of u moves another thread at most by a signal, which does not reach one that does not wait.
  lemma MoveKeeps(s: System, u: Thread, p: Pc, c: nat, out: Client.Outcome, t: Thread)
    requires u != t && (PcOf(s, t) == ReadOwner || PcOf(s, t) == Holding)
    ensures PcOf(Move(s, u, p, c, out), t) == PcOf(s, t)
  {
  }

  lemma ClientStepKeeps(s: System, u: Thread, t: Thread)
    requires u != t && (PcOf(s, t) == ReadOwner || PcOf(s, t) == Holding)
    requires PcOf(s, u).Idle? || PcOf(s, u).WaitFirst? || PcOf(s, u).WaitQueued? || PcOf(s, u).WaitRetry? || PcOf(s, u).Answer?
    ensures PcOf(Step(s, u), t) == PcOf(s, t)
  {
    var e := EntryOf(s, u.client);
    var out := match PcOf(s, u)
      case WaitFirst(_) => Client.WakeFirst(e)
      case WaitQueued(_) => Client.WakeQueued(e)
      case WaitRetry(_) => Client.WakeRetry(e)
      case Answer(ret) => Client.AcquireReply(e, ret)
      case _ => Client.Enter(e, u);
    MoveKeeps(s, u, ExitPc(out.exit), u.client, out, t);
  }

  lemma OthersKept(s: System, u: Thread, t: Thread)
    requires u != t && (PcOf(s, t) == ReadOwner || PcOf(s, t) == Holding)
    ensures PcOf(Step(s, u), t) == PcOf(s, t)
  {
    match PcOf(s, u)
    case Request =>
    case ReadOwner =>
    case RevokeSent(a, ret) =>
      var out := Client.RevokeHandler(EntryOf(s, a));
      MoveKeeps(s, u, if out.exit == Client.CallRelease then RevokeRelease(a, ret, RelRequest) else Answer(ret), a, out, t);
    case RevokeRelease(a, ret, rel) =>
      if rel.RelRetry? {
        MoveKeeps(s, u, WithRel(PcOf(s, u), RelReply), rel.next, Client.RetryHandler(EntryOf(s, rel.next)), t);
      } else if rel == RelReply {
        MoveKeeps(s, u, Answer(ret), a, Client.RevokeReleaseReply(EntryOf(s, a)), t);
      }
    case Holding =>
      var out := Client.Leave(EntryOf(s, u.client));
      MoveKeeps(s, u, if out.exit == Client.CallRelease then Releasing(RelRequest) else Idle, u.client, out, t);
    case Releasing(rel) =>
      if rel.RelRetry? {
        MoveKeeps(s, u, WithRel(PcOf(s, u), RelReply), rel.next, Client.RetryHandler(EntryOf(s, rel.next)), t);
      } else if rel == RelReply {
        MoveKeeps(s, u, Idle, u.client, Client.ReleaseReply(EntryOf(s, u.client)), t);
      }
    case _ => ClientStepKeeps(s, u, t);
  }

  lemma OwnerKept(s: System, t: Thread, u: Thread)
    requires Inv(s) && PcOf(s, t) == ReadOwner && u != t && u.client != NOBODY
    ensures PcOf(Step(s, u), t) == ReadOwner && Step(s, u).srv.owner == s.srv.owner
  {
    assert ThreadOk(s, t) && ThreadOk(s, u);
    OthersKept(s, u, t);
    if PcOf(s, u) != Request { ServerUntouched(s, u); }
  }

  lemma {:induction false} OwnerStays(s: System, t: Thread, sched: seq<Thread>)
    requires Inv(s) && PcOf(s, t) == ReadOwner && Scheduled(sched) && t !in sched
    ensures var s' := RunFrom(s, sched);
            PcOf(s', t) == ReadOwner && s'.srv.owner == s.srv.owner
            && PcOf(Step(s', t), t) == RevokeSent(s.srv.owner, RETRY)
    decreases |sched|
  {
    if sched == [] {
      assert ThreadOk(s, t);
    } else {
      OwnerKept(s, t, sched[0]);
      StepInv(s, sched[0]);
      OwnerStays(Step(s, sched[0]), t, sched[1..]);
    }
  }

  /** The owner that a handler thread reads without the mutex is the one it saw with it,
      whatever runs between. */
  lemma OwnerReadLate(sched: seq<Thread>, t: Thread, more: seq<Thread>)
    requires Scheduled(sched) && Scheduled(more) && PcOf(Run(sched), t) == ReadOwner && t !in more
    ensures var s, s' := Run(sched), RunFrom(Run(sched), more);
            s'.srv.owner == s.srv.owner && PcOf(Step(s', t), t) == RevokeSent(s.srv.owner, RETRY)
  {
    RunInv(sched);
    OwnerStays(Run(sched), t, more);
  }

  // ---- Order among the threads of one client ----

  /** Threads get the lock in the order in which they joined the queue. */
  lemma FirstComeFirstServed(sched: seq<Thread>, c: nat)
    requires Scheduled(sched)
    ensures var s := Run(sched); SeqOf(s.log.got, c) <= SeqOf(s.log.joined, c)
    ensures var s := Run(sched); EntryOf(s, c).state == Client.Free ==> SeqOf(s.log.got, c) == SeqOf(s.log.joined, c)
  {
    var s := Run(sched);
    RunInv(sched);
    assert ServedInOrder(s, c);
    var joined, q := SeqOf(s.log.joined, c), Queue(s, c);
    if q != [] { assert joined[|joined| - |q|] == q[0]; }
    if c != NOBODY { assert ViewOk(ViewOf(s, c)); }
  }

  /** Whoever runs a section, holds the lock or waits for a reply is the front of its queue. */
  lemma OnlyTheFrontMoves(sched: seq<Thread>, t: Thread)
    requires Scheduled(sched) && PcOf(Run(sched), t) != Idle && !Blocked(PcOf(Run(sched), t))
    ensures Queue(Run(sched), t.client) != [] && Queue(Run(sched), t.client)[0] == t
  {
    RunInv(sched);
    MoverIsFront(Run(sched), t);
  }

  // ---- Progress ----

  // t is inside acquire or release, or holds the lock, and is not waiting to be signalled.
  predicate Busy(s: System, t: Thread) {
    PcOf(s, t) != Idle && !Blocked(PcOf(s, t))
  }

  // The thread that the invariant's duty leads to.
  function DutyThread(s: System): Thread
    requires s.duty == RevokeMail ==> Queue(s, s.srv.owner) != []
    requires s.duty == RetryMail || s.duty == Reacquire ==> Queue(s, s.srv.retrying) != []
  {
    match s.duty
    case RevokeCall(t) => t
    case ReleaseCall(t) => t
    case RetryCall(t) => t
    case RevokeMail => Queue(s, s.srv.owner)[0]
    case RetryMail => Queue(s, s.srv.retrying)[0]
    case Reacquire => Queue(s, s.srv.retrying)[0]
    case NoDuty => Thread(NOBODY, 0)
  }

  lemma ContestedMoves(s: System)
    requires Inv(s) && (s.srv.state == Server.Revoking || s.srv.state == Server.Retrying)
    ensures exists t :: Busy(s, t)
  {
    if s.srv.state == Server.Revoking {
      assert ViewOk(ViewOf(s, s.srv.owner));
    } else {
      assert ViewOk(ViewOf(s, s.srv.retrying));
    }
    assert Busy(s, DutyThread(s));
  }

  lemma NeverStuck(s: System, t: Thread)
    requires Inv(s) && t.client != NOBODY && PcOf(s, t) != Idle
    ensures exists u :: Busy(s, u)
  {
    var c := t.client;
    assert ViewOk(ViewOf(s, c));
    var f := Queue(s, c)[0];
    if c in s.hosts {
      assert Hosted(s, c);
      assert Busy(s, s.hosts[c]);
    } else if PcOf(s, f) == WaitRetry(false) {
      ContestedMoves(s);
    } else {
      assert Busy(s, f);
    }
  }

  /** While any thread is inside acquire or release, some thread can move or holds the lock. */
  lemma NoStuckState(sched: seq<Thread>, t: Thread)
    requires Scheduled(sched) && t.client != NOBODY && PcOf(Run(sched), t) != Idle
    ensures exists u :: Busy(Run(sched), u)
  {
    RunInv(sched);
    NeverStuck(Run(sched), t);
  }

  // How far a thread is from being done with the lock; second says that its client is
  // the one the server has told to retry.
  function Distance(p: Pc, second: bool): nat {
    match p
    case Idle => 0
    case Releasing(rel) => (match rel case RelReply => 1 case RelRetry(_) => 2 case RelRequest => 3)
    case Holding => 4
    case RevokeSent(_, ret) => if ret == OK then 6 else 14
    case WaitRetry(signalled) => if signalled then 8 else 9
    case Answer(ret) => if ret == OK then 5 else 10
    case RevokeRelease(_, _, rel) => (match rel case RelReply => 11 case RelRetry(_) => 12 case RelRequest => 13)
    case ReadOwner => 15
    case Request => if second then 7 else 16
    case WaitFirst(signalled) => if signalled then 17 else 18
    case WaitQueued(signalled) => if signalled then 17 else 18
  }

  function DistanceOf(s: System, t: Thread): nat {
    Distance(PcOf(s, t), s.srv.retrying == t.client)
  }

  ghost function Pick(ts: set<Thread>): Thread
    requires ts != {}
  {
    var t :| t in ts;
    t
  }

  ghost function Total(s: System, ts: set<Thread>): nat {
    if ts == {} then 0 else DistanceOf(s, Pick(ts)) + Total(s, ts - {Pick(ts)})
  }

  lemma {:induction false} TotalDrops(s: System, s': System, ts: set<Thread>, t: Thread)
    requires forall u :: u in ts ==> DistanceOf(s', u) <= DistanceOf(s, u)
    requires t in ts ==> DistanceOf(s', t) < DistanceOf(s, t)
    ensures Total(s', ts) <= Total(s, ts) && (t in ts ==> Total(s', ts) < Total(s, ts))
    decreases ts
  {
    if ts != {} {
      TotalDrops(s, s', ts - {Pick(ts)}, t);
    }
  }

  ghost function Measure(s: System): nat {
    Total(s, s.pcs.Keys)
  }

  // A step of t takes no thread further from being done, and t closer to it.
  ghost predicate Advances(s: System, s': System, t: Thread) {
    && s'.pcs.Keys == s.pcs.Keys
    && DistanceOf(s', t) < DistanceOf(s, t)
    && forall u :: u != t ==> DistanceOf(s', u) <= DistanceOf(s, u)
  }

  lemma MoveAdvances(s: System, s': System, t: Thread, p: Pc, c: nat, out: Client.Outcome)
    requires s'.pcs == Move(s, t, p, c, out).pcs && s'.srv == s.srv && t in s.pcs
    requires Distance(p, s.srv.retrying == t.client) < DistanceOf(s, t)
    ensures Advances(s, s', t)
  {
  }

  lemma AcquiringAdvances(s: System, t: Thread)
    requires Inv(s) && t.client != NOBODY && Busy(s, t)
    requires PcOf(s, t).WaitFirst? || PcOf(s, t).WaitQueued? || PcOf(s, t).WaitRetry? || PcOf(s, t).Answer?
    ensures Advances(s, Step(s, t), t)
  {
    var e := EntryOf(s, t.client);
    var out := match PcOf(s, t)
      case WaitFirst(_) => Client.WakeFirst(e)
      case WaitQueued(_) => Client.WakeQueued(e)
      case WaitRetry(_) => Client.WakeRetry(e)
      case Answer(ret) => Client.AcquireReply(e, ret);
    MoverIsFront(s, t);
    assert ViewOk(ViewOf(s, t.client));
    MoveAdvances(s, Step(s, t), t, ExitPc(out.exit), t.client, out);
  }

  // At most one thread of the retrying client has an acquire on its way.
  lemma RequestIsAlone(s: System, t: Thread, u: Thread)
    requires Inv(s) && t.client == u.client && PcOf(s, t) == Request && PcOf(s, u) == Request
    ensures t == u
  {
    MoverIsFront(s, t);
    MoverIsFront(s, u);
  }

  lemma RequestAdvances(s: System, t: Thread)
    requires Inv(s) && t.client != NOBODY && PcOf(s, t) == Request
    ensures Advances(s, Step(s, t), t)
  {
    var s' := Step(s, t);
    RequestRole(s, t);
    forall u | u != t ensures DistanceOf(s', u) <= DistanceOf(s, u) {
      if PcOf(s, u) == Request && u.client == t.client { RequestIsAlone(s, t, u); }
    }
  }

  lemma ReadOwnerAdvances(s: System, t: Thread)
    requires Inv(s) && t.client != NOBODY && PcOf(s, t) == ReadOwner
    ensures Advances(s, Step(s, t), t)
  {
    assert ThreadOk(s, t);
  }

  lemma ServeReleaseAdvances(s: System, t: Thread)
    requires Inv(s) && t.client != NOBODY && HasRel(PcOf(s, t)) && PcOf(s, t).rel == RelRequest
    ensures Advances(s, Step(s, t), t)
  {
    ReleaseRole(s, t);
  }

  lemma RevokeAdvances(s: System, t: Thread)
    requires Inv(s) && t.client != NOBODY && PcOf(s, t).RevokeSent?
    ensures Advances(s, Step(s, t), t)
  {
    var a := PcOf(s, t).target;
    assert ThreadOk(s, t);
    assert ViewOk(ViewOf(s, a));
    MoverIsFront(s, t);
    var out := Client.RevokeHandler(EntryOf(s, a));
    MoveAdvances(s, Step(s, t), t, if out.exit == Client.CallRelease then RevokeRelease(a, RETRY, RelRequest) else Answer(PcOf(s, t).ret), a, out);
  }

  lemma RetryAdvances(s: System, t: Thread)
    requires Inv(s) && t.client != NOBODY && HasRel(PcOf(s, t)) && PcOf(s, t).rel.RelRetry?
    ensures Advances(s, Step(s, t), t)
  {
    RetryRole(s, t);
    var n := PcOf(s, t).rel.next;
    MoveAdvances(s, Step(s, t), t, WithRel(PcOf(s, t), RelReply), n, Client.RetryHandler(EntryOf(s, n)));
  }

  lemma RevokeFinishAdvances(s: System, t: Thread)
    requires Inv(s) && t.client != NOBODY && PcOf(s, t).RevokeRelease? && PcOf(s, t).rel == RelReply
    ensures Advances(s, Step(s, t), t)
  {
    RevokeFinishRole(s, t);
    var a := PcOf(s, t).target;
    MoveAdvances(s, Step(s, t), t, Answer(RETRY), a, Client.RevokeReleaseReply(EntryOf(s, a)));
  }

  lemma ReleasingAdvances(s: System, t: Thread)
    requires Inv(s) && t.client != NOBODY && (PcOf(s, t) == Holding || PcOf(s, t) == Releasing(RelReply))
    ensures Advances(s, Step(s, t), t)
  {
    var e, s' := EntryOf(s, t.client), Step(s, t);
    MoverIsFront(s, t);
    var out := if PcOf(s, t) == Holding then Client.Leave(e) else Client.ReleaseReply(e);
    MoveAdvances(s, s', t, if out.exit == Client.CallRelease then Releasing(RelRequest) else Idle, t.client, out);
  }

  lemma StepAdvances(s: System, t: Thread)
    requires Inv(s) && t.client != NOBODY && Busy(s, t)
    ensures Measure(Step(s, t)) < Measure(s)
  {
    match PcOf(s, t) {
      case Holding => ReleasingAdvances(s, t);
      case Releasing(rel) =>
        if rel == RelReply { ReleasingAdvances(s, t); } else if rel == RelRequest { ServeReleaseAdvances(s, t); } else { RetryAdvances(s, t); }
      case RevokeRelease(_, _, rel) =>
        if rel == RelReply { RevokeFinishAdvances(s, t); } else if rel == RelRequest { ServeReleaseAdvances(s, t); } else { RetryAdvances(s, t); }
      case RevokeSent(_, _) => RevokeAdvances(s, t);
      case Request => RequestAdvances(s, t);
      case ReadOwner => ReadOwnerAdvances(s, t);
      case _ => AcquiringAdvances(s, t);
    }
    TotalDrops(s, Step(s, t), s.pcs.Keys, t);
  }

  // Every step of the schedule is by a thread that is inside acquire or release, or
  // that gives up the lock: nobody comes anew to acquire.
  ghost predicate Drains(s: System, sched: seq<Thread>)
    decreases |sched|
  {
    sched == [] || (sched[0].client != NOBODY && Busy(s, sched[0]) && Drains(Step(s, sched[0]), sched[1..]))
  }

  /** Without new acquires only finitely many steps remain, whatever the interleaving. */
  lemma {:induction false} DrainIsBounded(s: System, sched: seq<Thread>)
    requires Inv(s) && Drains(s, sched)
    ensures Inv(RunFrom(s, sched))
    ensures |sched| + Measure(RunFrom(s, sched)) <= Measure(s)
    decreases |sched|
  {
    if sched != [] {
      StepInv(s, sched[0]);
      StepAdvances(s, sched[0]);
      DrainIsBounded(Step(s, sched[0]), sched[1..]);
    }
  }

  lemma {:induction false} JoinedKept(s: System, sched: seq<Thread>, c: nat)
    requires Inv(s) && Drains(s, sched)
    ensures SeqOf(RunFrom(s, sched).log.joined, c) == SeqOf(s.log.joined, c)
    decreases |sched|
  {
    if sched != [] {
      StepInv(s, sched[0]);
      StepKeepsJoined(s, sched[0]);
      JoinedKept(Step(s, sched[0]), sched[1..], c);
    }
  }

  lemma StepKeepsJoined(s: System, t: Thread)
    requires PcOf(s, t) != Idle
    ensures Step(s, t).log.joined == s.log.joined
  {
  }

  lemma QueuedThread(s: System, c: nat)
    requires Inv(s) && Queue(s, c) != []
    ensures exists t :: PcOf(s, t) != Idle
  {
    assert PcOf(s, Queue(s, c)[0]) != Idle;
  }

  /** When nothing moves any more, every thread that ever asked for the lock has had it. */
  lemma EveryoneServed(sched: seq<Thread>, more: seq<Thread>, c: nat)
    requires Scheduled(sched) && Drains(Run(sched), more)
    requires forall t :: !Busy(RunFrom(Run(sched), more), t)
    ensures var s := RunFrom(Run(sched), more);
            SeqOf(s.log.got, c) == SeqOf(s.log.joined, c) == SeqOf(Run(sched).log.joined, c)
            && forall t :: PcOf(s, t) == Idle
  {
    var s := RunFrom(Run(sched), more);
    RunInv(sched);
    DrainIsBounded(Run(sched), more);
    JoinedKept(Run(sched), more, c);
    forall t ensures PcOf(s, t) == Idle {
      if PcOf(s, t) != Idle { NeverStuck(s, t); }
    }
    assert ServedInOrder(s, c);
    var q := Queue(s, c);
    if q != [] { QueuedThread(s, c); }
    var joined := SeqOf(s.log.joined, c);
    assert joined[..|joined|] == joined;
  }

  lemma {:induction false} DrainFrom(s: System) returns (more: seq<Thread>)
    requires Inv(s)
    ensures Drains(s, more) && forall t :: !Busy(RunFrom(s, more), t)
    decreases Measure(s)
  {
    if t :| Busy(s, t) {
      assert t.client in s.ents && t.client != NOBODY;
      StepInv(s, t);
      StepAdvances(s, t);
      var rest := DrainFrom(Step(s, t));
      more := [t] + rest;
      assert more[1..] == rest;
    } else {
      more := [];
    }
  }

  /** From every reachable state such an end can be reached. */
  lemma DrainExists(sched: seq<Thread>) returns (more: seq<Thread>)
    requires Scheduled(sched)
    ensures Drains(Run(sched), more) && forall t :: !Busy(RunFrom(Run(sched), more), t)
  {
    RunInv(sched);
    more := DrainFrom(Run(sched));
  }

  // ---- A contested lock ----

  lemma RunNext(sched: seq<Thread>, t: Thread)
    ensures Run(sched + [t]) == Step(Run(sched), t)
  {
    assert (sched + [t])[..|sched|] == sched;
  }

  const A: Thread := Thread(1, 0)
  const B: Thread := Thread(2, 0)

  predicate Looks(s: System, srv: Server.Entry, ents: map<nat, Client.Entry>, pcs: map<Thread, Pc>) {
    s.srv == srv && s.ents == ents && s.pcs == pcs
  }

  lemma FirstEnters()
    ensures Looks(Run([A]), Server.NEW_ENTRY, map[1 := Client.Entry(Client.Acquiring, Client.Empty, [A])], map[A := Request])
  {
    RunNext([], A);
    assert [] + [A] == [A];
  }

  lemma FirstGranted()
    ensures Looks(Run([A, A]), Server.Entry(Server.Locked, 1, NOBODY, {}),
                  map[1 := Client.Entry(Client.Acquiring, Client.Empty, [A])], map[A := Answer(OK)])
  {
    FirstEnters();
    RunNext([A], A);
    assert [A] + [A] == [A, A];
    assert PcOf(Run([A]), A) == Request;
  }

  lemma FirstHolds()
    ensures Looks(Run([A, A, A]), Server.Entry(Server.Locked, 1, NOBODY, {}),
                  map[1 := Client.Entry(Client.Locked, Client.Empty, [A])], map[A := Holding])
  {
    FirstGranted();
    RunNext([A, A], A);
    assert [A, A] + [A] == [A, A, A];
    assert PcOf(Run([A, A]), A) == Answer(OK);
  }

  lemma SecondEnters()
    ensures var s := Run([A, A, A, B]);
            s.srv == Server.Entry(Server.Locked, 1, NOBODY, {}) && PcOf(s, A) == Holding && PcOf(s, B) == Request
  {
    FirstHolds();
    RunNext([A, A, A], B);
    assert [A, A, A] + [B] == [A, A, A, B];
    assert PcOf(Run([A, A, A]), B) == Idle;
  }

  /** The contested states are reached: here REVOKING, with the revoke not handled yet. */
  lemma RevokingIsReached()
    ensures Scheduled([A, A, A, B, B]) && Run([A, A, A, B, B]).srv == Server.Entry(Server.Revoking, 1, NOBODY, {2})
    ensures PcOf(Run([A, A, A, B, B]), A) == Holding && PcOf(Run([A, A, A, B, B]), B) == ReadOwner
  {
    SecondEnters();
    RunNext([A, A, A, B], B);
    assert [A, A, A, B] + [B] == [A, A, A, B, B];
  }

  // ---- All locks ----

  // The lock ids are independent: a step concerns one lock id and one thread.
  type World = map<nat, System>

  function At(w: World, lid: nat): System {
    if lid in w then w[lid] else INIT
  }

  datatype Turn = Turn(lid: nat, thread: Thread)

  ghost function RunAll(sched: seq<Turn>): World {
    if sched == [] then map[]
    else
      var w, m := RunAll(sched[..|sched| - 1]), sched[|sched| - 1];
      w[m.lid := Step(At(w, m.lid), m.thread)]
  }

  // Client ids are non-empty strings.
  predicate Named(sched: seq<Turn>) {
    forall i :: 0 <= i < |sched| ==> sched[i].thread.client != NOBODY
  }

  function For(lid: nat, sched: seq<Turn>): seq<Thread> {
    if sched == [] then []
    else For(lid, sched[..|sched| - 1])
         + if sched[|sched| - 1].lid == lid then [sched[|sched| - 1].thread] else []
  }

  /** A run over all locks is, seen from one lock, a run of that lock. */
  lemma {:induction false} LocksAreIndependent(sched: seq<Turn>, lid: nat)
    ensures At(RunAll(sched), lid) == Run(For(lid, sched))
  {
    if sched != [] {
      var before := For(lid, sched[..|sched| - 1]);
      LocksAreIndependent(sched[..|sched| - 1], lid);
      if sched[|sched| - 1].lid == lid {
        assert For(lid, sched)[..|before|] == before;
      } else {
        assert For(lid, sched) == before;
      }
    }
  }

  lemma {:induction false} ScheduledFor(sched: seq<Turn>, lid: nat)
    requires Named(sched)
    ensures Scheduled(For(lid, sched))
  {
    if sched != [] {
      ScheduledFor(sched[..|sched| - 1], lid);
    }
  }

  /** Mutual exclusion for every lock, in every run over all locks. */
  lemma MutualExclusionEverywhere(sched: seq<Turn>, lid: nat, t: Thread, u: Thread)
    requires Named(sched)
    requires PcOf(At(RunAll(sched), lid), t) == Holding && PcOf(At(RunAll(sched), lid), u) == Holding
    ensures t == u
  {
    LocksAreIndependent(sched, lid);
    ScheduledFor(sched, lid);
    MutualExclusion(For(lid, sched), t, u);
  }
}
