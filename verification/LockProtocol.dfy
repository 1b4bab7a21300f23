// The whole lock system for one lock id: the server entry, every client's entry and
// the program counter of every thread. Everything in flight (requests, replies,
// revokes, retries, and the handlers they run in) is part of the program counter of
// the thread whose RPC it belongs to, because every RPC of the source is synchronous.
// The program counter of a thread determines its next critical section, so a run is
// a schedule: the sequence of threads that move.

module LockProtocol {
  import opened LockTypes
  import Server = LockServer
  import Client = LockClient

  // Progress of a call of lock_protocol::release: before the server's section; while
  // the server calls retry at client next; on the way back.
  datatype Rel = RelRequest | RelRetry(next: nat) | RelReply

  datatype Pc =
    | Idle
    | WaitFirst(signalled: bool)
    | WaitQueued(signalled: bool)
    | WaitRetry(signalled: bool)
    | Request                                          // acquire sent, not served
    | ReadOwner                                        // served; the server is about to read owner and revoke it
    | RevokeSent(target: nat, ret: Reply)              // the server's revoke call is on its way to target
    | RevokeRelease(target: nat, ret: Reply, rel: Rel) // target's revoke handler calls release
    | Answer(ret: Reply)                               // the reply of acquire is on its way
    | Holding
    | Releasing(rel: Rel)

  // Where the obligation to move a REVOKING or RETRYING lock lies (history variable).
  datatype Duty =
    | NoDuty
    | RevokeCall(host: Thread)    // a revoke has been decided and not handled
    | RevokeMail                  // the owner's message is REVOKE
    | ReleaseCall(host: Thread)   // the owner's release is on its way
    | RetryCall(host: Thread)     // a retry has not been handled
    | RetryMail                   // the retrying client's message is RETRY
    | Reacquire                   // the retrying client's acquire is on its way

  // History variables: per client the threads that have joined its queue and the
  // threads that were returned OK, in order; and the number of grants, of decided
  // revokes and of served releases.
  datatype Log = Log(joined: map<nat, seq<Thread>>, got: map<nat, seq<Thread>>,
                     grants: nat, revokes: nat, releases: nat)

  // duty, hosts and log only record; no step depends on them. hosts maps a client
  // whose revoke handler is inside its release call to the thread whose acquire
  // triggered that handler.
  datatype System = System(srv: Server.Entry, ents: map<nat, Client.Entry>, pcs: map<Thread, Pc>,
                           fault: bool, duty: Duty, hosts: map<nat, Thread>, log: Log)

  const INIT := System(Server.NEW_ENTRY, map[], map[], false, NoDuty, map[], Log(map[], map[], 0, 0, 0))

  function PcOf(s: System, t: Thread): Pc {
    if t in s.pcs then s.pcs[t] else Idle
  }

  function EntryOf(s: System, c: nat): Client.Entry {
    if c in s.ents then s.ents[c] else Client.NEW_ENTRY
  }

  function SeqOf(m: map<nat, seq<Thread>>, c: nat): seq<Thread> {
    if c in m then m[c] else []
  }

  // pthread_cond_signal: wakes t if it waits; otherwise it is lost.
  function Signal(pcs: map<Thread, Pc>, t: Thread): map<Thread, Pc> {
    if t !in pcs then pcs
    else match pcs[t]
      case WaitFirst(_) => pcs[t := WaitFirst(true)]
      case WaitQueued(_) => pcs[t := WaitQueued(true)]
      case WaitRetry(_) => pcs[t := WaitRetry(true)]
      case _ => pcs
  }

  predicate Blocked(p: Pc) {
    p == WaitFirst(false) || p == WaitQueued(false) || p == WaitRetry(false)
  }

  // Thread t moves to pc, and client c's entry changes as out says.
  function Move(s: System, t: Thread, pc: Pc, c: nat, out: Client.Outcome): System {
    var pcs := s.pcs[t := pc];
    var q := out.entry.threads;
    s.(ents := s.ents[c := out.entry], pcs := if out.signal && q != [] then Signal(pcs, q[0]) else pcs)
  }

  function Faulted(s: System): System {
    s.(fault := true)
  }

  function ExitPc(exit: Client.Exit): Pc {
    match exit
    case Return => Holding
    case CallAcquire => Request
    case CallRelease => Releasing(RelRequest)
    case WaitFirst => WaitFirst(false)
    case WaitQueued => WaitQueued(false)
    case WaitRetry => WaitRetry(false)
    case Fault => Idle
  }

  function LogGot(s: System, t: Thread): System {
    s.(log := s.log.(got := s.log.got[t.client := SeqOf(s.log.got, t.client) + [t]]))
  }

  // A section of acquire or blockUntilGot, run by t on its own client.
  function AcquiringSection(s: System, t: Thread, out: Client.Outcome): System {
    if out.exit == Client.Fault then Faulted(s)
    else
      var s' := Move(s, t, ExitPc(out.exit), t.client, out);
      if out.exit == Client.Return then LogGot(s', t) else s'
  }

  function DoEnter(s: System, t: Thread): System {
    var s' := AcquiringSection(s, t, Client.Enter(EntryOf(s, t.client), t));
    s'.(log := s'.log.(joined := s'.log.joined[t.client := SeqOf(s'.log.joined, t.client) + [t]]))
  }

  // A thread that consumes RETRY from the mailbox is about to re-acquire.
  function Consumed(s: System): System {
    s.(duty := if s.duty == RetryMail then Reacquire else s.duty)
  }

  function DoAnswer(s: System, t: Thread, ret: Reply): System {
    var e := EntryOf(s, t.client);
    var s' := AcquiringSection(s, t, Client.AcquireReply(e, ret));
    if ret == RETRY && e.message != Client.Empty then Consumed(s') else s'
  }

  function DoServeAcquire(s: System, t: Thread): System {
    match Server.AcquireSection(s.srv, t.client)
    case AcquireFault => Faulted(s)
    case Acquired(srv, reply, follow) =>
      var pc := match follow
        case Nothing => Answer(reply)
        case RevokeOwner => ReadOwner
        case RevokeCaller => RevokeSent(t.client, reply);
      var duty := if follow != Server.Nothing then RevokeCall(t)
                  else if srv.state == Server.Locked then NoDuty else s.duty;
      var log := s.log.(grants := s.log.grants + if reply == OK then 1 else 0,
                        revokes := s.log.revokes + if follow != Server.Nothing then 1 else 0);
      s.(srv := srv, pcs := s.pcs[t := pc], duty := duty, log := log)
  }

  function DoReadOwner(s: System, t: Thread): System {
    if s.srv.owner == NOBODY then Faulted(s)
    else s.(pcs := s.pcs[t := RevokeSent(s.srv.owner, RETRY)])
  }

  function WithRel(p: Pc, rel: Rel): Pc {
    if p.RevokeRelease? then p.(rel := rel) else Releasing(rel)
  }

  // revoke_handler at client a, called on behalf of t's acquire.
  function DoRevoke(s: System, t: Thread, a: nat, ret: Reply): System {
    if a !in s.ents then Faulted(s)
    else
      var out := Client.RevokeHandler(s.ents[a]);
      if out.exit == Client.CallRelease then
        Move(s, t, RevokeRelease(a, ret, RelRequest), a, out).(duty := ReleaseCall(t), hosts := s.hosts[a := t])
      else Move(s, t, Answer(ret), a, out).(duty := RevokeMail)
  }

  // Client a's release call, made by t itself or by the revoke handler within t's RPC.
  ghost function DoServeRelease(s: System, t: Thread, a: nat): System {
    match Server.ReleaseSection(s.srv, a)
    case ReleaseFault => Faulted(s)
    case Released(srv, next) =>
      s.(srv := srv, pcs := s.pcs[t := WithRel(PcOf(s, t), RelRetry(next))], duty := RetryCall(t),
         log := s.log.(releases := s.log.releases + 1))
  }

  function DoRetry(s: System, t: Thread, next: nat): System {
    if next !in s.ents then Faulted(s)
    else
      var out := Client.RetryHandler(s.ents[next]);
      if out.exit == Client.Fault then Faulted(s)
      else Move(s, t, WithRel(PcOf(s, t), RelReply), next, out).(duty := RetryMail)
  }

  function DoRevokeFinish(s: System, t: Thread, a: nat, ret: Reply): System {
    if a !in s.ents then Faulted(s)
    else Move(s, t, Answer(ret), a, Client.RevokeReleaseReply(s.ents[a])).(hosts := s.hosts - {a})
  }

  function DoLeave(s: System, t: Thread): System {
    if t.client !in s.ents then Faulted(s)
    else
      var out := Client.Leave(s.ents[t.client]);
      if out.exit == Client.Fault then Faulted(s)
      else if out.exit == Client.CallRelease then
        Move(s, t, Releasing(RelRequest), t.client, out).(duty := ReleaseCall(t))
      else Move(s, t, Idle, t.client, out)
  }

  function DoReleaseFinish(s: System, t: Thread): System {
    if t.client !in s.ents then Faulted(s)
    else
      var out := Client.ReleaseReply(s.ents[t.client]);
      if out.exit == Client.Fault then Faulted(s) else Move(s, t, Idle, t.client, out)
  }

  /** Thread t runs its next critical section; a blocked thread does nothing. */
  ghost function Step(s: System, t: Thread): System {
    match PcOf(s, t)
    case Idle => DoEnter(s, t)
    case WaitFirst(sig) => if sig then AcquiringSection(s, t, Client.WakeFirst(EntryOf(s, t.client))) else s
    case WaitQueued(sig) => if sig then AcquiringSection(s, t, Client.WakeQueued(EntryOf(s, t.client))) else s
    case WaitRetry(sig) => if sig then Consumed(AcquiringSection(s, t, Client.WakeRetry(EntryOf(s, t.client)))) else s
    case Request => DoServeAcquire(s, t)
    case ReadOwner => DoReadOwner(s, t)
    case RevokeSent(a, ret) => DoRevoke(s, t, a, ret)
    case RevokeRelease(a, ret, rel) =>
      (match rel
       case RelRequest => DoServeRelease(s, t, a)
       case RelRetry(next) => DoRetry(s, t, next)
       case RelReply => DoRevokeFinish(s, t, a, ret))
    case Answer(ret) => DoAnswer(s, t, ret)
    case Holding => DoLeave(s, t)
    case Releasing(rel) =>
      (match rel
       case RelRequest => DoServeRelease(s, t, t.client)
       case RelRetry(next) => DoRetry(s, t, next)
       case RelReply => DoReleaseFinish(s, t))
  }

  /** The state after a schedule, from the initial state. */
  ghost function Run(sched: seq<Thread>): System {
    if sched == [] then INIT else Step(Run(sched[..|sched| - 1]), sched[|sched| - 1])
  }

  // Client ids are non-empty strings.
  predicate Scheduled(sched: seq<Thread>) {
    forall i :: 0 <= i < |sched| ==> sched[i].client != NOBODY
  }
}
