// The caching lock client: one entry per lock id, and the critical sections of
// acquire, release, blockUntilGot and the two handlers. A section ends where the
// source drops the mutex: at a return, at an RPC, or at a condition wait.

module LockClient {
  import opened LockTypes

  datatype State = None | Acquiring | Free | Releasing | Locked
  datatype Message = Empty | Retry | Revoke

  datatype Entry = Entry(state: State, message: Message, threads: seq<Thread>)

  const NEW_ENTRY := Entry(None, Empty, [])

  // How a section ends for the thread that runs it. Fault: an assert(0) is reached,
  // or front() is taken of an empty list.
  datatype Exit =
    | Return
    | CallAcquire        // blockUntilGot calls lock_protocol::acquire
    | CallRelease        // calls lock_protocol::release
    | WaitFirst          // cond_wait of a thread that found an empty queue
    | WaitQueued         // cond_wait behind other threads
    | WaitRetry          // cond_wait for a retry
    | Fault

  // signal: the section signals the front of the new queue.
  datatype Outcome = Outcome(entry: Entry, exit: Exit, signal: bool)

  function Enter(e: Entry, t: Thread): Outcome {
    var e' := e.(threads := e.threads + [t]);
    if e.threads == [] then
      match e.state
      case Free => Outcome(e'.(state := Locked), Return, false)
      case None => Outcome(e'.(state := Acquiring), CallAcquire, false)
      case _ => Outcome(e', WaitFirst, false)
    else Outcome(e', WaitQueued, false)
  }

  function WakeFirst(e: Entry): Outcome {
    Outcome(e.(state := Acquiring), CallAcquire, false)
  }

  function WakeQueued(e: Entry): Outcome {
    match e.state
    case Free => Outcome(e.(state := Locked), Return, false)
    case Locked => Outcome(e, Return, false)
    case None => Outcome(e.(state := Acquiring), CallAcquire, false)
    case _ => Outcome(e, Fault, false)
  }

  function WakeRetry(e: Entry): Outcome {
    Outcome(e.(message := Empty), if e.state == Acquiring then CallAcquire else Fault, false)
  }

  function AcquireReply(e: Entry, reply: Reply): Outcome {
    if reply == OK then Outcome(e.(state := Locked), Return, false)
    else if e.message == Empty then Outcome(e, WaitRetry, false)
    else WakeRetry(e)
  }

  function Leave(e: Entry): Outcome {
    if e.message == Revoke then Outcome(e.(state := Releasing), CallRelease, false)
    else if e.threads == [] then Outcome(e, Fault, false)
    else
      var rest := e.threads[1..];
      Outcome(e.(state := if rest == [] then Free else Locked, threads := rest), Return, rest != [])
  }

  function ReleaseReply(e: Entry): Outcome {
    if e.threads == [] then Outcome(e, Fault, false)
    else
      var rest := e.threads[1..];
      Outcome(Entry(None, Empty, rest), Return, rest != [])
  }

  function RevokeHandler(e: Entry): Outcome {
    if e.state == Free then Outcome(e.(state := Releasing), CallRelease, false)
    else Outcome(e.(message := Revoke), Return, false)
  }

  function RevokeReleaseReply(e: Entry): Outcome {
    Outcome(e.(state := None), Return, e.threads != [])
  }

  function RetryHandler(e: Entry): Outcome {
    if e.threads == [] then Outcome(e, Fault, false)
    else Outcome(e.(message := Retry), Return, true)
  }

  /** The client object. Every method is one critical section for one lock id. */
  class LockClientCache {
    var lockManager: map<nat, Entry>

    constructor ()
      ensures lockManager == map[]
    {
      lockManager := map[];
    }

    method Acquire(lid: nat, thisThread: Thread) returns (exit: Exit)
      modifies this
      ensures var out := Enter(if lid in old(lockManager) then old(lockManager)[lid] else NEW_ENTRY, thisThread);
              lockManager == old(lockManager)[lid := out.entry] && exit == out.exit && !out.signal
    {
      if lid !in lockManager { lockManager := lockManager[lid := NEW_ENTRY]; }
      var e := lockManager[lid];
      if e.threads == [] {
        var s := e.state;
        e := e.(threads := e.threads + [thisThread]);
        if s == Free {
          e := e.(state := Locked);
          exit := Return;
        } else if s == None {
          e := e.(state := Acquiring);
          exit := CallAcquire;
        } else {
          exit := WaitFirst;
        }
      } else {
        e := e.(threads := e.threads + [thisThread]);
        exit := WaitQueued;
      }
      lockManager := lockManager[lid := e];
    }

    /** A woken thread resumes after the condition wait named by at. */
    method Resume(lid: nat, at: Exit) returns (exit: Exit)
      requires lid in lockManager && at in {WaitFirst, WaitQueued, WaitRetry}
      modifies this
      ensures var e := old(lockManager)[lid];
              var out := if at == WaitFirst then WakeFirst(e)
                         else if at == WaitQueued then WakeQueued(e) else WakeRetry(e);
              lockManager == old(lockManager)[lid := out.entry] && exit == out.exit && !out.signal
    {
      var e := lockManager[lid];
      exit := CallAcquire;
      if at == WaitFirst {
        e := e.(state := Acquiring);
      } else if at == WaitQueued {
        match e.state {
          case Free => e := e.(state := Locked); exit := Return;
          case Locked => exit := Return;
          case None => e := e.(state := Acquiring);
          case _ => exit := Fault;
        }
      } else {
        e := e.(message := Empty);
        if e.state != Acquiring { exit := Fault; }
      }
      lockManager := lockManager[lid := e];
    }

    /** The loop body of blockUntilGot after the acquire call has returned ret. */
    method AcquireReturned(lid: nat, ret: Reply) returns (exit: Exit)
      requires lid in lockManager
      modifies this
      ensures var out := AcquireReply(old(lockManager)[lid], ret);
              lockManager == old(lockManager)[lid := out.entry] && exit == out.exit && !out.signal
    {
      var e := lockManager[lid];
      if ret == OK {
        e := e.(state := Locked);
        exit := Return;
      } else if e.message == Empty {
        exit := WaitRetry;
      } else {
        e := e.(message := Empty);
        exit := if e.state == Acquiring then CallAcquire else Fault;
      }
      lockManager := lockManager[lid := e];
    }

    method Release(lid: nat) returns (exit: Exit, signal: bool)
      requires lid in lockManager
      modifies this
      ensures var out := Leave(old(lockManager)[lid]);
              lockManager == old(lockManager)[lid := out.entry] && exit == out.exit && signal == out.signal
    {
      var e := lockManager[lid];
      signal := false;
      if e.message == Revoke {
        e := e.(state := Releasing);
        exit := CallRelease;
      } else if e.threads == [] {
        exit := Fault;
      } else {
        e := e.(state := Free);
        e := e.(threads := e.threads[1..]);
        if |e.threads| >= 1 {
          e := e.(state := Locked);
          signal := true;
        }
        exit := Return;
      }
      lockManager := lockManager[lid := e];
    }

    method ReleaseReturned(lid: nat) returns (exit: Exit, signal: bool)
      requires lid in lockManager
      modifies this
      ensures var out := ReleaseReply(old(lockManager)[lid]);
              lockManager == old(lockManager)[lid := out.entry] && exit == out.exit && signal == out.signal
    {
      var e := lockManager[lid];
      exit, signal := Fault, false;
      if e.threads != [] {
        e := e.(message := Empty);
        e := e.(state := None);
        e := e.(threads := e.threads[1..]);
        exit, signal := Return, |e.threads| >= 1;
      }
      lockManager := lockManager[lid := e];
    }

    method Revoked(lid: nat) returns (exit: Exit)
      requires lid in lockManager
      modifies this
      ensures var out := RevokeHandler(old(lockManager)[lid]);
              lockManager == old(lockManager)[lid := out.entry] && exit == out.exit && !out.signal
    {
      var e := lockManager[lid];
      if e.state == Free {
        e := e.(state := Releasing);
        exit := CallRelease;
      } else {
        e := e.(message := Revoke);
        exit := Return;
      }
      lockManager := lockManager[lid := e];
    }

    method RevokedReleaseReturned(lid: nat) returns (signal: bool)
      requires lid in lockManager
      modifies this
      ensures var out := RevokeReleaseReply(old(lockManager)[lid]);
              lockManager == old(lockManager)[lid := out.entry] && out.exit == Return && signal == out.signal
    {
      var e := lockManager[lid];
      e := e.(state := None);
      signal := |e.threads| >= 1;
      lockManager := lockManager[lid := e];
    }

    method Retried(lid: nat) returns (exit: Exit, signal: bool)
      requires lid in lockManager
      modifies this
      ensures var out := RetryHandler(old(lockManager)[lid]);
              lockManager == old(lockManager)[lid := out.entry] && exit == out.exit && signal == out.signal
    {
      var e := lockManager[lid];
      exit, signal := Fault, false;
      if e.threads != [] {
        e := e.(message := Retry);
        exit, signal := Return, true;
      }
      lockManager := lockManager[lid := e];
    }
  }
}
