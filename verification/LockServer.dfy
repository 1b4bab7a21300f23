// The caching lock server: one table entry per lock id, and the two critical
// sections of the server, acquire and release.

/** Names shared by both halves of the lock protocol. */
module LockTypes {
  // A client id stands for the client's "host:port" string; NOBODY is the empty
  // string, and ids are ordered as the server's std::set orders them.
  const NOBODY: nat := 0

  datatype Thread = Thread(client: nat, num: nat)

  // Replies of lock_protocol::acquire.
  datatype Reply = OK | RETRY
}

module LockServer {
  import opened LockTypes

  datatype State = None | Locked | Revoking | Retrying

  datatype Entry = Entry(state: State, owner: nat, retrying: nat, waiting: set<nat>)

  const NEW_ENTRY := Entry(None, NOBODY, NOBODY, {})

  // What a handler thread still has to do after it has left the critical section.
  // RevokeOwner reads the entry's owner field again, without the mutex.
  datatype Follow = Nothing | RevokeOwner | RevokeCaller

  // Fault: an assert of the handler fails, or it reads *begin() of an empty set.
  datatype AcquireResult = AcquireFault | Acquired(entry: Entry, reply: Reply, follow: Follow)
  datatype ReleaseResult = ReleaseFault | Released(entry: Entry, next: nat)

  /** The critical section of acquire for client c. */
  function AcquireSection(e: Entry, c: nat): AcquireResult {
    match e.state
    case None =>
      if e.owner != NOBODY then AcquireFault
      else Acquired(e.(state := Locked, owner := c), OK, Nothing)
    case Locked =>
      if c in e.waiting || e.owner == NOBODY || e.owner == c then AcquireFault
      else Acquired(e.(state := Revoking, waiting := e.waiting + {c}), RETRY, RevokeOwner)
    case Revoking =>
      if c in e.waiting then AcquireFault
      else Acquired(e.(waiting := e.waiting + {c}), RETRY, Nothing)
    case Retrying =>
      if c in e.waiting then AcquireFault
      else if c == e.retrying then
        var e' := e.(retrying := NOBODY, owner := c);
        if e.waiting != {} then Acquired(e'.(state := Revoking), OK, RevokeCaller)
        else Acquired(e'.(state := Locked), OK, Nothing)
      else Acquired(e.(waiting := e.waiting + {c}), RETRY, Nothing)
  }

  ghost predicate IsLeast(m: nat, s: set<nat>) {
    m in s && forall x :: x in s ==> m <= x
  }

  lemma {:induction false} LeastExists(s: set<nat>)
    requires s != {}
    ensures exists m :: IsLeast(m, s)
  {
    var x :| x in s;
    if s == {x} {
      assert IsLeast(x, s);
    } else {
      assert s - {x} != {};
      LeastExists(s - {x});
      var m :| IsLeast(m, s - {x});
      assert forall y :: y in s ==> y == x || y in s - {x};
      assert IsLeast(if x < m then x else m, s);
    }
  }

  /** The first element in the set's iteration order. */
  ghost function Least(s: set<nat>): (m: nat)
    requires s != {}
    ensures IsLeast(m, s)
  {
    LeastExists(s);
    var m :| IsLeast(m, s);
    m
  }

  /** The critical section of release for client c. */
  ghost function ReleaseSection(e: Entry, c: nat): ReleaseResult {
    if e.state != Revoking || e.owner != c || e.waiting == {} then ReleaseFault
    else
      var next := Least(e.waiting);
      Released(Entry(Retrying, NOBODY, next, e.waiting - {next}), next)
  }

  class LockServerCache {
    var lockManager: map<nat, Entry>

    constructor ()
      ensures lockManager == map[]
    {
      lockManager := map[];
    }

    // The entry of lid; a missing one reads as freshly created.
    function EntryOf(lid: nat): Entry
      reads this
    {
      if lid in lockManager then lockManager[lid] else NEW_ENTRY
    }

    method Acquire(lid: nat, clientID: nat) returns (reply: Reply, follow: Follow, fault: bool)
      modifies this
      ensures fault == AcquireSection(old(EntryOf(lid)), clientID).AcquireFault?
      ensures !fault ==> Acquired(EntryOf(lid), reply, follow) == AcquireSection(old(EntryOf(lid)), clientID)
      ensures lockManager == old(lockManager)[lid := EntryOf(lid)]
    {
      reply, follow, fault := RETRY, Nothing, false;
      if lid !in lockManager {
        lockManager := lockManager[lid := NEW_ENTRY];
      }
      var e := lockManager[lid];
      match e.state {
        case None =>
          if e.owner != NOBODY { fault := true; return; }
          e := e.(state := Locked);
          e := e.(owner := clientID);
          reply := OK;
        case Locked =>
          if clientID in e.waiting || e.owner == NOBODY || e.owner == clientID { fault := true; return; }
          e := e.(waiting := e.waiting + {clientID});
          e := e.(state := Revoking);
          follow := RevokeOwner;
        case Revoking =>
          if clientID in e.waiting { fault := true; return; }
          e := e.(waiting := e.waiting + {clientID});
        case Retrying =>
          if clientID in e.waiting { fault := true; return; }
          if clientID == e.retrying {
            e := e.(retrying := NOBODY);
            e := e.(state := Locked);
            e := e.(owner := clientID);
            if e.waiting != {} {
              e := e.(state := Revoking);
              follow := RevokeCaller;
            }
            reply := OK;
          } else {
            e := e.(waiting := e.waiting + {clientID});
          }
      }
      lockManager := lockManager[lid := e];
    }

    method Release(lid: nat, clientID: nat) returns (next: nat, fault: bool)
      modifies this
      ensures fault == ReleaseSection(old(EntryOf(lid)), clientID).ReleaseFault?
      ensures fault ==> lockManager == old(lockManager)
      ensures !fault ==> Released(EntryOf(lid), next) == ReleaseSection(old(EntryOf(lid)), clientID)
      ensures !fault ==> lockManager == old(lockManager)[lid := EntryOf(lid)]
    {
      next, fault := NOBODY, true;
      if lid !in lockManager { return; }
      var e := lockManager[lid];
      if e.state != Revoking || e.owner != clientID || e.waiting == {} { return; }
      next := First(e.waiting);
      e := e.(waiting := e.waiting - {next});
      e := e.(retrying := next);
      e := e.(owner := NOBODY);
      e := e.(state := Retrying);
      lockManager := lockManager[lid := e];
      fault := false;
    }
  }

  /** *begin() of a non-empty set. */
  method First(s: set<nat>) returns (m: nat)
    requires s != {}
    ensures m == Least(s)
  {
    m :| m in s;
    var rest := s - {m};
    while rest != {}
      invariant rest <= s
      invariant m in s
      invariant forall x :: x in s ==> x in rest || m <= x
      decreases rest
    {
      var x :| x in rest;
      if x < m { m := x; }
      rest := rest - {x};
    }
    assert IsLeast(m, s);
  }
}
