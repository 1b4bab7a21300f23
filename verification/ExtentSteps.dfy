// The operations of a client on an id, taken apart: each reads and changes a shared entry
// once, and other operations may run in between.

module ExtentSteps {
  import opened DiskLayout
  import opened ExtentNet

  // One access. Those of a fetch happen only if the client has not got the data, those for
  // the attributes only if it has none.
  datatype Action =
    | MakeEntry       // fileManager[eid] = new FileData()
    | ClaimData       // fileManger[id] = clt, if nobody is recorded
    | WriteBack       // the owner, if it is another client, puts its data ...
    | Drop            // ... and forgets them
    | TakeOver        // fileManger[id] = clt
    | Fill            // file_data is what has been read
    | ClaimAttr       // the server's getattr records clt, if nobody is recorded
    | FillAttr        // file_attr is what it has returned
    | Overwrite       // put: file_data = buf

  const FETCH: seq<Action> := [MakeEntry, ClaimData, WriteBack, Drop, TakeOver, Fill, ClaimAttr, FillAttr]

  function Program(op: Op): seq<Action> {
    match op
    case DoGet(_, _) => FETCH
    case DoPut(_, _, _) => FETCH + [Overwrite]
    case DoGetAttr(_, _) => [MakeEntry, ClaimAttr, FillAttr]
    case DoCreate(_) => []
  }

  function Perform(n: Net, a: Action, c: ClientId, id: nat, buf: seq<Byte>): Net {
    match a
    case MakeEntry => Touch(n, c, id)
    case ClaimData => if NoData(n, c, id) then Claim(n, c, id) else n
    case WriteBack => if NoData(n, c, id) && Flushes(n, c, id) then n.(store := n.store[id := Slot(n.caches, n.owner[id], id).fileData]) else n
    case Drop =>
      if NoData(n, c, id) && Flushes(n, c, id) then
        var d := Slot(n.caches, n.owner[id], id);
        SetSlot(n, n.owner[id], id, FileData(NONE, NONE, d.fileData, d.attrSize))
      else n
    case TakeOver => if NoData(n, c, id) then n.(owner := n.owner[id := c]) else n
    case Fill =>
      if NoData(n, c, id) && id in n.store then SetSlot(n, c, id, Slot(n.caches, c, id).(fileData := n.store[id], dataStat := OK)) else n
    case ClaimAttr => if Slot(n.caches, c, id).attrStat == NONE then Claim(n, c, id) else n
    case FillAttr =>
      if Slot(n.caches, c, id).attrStat == NONE then
        SetSlot(n, c, id, Slot(n.caches, c, id).(attrStat := OK, attrSize := SizeFor(n, c, id)))
      else n
    case Overwrite => SetSlot(n, c, id, FileData(OK, OK, buf, |buf|))
  }

  function BufOf(op: Op): seq<Byte> {
    if op.DoPut? then op.buf else []
  }

  // An operation after its first k actions.
  function Partial(n: Net, op: Op, k: nat): Net
    requires !op.DoCreate? && k <= |Program(op)|
  {
    if k == 0 then n else Perform(Partial(n, op, k - 1), Program(op)[k - 1], op.c, op.id, BufOf(op))
  }

  // ---- All actions together are the operation ----

  lemma FetchActions(n: Net, c: ClientId, id: nat, buf: seq<Byte>)
    requires c in n.caches && id in n.caches[c] && id in n.store && NoData(n, c, id)
    ensures var n1 := Perform(n, ClaimData, c, id, buf);
            var n2 := Perform(n1, WriteBack, c, id, buf);
            var n3 := Perform(n2, Drop, c, id, buf);
            var n4 := Perform(n3, TakeOver, c, id, buf);
            n4 == Serve(n, c, id) && Perform(n4, Fill, c, id, buf) == Fetch(n, c, id)
  {
    var n1 := Claim(n, c, id);
    if Flushes(n1, c, id) {
      var o := n1.owner[id];
      var d := Slot(n1.caches, o, id);
      var n2 := n1.(store := n1.store[id := d.fileData]);
      SlotSet(n2, o, id, FileData(NONE, NONE, d.fileData, d.attrSize));
    }
  }

  lemma AttrActions(n: Net, c: ClientId, id: nat, buf: seq<Byte>)
    requires c in n.caches && id in n.caches[c]
    ensures Perform(Perform(n, ClaimAttr, c, id, buf), FillAttr, c, id, buf) == GetAttr(n, c, id)
  {
    TouchTwice(n, c, id);
    var n1 := Claim(n, c, id);
    assert Slot(n1.caches, c, id) == Slot(n.caches, c, id);
  }

  // The eight actions of a get.
  function AfterFetch(n: Net, c: ClientId, id: nat, buf: seq<Byte>): Net {
    var n1 := Perform(n, MakeEntry, c, id, buf);
    var n2 := Perform(n1, ClaimData, c, id, buf);
    var n3 := Perform(n2, WriteBack, c, id, buf);
    var n4 := Perform(n3, Drop, c, id, buf);
    var n5 := Perform(n4, TakeOver, c, id, buf);
    var n6 := Perform(n5, Fill, c, id, buf);
    var n7 := Perform(n6, ClaimAttr, c, id, buf);
    Perform(n7, FillAttr, c, id, buf)
  }

  lemma GetActions(n: Net, c: ClientId, id: nat, buf: seq<Byte>)
    requires Coherent(n) && id in n.store
    ensures AfterFetch(n, c, id, buf) == Get(n, c, id)
  {
    var n1 := Touch(n, c, id);
    TouchSame(n, c, id);
    TouchElsewhere(n, c, id);
    if NoData(n1, c, id) {
      FetchActions(n1, c, id, buf);
      FetchSettles(n1, c, id);
      var n6 := Fetch(n1, c, id);
      AttrActions(n6, c, id, buf);
      if Slot(n6.caches, c, id).attrStat == OK { TouchTwice(n6, c, id); }
    } else {
      HitSettles(n1, c, id);
    }
  }

  lemma PartialFetch(n: Net, op: Op)
    requires op.DoGet? || op.DoPut?
    ensures Partial(n, op, 8) == AfterFetch(n, op.c, op.id, BufOf(op))
  {
    var p, c, id, buf := Program(op), op.c, op.id, BufOf(op);
    assert p[..8] == FETCH;
    assert p[0] == MakeEntry && p[1] == ClaimData && p[2] == WriteBack && p[3] == Drop;
    assert p[4] == TakeOver && p[5] == Fill && p[6] == ClaimAttr && p[7] == FillAttr;
    var n2 := Perform(Touch(n, c, id), ClaimData, c, id, buf);
    assert Partial(n, op, 1) == Perform(n, MakeEntry, c, id, buf);
    assert Partial(n, op, 2) == n2;
    var n4 := Perform(Perform(n2, WriteBack, c, id, buf), Drop, c, id, buf);
    assert Partial(n, op, 3) == Perform(n2, WriteBack, c, id, buf);
    assert Partial(n, op, 4) == n4;
    assert Partial(n, op, 5) == Perform(n4, TakeOver, c, id, buf);
    assert Partial(n, op, 6) == Perform(Partial(n, op, 5), Fill, c, id, buf);
    assert Partial(n, op, 7) == Perform(Partial(n, op, 6), ClaimAttr, c, id, buf);
  }

  lemma PutIsGetThen(n: Net, c: ClientId, id: nat, buf: seq<Byte>)
    requires Coherent(n) && id in n.store
    ensures Put(n, c, id, buf) == SetSlot(Get(n, c, id), c, id, FileData(OK, OK, buf, |buf|))
  {
    var n1 := Touch(n, c, id);
    TouchSame(n, c, id);
    TouchElsewhere(n, c, id);
    TouchTwice(n1, c, id);
    if !NoData(n1, c, id) { HitSettles(n1, c, id); }
  }

  lemma PartialIsGet(n: Net, op: Op)
    requires Coherent(n) && (op.DoGet? || op.DoPut?) && op.id in n.store
    ensures Partial(n, op, 8) == Get(n, op.c, op.id)
  {
    PartialFetch(n, op);
    GetActions(n, op.c, op.id, BufOf(op));
  }

  lemma PartialLast(n: Net, op: Op, n8: Net)
    requires op.DoPut? && Partial(n, op, 8) == n8
    ensures Partial(n, op, 9) == SetSlot(n8, op.c, op.id, FileData(OK, OK, op.buf, |op.buf|))
  {
    assert Program(op)[8] == Overwrite;
  }

  lemma PutActions(n: Net, op: Op)
    requires Coherent(n) && op.DoPut? && op.id in n.store
    ensures Partial(n, op, 9) == Put(n, op.c, op.id, op.buf)
  {
    PartialIsGet(n, op);
    PartialLast(n, op, Get(n, op.c, op.id));
    PutIsGetThen(n, op.c, op.id, op.buf);
  }

  lemma GetAttrActions(n: Net, op: Op)
    requires op.DoGetAttr?
    ensures Partial(n, op, 3) == GetAttr(n, op.c, op.id)
  {
    var c, id := op.c, op.id;
    var n1 := Touch(n, c, id);
    TouchSame(n, c, id);
    AttrActions(n1, c, id, []);
    TouchTwice(n1, c, id);
    assert Program(op) == [MakeEntry, ClaimAttr, FillAttr];
    assert Partial(n, op, 1) == n1;
    assert Partial(n, op, 2) == Perform(n1, ClaimAttr, c, id, []);
  }

  /** An operation that nobody disturbs is the operation as one step. */
  lemma AllActions(n: Net, op: Op)
    requires Coherent(n) && !op.DoCreate? && Legal(n.store.Keys, op)
    ensures Partial(n, op, |Program(op)|) == Apply(n, op)
  {
    match op
    case DoGet(c, id) => PartialIsGet(n, op);
    case DoPut(c, id, buf) => PutActions(n, op);
    case DoGetAttr(c, id) => GetAttrActions(n, op);
  }

  // ---- Actions on different ids do not see each other ----

  // n and n' are alike as far as id is concerned.
  ghost predicate Like(n: Net, n': Net, id: nat) {
    && (id in n'.owner <==> id in n.owner) && (id in n.owner ==> n'.owner[id] == n.owner[id])
    && (id in n'.store <==> id in n.store) && (id in n.store ==> n'.store[id] == n.store[id])
    && (forall c :: Slot(n'.caches, c, id) == Slot(n.caches, c, id))
  }

  lemma LikeTrans(n: Net, n1: Net, n2: Net, id: nat)
    requires Like(n, n1, id) && Like(n1, n2, id)
    ensures Like(n, n2, id)
  {
  }

  lemma SetLike(n: Net, n': Net, e: ClientId, id: nat, d: FileData)
    requires Like(n, n', id)
    ensures Like(SetSlot(n, e, id, d), SetSlot(n', e, id, d), id)
    ensures forall g :: g != id ==> Like(n, SetSlot(n, e, id, d), g)
  {
    SlotSet(n, e, id, d);
    SlotSet(n', e, id, d);
  }

  lemma PerformLike(n: Net, n': Net, a: Action, c: ClientId, id: nat, buf: seq<Byte>)
    requires Like(n, n', id)
    ensures Like(Perform(n, a, c, id, buf), Perform(n', a, c, id, buf), id)
  {
    match a
    case MakeEntry => SetLike(n, n', c, id, Slot(n.caches, c, id));
    case ClaimData =>
    case WriteBack =>
    case Drop =>
      if NoData(n, c, id) && Flushes(n, c, id) {
        var d := Slot(n.caches, n.owner[id], id);
        SetLike(n, n', n.owner[id], id, FileData(NONE, NONE, d.fileData, d.attrSize));
      }
    case TakeOver =>
    case Fill =>
      if NoData(n, c, id) && id in n.store {
        SetLike(n, n', c, id, Slot(n.caches, c, id).(fileData := n.store[id], dataStat := OK));
      }
    case ClaimAttr =>
    case FillAttr => SetLike(n, n', c, id, Slot(n.caches, c, id).(attrStat := OK, attrSize := SizeFor(n, c, id)));
    case Overwrite => SetLike(n, n', c, id, FileData(OK, OK, buf, |buf|));
  }

  lemma PerformElsewhere(n: Net, a: Action, c: ClientId, id: nat, buf: seq<Byte>, g: nat)
    requires g != id
    ensures Like(n, Perform(n, a, c, id, buf), g)
  {
    match a
    case MakeEntry => SetLike(n, n, c, id, Slot(n.caches, c, id));
    case ClaimData =>
    case WriteBack =>
    case Drop =>
      if NoData(n, c, id) && Flushes(n, c, id) {
        var d := Slot(n.caches, n.owner[id], id);
        SetLike(n, n, n.owner[id], id, FileData(NONE, NONE, d.fileData, d.attrSize));
      }
    case TakeOver =>
    case Fill =>
      if NoData(n, c, id) && id in n.store {
        SetLike(n, n, c, id, Slot(n.caches, c, id).(fileData := n.store[id], dataStat := OK));
      }
    case ClaimAttr =>
    case FillAttr => SetLike(n, n, c, id, Slot(n.caches, c, id).(attrStat := OK, attrSize := SizeFor(n, c, id)));
    case Overwrite => SetLike(n, n, c, id, FileData(OK, OK, buf, |buf|));
  }

  lemma {:induction false} PartialLike(n: Net, n': Net, op: Op, k: nat)
    requires !op.DoCreate? && k <= |Program(op)| && Like(n, n', op.id)
    ensures Like(Partial(n, op, k), Partial(n', op, k), op.id)
  {
    if k > 0 {
      PartialLike(n, n', op, k - 1);
      PerformLike(Partial(n, op, k - 1), Partial(n', op, k - 1), Program(op)[k - 1], op.c, op.id, BufOf(op));
    }
  }

  lemma {:induction false} PartialElsewhere(n: Net, op: Op, k: nat, g: nat)
    requires !op.DoCreate? && k <= |Program(op)| && g != op.id
    ensures Like(n, Partial(n, op, k), g)
  {
    if k > 0 {
      PartialElsewhere(n, op, k - 1, g);
      PerformElsewhere(Partial(n, op, k - 1), Program(op)[k - 1], op.c, op.id, BufOf(op), g);
      LikeTrans(n, Partial(n, op, k - 1), Partial(n, op, k), g);
    }
  }

  lemma ApplyElsewhere(n: Net, op: Op, g: nat)
    requires Coherent(n) && Legal(n.store.Keys, op) && g != op.id
    ensures Like(n, Apply(n, op), g)
  {
    if !op.DoCreate? {
      AllActions(n, op);
      PartialElsewhere(n, op, |Program(op)|, g);
    }
  }
}
