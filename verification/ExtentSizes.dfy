// When the size that a client has cached is the size of the file.

module ExtentSizes {
  import opened DiskLayout
  import opened ExtentNet

  predicate AttrOk(n: Net, c: ClientId, id: nat) {
    Slot(n.caches, c, id).attrStat == OK
  }

  function SizeAt(n: Net, c: ClientId, id: nat): nat {
    Slot(n.caches, c, id).attrSize
  }

  predicate SizeRight(n: Net, c: ClientId, id: nat)
    requires id in n.store
  {
    SizeAt(n, c, id) == |Latest(n, id)|
  }

  predicate On(op: Op, id: nat) {
    !op.DoCreate? && op.id == id
  }

  // ---- What one operation does to the attributes ----

  // The attributes of c after an operation of its own on id.
  function SizeAfter(n: Net, op: Op): nat
    requires !op.DoCreate? && op.id in n.store
  {
    if op.DoPut? then |op.buf|
    else if AttrOk(n, op.c, op.id) then SizeAt(n, op.c, op.id)
    else if op.DoGetAttr? && op.id in n.owner && n.owner[op.id] != op.c then SizeAt(n, n.owner[op.id], op.id)
    else |Latest(n, op.id)|
  }

  // A get or put by c: another client that has the data of id loses the data and the
  // attributes, all others keep both as they are. Nobody forgets what was in the entry.
  ghost predicate OthersGiveUp(n: Net, n': Net, c: ClientId, id: nat) {
    forall e :: e != c ==>
      var d, d' := Slot(n.caches, e, id), Slot(n'.caches, e, id);
      && d'.fileData == d.fileData && d'.attrSize == d.attrSize && d'.dataStat == NONE
      && (d'.attrStat == OK <==> d.attrStat == OK && d.dataStat == NONE)
  }

  // A getattr by c: all others keep everything.
  ghost predicate OthersKeep(n: Net, n': Net, c: ClientId, id: nat) {
    forall e :: e != c ==> Slot(n'.caches, e, id) == Slot(n.caches, e, id)
  }

  lemma ServeOthers(n: Net, c: ClientId, id: nat)
    requires Coherent(n) && NoData(n, c, id)
    ensures OthersGiveUp(n, Serve(n, c, id), c, id)
  {
    var n1 := Claim(n, c, id);
    var o := n1.owner[id];
    FlushSettles(n1, o, id);
    assert CoherentAt(n, id);
    forall e | e != c && Slot(n.caches, e, id).dataStat == OK ensures e == o { assert Holder(n, e, id); }
  }

  lemma FetchAllOthers(n: Net, c: ClientId, id: nat)
    requires Coherent(n) && id in n.store && c in n.caches && id in n.caches[c] && NoData(n, c, id)
    ensures OthersGiveUp(n, FetchAll(n, c, id), c, id)
  {
    ServeOthers(n, c, id);
    var n1 := Serve(n, c, id);
    SlotSet(n1, c, id, Slot(n1.caches, c, id).(fileData := n1.store[id], dataStat := OK));
    GetAttrOthers(Fetch(n, c, id), c, id);
  }

  lemma GetAttrOthers(n: Net, c: ClientId, id: nat)
    ensures OthersKeep(n, GetAttr(n, c, id), c, id)
  {
    var n1 := Touch(n, c, id);
    TouchSame(n, c, id);
    var n2 := Claim(n1, c, id);
    SlotSet(n2, c, id, Slot(n1.caches, c, id).(attrStat := OK, attrSize := SizeFor(n2, c, id)));
  }

  // A client that has the data is the only one.
  lemma HitOthers(n: Net, n': Net, c: ClientId, id: nat)
    requires Coherent(n) && !NoData(n, c, id) && OthersKeep(n, n', c, id)
    ensures OthersGiveUp(n, n', c, id)
  {
    forall e | e != c ensures Slot(n.caches, e, id).dataStat == NONE {
      if Slot(n.caches, e, id).dataStat == OK { SingleHolder(n, c, e, id); }
    }
  }

  lemma GetSlots(n: Net, c: ClientId, id: nat)
    requires Coherent(n) && id in n.store
    ensures OthersGiveUp(n, Get(n, c, id), c, id)
    ensures Slot(Get(n, c, id).caches, c, id) == FileData(OK, OK, Latest(n, id), SizeAfter(n, DoGet(c, id)))
  {
    var n1 := Touch(n, c, id);
    TouchSame(n, c, id);
    TouchElsewhere(n, c, id);
    if NoData(n1, c, id) {
      FetchAllOthers(n1, c, id);
      FetchAllSettles(n1, c, id);
    } else {
      HitSettles(n1, c, id);
      HitOthers(n1, n1, c, id);
    }
  }

  lemma GetAttrSlots(n: Net, c: ClientId, id: nat)
    requires Coherent(n) && id in n.store
    ensures OthersKeep(n, GetAttr(n, c, id), c, id)
    ensures Slot(GetAttr(n, c, id).caches, c, id)
            == Slot(n.caches, c, id).(attrStat := OK, attrSize := SizeAfter(n, DoGetAttr(c, id)))
  {
    var n1 := Touch(n, c, id);
    TouchSame(n, c, id);
    GetAttrOthers(n, c, id);
    assert CoherentAt(n, id);
    if Slot(n1.caches, c, id).attrStat == NONE {
      var n2 := Claim(n1, c, id);
      SlotSet(n2, c, id, Slot(n1.caches, c, id).(attrStat := OK, attrSize := SizeFor(n2, c, id)));
    }
  }

  lemma PutSlots(n: Net, c: ClientId, id: nat, buf: seq<Byte>)
    requires Coherent(n) && id in n.store
    ensures OthersGiveUp(n, Put(n, c, id, buf), c, id)
    ensures Slot(Put(n, c, id, buf).caches, c, id) == FileData(OK, OK, buf, |buf|)
  {
    var n1 := Touch(n, c, id);
    TouchSame(n, c, id);
    TouchKeeps(n, c, id);
    if NoData(n1, c, id) || Slot(n1.caches, c, id).attrStat == NONE {
      GetSlots(n1, c, id);
      SlotSet(Get(n1, c, id), c, id, FileData(OK, OK, buf, |buf|));
    } else {
      HitOthers(n1, n1, c, id);
      SlotSet(n1, c, id, FileData(OK, OK, buf, |buf|));
    }
  }

  /** What an operation on an id does to the entries of all clients: its own client's entry,
      and who gives up what. */
  lemma OpSlots(n: Net, op: Op, id: nat)
    requires Coherent(n) && Legal(n.store.Keys, op) && On(op, id)
    ensures if op.DoGetAttr? then OthersKeep(n, Apply(n, op), op.c, id) else OthersGiveUp(n, Apply(n, op), op.c, id)
    ensures Slot(Apply(n, op).caches, op.c, id)
            == match op
               case DoGetAttr(_, _) => Slot(n.caches, op.c, id).(attrStat := OK, attrSize := SizeAfter(n, op))
               case DoPut(_, _, buf) => FileData(OK, OK, buf, |buf|)
               case _ => FileData(OK, OK, Latest(n, id), SizeAfter(n, op))
  {
    match op
    case DoGet(c, id) => GetSlots(n, c, id);
    case DoGetAttr(c, id) => GetAttrSlots(n, c, id);
    case DoPut(c, id, buf) => PutSlots(n, c, id, buf);
  }

  /** Who is recorded afterwards, and what is in the store: a get or put records its client
      and, unless that has the data, leaves the latest bytes in the store; a getattr without
      attributes records its client if nobody is recorded. */
  lemma OpOwner(n: Net, op: Op, id: nat)
    requires Coherent(n) && Legal(n.store.Keys, op) && On(op, id)
    ensures var n' := Apply(n, op);
            && id in n'.store && n'.store[id] == (if op.DoGetAttr? || !NoData(n, op.c, id) then n.store[id] else Latest(n, id))
            && (if !op.DoGetAttr? then id in n'.owner && n'.owner[id] == op.c
                else if id in n.owner then id in n'.owner && n'.owner[id] == n.owner[id]
                else if AttrOk(n, op.c, id) then id !in n'.owner
                else id in n'.owner && n'.owner[id] == op.c)
  {
    match op
    case DoGet(c, id) => GetOwner(n, c, id);
    case DoGetAttr(c, id) =>
      var n1 := Touch(n, c, id);
      TouchSame(n, c, id);
    case DoPut(c, id, buf) =>
      var n1 := Touch(n, c, id);
      TouchSame(n, c, id);
      TouchElsewhere(n, c, id);
      if NoData(n1, c, id) || Slot(n1.caches, c, id).attrStat == NONE { GetOwner(n1, c, id); } else { HitSettles(n1, c, id); }
  }

  lemma GetOwner(n: Net, c: ClientId, id: nat)
    requires Coherent(n) && id in n.store
    ensures var n' := Get(n, c, id);
            && id in n'.owner && n'.owner[id] == c && id in n'.store
            && n'.store[id] == if NoData(n, c, id) then Latest(n, id) else n.store[id]
  {
    var n1 := Touch(n, c, id);
    TouchSame(n, c, id);
    TouchElsewhere(n, c, id);
    if NoData(n1, c, id) {
      ServeAlone(n1, c, id);
      FetchAllSettles(n1, c, id);
    } else {
      HitSettles(n1, c, id);
    }
  }

  /** A client whose data another one takes by a get or put loses its attributes. */
  lemma FlushedForgets(n: Net, op: Op, o: ClientId, id: nat)
    requires Coherent(n) && Legal(n.store.Keys, op) && On(op, id) && !op.DoGetAttr? && op.c != o
    ensures NoData(Apply(n, op), o, id)
    ensures AttrOk(Apply(n, op), o, id) <==> AttrOk(n, o, id) && NoData(n, o, id)
  {
    OpSlots(n, op, id);
  }

  // The attributes as the lemmas below use them.
  lemma OpAttrs(n: Net, op: Op, id: nat)
    requires Coherent(n) && Legal(n.store.Keys, op) && On(op, id)
    ensures forall e :: e != op.c ==>
              SizeAt(Apply(n, op), e, id) == SizeAt(n, e, id)
              && (AttrOk(Apply(n, op), e, id) <==> AttrOk(n, e, id) && (op.DoGetAttr? || NoData(n, e, id)))
    ensures AttrOk(Apply(n, op), op.c, id) && SizeAt(Apply(n, op), op.c, id) == SizeAfter(n, op)
  {
    OpSlots(n, op, id);
  }

  // An operation on another id.
  lemma OpElsewhere(n: Net, op: Op, id: nat)
    requires Coherent(n) && Legal(n.store.Keys, op) && !On(op, id)
    ensures forall c :: Slot(Apply(n, op).caches, c, id) == Slot(n.caches, c, id)
  {
    match op
    case DoCreate(_) =>
    case DoGet(c, g) =>
      GetSettles(n, c, g);
      assert SameAt(n, Get(n, c, g), id);
    case DoGetAttr(c, g) =>
      var n1 := Touch(n, c, g);
      TouchSame(n, c, g);
      SlotSet(Claim(n1, c, g), c, g, Slot(n1.caches, c, g).(attrStat := OK, attrSize := SizeFor(Claim(n1, c, g), c, g)));
    case DoPut(c, g, buf) =>
      var n1 := Touch(n, c, g);
      TouchSame(n, c, g);
      TouchKeeps(n, c, g);
      GetSettles(n1, c, g);
      assert SameAt(n1, Get(n1, c, g), id);
      var n2 := if Slot(n1.caches, c, g).dataStat == NONE || Slot(n1.caches, c, g).attrStat == NONE then Get(n1, c, g) else n1;
      SlotSet(n2, c, g, FileData(OK, OK, buf, |buf|));
  }

  // ---- All runs ----

  /** The number of operations after which the contents of id had the length that c's
      attributes tell. */
  function Origin(n: Net, ops: seq<Op>, c: ClientId, id: nat): nat {
    if ops == [] then 0
    else
      var init, op := ops[..|ops| - 1], ops[|ops| - 1];
      var n1 := Run(n, init);
      if !On(op, id) || op.c != c || (!op.DoPut? && AttrOk(n1, c, id)) then Origin(n, init, c, id)
      else if op.DoGetAttr? && id in n1.owner && n1.owner[id] != c then Origin(n, init, n1.owner[id], id)
      else |ops|
  }

  /** In every run from the start a cached size is the length that the file had at its
      origin; so it is right exactly if the file has that length again, or still. */
  lemma {:induction false} SizeIsOfOrigin(n: Net, ops: seq<Op>, c: ClientId, id: nat)
    requires Started(n) && LegalRun(n, ops) && AttrOk(Run(n, ops), c, id)
    ensures var k := Origin(n, ops, c, id);
            && k <= |ops| && LegalRun(n, ops[..k]) && id in Effects(View(n), ops[..k]) && id in Effects(View(n), ops)
            && SizeAt(Run(n, ops), c, id) == |Effects(View(n), ops[..k])[id]|
    ensures id in Run(n, ops).store
    ensures SizeRight(Run(n, ops), c, id) <==> |Effects(View(n), ops[..Origin(n, ops, c, id)])[id]| == |Effects(View(n), ops)[id]|
  {
    StartedCoherent(n);
    RunRefines(n, ops);
    if ops != [] {
      OriginStep(n, ops, c, id);
    }
  }

  lemma {:induction false} OriginStep(n: Net, ops: seq<Op>, c: ClientId, id: nat)
    requires Started(n) && Coherent(n) && LegalRun(n, ops) && AttrOk(Run(n, ops), c, id) && ops != []
    ensures var k := Origin(n, ops, c, id);
            && k <= |ops| && LegalRun(n, ops[..k]) && id in Effects(View(n), ops[..k]) && id in Effects(View(n), ops)
            && SizeAt(Run(n, ops), c, id) == |Effects(View(n), ops[..k])[id]|
    decreases |ops|, 0
  {
    var init, op := ops[..|ops| - 1], ops[|ops| - 1];
    var n1 := Run(n, init);
    RunRefines(n, init);
    RunRefines(n, ops);
    if !On(op, id) {
      OpElsewhere(n1, op, id);
      OriginInherited(n, ops, c, c, id);
    } else {
      OpAttrs(n1, op, id);
      assert CoherentAt(n1, id);
      if op.c != c || (!op.DoPut? && AttrOk(n1, c, id)) {
        OriginInherited(n, ops, c, c, id);
      } else if op.DoGetAttr? && id in n1.owner && n1.owner[id] != c {
        OriginInherited(n, ops, c, n1.owner[id], id);
      } else {
        assert ops[..|ops|] == ops;
      }
    }
  }

  // The size was already cached, by c or by the client e that c has got it from.
  lemma {:induction false} OriginInherited(n: Net, ops: seq<Op>, c: ClientId, e: ClientId, id: nat)
    requires Started(n) && Coherent(n) && LegalRun(n, ops) && ops != []
    requires AttrOk(Run(n, ops[..|ops| - 1]), e, id) && SizeAt(Run(n, ops), c, id) == SizeAt(Run(n, ops[..|ops| - 1]), e, id)
    requires Origin(n, ops, c, id) == Origin(n, ops[..|ops| - 1], e, id)
    ensures var k := Origin(n, ops, c, id);
            && k <= |ops| && LegalRun(n, ops[..k]) && id in Effects(View(n), ops[..k]) && id in Effects(View(n), ops)
            && SizeAt(Run(n, ops), c, id) == |Effects(View(n), ops[..k])[id]|
    decreases |ops| - 1, 1
  {
    var init := ops[..|ops| - 1];
    if init != [] {
      OriginStep(n, init, e, id);
      assert ops[..Origin(n, init, e, id)] == init[..Origin(n, init, e, id)];
    }
  }

  // ---- One client alone ----

  // All operations on id are by c.
  ghost predicate OnlyBy(ops: seq<Op>, c: ClientId, id: nat) {
    forall i :: 0 <= i < |ops| ==> On(ops[i], id) ==> ops[i].c == c
  }

  // Whoever has the attributes of id has the right size.
  ghost predicate SizesRight(n: Net, id: nat) {
    id in n.store ==> forall e :: AttrOk(n, e, id) ==> SizeRight(n, e, id)
  }

  // c knows the size, or all who could tell it know it.
  ghost predicate Knows(n: Net, c: ClientId, id: nat) {
    if id !in n.store then forall e :: !AttrOk(n, e, id)
    else if AttrOk(n, c, id) then SizeRight(n, c, id) else SizesRight(n, id)
  }

  lemma KnowsStep(n: Net, op: Op, c: ClientId, id: nat)
    requires Coherent(n) && Legal(n.store.Keys, op) && Knows(n, c, id) && (On(op, id) ==> op.c == c)
    ensures Knows(Apply(n, op), c, id)
  {
    var n' := Apply(n, op);
    StepRefines(n, op);
    assert CoherentAt(n, id);
    if On(op, id) {
      OpAttrs(n, op, id);
      assert View(n')[id] == Latest(n', id) && View(n)[id] == Latest(n, id);
    } else {
      OpElsewhere(n, op, id);
      LatestElsewhere(n, op, id);
      forall e ensures AttrOk(n', e, id) == AttrOk(n, e, id) && SizeAt(n', e, id) == SizeAt(n, e, id) {
        assert Slot(n'.caches, e, id) == Slot(n.caches, e, id);
      }
      KnowsSame(n, n', c, id);
    }
  }

  lemma KnowsSame(n: Net, n': Net, c: ClientId, id: nat)
    requires forall e :: AttrOk(n', e, id) == AttrOk(n, e, id) && SizeAt(n', e, id) == SizeAt(n, e, id)
    requires Knows(n, c, id) && (id in n.store ==> id in n'.store && Latest(n', id) == Latest(n, id))
    ensures Knows(n', c, id)
  {
  }

  lemma LatestElsewhere(n: Net, op: Op, id: nat)
    requires Coherent(n) && Legal(n.store.Keys, op) && !On(op, id)
    ensures id in n.store ==> id in Apply(n, op).store && Latest(Apply(n, op), id) == Latest(n, id)
    ensures id in Apply(n, op).store ==> id in n.store || op == DoCreate(id)
  {
    var m, m' := View(n), View(Apply(n, op));
    StepRefines(n, op);
    assert id in m <==> id in n.store;
    assert id in m' <==> id in Apply(n, op).store;
    if id in n.store { assert m[id] == Latest(n, id) && m'[id] == Latest(Apply(n, op), id); }
  }

  /** While one client alone works on an id, from a state in which the cached sizes are
      right, the size that it has cached is right. */
  lemma {:induction false} AloneKnows(n: Net, ops: seq<Op>, c: ClientId, id: nat)
    requires Coherent(n) && Knows(n, c, id) && LegalRun(n, ops) && OnlyBy(ops, c, id)
    ensures Knows(Run(n, ops), c, id)
  {
    if ops != [] {
      var init := ops[..|ops| - 1];
      AloneKnows(n, init, c, id);
      RunRefines(n, init);
      KnowsStep(Run(n, init), ops[|ops| - 1], c, id);
    }
  }

  /** One operation keeps all cached sizes right unless it is a put that changes the length
      while another client keeps its attributes. */
  lemma SizesStayRight(n: Net, op: Op, id: nat)
    requires Coherent(n) && Legal(n.store.Keys, op) && On(op, id) && SizesRight(n, id)
    ensures SizesRight(Apply(n, op), id) <==>
              !(op.DoPut? && |op.buf| != |Latest(n, id)| && exists e :: e != op.c && AttrOk(Apply(n, op), e, id))
  {
    var n' := Apply(n, op);
    StepRefines(n, op);
    OpAttrs(n, op, id);
    assert CoherentAt(n, id);
    assert View(n')[id] == Latest(n', id) && View(n)[id] == Latest(n, id);
    if e :| op.DoPut? && |op.buf| != |Latest(n, id)| && e != op.c && AttrOk(n', e, id) {
      assert AttrOk(n, e, id) && SizeRight(n, e, id) && !SizeRight(n', e, id);
    }
  }

  // ---- After a flush ----

  // No operation on id is by c.
  ghost predicate NoneBy(ops: seq<Op>, c: ClientId, id: nat) {
    forall i :: 0 <= i < |ops| ==> On(ops[i], id) ==> ops[i].c != c
  }

  // Client o has nothing of id, and another one is recorded.
  predicate Out(n: Net, o: ClientId, id: nat) {
    id in n.store && id in n.owner && n.owner[id] != o && NoData(n, o, id) && !AttrOk(n, o, id)
  }

  lemma OutStays(n: Net, op: Op, o: ClientId, id: nat)
    requires Coherent(n) && Legal(n.store.Keys, op) && Out(n, o, id) && (On(op, id) ==> op.c != o)
    ensures Out(Apply(n, op), o, id)
  {
    StepRefines(n, op);
    if On(op, id) {
      OpSlots(n, op, id);
      OpOwner(n, op, id);
    } else {
      OpElsewhere(n, op, id);
      LatestElsewhere(n, op, id);
      OwnerElsewhere(n, op, id);
    }
  }

  lemma OwnerElsewhere(n: Net, op: Op, id: nat)
    requires Coherent(n) && Legal(n.store.Keys, op) && !On(op, id)
    ensures (id in Apply(n, op).owner <==> id in n.owner) && (id in n.owner ==> Apply(n, op).owner[id] == n.owner[id])
  {
    match op
    case DoCreate(_) =>
    case DoGet(c, g) =>
      GetSettles(n, c, g);
      assert SameAt(n, Get(n, c, g), id);
    case DoGetAttr(c, g) =>
    case DoPut(c, g, buf) =>
      var n1 := Touch(n, c, g);
      TouchSame(n, c, g);
      TouchKeeps(n, c, g);
      GetSettles(n1, c, g);
      assert SameAt(n1, Get(n1, c, g), id);
  }

  lemma {:induction false} OutAlways(n: Net, ops: seq<Op>, o: ClientId, id: nat)
    requires Coherent(n) && LegalRun(n, ops) && Out(n, o, id) && NoneBy(ops, o, id)
    ensures Out(Run(n, ops), o, id)
  {
    if ops != [] {
      var init := ops[..|ops| - 1];
      OutAlways(n, init, o, id);
      RunRefines(n, init);
      OutStays(Run(n, init), ops[|ops| - 1], o, id);
    }
  }

  /** In every run: a client o that had the data when another one did a get or put, and has
      done nothing on the id since, is told by its next getattr the size that the client
      recorded then has cached. */
  lemma AsksAfterFlush(n: Net, ops: seq<Op>, op: Op, more: seq<Op>, o: ClientId, id: nat)
    requires Started(n) && LegalRun(n, ops) && !NoData(Run(n, ops), o, id)
    requires Legal(Run(n, ops).store.Keys, op) && On(op, id) && !op.DoGetAttr? && op.c != o
    requires LegalRun(Apply(Run(n, ops), op), more) && NoneBy(more, o, id)
    ensures var n' := Run(Apply(Run(n, ops), op), more);
            && !AttrOk(n', o, id) && id in n'.owner && n'.owner[id] != o && id in n'.store
            && SizeAt(GetAttr(n', o, id), o, id) == SizeAt(n', n'.owner[id], id)
  {
    var n1 := Run(n, ops);
    var n2 := Apply(n1, op);
    StartedCoherent(n);
    RunRefines(n, ops);
    OpSlots(n1, op, id);
    OpOwner(n1, op, id);
    StepRefines(n1, op);
    OutAlways(n2, more, o, id);
    RunRefines(n2, more);
    GetAttrSlots(Run(n2, more), o, id);
  }
}
