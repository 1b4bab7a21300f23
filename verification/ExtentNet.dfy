// The write-back extent cache as a value: the server's owner map, the cache of every
// client and the store behind the server. Each operation on an id is atomic, because
// yfs_client holds the lock of that id.

module ExtentNet {
  import opened DiskLayout

  type ClientId = string

  datatype CacheState = NONE | OK

  // attrSize is the size in file_attr. It has no meaning while attrStat is NONE.
  datatype FileData = FileData(dataStat: CacheState, attrStat: CacheState, fileData: seq<Byte>, attrSize: nat)

  const NEW: FileData := FileData(NONE, NONE, [], 0)

  type Cache = map<nat, FileData>

  datatype Net = Net(owner: map<nat, ClientId>, caches: map<ClientId, Cache>, store: map<nat, seq<Byte>>)

  // ---- What the operations do ----

  function Slot(caches: map<ClientId, Cache>, c: ClientId, id: nat): FileData {
    if c in caches && id in caches[c] then caches[c][id] else NEW
  }

  function SetSlot(n: Net, c: ClientId, id: nat, d: FileData): Net {
    n.(caches := n.caches[c := (if c in n.caches then n.caches[c] else map[])[id := d]])
  }

  // Every client operation begins by making an entry if there is none.
  function Touch(n: Net, c: ClientId, id: nat): Net {
    SetSlot(n, c, id, Slot(n.caches, c, id))
  }

  // The server records the first client that asks for an id.
  function Claim(n: Net, c: ClientId, id: nat): Net {
    if id in n.owner then n else n.(owner := n.owner[id := c])
  }

  // Client c writes what it has cached back to the store and forgets it.
  function Flush(n: Net, c: ClientId, id: nat): Net {
    var d := Slot(n.caches, c, id);
    if d.dataStat == NONE then n
    else SetSlot(n.(store := n.store[id := d.fileData]), c, id, FileData(NONE, NONE, d.fileData, d.attrSize))
  }

  predicate NoData(n: Net, c: ClientId, id: nat) {
    Slot(n.caches, c, id).dataStat == NONE
  }

  // Another client has data that it would have to write back first.
  predicate Flushes(n: Net, c: ClientId, id: nat) {
    id in n.owner && n.owner[id] != c && Slot(n.caches, n.owner[id], id).dataStat == OK
  }

  // The server's get: the owner is flushed if it is another client.
  function Serve(n: Net, c: ClientId, id: nat): Net {
    var n1 := Claim(n, c, id);
    var n2 := if n1.owner[id] != c then Flush(n1, n1.owner[id], id) else n1;
    n2.(owner := n2.owner[id := c])
  }

  // The size that the server's getattr returns: from the owner, or from the inode layer if
  // that is c itself.
  function SizeFor(n: Net, c: ClientId, id: nat): nat {
    if id in n.owner && n.owner[id] != c then Slot(n.caches, n.owner[id], id).attrSize
    else if id in n.store then |n.store[id]| else 0
  }

  function GetAttr(n: Net, c: ClientId, id: nat): Net {
    var n1 := Touch(n, c, id);
    if Slot(n1.caches, c, id).attrStat == OK then n1
    else
      var n2 := Claim(n1, c, id);
      SetSlot(n2, c, id, Slot(n1.caches, c, id).(attrStat := OK, attrSize := SizeFor(n2, c, id)))
  }

  function Fetch(n: Net, c: ClientId, id: nat): Net
    requires id in n.store
  {
    var n1 := Serve(n, c, id);
    SetSlot(n1, c, id, Slot(n1.caches, c, id).(fileData := n1.store[id], dataStat := OK))
  }

  // A fetch followed by getattr if the attributes are missing.
  function FetchAll(n: Net, c: ClientId, id: nat): Net
    requires id in n.store
  {
    var n2 := Fetch(n, c, id);
    if Slot(n2.caches, c, id).attrStat == NONE then GetAttr(n2, c, id) else n2
  }

  function Get(n: Net, c: ClientId, id: nat): Net
    requires id in n.store
  {
    var n1 := Touch(n, c, id);
    if Slot(n1.caches, c, id).dataStat == OK then n1
    else FetchAll(n1, c, id)
  }

  function Put(n: Net, c: ClientId, id: nat, buf: seq<Byte>): Net
    requires id in n.store
  {
    var n1 := Touch(n, c, id);
    var n2 := if Slot(n1.caches, c, id).dataStat == NONE || Slot(n1.caches, c, id).attrStat == NONE then Get(n1, c, id) else n1;
    SetSlot(n2, c, id, FileData(OK, OK, buf, |buf|))
  }

  function Create(n: Net, id: nat): Net {
    n.(store := n.store[id := []])
  }

  // ---- Coherence ----

  const MAX_SIZE: nat := 0x8000_0000

  /** A client that has the data of an id is the one the server has recorded, and a
      recorded client has an entry with attributes. */
  ghost predicate Coherent(n: Net) {
    forall id :: CoherentAt(n, id)
  }

  ghost predicate CoherentAt(n: Net, id: nat) {
    && (id in n.owner ==> id in n.store && Recorded(n, n.owner[id], id))
    && (forall c :: Slot(n.caches, c, id).dataStat == OK ==> Holder(n, c, id))
    && (id in n.store ==> |n.store[id]| < MAX_SIZE)
  }

  predicate Recorded(n: Net, c: ClientId, id: nat) {
    c in n.caches && id in n.caches[c] && n.caches[c][id].attrStat == OK
  }

  predicate Holder(n: Net, c: ClientId, id: nat) {
    id in n.owner && n.owner[id] == c && |Slot(n.caches, c, id).fileData| < MAX_SIZE
  }

  /** At most one client has the data. */
  lemma SingleHolder(n: Net, c: ClientId, d: ClientId, id: nat)
    requires Coherent(n) && Slot(n.caches, c, id).dataStat == OK && Slot(n.caches, d, id).dataStat == OK
    ensures c == d && id in n.owner && n.owner[id] == c
  {
    assert CoherentAt(n, id);
  }

  /** The bytes of an id: those the owner has cached, otherwise those in the store. */
  function Latest(n: Net, id: nat): seq<Byte>
    requires id in n.store
  {
    if id in n.owner && Slot(n.caches, n.owner[id], id).dataStat == OK then Slot(n.caches, n.owner[id], id).fileData else n.store[id]
  }

  function View(n: Net): map<nat, seq<Byte>> {
    map id | id in n.store :: Latest(n, id)
  }

  // ---- What the operations keep ----

  // n and n' agree on all ids but id.
  ghost predicate SameElsewhere(n: Net, n': Net, id: nat) {
    forall g :: g != id ==> SameAt(n, n', g)
  }

  ghost predicate SameAt(n: Net, n': Net, g: nat) {
    && (g in n'.owner <==> g in n.owner) && (g in n'.store <==> g in n.store)
    && (g in n.owner ==> n'.owner[g] == n.owner[g])
    && (g in n.store ==> n'.store[g] == n.store[g])
    && (forall c :: Slot(n'.caches, c, g) == Slot(n.caches, c, g))
    && (forall c :: Recorded(n, c, g) ==> Recorded(n', c, g))
  }

  lemma SlotSet(n: Net, c: ClientId, id: nat, d: FileData)
    ensures var n' := SetSlot(n, c, id, d);
            && (forall e, g :: Slot(n'.caches, e, g) == if e == c && g == id then d else Slot(n.caches, e, g))
            && n'.owner == n.owner && n'.store == n.store
            && SameElsewhere(n, n', id) && c in n'.caches && id in n'.caches[c]
  {
  }

  // An id is settled for client c: no other client has its data.
  ghost predicate Alone(n: Net, c: ClientId, id: nat) {
    forall e :: e != c ==> Slot(n.caches, e, id).dataStat == NONE
  }

  lemma FlushSettles(n: Net, o: ClientId, id: nat)
    ensures var n' := Flush(n, o, id);
            && n'.owner == n.owner && SameElsewhere(n, n', id)
            && Slot(n'.caches, o, id).dataStat == NONE && Slot(n'.caches, o, id).fileData == Slot(n.caches, o, id).fileData
            && Slot(n'.caches, o, id).attrSize == Slot(n.caches, o, id).attrSize
            && (Slot(n'.caches, o, id).attrStat == OK <==> Slot(n.caches, o, id).attrStat == OK && Slot(n.caches, o, id).dataStat == NONE)
            && (forall e :: e != o ==> Slot(n'.caches, e, id) == Slot(n.caches, e, id))
            && (id in n.store ==> id in n'.store && n'.store[id] == if Slot(n.caches, o, id).dataStat == OK then Slot(n.caches, o, id).fileData else n.store[id])
  {
    var d := Slot(n.caches, o, id);
    SlotSet(n.(store := n.store[id := d.fileData]), o, id, FileData(NONE, NONE, d.fileData, d.attrSize));
  }

  // The server's get leaves the data of an id nowhere but in the store.
  lemma ServeAlone(n: Net, c: ClientId, id: nat)
    requires Coherent(n) && id in n.store && Slot(n.caches, c, id).dataStat == NONE
    ensures var n' := Serve(n, c, id);
            && Alone(n', c, id) && id in n'.owner && n'.owner[id] == c && id in n'.store && n'.store[id] == Latest(n, id)
            && SameElsewhere(n, n', id) && Slot(n'.caches, c, id) == Slot(n.caches, c, id)
            && |n'.store[id]| < MAX_SIZE
  {
    assert CoherentAt(n, id);
    var n1 := Claim(n, c, id);
    var o := n1.owner[id];
    FlushSettles(n1, o, id);
    assert Slot(n.caches, o, id).dataStat == OK ==> Holder(n, o, id);
  }

  lemma CoherentElsewhere(n: Net, n': Net, g: nat)
    requires CoherentAt(n, g) && SameAt(n, n', g)
    ensures CoherentAt(n', g) && (g in n.store ==> Latest(n', g) == Latest(n, g))
  {
    forall c | Slot(n'.caches, c, g).dataStat == OK ensures Holder(n', c, g) {
      assert Holder(n, c, g);
    }
  }

  // A state that is coherent at id, and like n at all other ids.
  lemma Settled(n: Net, n': Net, id: nat)
    requires Coherent(n) && SameElsewhere(n, n', id) && CoherentAt(n', id) && id in n'.store
    ensures Coherent(n') && View(n') == View(n)[id := Latest(n', id)]
  {
    forall g | g != id ensures CoherentAt(n', g) && SameAt(n, n', g) && (g in n.store ==> Latest(n', g) == Latest(n, g)) {
      CoherentElsewhere(n, n', g);
    }
    assert View(n').Keys == n'.store.Keys;
    assert View(n)[id := Latest(n', id)].Keys == n.store.Keys + {id};
  }

  lemma TouchSame(n: Net, c: ClientId, id: nat)
    ensures var n' := Touch(n, c, id);
            && (forall e, g :: Slot(n'.caches, e, g) == Slot(n.caches, e, g))
            && n'.owner == n.owner && n'.store == n.store && (forall g :: SameAt(n, n', g))
            && c in n'.caches && id in n'.caches[c]
  {
    SlotSet(n, c, id, Slot(n.caches, c, id));
  }

  lemma TouchKeeps(n: Net, c: ClientId, id: nat)
    requires Coherent(n)
    ensures Coherent(Touch(n, c, id)) && View(Touch(n, c, id)) == View(n)
  {
    var n' := Touch(n, c, id);
    TouchSame(n, c, id);
    forall g ensures CoherentAt(n', g) && (g in n.store ==> Latest(n', g) == Latest(n, g)) {
      assert CoherentAt(n, g) && SameAt(n, n', g);
      CoherentElsewhere(n, n', g);
    }
  }

  // Client c has the data of id, and is recorded for it.
  predicate HasData(n: Net, c: ClientId, id: nat, buf: seq<Byte>) {
    && c in n.caches && id in n.caches[c] && n.caches[c][id].dataStat == OK && n.caches[c][id].fileData == buf
    && id in n.owner && n.owner[id] == c && id in n.store && |n.store[id]| < MAX_SIZE
  }

  // It has the attributes, too.
  predicate Has(n: Net, c: ClientId, id: nat, buf: seq<Byte>) {
    HasData(n, c, id, buf) && n.caches[c][id].attrStat == OK
  }

  lemma HasSettled(n: Net, n': Net, c: ClientId, id: nat, buf: seq<Byte>)
    requires Coherent(n) && SameElsewhere(n, n', id) && Has(n', c, id, buf) && Alone(n', c, id) && |buf| < MAX_SIZE
    ensures Coherent(n') && View(n') == View(n)[id := buf]
  {
    assert CoherentAt(n', id);
    Settled(n, n', id);
  }

  // A fetch by a client that has not got the data, which may still lack the attributes.
  lemma FetchSettles(n: Net, c: ClientId, id: nat)
    requires Coherent(n) && id in n.store && c in n.caches && id in n.caches[c] && n.caches[c][id].dataStat == NONE
    ensures var n' := Fetch(n, c, id);
            && SameElsewhere(n, n', id) && Alone(n', c, id) && HasData(n', c, id, Latest(n, id)) && |Latest(n, id)| < MAX_SIZE
            && n'.store[id] == Latest(n, id)
            && n'.caches[c][id].attrStat == n.caches[c][id].attrStat && n'.caches[c][id].attrSize == n.caches[c][id].attrSize
  {
    ServeAlone(n, c, id);
    var n1 := Serve(n, c, id);
    SlotSet(n1, c, id, Slot(n1.caches, c, id).(fileData := n1.store[id], dataStat := OK));
  }

  lemma TouchTwice(n: Net, c: ClientId, id: nat)
    requires c in n.caches && id in n.caches[c]
    ensures Touch(n, c, id) == n
  {
    assert n.caches[c][id := n.caches[c][id]] == n.caches[c];
    assert n.caches[c := n.caches[c]] == n.caches;
  }

  lemma SameTrans(n: Net, n1: Net, n': Net, id: nat)
    requires SameElsewhere(n, n1, id) && SameElsewhere(n1, n', id)
    ensures SameElsewhere(n, n', id)
  {
    forall g | g != id ensures SameAt(n, n', g) {
      assert SameAt(n, n1, g) && SameAt(n1, n', g);
    }
  }

  lemma FetchAllSettles(n: Net, c: ClientId, id: nat)
    requires Coherent(n) && id in n.store && c in n.caches && id in n.caches[c] && n.caches[c][id].dataStat == NONE
    ensures SameElsewhere(n, FetchAll(n, c, id), id) && Alone(FetchAll(n, c, id), c, id)
    ensures Has(FetchAll(n, c, id), c, id, Latest(n, id)) && |Latest(n, id)| < MAX_SIZE
    ensures FetchAll(n, c, id).caches[c][id].attrSize == if n.caches[c][id].attrStat == OK then n.caches[c][id].attrSize else |Latest(n, id)|
  {
    var n2 := Fetch(n, c, id);
    FetchSettles(n, c, id);
    if n.caches[c][id].attrStat == NONE {
      var d := Slot(n2.caches, c, id).(attrStat := OK, attrSize := |n2.store[id]|);
      SlotSet(n2, c, id, d);
      SameTrans(n, n2, SetSlot(n2, c, id, d), id);
      AttrAdded(n2, c, id);
    }
  }

  lemma AttrAdded(n: Net, c: ClientId, id: nat)
    requires c in n.caches && id in n.caches[c] && id in n.owner && n.owner[id] == c && id in n.store && n.caches[c][id].attrStat == NONE
    ensures GetAttr(n, c, id) == SetSlot(n, c, id, Slot(n.caches, c, id).(attrStat := OK, attrSize := |n.store[id]|))
  {
    TouchTwice(n, c, id);
  }

  // A client that has the data has everything.
  lemma HitSettles(n: Net, c: ClientId, id: nat)
    requires Coherent(n) && Slot(n.caches, c, id).dataStat == OK
    ensures id in n.store && Has(n, c, id, Latest(n, id)) && Alone(n, c, id) && |Latest(n, id)| < MAX_SIZE
  {
    assert CoherentAt(n, id);
    assert Holder(n, c, id);
  }

  lemma TouchElsewhere(n: Net, c: ClientId, id: nat)
    requires Coherent(n) && id in n.store
    ensures var n1 := Touch(n, c, id);
            && SameElsewhere(n, n1, id) && Coherent(n1) && id in n1.store && Latest(n1, id) == Latest(n, id)
            && c in n1.caches && id in n1.caches[c]
  {
    TouchSame(n, c, id);
    TouchKeeps(n, c, id);
  }

  lemma GetSettles(n: Net, c: ClientId, id: nat)
    requires Coherent(n) && id in n.store
    ensures SameElsewhere(n, Get(n, c, id), id) && Alone(Get(n, c, id), c, id)
    ensures Has(Get(n, c, id), c, id, Latest(n, id)) && |Latest(n, id)| < MAX_SIZE
  {
    var n1 := Touch(n, c, id);
    TouchElsewhere(n, c, id);
    if Slot(n1.caches, c, id).dataStat == OK {
      HitSettles(n1, c, id);
    } else {
      FetchAllSettles(n1, c, id);
      SameTrans(n, n1, FetchAll(n1, c, id), id);
    }
  }

  /** A get changes nobody's view; the client then has the data, and it is the latest. */
  lemma GetKeeps(n: Net, c: ClientId, id: nat)
    requires Coherent(n) && id in n.store
    ensures Coherent(Get(n, c, id)) && View(Get(n, c, id)) == View(n)
    ensures Has(Get(n, c, id), c, id, View(n)[id])
  {
    GetSettles(n, c, id);
    HasSettled(n, Get(n, c, id), c, id, Latest(n, id));
    assert View(n)[id := Latest(n, id)] == View(n);
  }

  /** A put is what everybody sees afterwards. */
  lemma PutKeeps(n: Net, c: ClientId, id: nat, buf: seq<Byte>)
    requires Coherent(n) && id in n.store && |buf| < MAX_SIZE
    ensures Coherent(Put(n, c, id, buf)) && View(Put(n, c, id, buf)) == View(n)[id := buf]
  {
    var n1 := Touch(n, c, id);
    TouchKeeps(n, c, id);
    TouchElsewhere(n, c, id);
    if Slot(n1.caches, c, id).dataStat == NONE || Slot(n1.caches, c, id).attrStat == NONE {
      GetSettles(n1, c, id);
      PutOver(n1, Get(n1, c, id), c, id, buf, Latest(n1, id));
    } else {
      HitSettles(n1, c, id);
      PutOver(n1, n1, c, id, buf, Latest(n1, id));
    }
  }

  lemma PutOver(n: Net, n2: Net, c: ClientId, id: nat, buf: seq<Byte>, was: seq<Byte>)
    requires Coherent(n) && |buf| < MAX_SIZE
    requires SameElsewhere(n, n2, id) && Has(n2, c, id, was) && Alone(n2, c, id)
    ensures var n' := SetSlot(n2, c, id, FileData(OK, OK, buf, |buf|));
            Coherent(n') && View(n') == View(n)[id := buf]
  {
    var n' := SetSlot(n2, c, id, FileData(OK, OK, buf, |buf|));
    SlotSet(n2, c, id, FileData(OK, OK, buf, |buf|));
    SameTrans(n, n2, n', id);
    HasSettled(n, n', c, id, buf);
  }

  lemma HasKept(n: Net, n': Net, c: ClientId, g: nat, data: seq<Byte>)
    requires Has(n, c, g, data) && SameAt(n, n', g)
    ensures Has(n', c, g, data)
  {
    assert Recorded(n, c, g) && Recorded(n', c, g);
    assert Slot(n'.caches, c, g) == Slot(n.caches, c, g);
  }

  // A put of id leaves all other ids alone, and what its client has of them.
  lemma PutElsewhere(n: Net, c: ClientId, id: nat, buf: seq<Byte>, g: nat, data: seq<Byte>)
    requires Coherent(n) && id in n.store && g != id && Has(n, c, g, data)
    ensures Has(Put(n, c, id, buf), c, g, data)
  {
    var n1 := Touch(n, c, id);
    TouchElsewhere(n, c, id);
    HasKept(n, n1, c, g, data);
    var n2 := if Slot(n1.caches, c, id).dataStat == NONE || Slot(n1.caches, c, id).attrStat == NONE then Get(n1, c, id) else n1;
    if n2 != n1 {
      GetSettles(n1, c, id);
      HasKept(n1, n2, c, g, data);
    }
    SlotSet(n2, c, id, FileData(OK, OK, buf, |buf|));
    HasKept(n2, Put(n, c, id, buf), c, g, data);
  }

  lemma GetAttrKeeps(n: Net, c: ClientId, id: nat)
    requires Coherent(n) && id in n.store
    ensures Coherent(GetAttr(n, c, id)) && View(GetAttr(n, c, id)) == View(n)
  {
    var n1 := Touch(n, c, id);
    TouchSame(n, c, id);
    TouchKeeps(n, c, id);
    assert CoherentAt(n1, id);
    if Slot(n1.caches, c, id).attrStat == NONE {
      var n' := GetAttr(n, c, id);
      SlotSet(Claim(n1, c, id), c, id, Slot(n1.caches, c, id).(attrStat := OK, attrSize := SizeFor(Claim(n1, c, id), c, id)));
      assert SameElsewhere(n1, n', id);
      assert CoherentAt(n', id);
      Settled(n1, n', id);
      assert Latest(n', id) == Latest(n1, id);
      assert View(n1)[id := Latest(n', id)] == View(n1);
    }
  }

  lemma CreateKeeps(n: Net, id: nat)
    requires Coherent(n) && id !in n.store
    ensures Coherent(Create(n, id)) && View(Create(n, id)) == View(n)[id := []]
  {
    assert CoherentAt(n, id);
    assert CoherentAt(Create(n, id), id);
    Settled(n, Create(n, id), id);
  }

  // ---- Runs ----

  // The operations of all clients, in the order in which they take effect. The id that a
  // create returns is the one the inode layer has allocated.
  datatype Op =
    | DoGet(c: ClientId, id: nat)
    | DoGetAttr(c: ClientId, id: nat)
    | DoPut(c: ClientId, id: nat, buf: seq<Byte>)
    | DoCreate(id: nat)

  // Operations are on ids that exist; only a create makes one.
  predicate Legal(ids: set<nat>, op: Op) {
    match op
    case DoCreate(id) => id !in ids
    case DoPut(_, id, buf) => id in ids && |buf| < MAX_SIZE
    case DoGet(_, id) => id in ids
    case DoGetAttr(_, id) => id in ids
  }

  function Apply(n: Net, op: Op): Net
    requires Legal(n.store.Keys, op)
  {
    match op
    case DoGet(c, id) => Get(n, c, id)
    case DoGetAttr(c, id) => GetAttr(n, c, id)
    case DoPut(c, id, buf) => Put(n, c, id, buf)
    case DoCreate(id) => Create(n, id)
  }

  // One map from id to bytes, which the caches, the owner map and the store amount to.
  function Effect(m: map<nat, seq<Byte>>, op: Op): map<nat, seq<Byte>> {
    match op
    case DoPut(_, id, buf) => m[id := buf]
    case DoCreate(id) => m[id := []]
    case _ => m
  }

  function Effects(m: map<nat, seq<Byte>>, ops: seq<Op>): map<nat, seq<Byte>> {
    if ops == [] then m else Effect(Effects(m, ops[..|ops| - 1]), ops[|ops| - 1])
  }

  // The state after the operations; one that is not legal does nothing.
  function Run(n: Net, ops: seq<Op>): Net {
    if ops == [] then n
    else
      var n1, op := Run(n, ops[..|ops| - 1]), ops[|ops| - 1];
      if Legal(n1.store.Keys, op) then Apply(n1, op) else n1
  }

  predicate LegalRun(n: Net, ops: seq<Op>) {
    ops != [] ==> LegalRun(n, ops[..|ops| - 1]) && Legal(Run(n, ops[..|ops| - 1]).store.Keys, ops[|ops| - 1])
  }

  lemma RunMore(n: Net, ops: seq<Op>, op: Op)
    requires LegalRun(n, ops) && Legal(Run(n, ops).store.Keys, op)
    ensures LegalRun(n, ops + [op]) && Run(n, ops + [op]) == Apply(Run(n, ops), op)
  {
    assert (ops + [op])[..|ops|] == ops;
  }

  lemma StepRefines(n: Net, op: Op)
    requires Coherent(n) && Legal(n.store.Keys, op)
    ensures Coherent(Apply(n, op)) && View(Apply(n, op)) == Effect(View(n), op)
  {
    match op
    case DoGet(c, id) => GetKeeps(n, c, id);
    case DoGetAttr(c, id) => GetAttrKeeps(n, c, id);
    case DoPut(c, id, buf) => PutKeeps(n, c, id, buf);
    case DoCreate(id) => CreateKeeps(n, id);
  }

  /** Over every run the clients see one map from id to bytes. */
  lemma {:induction false} RunRefines(n: Net, ops: seq<Op>)
    requires Coherent(n) && LegalRun(n, ops)
    ensures Coherent(Run(n, ops)) && View(Run(n, ops)) == Effects(View(n), ops)
  {
    if ops != [] {
      RunRefines(n, ops[..|ops| - 1]);
      StepRefines(Run(n, ops[..|ops| - 1]), ops[|ops| - 1]);
    }
  }

  // The bytes of the last put to id, whoever made it; those of the start if there is none.
  function LastPut(m: map<nat, seq<Byte>>, ops: seq<Op>, id: nat): seq<Byte> {
    if ops == [] then (if id in m then m[id] else [])
    else
      match ops[|ops| - 1]
      case DoPut(_, i, buf) => if i == id then buf else LastPut(m, ops[..|ops| - 1], id)
      case DoCreate(i) => if i == id then [] else LastPut(m, ops[..|ops| - 1], id)
      case _ => LastPut(m, ops[..|ops| - 1], id)
  }

  lemma {:induction false} EffectsAreLast(m: map<nat, seq<Byte>>, ops: seq<Op>, id: nat)
    requires id in Effects(m, ops)
    ensures Effects(m, ops)[id] == LastPut(m, ops, id)
  {
    if ops != [] && !(ops[|ops| - 1].DoPut? && ops[|ops| - 1].id == id) && !(ops[|ops| - 1].DoCreate? && ops[|ops| - 1].id == id) {
      EffectsAreLast(m, ops[..|ops| - 1], id);
    }
  }

  /** After any run, what a get at any client returns is the latest put by any client. */
  lemma GetReturnsLatestPut(n: Net, ops: seq<Op>, c: ClientId, id: nat)
    requires Coherent(n) && LegalRun(n, ops) && id in Run(n, ops).store
    ensures Has(Get(Run(n, ops), c, id), c, id, LastPut(View(n), ops, id))
  {
    RunRefines(n, ops);
    GetKeeps(Run(n, ops), c, id);
    EffectsAreLast(View(n), ops, id);
  }

  // The server has just started: nobody has cached or claimed anything.
  ghost predicate Started(n: Net) {
    && n.owner == map[] && (forall id :: id in n.store ==> |n.store[id]| < MAX_SIZE)
    && forall c, id :: Slot(n.caches, c, id).dataStat == NONE && Slot(n.caches, c, id).attrStat == NONE
  }

  lemma StartedCoherent(n: Net)
    requires Started(n)
    ensures Coherent(n) && View(n) == n.store
  {
    forall id ensures CoherentAt(n, id) { }
  }

  /** In every run from the start at most one client has the data of an id, and it is the
      one that the server has recorded. */
  lemma SingleHolderAlways(n: Net, ops: seq<Op>, c: ClientId, d: ClientId, id: nat)
    requires Started(n) && LegalRun(n, ops)
    requires Slot(Run(n, ops).caches, c, id).dataStat == OK && Slot(Run(n, ops).caches, d, id).dataStat == OK
    ensures c == d && id in Run(n, ops).owner && Run(n, ops).owner[id] == c
  {
    StartedCoherent(n);
    RunRefines(n, ops);
    SingleHolder(Run(n, ops), c, d, id);
  }
}
