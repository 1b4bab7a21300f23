// When setattr gives a file the requested size: while one client alone works on it. A run of
// two clients that ends with a cached size that is wrong, and what setattr then does.

module SetattrSizes {
  import opened DiskLayout
  import opened ExtentNet
  import opened ExtentSizes
  import F = YfsFile

  lemma StartedKnows(n: Net, c: ClientId, id: nat)
    requires Started(n)
    ensures Knows(n, c, id)
  {
  }

  /** While one client alone works on a file, a setattr by it gives the requested size. */
  lemma SetattrAlone(n: Net, ops: seq<Op>, c: ClientId, id: nat, size: nat)
    requires Started(n) && LegalRun(n, ops) && OnlyBy(ops, c, id) && id in Run(n, ops).store
    ensures var n' := GetAttr(Run(n, ops), c, id);
            && id in n'.store && Latest(n', id) == Latest(Run(n, ops), id) && SizeAt(n', c, id) == |Latest(n', id)|
            && F.Resize(Latest(n', id), SizeAt(n', c, id), size) != F.Thrown
            && |F.ResizedFile(Latest(n', id), SizeAt(n', c, id), size)| == size
  {
    var n1 := Run(n, ops);
    StartedCoherent(n);
    StartedKnows(n, c, id);
    RunRefines(n, ops);
    AloneKnows(n, ops, c, id);
    KnowsStep(n1, DoGetAttr(c, id), c, id);
    GetAttrSlots(n1, c, id);
    GetAttrKeeps(n1, c, id);
    var n' := GetAttr(n1, c, id);
    assert View(n')[id] == Latest(n', id) && View(n1)[id] == Latest(n1, id);
    F.ResizeFits(Latest(n', id), SizeAt(n', c, id), size);
  }

  // ---- Two clients ----

  const A: ClientId := "a"
  const B: ClientId := "b"

  function Start(): Net {
    Net(map[], map[A := map[], B := map[]], map[1 := []])
  }

  // B asks for the size, A puts three bytes, B gets them.
  function Ops(b: Byte): seq<Op> {
    [DoGetAttr(B, 1), DoPut(A, 1, [b, b, b]), DoGet(B, 1)]
  }

  // The state as far as it matters: the owner, the two entries, and the bytes stored.
  predicate Looks(n: Net, owner: map<nat, ClientId>, a: FileData, b: FileData, data: seq<Byte>) {
    n.owner == owner && Slot(n.caches, A, 1) == a && Slot(n.caches, B, 1) == b && n.store == map[1 := data]
  }

  lemma SetLooks(n: Net, owner: map<nat, ClientId>, a: FileData, b: FileData, data: seq<Byte>, d: FileData)
    requires Looks(n, owner, a, b, data)
    ensures Looks(SetSlot(n, A, 1, d), owner, d, b, data) && Looks(SetSlot(n, B, 1, d), owner, a, d, data)
    ensures Looks(Touch(n, A, 1), owner, a, b, data) && Looks(Touch(n, B, 1), owner, a, b, data)
  {
    SlotSet(n, A, 1, d);
    SlotSet(n, B, 1, d);
    TouchSame(n, A, 1);
    TouchSame(n, B, 1);
  }

  lemma GetAttrLooks(n: Net, data: seq<Byte>)
    requires Looks(n, map[], NEW, NEW, data)
    ensures Looks(GetAttr(n, B, 1), map[1 := B], NEW, FileData(NONE, OK, [], |data|), data)
  {
    SetLooks(n, map[], NEW, NEW, data, NEW);
    var n2 := Claim(Touch(n, B, 1), B, 1);
    SetLooks(n2, map[1 := B], NEW, NEW, data, FileData(NONE, OK, [], |data|));
  }

  // A fetches from the server: B has no data, and keeps its attributes.
  lemma FetchLooks(n: Net, b: FileData, data: seq<Byte>)
    requires Looks(n, map[1 := B], NEW, b, data) && b.dataStat == NONE
    ensures Looks(FetchAll(n, A, 1), map[1 := A], FileData(OK, OK, data, |data|), b, data)
  {
    var n1 := Serve(n, A, 1);
    assert Looks(n1, map[1 := A], NEW, b, data);
    SetLooks(n1, map[1 := A], NEW, b, data, FileData(OK, NONE, data, 0));
    var n2 := Fetch(n, A, 1);
    SetLooks(n2, map[1 := A], FileData(OK, NONE, data, 0), b, data, FileData(OK, OK, data, |data|));
    var n3 := Touch(n2, A, 1);
    SetLooks(n3, map[1 := A], FileData(OK, NONE, data, 0), b, data, FileData(OK, OK, data, |data|));
  }

  lemma PutLooks(n: Net, b: FileData, data: seq<Byte>, buf: seq<Byte>)
    requires Looks(n, map[1 := B], NEW, b, data) && b.dataStat == NONE
    ensures Looks(Put(n, A, 1, buf), map[1 := A], FileData(OK, OK, buf, |buf|), b, data)
  {
    SetLooks(n, map[1 := B], NEW, b, data, NEW);
    var n1 := Touch(n, A, 1);
    SetLooks(n1, map[1 := B], NEW, b, data, NEW);
    FetchLooks(Touch(n1, A, 1), b, data);
    SetLooks(Get(n1, A, 1), map[1 := A], FileData(OK, OK, data, |data|), b, data, FileData(OK, OK, buf, |buf|));
  }

  // B fetches: A is flushed, and B's attributes stay what they were.
  lemma GetLooks(n: Net, b: FileData, data: seq<Byte>, buf: seq<Byte>)
    requires Looks(n, map[1 := A], FileData(OK, OK, buf, |buf|), b, data) && b.dataStat == NONE && b.attrStat == OK
    ensures Looks(Get(n, B, 1), map[1 := B], FileData(NONE, NONE, buf, |buf|), FileData(OK, OK, buf, b.attrSize), buf)
  {
    var a := FileData(OK, OK, buf, |buf|);
    SetLooks(n, map[1 := A], a, b, data, a);
    var n1 := Touch(n, B, 1);
    FlushLooks(n1, b, data, buf);
    var n2 := Serve(n1, B, 1);
    SetLooks(n2, map[1 := B], FileData(NONE, NONE, buf, |buf|), b, buf, FileData(OK, OK, buf, b.attrSize));
  }

  lemma FlushLooks(n: Net, b: FileData, data: seq<Byte>, buf: seq<Byte>)
    requires Looks(n, map[1 := A], FileData(OK, OK, buf, |buf|), b, data)
    ensures Looks(Flush(n, A, 1), map[1 := A], FileData(NONE, NONE, buf, |buf|), b, buf)
    ensures Looks(Serve(n, B, 1), map[1 := B], FileData(NONE, NONE, buf, |buf|), b, buf)
  {
    var n1 := n.(store := n.store[1 := buf]);
    assert map[1 := data][1 := buf] == map[1 := buf];
    SetLooks(n1, map[1 := A], FileData(OK, OK, buf, |buf|), b, buf, FileData(NONE, NONE, buf, |buf|));
  }

  lemma AfterTwo(b: Byte)
    ensures LegalRun(Start(), [DoGetAttr(B, 1), DoPut(A, 1, [b, b, b])])
    ensures Looks(Run(Start(), [DoGetAttr(B, 1), DoPut(A, 1, [b, b, b])]),
                  map[1 := A], FileData(OK, OK, [b, b, b], 3), FileData(NONE, OK, [], 0), [])
  {
    var n, op1, op2 := Start(), DoGetAttr(B, 1), DoPut(A, 1, [b, b, b]);
    RunMore(n, [], op1);
    assert [] + [op1] == [op1] && [op1] + [op2] == [op1, op2];
    GetAttrLooks(n, []);
    RunMore(n, [op1], op2);
    PutLooks(Run(n, [op1]), FileData(NONE, OK, [], 0), [], [b, b, b]);
  }

  lemma AfterOps(b: Byte)
    ensures LegalRun(Start(), Ops(b))
    ensures Looks(Run(Start(), Ops(b)), map[1 := B], FileData(NONE, NONE, [b, b, b], 3), FileData(OK, OK, [b, b, b], 0), [b, b, b])
  {
    var two := [DoGetAttr(B, 1), DoPut(A, 1, [b, b, b])];
    AfterTwo(b);
    RunMore(Start(), two, DoGet(B, 1));
    assert two + [DoGet(B, 1)] == Ops(b);
    GetLooks(Run(Start(), two), FileData(NONE, OK, [], 0), [], [b, b, b]);
  }

  lemma StartIsStarted()
    ensures Started(Start())
  {
  }

  // The last getattr finds the attributes in B's cache.
  lemma LastGetAttr(n: Net, b: FileData, buf: seq<Byte>)
    requires Looks(n, map[1 := B], FileData(NONE, NONE, buf, |buf|), b, buf) && b.dataStat == OK && b.attrStat == OK && b.fileData == buf
    ensures var n' := GetAttr(n, B, 1);
            1 in n'.store && Latest(n', 1) == buf && SizeAt(n', B, 1) == b.attrSize && AttrOk(n', B, 1)
  {
    SetLooks(n, map[1 := B], FileData(NONE, NONE, buf, |buf|), b, buf, b);
  }

  /** B is then told that the file is empty, and a setattr to two bytes makes it five bytes
      long. */
  lemma StaleSize(b: Byte)
    ensures Started(Start()) && LegalRun(Start(), Ops(b) + [DoGetAttr(B, 1)])
    ensures var n := Run(Start(), Ops(b) + [DoGetAttr(B, 1)]);
            && 1 in n.store && Latest(n, 1) == [b, b, b] && AttrOk(n, B, 1) && SizeAt(n, B, 1) == 0 && !SizeRight(n, B, 1)
            && F.Resize(Latest(n, 1), SizeAt(n, B, 1), 2) == F.New([b, b, b, 0, 0])
  {
    StartIsStarted();
    AfterOps(b);
    RunMore(Start(), Ops(b), DoGetAttr(B, 1));
    LastGetAttr(Run(Start(), Ops(b)), FileData(OK, OK, [b, b, b], 0), [b, b, b]);
    assert [b, b, b] + Zeros(2) == [b, b, b, 0, 0];
  }
}
