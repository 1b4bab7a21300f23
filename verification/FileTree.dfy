// Files on a volume: a chain of inodes, each with up to NDIRECT data blocks and the
// number of the next inode behind them. The well-formed volumes, and what they store.

module FileTree {
  import opened DiskLayout
  import opened DiskVolume

  // The inodes of a file in chain order and its data blocks in file order.
  datatype Layout = Layout(chain: seq<nat>, data: seq<nat>)

  function NodeAt(v: Volume, x: nat): Inode {
    if x in v.node then v.node[x] else Inode(0, 0, 0, 0, 0, seq(NDIRECT + 1, _ => 0))
  }

  function DataAt(v: Volume, y: nat): Block {
    if y in v.data then v.data[y] else Zeros(BLOCK_SIZE)
  }

  function BlocksFor(size: nat): nat {
    (size + BLOCK_SIZE - 1) / BLOCK_SIZE
  }

  function InodesFor(blocks: nat): nat {
    if blocks == 0 then 1 else (blocks + NDIRECT - 1) / NDIRECT
  }

  ghost predicate NoDup(s: seq<nat>) {
    forall i, j :: 0 <= i < j < |s| ==> s[i] != s[j]
  }

  // ---- One file ----

  // Inode k of the chain is n: it holds its share of the data blocks and the next inode.
  ghost predicate Holds(n: Inode, k: nat, chain: seq<nat>, data: seq<nat>) {
    && (forall i :: 0 <= i < NDIRECT && NDIRECT * k + i < |data| ==> n.blocks[i] == data[NDIRECT * k + i])
    && (k + 1 < |chain| ==> n.blocks[NDIRECT] == chain[k + 1])
    && (k > 0 ==> n.size == 0)
  }

  ghost predicate Linked(v: Volume, lay: Layout) {
    forall k :: 0 <= k < |lay.chain| ==> Holds(NodeAt(v, lay.chain[k]), k, lay.chain, lay.data)
  }

  ghost predicate InPlace(v: Volume, lay: Layout) {
    && NoDup(lay.chain) && NoDup(lay.data)
    && (forall x :: x in lay.chain ==> IsInum(x) && IBlock(x) in v.used)
    && (forall y :: y in lay.data ==> IsData(y) && y in v.used)
  }

  ghost predicate FileOk(v: Volume, h: nat, lay: Layout) {
    && |lay.chain| == InodesFor(|lay.data|) && lay.chain[0] == h
    && InPlace(v, lay)
    && Linked(v, lay)
    && BlocksFor(NodeAt(v, h).size) == |lay.data|
    && IsData(NodeAt(v, h).blocks[0])
  }

  // The bytes of a list of data blocks.
  function Flat(v: Volume, data: seq<nat>): (bytes: seq<Byte>)
    ensures |bytes| == BLOCK_SIZE * |data|
  {
    if data == [] then [] else Flat(v, data[..|data| - 1]) + DataAt(v, data[|data| - 1])
  }

  /** What a read of the file returns. */
  function Content(v: Volume, h: nat, lay: Layout): seq<Byte> {
    var bytes, size := Flat(v, lay.data), NodeAt(v, h).size;
    if size <= |bytes| then bytes[..size] else bytes
  }

  // ---- All files ----

  // No inode and no data block belongs to two files.
  ghost predicate Apart(files: map<nat, Layout>) {
    && (forall g, h, x :: g in files && h in files && x in files[g].chain && x in files[h].chain ==> g == h)
    && (forall g, h, y :: g in files && h in files && y in files[g].data && y in files[h].data ==> g == h)
  }

  ghost predicate WellFormed(v: Volume, files: map<nat, Layout>) {
    && Shaped(v.used)
    && AllOk(v, files)
    && Apart(files)
  }

  ghost predicate AllOk(v: Volume, files: map<nat, Layout>) {
    forall h :: h in files ==> FileOk(v, h, files[h])
  }

  /** The store as a map from inode number to bytes. */
  function Store(v: Volume, files: map<nat, Layout>): map<nat, seq<Byte>> {
    map h | h in files :: Content(v, h, files[h])
  }

  // ---- What does not touch a file leaves it as it is ----

  lemma {:induction false} FlatKept(v: Volume, v': Volume, data: seq<nat>)
    requires forall y :: y in data ==> DataAt(v', y) == DataAt(v, y)
    ensures Flat(v', data) == Flat(v, data)
  {
    if data != [] {
      var init := data[..|data| - 1];
      forall y | y in init ensures DataAt(v', y) == DataAt(v, y) { assert y in data; }
      FlatKept(v, v', init);
      assert data[|data| - 1] in data;
    }
  }

  // Neither an inode, nor a data block, nor a used bit of the layout changes.
  ghost predicate SameOn(v: Volume, v': Volume, lay: Layout) {
    && (forall x :: x in lay.chain ==> NodeAt(v', x) == NodeAt(v, x) && IBlock(x) in v'.used)
    && (forall y :: y in lay.data ==> DataAt(v', y) == DataAt(v, y) && y in v'.used)
  }

  lemma FileKept(v: Volume, v': Volume, h: nat, lay: Layout)
    requires FileOk(v, h, lay) && SameOn(v, v', lay)
    ensures FileOk(v', h, lay) && Content(v', h, lay) == Content(v, h, lay)
  {
    assert lay.chain[0] in lay.chain;
    forall k | 0 <= k < |lay.chain| ensures Holds(NodeAt(v', lay.chain[k]), k, lay.chain, lay.data) {
      assert lay.chain[k] in lay.chain;
    }
    FlatKept(v, v', lay.data);
  }

  lemma OthersKept(v: Volume, v': Volume, files: map<nat, Layout>, h: nat)
    requires AllOk(v, files)
    requires forall g :: g in files && g != h ==> SameOn(v, v', files[g])
    ensures forall g :: g in files && g != h ==> FileOk(v', g, files[g])
    ensures forall g :: g in files && g != h ==> Content(v', g, files[g]) == Content(v, g, files[g])
  {
    forall g | g in files && g != h
      ensures FileOk(v', g, files[g]) && Content(v', g, files[g]) == Content(v, g, files[g])
    {
      assert FileOk(v, g, files[g]);
      FileKept(v, v', g, files[g]);
    }
  }

  // The blocks of lay belong to no file but h.
  ghost predicate Strange(files: map<nat, Layout>, h: nat, lay: Layout) {
    && (forall g, x :: g in files && g != h && x in files[g].chain ==> x !in lay.chain)
    && (forall g, y :: g in files && g != h && y in files[g].data ==> y !in lay.data)
  }

  lemma ApartReplaced(files: map<nat, Layout>, h: nat, lay: Layout)
    requires Apart(files) && Strange(files, h, lay)
    ensures Apart(files[h := lay]) && Apart(files - {h})
  {
  }

  lemma AllReplaced(v: Volume, files: map<nat, Layout>, h: nat, lay: Layout)
    requires forall g :: g in files && g != h ==> FileOk(v, g, files[g])
    ensures AllOk(v, files - {h})
    ensures FileOk(v, h, lay) ==> AllOk(v, files[h := lay])
  {
  }

  // One file gets a new layout, the others are left alone.
  lemma Replaced(v: Volume, v': Volume, files: map<nat, Layout>, h: nat, lay: Layout)
    requires WellFormed(v, files)
    requires FileOk(v', h, lay) && Shaped(v'.used)
    requires forall g :: g in files && g != h ==> SameOn(v, v', files[g])
    requires Strange(files, h, lay)
    ensures WellFormed(v', files[h := lay])
    ensures Store(v', files[h := lay]) == Store(v, files)[h := Content(v', h, lay)]
  {
    OthersKept(v, v', files, h);
    ApartReplaced(files, h, lay);
    AllReplaced(v', files, h, lay);
    StoreReplaced(v, v', files, h, lay);
  }

  lemma Removed(v: Volume, v': Volume, files: map<nat, Layout>, h: nat)
    requires WellFormed(v, files) && Shaped(v'.used)
    requires forall g :: g in files && g != h ==> SameOn(v, v', files[g])
    ensures WellFormed(v', files - {h})
    ensures Store(v', files - {h}) == Store(v, files) - {h}
  {
    OthersKept(v, v', files, h);
    ApartReplaced(files, h, Layout([], []));
    AllReplaced(v', files, h, Layout([], []));
    StoreRemoved(v, v', files, h);
  }

  lemma StoreReplaced(v: Volume, v': Volume, files: map<nat, Layout>, h: nat, lay: Layout)
    requires forall g :: g in files && g != h ==> Content(v', g, files[g]) == Content(v, g, files[g])
    ensures Store(v', files[h := lay]) == Store(v, files)[h := Content(v', h, lay)]
  {
    var files' := files[h := lay];
    var a, b := Store(v', files'), Store(v, files)[h := Content(v', h, lay)];
    assert a.Keys == files'.Keys && b.Keys == files'.Keys;
    forall g | g in files' ensures a[g] == b[g] {
      assert a[g] == Content(v', g, files'[g]);
    }
  }

  lemma StoreRemoved(v: Volume, v': Volume, files: map<nat, Layout>, h: nat)
    requires forall g :: g in files && g != h ==> Content(v', g, files[g]) == Content(v, g, files[g])
    ensures Store(v', files - {h}) == Store(v, files) - {h}
  {
    var files' := files - {h};
    var a, b := Store(v', files'), Store(v, files) - {h};
    assert a.Keys == files'.Keys && b.Keys == files'.Keys;
    forall g | g in files' ensures a[g] == b[g] {
      assert a[g] == Content(v', g, files'[g]);
    }
  }
}
