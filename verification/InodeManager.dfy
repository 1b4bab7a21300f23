// The inode layer: files as chains of inodes over the block layer.

module InodeManager {
  import opened DiskLayout
  import opened DiskVolume
  import opened FileTree
  import opened FileWrite
  import opened FileBlocks
  import opened BlockManager

  const T_DIR: Word := 1
  const T_FILE: Word := 2
  const T_LINK: Word := 3

  datatype Option<T> = None | Some(value: T)

  // Attributes as extent_protocol::attr has them.
  datatype Attr = Attr(kind: Word, atime: Word, mtime: Word, ctime: Word, size: Word)

  // The files keep their types.
  ghost predicate KindsKept(v: Volume, v': Volume, files: map<nat, Layout>) {
    forall g :: g in files ==> NodeAt(v', g).kind == NodeAt(v, g).kind
  }

  // The file h gets new times of change and modification; all else of the first inodes stays,
  // except for its size and blocks.
  ghost predicate Stamped(v: Volume, v': Volume, files: map<nat, Layout>, h: nat, now: Word) {
    && (forall g :: g in files && g != h ==> NodeAt(v', g) == NodeAt(v, g))
    && SameHead(NodeAt(v, h), NodeAt(v', h)) && NodeAt(v', h).mtime == now && NodeAt(v', h).ctime == now
  }

  function Kinds(v: Volume, files: map<nat, Layout>): map<nat, Word> {
    map h | h in files :: NodeAt(v, h).kind
  }

  // A new inode has one time.
  predicate Born(n: Inode, kind: Word, now: Word) {
    n.kind == kind && n.size == 0 && n.atime == now && n.mtime == now && n.ctime == now
  }

  // A new inode z and a data block y are taken from the free slots.
  ghost predicate NodeAdded(v: Volume, v': Volume, z: nat, n: Inode, y: nat) {
    && IsInum(z) && IBlock(z) !in v.used && IsData(y) && y !in v.used
    && n.size == 0 && n.blocks[0] == y
    && v' == v.(used := v.used + {IBlock(z), y}, node := v.node[z := n])
  }

  // The slots left after c inodes and a further data blocks have been taken; each new
  // inode also takes a data block.
  ghost predicate Spent(used: set<nat>, used': set<nat>, c: nat, a: nat) {
    InodesLeft(used') == InodesLeft(used) - c && DataLeft(used') == DataLeft(used) - a - c
  }

  lemma CreatedElsewhere(v: Volume, v': Volume, files: map<nat, Layout>, z: nat, n: Inode, y: nat, g: nat)
    requires AllOk(v, files) && NodeAdded(v, v', z, n, y) && g in files
    ensures g != z && SameOn(v, v', files[g]) && z !in files[g].chain && NodeAt(v', g) == NodeAt(v, g)
  {
    assert FileOk(v, g, files[g]);
    assert files[g].chain[0] in files[g].chain;
  }

  lemma CreatedFile(v: Volume, v': Volume, z: nat, n: Inode, y: nat)
    requires NodeAdded(v, v', z, n, y)
    ensures FileOk(v', z, Layout([z], [])) && Content(v', z, Layout([z], [])) == []
  {
  }

  /** A file that has just been created is empty, and no other file is touched. */
  lemma Created(v: Volume, v': Volume, files: map<nat, Layout>, z: nat, n: Inode, y: nat)
    requires WellFormed(v, files) && NodeAdded(v, v', z, n, y) && Shaped(v'.used)
    ensures z !in files
    ensures WellFormed(v', files[z := Layout([z], [])])
    ensures Store(v', files[z := Layout([z], [])]) == Store(v, files)[z := []]
    ensures forall g :: g in files ==> NodeAt(v', g) == NodeAt(v, g)
  {
    forall g | g in files
      ensures g != z && SameOn(v, v', files[g]) && z !in files[g].chain && NodeAt(v', g) == NodeAt(v, g)
    {
      CreatedElsewhere(v, v', files, z, n, y, g);
    }
    CreatedFile(v, v', z, n, y);
    Replaced(v, v', files, z, Layout([z], []));
  }

  // The first allocations on an empty disk.
  lemma FirstAllocations()
    ensures FirstClear({}, INODE_START, DATA_START) == INODE_START
    ensures FirstClear({INODE_START}, DATA_START, BLOCK_NUM) == DATA_START
    ensures InodesLeft({}) > 1 && DataLeft({}) > 0
  {
    assert Clear({INODE_START}, DATA_START);
    assert Clear({}, INODE_START) && Clear({}, DATA_START) && Clear({}, 16);
    assert {INODE_START, 16} <= FreeInodes({});
    assert DATA_START in FreeData({});
    SetSizes({INODE_START, 16}, FreeInodes({}));
    SetSizes({DATA_START}, FreeData({}));
  }

  lemma SetSizes(a: set<nat>, b: set<nat>)
    requires a <= b
    ensures |a| <= |b|
  {
    assert b == a + (b - a);
  }

  // ---- Freeing a chain ----

  // A file, or the rest of one whose first remaining inode carries the remaining size.
  ghost predicate ChainOk(v: Volume, lay: Layout) {
    && |lay.chain| == InodesFor(|lay.data|)
    && NoDup(lay.chain)
    && (forall x :: x in lay.chain ==> IsInum(x))
    && (forall y :: y in lay.data ==> IsData(y))
    && Linked(v, lay)
    && BlocksFor(NodeAt(v, lay.chain[0]).size) == |lay.data|
  }

  // Exactly the blocks of the layout become free, and only its inodes change.
  ghost predicate ChainFreed(v: Volume, v': Volume, lay: Layout) {
    && v'.used == v.used - NodeBlocks(lay.chain) - ToSet(lay.data)
    && v'.data == v.data
    && forall x :: x !in lay.chain ==> NodeAt(v', x) == NodeAt(v, x)
  }

  // The inodes have no type any more.
  ghost predicate Dead(v: Volume, chain: seq<nat>) {
    forall x :: x in chain ==> NodeAt(v, x).kind == 0
  }

  lemma AllDead(v: Volume, v': Volume, lay: Layout)
    requires |lay.chain| > 1 && NoDup(lay.chain) && NodeAt(v, lay.chain[0]).kind == 0
    requires forall x :: x !in lay.chain[1..] ==> NodeAt(v', x) == NodeAt(v, x)
    requires Dead(v', lay.chain[1..])
    ensures Dead(v', lay.chain)
  {
    forall x | x in lay.chain ensures NodeAt(v', x).kind == 0 {
      if x !in lay.chain[1..] { assert x == lay.chain[0]; }
    }
  }

  lemma FirstInode(v: Volume, lay: Layout)
    requires ChainOk(v, lay)
    ensures var n := NodeAt(v, lay.chain[0]);
            && IsInum(lay.chain[0]) && BlocksFor(n.size) == |lay.data|
            && (forall i :: 0 <= i < NDIRECT && i < |lay.data| ==> n.blocks[i] == lay.data[i] && IsData(lay.data[i]))
            && (|lay.data| <= NDIRECT ==> |lay.chain| == 1)
            && (|lay.data| > NDIRECT ==> |lay.chain| > 1 && n.blocks[NDIRECT] == lay.chain[1] && IsInum(lay.chain[1]) && lay.chain[1] != lay.chain[0])
  {
    assert lay.chain[0] in lay.chain;
    assert Holds(NodeAt(v, lay.chain[0]), 0, lay.chain, lay.data);
    if |lay.data| > NDIRECT { assert lay.chain[1] in lay.chain; }
  }

  lemma HoldsRest(n: Inode, n': Inode, k: nat, lay: Layout)
    requires Holds(n, k + 1, lay.chain, lay.data) && |lay.chain| > 0 && |lay.data| > NDIRECT
    requires n'.blocks == n.blocks && (k > 0 ==> n' == n)
    ensures Holds(n', k, lay.chain[1..], lay.data[NDIRECT..])
  {
    forall i | 0 <= i < NDIRECT && NDIRECT * k + i < |lay.data| - NDIRECT ensures n'.blocks[i] == lay.data[NDIRECT..][NDIRECT * k + i] {
      assert NDIRECT * (k + 1) + i == NDIRECT + (NDIRECT * k + i);
    }
  }

  // The rest of a chain after its first inode.
  lemma ChainRest(v: Volume, v': Volume, lay: Layout, n: Inode)
    requires ChainOk(v, lay) && |lay.data| > NDIRECT
    requires v'.node == v.node[lay.chain[0] := n][lay.chain[1] := NodeAt(v, lay.chain[1]).(size := NodeAt(v', lay.chain[1]).size)]
    requires BlocksFor(NodeAt(v', lay.chain[1]).size) == |lay.data| - NDIRECT
    ensures ChainOk(v', Layout(lay.chain[1..], lay.data[NDIRECT..]))
  {
    var rest := Layout(lay.chain[1..], lay.data[NDIRECT..]);
    forall k | 0 <= k < |rest.chain| ensures Holds(NodeAt(v', rest.chain[k]), k, rest.chain, rest.data) {
      var x := lay.chain[k + 1];
      assert rest.chain[k] == x;
      assert Holds(NodeAt(v, x), k + 1, lay.chain, lay.data);
      assert x != lay.chain[0] && (k > 0 ==> x != lay.chain[1]);
      HoldsRest(NodeAt(v, x), NodeAt(v', x), k, lay);
    }
  }

  lemma RestFreed(v: Volume, v1: Volume, v': Volume, lay: Layout)
    requires |lay.chain| > 1 && |lay.data| > NDIRECT
    requires v1.used == v.used - {IBlock(lay.chain[0])} - ToSet(lay.data[..NDIRECT]) && v1.data == v.data
    requires forall x :: x !in lay.chain ==> NodeAt(v1, x) == NodeAt(v, x)
    requires ChainFreed(v1, v', Layout(lay.chain[1..], lay.data[NDIRECT..]))
    ensures ChainFreed(v, v', lay)
  {
    assert lay.chain == [lay.chain[0]] + lay.chain[1..];
    assert lay.data == lay.data[..NDIRECT] + lay.data[NDIRECT..];
    assert NodeBlocks(lay.chain) == {IBlock(lay.chain[0])} + NodeBlocks(lay.chain[1..]);
    assert ToSet(lay.data) == ToSet(lay.data[..NDIRECT]) + ToSet(lay.data[NDIRECT..]);
  }

  lemma LastFreed(v: Volume, v': Volume, lay: Layout)
    requires |lay.chain| == 1
    requires v'.used == v.used - {IBlock(lay.chain[0])} - ToSet(lay.data) && v'.data == v.data
    requires forall x :: x !in lay.chain ==> NodeAt(v', x) == NodeAt(v, x)
    ensures ChainFreed(v, v', lay)
  {
    assert lay.chain == [lay.chain[0]];
    assert NodeBlocks(lay.chain) == {IBlock(lay.chain[0])};
  }

  lemma FreedElsewhere(v: Volume, v': Volume, lay: Layout, other: Layout)
    requires (forall x :: x in lay.chain ==> IsInum(x)) && (forall y :: y in lay.data ==> IsData(y))
    requires ChainFreed(v, v', lay) && InPlace(v, other)
    requires (forall x :: x in other.chain ==> x !in lay.chain) && (forall y :: y in other.data ==> y !in lay.data)
    ensures SameOn(v, v', other)
  {
    forall x | x in other.chain ensures IBlock(x) in v'.used {
      assert IsInum(x) && IBlock(x) !in NodeBlocks(lay.chain);
      assert IBlock(x) !in ToSet(lay.data);
    }
    forall y | y in other.data ensures y in v'.used {
      assert IsData(y) && y !in ToSet(lay.data);
      assert y !in NodeBlocks(lay.chain);
    }
  }

  /** Removing a file leaves every other file as it is. */
  lemma RemovedFile(v: Volume, v': Volume, files: map<nat, Layout>, h: nat)
    requires WellFormed(v, files) && h in files && ChainOk(v, files[h]) && ChainFreed(v, v', files[h])
    ensures WellFormed(v', files - {h}) && Store(v', files - {h}) == Store(v, files) - {h}
    ensures KindsKept(v, v', files - {h})
  {
    forall g | g in files && g != h ensures SameOn(v, v', files[g]) && NodeAt(v', g) == NodeAt(v, g) {
      assert FileOk(v, g, files[g]);
      assert files[g].chain[0] in files[g].chain;
      FreedElsewhere(v, v', files[h], files[g]);
    }
    Removed(v, v', files, h);
  }

  // ---- Sizes ----

  lemma {:induction false} DistinctCount(s: seq<nat>)
    requires NoDup(s)
    ensures |ToSet(s)| == |s|
  {
    if s != [] {
      var init := s[..|s| - 1];
      DistinctCount(init);
      assert s == init + [s[|s| - 1]];
      assert ToSet(s) == ToSet(init) + {s[|s| - 1]};
    } else {
      assert ToSet(s) == {};
    }
  }

  lemma {:induction false} RangeCount(s: set<nat>, lo: nat, hi: nat)
    requires lo <= hi && forall y :: y in s ==> lo <= y < hi
    ensures |s| <= hi - lo
    decreases hi - lo
  {
    if lo < hi {
      RangeCount(s - {lo}, lo + 1, hi);
    } else {
      assert s == {};
    }
  }

  /** No file is larger than the data region, so sizes and positions fit a C int. */
  lemma SizeFits(v: Volume, h: nat, lay: Layout)
    requires FileOk(v, h, lay)
    ensures |lay.data| <= BLOCK_NUM - DATA_START
    ensures NodeAt(v, h).size <= BLOCK_SIZE * (BLOCK_NUM - DATA_START) < 0x8000_0000
  {
    DistinctCount(lay.data);
    RangeCount(ToSet(lay.data), DATA_START, BLOCK_NUM);
  }

  lemma FileSize(v: Volume, h: nat, lay: Layout)
    requires FileOk(v, h, lay)
    ensures IsInum(h) && |Content(v, h, lay)| == NodeAt(v, h).size
  {
    assert lay.chain[0] in lay.chain;
  }

  // ---- Reading ----

  // Only the access time of the head changes.
  lemma Touched(v: Volume, v': Volume, files: map<nat, Layout>, h: nat, now: Word)
    requires WellFormed(v, files) && h in files
    requires v' == v.(node := v.node[h := NodeAt(v, h).(atime := now)])
    ensures WellFormed(v', files) && Store(v', files) == Store(v, files)
    ensures KindsKept(v, v', files)
  {
    var lay := files[h];
    assert FileOk(v, h, lay);
    assert lay.chain[0] in lay.chain;
    TouchedFile(v, v', h, lay, now);
    forall g | g in files && g != h ensures SameOn(v, v', files[g]) {
      TouchedElsewhere(v, v', files, h, g, now);
    }
    assert Strange(files, h, lay);
    Replaced(v, v', files, h, lay);
    assert files[h := lay] == files;
    assert Store(v, files)[h := Content(v, h, lay)] == Store(v, files);
  }

  lemma TouchedElsewhere(v: Volume, v': Volume, files: map<nat, Layout>, h: nat, g: nat, now: Word)
    requires AllOk(v, files) && Apart(files) && h in files && g in files && g != h
    requires v' == v.(node := v.node[h := NodeAt(v, h).(atime := now)])
    ensures SameOn(v, v', files[g])
  {
    assert FileOk(v, g, files[g]) && FileOk(v, h, files[h]);
    assert files[h].chain[0] in files[h].chain;
    forall x | x in files[g].chain ensures x != h { }
  }

  lemma TouchedFile(v: Volume, v': Volume, h: nat, lay: Layout, now: Word)
    requires FileOk(v, h, lay) && v' == v.(node := v.node[h := NodeAt(v, h).(atime := now)])
    ensures FileOk(v', h, lay) && Content(v', h, lay) == Content(v, h, lay)
  {
    forall k | 0 <= k < |lay.chain| ensures Holds(NodeAt(v', lay.chain[k]), k, lay.chain, lay.data) {
      assert Holds(NodeAt(v, lay.chain[k]), k, lay.chain, lay.data);
    }
    FlatKept(v, v', lay.data);
  }

  // What a read relies on.
  ghost predicate Readable(v: Volume, h: nat, lay: Layout) {
    && |lay.chain| == InodesFor(|lay.data|) && lay.chain[0] == h
    && (forall x :: x in lay.chain ==> IsInum(x))
    && (forall y :: y in lay.data ==> IsData(y))
    && Linked(v, lay)
    && BlocksFor(NodeAt(v, h).size) == |lay.data|
    && IsData(NodeAt(v, h).blocks[0])
  }

  // Where block j of a file is found: in inode k at index i.
  lemma BlockOfFile(v: Volume, h: nat, lay: Layout, k: nat, i: nat, j: nat)
    requires Readable(v, h, lay) && i < NDIRECT && j == NDIRECT * k + i < |lay.data|
    ensures k < |lay.chain| && IsInum(lay.chain[k])
    ensures NodeAt(v, lay.chain[k]).blocks[i] == lay.data[j] && IsData(lay.data[j])
    ensures k > 0 ==> NodeAt(v, lay.chain[k - 1]).blocks[NDIRECT] == lay.chain[k]
  {
    assert lay.chain[k] in lay.chain && lay.data[j] in lay.data;
    assert Holds(NodeAt(v, lay.chain[k]), k, lay.chain, lay.data);
    if k > 0 { assert Holds(NodeAt(v, lay.chain[k - 1]), k - 1, lay.chain, lay.data); }
  }

  // The block that a read looks at: block cur, or for an empty file the first one of the
  // inode, whose bytes do not matter.
  lemma BlockHere(v: Volume, h: nat, lay: Layout, k: nat, i: nat, cur: nat)
    requires Readable(v, h, lay) && i < NDIRECT && cur == NDIRECT * k + i && (cur < |lay.data| || cur == 0) && k < |lay.chain|
    ensures IsData(NodeAt(v, lay.chain[k]).blocks[i])
    ensures cur < |lay.data| ==> NodeAt(v, lay.chain[k]).blocks[i] == lay.data[cur]
  {
    if cur < |lay.data| { BlockOfFile(v, h, lay, k, i, cur); }
  }

  // The bytes of the first n blocks.
  function FlatTo(v: Volume, data: seq<nat>, n: nat): (bytes: seq<Byte>)
    requires n <= |data|
    ensures |bytes| == BLOCK_SIZE * n
  {
    Flat(v, data[..n])
  }

  lemma FlatStep(v: Volume, data: seq<nat>, j: nat)
    requires j < |data|
    ensures FlatTo(v, data, j + 1) == FlatTo(v, data, j) + DataAt(v, data[j])
  {
    assert data[..j + 1][..j] == data[..j];
  }

  // The last block read contributes what is missing.
  lemma LastChunk(v: Volume, h: nat, lay: Layout, j: nat, block: Block)
    requires BlocksFor(NodeAt(v, h).size) == |lay.data| && (j + 1) * BLOCK_SIZE >= NodeAt(v, h).size
    requires if lay.data == [] then j == 0 else j < |lay.data| && block == DataAt(v, lay.data[j])
    ensures 0 <= NodeAt(v, h).size - j * BLOCK_SIZE <= BLOCK_SIZE
    ensures FlatTo(v, lay.data, j) + block[..NodeAt(v, h).size - j * BLOCK_SIZE] == Content(v, h, lay)
  {
    if lay.data != [] {
      FlatStep(v, lay.data, j);
      assert j + 1 == |lay.data| && lay.data[..j + 1] == lay.data;
    }
  }

  // ---- Writing ----

  // The blocks of the old file behind data that the inode cur holds from position base on.
  ghost predicate Behind(lay: Layout, data: seq<nat>, cur: Inode, base: nat) {
    forall i, j {:trigger cur.blocks[i], lay.data[j]} :: 0 <= i < NDIRECT && |data| <= j < |lay.data| && j == base + i ==>
      cur.blocks[i] == lay.data[j] && IsData(lay.data[j]) && lay.data[j] in lay.data && lay.data[j] !in data
  }

  // The inode z of the old chain is not part of the new one.
  ghost predicate NextBehind(v: Volume, lay: Layout, chain: seq<nat>, z: nat) {
    |chain| < |lay.chain| && z == lay.chain[|chain|] && IsInum(z) && z in lay.chain && z !in chain && NodeAt(v, z).size == 0
  }

  lemma BehindEnd(v0: Volume, v: Volume, lay: Layout, chain: seq<nat>, data: seq<nat>, cur: Inode)
    requires Writing(v0, v, lay, chain, data, cur) && InPlace(v0, lay) && Linked(v0, lay) && |lay.chain| == InodesFor(|lay.data|)
    ensures Behind(lay, data, cur, NDIRECT * (|chain| - 1))
    ensures |lay.data| > NDIRECT * |chain| ==> NextBehind(v, lay, chain, cur.blocks[NDIRECT])
  {
    if |lay.data| > NDIRECT * |chain| { OldNext(v0, v, lay, chain, data, cur); }
    forall i, j {:trigger cur.blocks[i], lay.data[j]} | 0 <= i < NDIRECT && |data| <= j < |lay.data| && j == NDIRECT * (|chain| - 1) + i
      ensures cur.blocks[i] == lay.data[j] && IsData(lay.data[j]) && lay.data[j] in lay.data && lay.data[j] !in data
    {
      TailBlock(v0, v, lay, chain, data, cur, i, j);
    }
  }

  // The slots that the write has taken so far: those of the inodes and blocks that the
  // old file did not have.
  ghost predicate Budget(used0: set<nat>, used: set<nat>, lay: Layout, inodes: nat, blocks: nat) {
    Spent(used0, used, Over(inodes, |lay.chain|), Over(blocks, |lay.data|))
  }

  // The write stands behind the last of data, at index of the last inode.
  predicate At(chain: seq<nat>, data: seq<nat>, last: nat, blockNum: nat, index: nat) {
    && chain != [] && |chain| == InodesFor(|data|) && last == chain[|chain| - 1]
    && blockNum == |data| == NDIRECT * (|chain| - 1) + index
  }

  // The last inode has room for one more block at index.
  predicate Before(chain: seq<nat>, data: seq<nat>, last: nat, blockNum: nat, index: nat) {
    && chain != [] && |chain| == InodesFor(|data| + 1) && last == chain[|chain| - 1]
    && blockNum == |data| == NDIRECT * (|chain| - 1) + index
  }

  // What a write relies on about the file as it was.
  ghost predicate Original(v0: Volume, lay: Layout, fileSize: nat) {
    && InPlace(v0, lay) && Linked(v0, lay) && |lay.chain| == InodesFor(|lay.data|) && BlocksFor(fileSize) == |lay.data|
    && DATA_START in v0.used
  }

  // The write is at the end of a block.
  ghost predicate Underway(v0: Volume, v: Volume, lay: Layout, chain: seq<nat>, data: seq<nat>, cur: Inode, last: nat, blockNum: nat, index: nat) {
    && Writing(v0, v, lay, chain, data, cur) && At(chain, data, last, blockNum, index)
    && Budget(v0.used, v.used, lay, |chain|, |data|)
  }

  // The write is about to fill a block.
  ghost predicate Ready(v0: Volume, v: Volume, lay: Layout, chain: seq<nat>, data: seq<nat>, cur: Inode, last: nat, blockNum: nat, index: nat) {
    && Writing(v0, v, lay, chain, data, cur) && Before(chain, data, last, blockNum, index)
    && Budget(v0.used, v.used, lay, |chain|, |data|)
  }

  // There are slots for the inodes and blocks by which the file grows.
  ghost predicate Afforded(used: set<nat>, lay: Layout, blocks: nat) {
    var c, a := Over(InodesFor(blocks), |lay.chain|), Over(blocks, |lay.data|);
    InodesLeft(used) >= c && DataLeft(used) >= a + c
  }

  lemma NoInode(used0: set<nat>, used: set<nat>, lay: Layout, inodes: nat, blocks: nat)
    requires Budget(used0, used, lay, inodes, blocks) && (InodesLeft(used) == 0 || DataLeft(used) == 0)
    requires |lay.data| <= blocks == NDIRECT * inodes && inodes >= |lay.chain|
    ensures forall m: nat :: m > blocks ==> !Afforded(used0, lay, m)
  {
    forall m: nat | m > blocks ensures !Afforded(used0, lay, m) {
      assert InodesFor(m) > inodes;
    }
  }

  // The write enters the next inode z, a new one or one that the file has.
  lemma Entered(used0: set<nat>, used: set<nat>, lay: Layout, chain: seq<nat>, data: seq<nat>, last: nat, blockNum: nat, index: nat)
    requires At(chain, data, last, blockNum, index) && Budget(used0, used, lay, |chain|, |data|) && index > NDIRECT - 1
    ensures |data| == NDIRECT * |chain|
    ensures forall z: nat :: Before(chain + [z], data, z, blockNum, 0)
    ensures |chain| < |lay.chain| ==> Budget(used0, used, lay, |chain| + 1, |data|)
    ensures |chain| >= |lay.chain| ==> forall used' :: Spent(used, used', 1, 0) ==> Budget(used0, used', lay, |chain| + 1, |data|)
  {
  }

  // A block is filled, a new one or one that the file has.
  lemma Filled(used0: set<nat>, used: set<nat>, lay: Layout, chain: seq<nat>, data: seq<nat>, last: nat, blockNum: nat, index: nat)
    requires Before(chain, data, last, blockNum, index) && Budget(used0, used, lay, |chain|, |data|)
    ensures forall y: nat :: At(chain, data + [y], last, blockNum + 1, index + 1)
    ensures |data| < |lay.data| ==> Budget(used0, used, lay, |chain|, |data| + 1)
    ensures |data| >= |lay.data| ==> forall used' :: Spent(used, used', 0, 1) ==> Budget(used0, used', lay, |chain|, |data| + 1)
  {
  }

  lemma NoBlock(used0: set<nat>, used: set<nat>, lay: Layout, inodes: nat, blocks: nat)
    requires Budget(used0, used, lay, inodes, blocks) && DataLeft(used) == 0
    requires |lay.data| <= blocks && inodes == InodesFor(blocks + 1)
    ensures forall m: nat :: m > blocks ==> !Afforded(used0, lay, m)
  {
    forall m: nat | m > blocks ensures !Afforded(used0, lay, m) {
      assert InodesFor(m) >= inodes;
    }
  }

  // Block n of what is written: the last one is filled up with zeros.
  function Chunk(buf: seq<Byte>, n: nat): Block {
    var cur := if BLOCK_SIZE * n <= |buf| then buf[BLOCK_SIZE * n..] else [];
    if |cur| < BLOCK_SIZE then cur + Zeros(BLOCK_SIZE - |cur|) else cur[..BLOCK_SIZE]
  }

  // The blocks of data hold the beginning of buf.
  ghost predicate Spells(v: Volume, data: seq<nat>, buf: seq<Byte>) {
    forall i :: 0 <= i < |data| ==> DataAt(v, data[i]) == Chunk(buf, i)
  }

  lemma SpellsMore(v: Volume, v': Volume, data: seq<nat>, y: nat, buf: seq<Byte>)
    requires Spells(v, data, buf) && Added(v, v', data, y, Chunk(buf, |data|))
    ensures Spells(v', data + [y], buf)
  {
    forall i | 0 <= i < |data| ensures DataAt(v', data[i]) == Chunk(buf, i) {
      assert data[i] in data;
    }
  }

  lemma ChunkNext(buf: seq<Byte>, n: nat)
    requires BLOCK_SIZE * n <= |buf|
    ensures BLOCK_SIZE * (n + 1) <= |buf| ==> buf[..BLOCK_SIZE * n] + Chunk(buf, n) == buf[..BLOCK_SIZE * (n + 1)]
    ensures BLOCK_SIZE * (n + 1) > |buf| ==> (buf[..BLOCK_SIZE * n] + Chunk(buf, n))[..|buf|] == buf
  {
  }

  lemma {:induction false} SpelledFull(v: Volume, data: seq<nat>, buf: seq<Byte>)
    requires Spells(v, data, buf) && BLOCK_SIZE * |data| <= |buf|
    ensures Flat(v, data) == buf[..BLOCK_SIZE * |data|]
  {
    if data != [] {
      ChunkNext(buf, |data| - 1);
      assert DataAt(v, data[|data| - 1]) == Chunk(buf, |data| - 1);
      SpelledFull(v, data[..|data| - 1], buf);
    }
  }

  lemma SpelledOut(v: Volume, data: seq<nat>, buf: seq<Byte>)
    requires Spells(v, data, buf) && |data| == BlocksFor(|buf|)
    ensures Flat(v, data)[..|buf|] == buf
  {
    if data != [] {
      ChunkNext(buf, |data| - 1);
      assert DataAt(v, data[|data| - 1]) == Chunk(buf, |data| - 1);
      SpelledFull(v, data[..|data| - 1], buf);
    }
  }

  // The inodes that are put at the end are not among the freed ones.
  lemma EndsIn(v: Volume, lay: Layout, chain: seq<nat>, data: seq<nat>, freed: set<nat>)
    requires InPlace(v, Layout(chain, data)) && chain != [] && Dropped(lay, chain, data, freed)
    ensures IsInum(chain[0]) && IBlock(chain[0]) !in freed
    ensures IsInum(chain[|chain| - 1]) && IBlock(chain[|chain| - 1]) !in freed
  {
    assert chain[0] in chain && chain[|chain| - 1] in chain;
    EndedInPlace(v, v.(used := v.used - freed), lay, chain, data, freed);
  }

  // How a write went: the state after the last block was written, and what was freed then.
  datatype Course = Course(v: Volume, chain: seq<nat>, data: seq<nat>, cur: Inode, last: nat, blockNum: nat, index: nat, freed: set<nat>)

  ghost predicate Went(v0: Volume, v': Volume, lay: Layout, run: Course, buf: seq<Byte>, now: Word)
    requires |buf| < 0x8000_0000
  {
    && Underway(v0, run.v, lay, run.chain, run.data, run.cur, run.last, run.blockNum, run.index)
    && Ended(run.v, v', run.chain, run.cur, |buf|, now, run.freed) && Dropped(lay, run.chain, run.data, run.freed)
    && Spells(run.v, run.data, buf) && run.blockNum == BlocksFor(|buf|)
    && Took(v0.used, run.v.used, lay, run.chain, run.data) && run.freed == TailOf(lay, |run.chain|, |run.data|)
  }

  // How the used blocks and the lost ones have changed.
  lemma WrittenBlocks(v0: Volume, v': Volume, files: map<nat, Layout>, h: nat, run: Course, buf: seq<Byte>, now: Word)
    requires WellFormed(v0, files) && h in files && |buf| < 0x8000_0000 && Went(v0, v', files[h], run, buf, now)
    ensures var lay, lay' := files[h], Layout(run.chain, run.data);
            && |lay'.data| == BlocksFor(|buf|) && |lay'.chain| == InodesFor(|lay'.data|)
            && Rewritten(v0.used, v'.used, lay, lay') && LosesExactly(v0.used, Lost(v0.used, files), Lost(v'.used, files[h := lay']), lay, lay')
  {
    var lay, lay' := files[h], Layout(run.chain, run.data);
    assert FileOk(v0, h, lay);
    BlocksApart(v0, files, h);
    NewFits(v0, run.v, files, h, run);
    TookRewritten(v0.used, run.v.used, v'.used, lay, lay');
    WriteLoses(v0.used, v'.used, files, h, lay');
  }

  lemma TookRewritten(used0: set<nat>, used: set<nat>, used': set<nat>, lay: Layout, lay': Layout)
    requires Took(used0, used, lay, lay'.chain, lay'.data) && used' == used - TailOf(lay, |lay'.chain|, |lay'.data|)
    ensures Rewritten(used0, used', lay, lay')
  {
    var spare :| TookWith(used0, used, lay, lay'.chain, lay'.data, spare);
    assert RewrittenWith(used0, used', lay, lay', spare);
  }

  lemma NewFits(v0: Volume, v: Volume, files: map<nat, Layout>, h: nat, run: Course)
    requires h in files && FileOk(v0, h, files[h]) && AllBlocks(files) <= v0.used && BlocksOf(files[h]) <= AllBlocks(files)
    requires Underway(v0, v, files[h], run.chain, run.data, run.cur, run.last, run.blockNum, run.index)
    requires Along(files[h], run.chain, run.data)
    ensures Fits(v0.used, files[h], Layout(run.chain, run.data))
  {
    var lay, lay' := files[h], Layout(run.chain, run.data);
    forall b | b in BlocksOf(lay') && b in v0.used ensures b in BlocksOf(lay) {
      if b !in ToSet(run.data) {
        var x :| x in run.chain && b == IBlock(x);
        assert x in lay.chain;
      }
    }
  }

  lemma Written(v0: Volume, v': Volume, files: map<nat, Layout>, h: nat, run: Course, buf: seq<Byte>, now: Word)
    requires WellFormed(v0, files) && h in files && |buf| < 0x8000_0000 && Went(v0, v', files[h], run, buf, now)
    ensures WellFormed(v', files[h := Layout(run.chain, run.data)])
    ensures Store(v', files[h := Layout(run.chain, run.data)]) == Store(v0, files)[h := buf]
    ensures Stamped(v0, v', files, h, now)
    ensures Afforded(v0.used, files[h], BlocksFor(|buf|))
  {
    SpelledOut(run.v, run.data, buf);
    Finish(v0, run.v, v', files, h, run.chain, run.data, run.cur, |buf|, now, run.freed);
  }

  // ---- What is recorded of the files ----

  // The files by head inode and where they lie; their bytes; their types; and the used
  // blocks that no file has.
  datatype Book = Book(files: map<nat, Layout>, contents: map<nat, seq<Byte>>, kinds: map<nat, Word>, lost: set<nat>)

  ghost function BookOf(v: Volume, files: map<nat, Layout>): Book {
    Book(files, Store(v, files), Kinds(v, files), Lost(v.used, files))
  }

  lemma BookCreated(v: Volume, v': Volume, files: map<nat, Layout>, z: nat, n: Inode, y: nat)
    requires WellFormed(v, files) && NodeAdded(v, v', z, n, y) && Shaped(v'.used)
    ensures var b, files' := BookOf(v, files), files[z := Layout([z], [])];
            && z !in files && WellFormed(v', files') && (forall g :: g in files ==> NodeAt(v', g) == NodeAt(v, g))
            && BookOf(v', files') == Book(files', b.contents[z := []], b.kinds[z := n.kind], b.lost + {y})
  {
    Created(v, v', files, z, n, y);
    CreateLosesOne(v, v'.used, files, z, y);
    KindsCreated(v, v', files, z);
  }

  lemma KindsCreated(v: Volume, v': Volume, files: map<nat, Layout>, z: nat)
    requires z !in files && KindsKept(v, v', files)
    ensures Kinds(v', files[z := Layout([z], [])]) == Kinds(v, files)[z := NodeAt(v', z).kind]
  {
  }

  lemma EmptyBook(v: Volume)
    requires v.used == {}
    ensures BookOf(v, map[]) == Book(map[], map[], map[], {})
  {
  }

  lemma BookRemoved(v: Volume, v': Volume, files: map<nat, Layout>, h: nat)
    requires WellFormed(v, files) && h in files && ChainOk(v, files[h]) && ChainFreed(v, v', files[h])
    ensures var b, files' := BookOf(v, files), files - {h};
            && WellFormed(v', files') && v'.used == v.used - BlocksOf(files[h])
            && BookOf(v', files') == Book(files', b.contents - {h}, b.kinds - {h}, b.lost)
  {
    RemovedFile(v, v', files, h);
    assert v'.used == v.used - BlocksOf(files[h]);
    RemoveLosesNone(v, v'.used, files, h);
    KindsRemoved(v, v', files, h);
  }

  lemma KindsRemoved(v: Volume, v': Volume, files: map<nat, Layout>, h: nat)
    requires KindsKept(v, v', files - {h})
    ensures Kinds(v', files - {h}) == Kinds(v, files) - {h}
  {
  }

  lemma BookTouched(v: Volume, v': Volume, files: map<nat, Layout>, h: nat, now: Word)
    requires WellFormed(v, files) && h in files
    requires v' == v.(node := v.node[h := NodeAt(v, h).(atime := now)])
    ensures WellFormed(v', files) && BookOf(v', files) == BookOf(v, files)
  {
    Touched(v, v', files, h, now);
    KindsSame(v, v', files, files);
  }

  lemma KindsSame(v: Volume, v': Volume, files: map<nat, Layout>, files': map<nat, Layout>)
    requires KindsKept(v, v', files) && files'.Keys == files.Keys
    ensures Kinds(v', files') == Kinds(v, files)
  {
  }

  // A file gets new bytes and the blocks they need; all others stay as they are.
  ghost predicate Replaces(book: Book, book': Book, inum: nat, buf: seq<Byte>) {
    && inum in book.files && inum in book'.files && book'.files == book.files[inum := book'.files[inum]]
    && book'.contents == book.contents[inum := buf] && book'.kinds == book.kinds
    && |book'.files[inum].data| == BlocksFor(|buf|) && |book'.files[inum].chain| == InodesFor(BlocksFor(|buf|))
  }

  // A write on one of several files: what it leaves, without how it came to that.
  ghost predicate WroteAmong(v: Volume, v': Volume, files: map<nat, Layout>, h: nat, lay': Layout, buf: seq<Byte>, now: Word)
    requires h in files
  {
    && WellFormed(v', files[h := lay']) && Store(v', files[h := lay']) == Store(v, files)[h := buf] && Stamped(v, v', files, h, now)
    && |lay'.data| == BlocksFor(|buf|) && |lay'.chain| == InodesFor(|lay'.data|)
    && Rewritten(v.used, v'.used, files[h], lay') && LosesExactly(v.used, Lost(v.used, files), Lost(v'.used, files[h := lay']), files[h], lay')
  }

  lemma StampedKinds(v: Volume, v': Volume, files: map<nat, Layout>, h: nat, now: Word)
    requires Stamped(v, v', files, h, now)
    ensures KindsKept(v, v', files)
  {
  }

  lemma BookWritten(v: Volume, v': Volume, files: map<nat, Layout>, h: nat, lay': Layout, buf: seq<Byte>, now: Word)
    requires h in files && WroteAmong(v, v', files, h, lay', buf, now)
    ensures var book, book' := BookOf(v, files), BookOf(v', files[h := lay']);
            Replaces(book, book', h, buf) && LosesExactly(v.used, book.lost, book'.lost, files[h], lay')
  {
    StampedKinds(v, v', files, h, now);
    KindsSame(v, v', files, files[h := lay']);
  }

  lemma BookRoot(v: Volume, v': Volume, n: Inode)
    requires v.used == {} && NodeAdded(v, v', 1, n, DATA_START) && n.kind == T_DIR && Shaped(v'.used)
    ensures WellFormed(v', map[1 := Layout([1], [])]) && v'.used == {INODE_START, DATA_START}
    ensures BookOf(v', map[1 := Layout([1], [])]) == Book(map[1 := Layout([1], [])], map[1 := []], map[1 := T_DIR], {DATA_START})
  {
    BookCreated(v, v', map[], 1, n, DATA_START);
    EmptyBook(v);
  }

  class InodeManager {
    const bm: BlockManager
    ghost var book: Book

    ghost predicate Valid()
      reads this, bm.d.blocks
    {
      bm.Valid() && WellFormed(bm.Vol(), book.files) && book == BookOf(bm.Vol(), book.files) && DATA_START in book.lost
    }

    // The numbers of inodes and blocks of a file follow from its length.
    lemma LengthOf(inum: nat)
      requires Valid() && inum in book.contents
      ensures inum in book.files && inum < INODE_NUM
      ensures |book.files[inum].data| == BlocksFor(|book.contents[inum]|) && |book.files[inum].chain| == InodesFor(|book.files[inum].data|)
    {
      FileSize(bm.Vol(), inum, book.files[inum]);
    }

    /** In every reachable state a bitmap byte inside one region is 0x00 or 0x80. */
    lemma BitmapShape(b: nat)
      requires Valid() && b % 8 == 0
      requires (INODE_START <= b && b + 8 <= DATA_START) || (DATA_START <= b && b + 8 <= BLOCK_NUM)
      ensures bm.d.Bytes()[BBlock(b)][b % BPB / 8] in {0x00, 0x80}
    {
      BitmapBytes(bm.d.Bytes(), b);
    }

    /** In every reachable state the blocks of a file are marked used and lie in their own
        regions, none occurs twice, and none belongs to another file. */
    lemma Isolation(g: nat, h: nat)
      requires Valid() && g in book.files && h in book.files && g != h
      ensures InPlace(bm.Vol(), book.files[g])
      ensures (forall x :: x in book.files[g].chain ==> x !in book.files[h].chain)
      ensures (forall y :: y in book.files[g].data ==> y !in book.files[h].data)
    {
      assert FileOk(bm.Vol(), g, book.files[g]);
    }

    constructor (now: Word, junk: Blocks)
      ensures Valid() && fresh(bm) && fresh(bm.d.blocks)
      ensures book == Book(map[1 := Layout([1], [])], map[1 := []], map[1 := T_DIR], {DATA_START})
      ensures bm.Vol().used == {INODE_START, DATA_START}
    {
      bm := new BlockManager();
      new;
      MakeRoot(now, junk);
    }

    /** The first inode to be allocated is the root directory. Its data block, the first one
        of the region, is never part of a file. */
    method MakeRoot(now: Word, junk: Blocks)
      requires bm.Valid() && bm.Vol().used == {}
      modifies this`book, bm.d.blocks
      ensures Valid() && book == Book(map[1 := Layout([1], [])], map[1 := []], map[1 := T_DIR], {DATA_START})
      ensures bm.Vol().used == {INODE_START, DATA_START}
    {
      ghost var v := bm.Vol();
      FirstAllocations();
      var root, ok := AllocNode(T_DIR, now, junk, Zeros(BLOCK_SIZE));
      assert root == 1 && v.used + {IBlock(root)} == {INODE_START};
      BookRoot(v, bm.Vol(), NodeAt(bm.Vol(), 1));
      book := BookOf(bm.Vol(), map[1 := Layout([1], [])]);
    }

    /** The inode of a number below INODE_NUM; NULL for others. */
    method GetInode(inum: nat) returns (ino: Option<Inode>)
      requires bm.Valid()
      ensures ino == if inum < INODE_NUM then Some(DecodeInode(bm.d.Bytes()[IBlock(inum)])) else None
      ensures IsInum(inum) ==> ino == Some(NodeAt(bm.Vol(), inum))
    {
      if inum >= INODE_NUM {
        return None;
      }
      var buf := bm.ReadBlock(IBlock(inum));
      ino := Some(DecodeInode(buf));
    }

    method PutInode(inum: nat, ino: Inode)
      requires bm.Valid() && IsInum(inum)
      modifies bm.d.blocks
      ensures bm.Vol() == old(bm.Vol()).(node := old(bm.Vol()).node[inum := ino])
    {
      var buf := bm.ReadBlock(IBlock(inum));
      NodeVolume(bm.d.Bytes(), inum, ino, buf);
      bm.WriteBlock(IBlock(inum), EncodeInode(ino, buf));
    }

    /** A new inode with a data block of its own. What malloc and the stack leave in the
        other block numbers (junk) and behind the inode (rest) is arbitrary. ok is false
        if no inode or no data block is free; the source does not test for that. */
    method AllocNode(kind: Word, now: Word, junk: Blocks, rest: Block) returns (inum: nat, ok: bool)
      requires bm.Valid() && Shaped(bm.Vol().used)
      modifies bm.d.blocks
      ensures InodesLeft(old(bm.Vol()).used) > 1 && DataLeft(old(bm.Vol()).used) > 0 ==> ok
      ensures DATA_START in old(bm.Vol()).used ==> (ok <==> InodesLeft(old(bm.Vol()).used) > 0 && DataLeft(old(bm.Vol()).used) > 0)
      ensures !ok ==> InodesLeft(bm.Vol().used) == 0 || DataLeft(bm.Vol().used) == 0
      ensures ok && DATA_START in old(bm.Vol()).used ==> Spent(old(bm.Vol()).used, bm.Vol().used, 1, 0)
      ensures ok ==> Shaped(bm.Vol().used)
      ensures ok ==> Born(NodeAt(bm.Vol(), inum), kind, now)
      ensures ok ==> IsInum(inum) && NodeAt(bm.Vol(), inum).kind == kind
                     && NodeAdded(old(bm.Vol()), bm.Vol(), inum, NodeAt(bm.Vol(), inum), NodeAt(bm.Vol(), inum).blocks[0])
      ensures ok ==> IBlock(inum) == FirstClear(old(bm.Vol()).used, INODE_START, DATA_START)
      ensures ok ==> NodeAt(bm.Vol(), inum).blocks[0] == FirstClear(old(bm.Vol()).used + {IBlock(inum)}, DATA_START, BLOCK_NUM)
    {
      ghost var v := bm.Vol();
      var iblockNum := bm.AllocBlock(INODE);
      InodeAllocCount(v.used, iblockNum);
      ghost var v1 := bm.Vol();
      DataAllocCount(v1.used);
      var bblockNum := bm.AllocBlock(DATA);
      inum, ok := 0, iblockNum != 0 && bblockNum != 0;
      if !ok { return; }
      var ino := SetBlock(Inode(kind, 0, now, now, now, junk), 0, bblockNum);
      inum := iblockNum - INODE_START + 1;
      NodeVolume(bm.d.Bytes(), inum, ino, rest);
      bm.WriteBlock(iblockNum, EncodeInode(ino, rest));
      assert v.used + {IBlock(inum)} + {bblockNum} == v.used + {IBlock(inum), bblockNum};
    }

    /** Creates an empty file; the data block that comes with its inode is lost. */
    method AllocInode(kind: Word, now: Word, junk: Blocks, rest: Block) returns (inum: nat, ok: bool)
      requires Valid()
      modifies this`book, bm.d.blocks
      ensures ok <==> InodesLeft(old(bm.Vol()).used) > 0 && DataLeft(old(bm.Vol()).used) > 0
      ensures !ok ==> InodesLeft(bm.Vol().used) == 0 || DataLeft(bm.Vol().used) == 0
      ensures ok ==> Born(NodeAt(bm.Vol(), inum), kind, now) && forall g :: g in old(book).files ==> NodeAt(bm.Vol(), g) == NodeAt(old(bm.Vol()), g)
      ensures ok ==> Valid() && inum !in old(book.files) && IsInum(inum) && Spent(old(bm.Vol()).used, bm.Vol().used, 1, 0)
      ensures ok ==> IBlock(inum) == FirstClear(old(bm.Vol()).used, INODE_START, DATA_START)
      ensures ok ==> exists y :: y !in old(bm.Vol()).used && book ==
                       Book(old(book).files[inum := Layout([inum], [])], old(book).contents[inum := []], old(book).kinds[inum := kind], old(book).lost + {y})
    {
      ghost var v := bm.Vol();
      inum, ok := AllocNode(kind, now, junk, rest);
      if ok {
        ghost var n := NodeAt(bm.Vol(), inum);
        BookCreated(v, bm.Vol(), book.files, inum, n, n.blocks[0]);
        book := BookOf(bm.Vol(), book.files[inum := Layout([inum], [])]);
      }
    }

    /** Frees the direct blocks of an inode that hold file bytes; returns the size left. */
    method FreeDirect(inode: Inode, ghost data: seq<nat>) returns (fileSize: int)
      requires bm.Valid() && BlocksFor(inode.size) == |data|
      requires forall i :: 0 <= i < NDIRECT && i < |data| ==> inode.blocks[i] == data[i] && IsData(data[i])
      modifies bm.d.blocks
      ensures |data| <= NDIRECT ==> fileSize <= 0
      ensures |data| > NDIRECT ==> fileSize == inode.size - BLOCK_SIZE * NDIRECT
      ensures bm.Vol() == old(bm.Vol()).(used := old(bm.Vol()).used - ToSet(if |data| <= NDIRECT then data else data[..NDIRECT]))
    {
      ghost var v := bm.Vol();
      var curIndex := 0;
      fileSize := inode.size;
      while fileSize > 0 && curIndex <= NDIRECT - 1
        invariant 0 <= curIndex <= NDIRECT && curIndex <= |data|
        invariant fileSize == inode.size - BLOCK_SIZE * curIndex
        invariant bm.Vol() == v.(used := v.used - ToSet(data[..curIndex]))
        decreases fileSize
      {
        assert inode.blocks[curIndex] == data[curIndex];
        bm.FreeBlock(inode.blocks[curIndex]);
        assert ToSet(data[..curIndex + 1]) == ToSet(data[..curIndex]) + {data[curIndex]};
        assert v.used - ToSet(data[..curIndex]) - {data[curIndex]} == v.used - ToSet(data[..curIndex + 1]);
        fileSize := fileSize - BLOCK_SIZE;
        curIndex := curIndex + 1;
      }
      assert |data| <= NDIRECT ==> data[..curIndex] == data;
    }

    /** Frees an inode, its data blocks and the inodes chained behind it. */
    method FreeInode(inum: nat, ghost lay: Layout)
      requires bm.Valid() && ChainOk(bm.Vol(), lay) && lay.chain[0] == inum
      modifies bm.d.blocks
      ensures ChainFreed(old(bm.Vol()), bm.Vol(), lay) && Dead(bm.Vol(), lay.chain)
      decreases |lay.chain|, 1
    {
      ghost var v := bm.Vol();
      FirstInode(v, lay);
      var inode := GetInode(inum);
      var cleared := inode.value.(kind := 0);
      PutInode(inum, cleared);
      bm.FreeBlock(IBlock(inum));
      var fileSize := FreeDirect(cleared, lay.data);
      assert bm.Vol().node == v.node[inum := cleared] && bm.Vol().data == v.data;
      if fileSize > 0 {
        FreeChained(v, cleared, fileSize, lay);
      } else {
        LastFreed(v, bm.Vol(), lay);
      }
    }

    /** The step of FreeInode to the next inode, which is given the remaining size. */
    method FreeChained(ghost v: Volume, inode: Inode, fileSize: Word, ghost lay: Layout)
      requires bm.Valid() && ChainOk(v, lay) && |lay.data| > NDIRECT
      requires inode == NodeAt(v, lay.chain[0]).(kind := 0) && fileSize == inode.size - BLOCK_SIZE * NDIRECT
      requires bm.Vol() == v.(used := v.used - {IBlock(lay.chain[0])} - ToSet(lay.data[..NDIRECT]), node := v.node[lay.chain[0] := inode])
      modifies bm.d.blocks
      ensures ChainFreed(v, bm.Vol(), lay) && Dead(bm.Vol(), lay.chain)
      decreases |lay.chain|, 0
    {
      FirstInode(v, lay);
      var nextInum := inode.blocks[NDIRECT];
      var next := GetInode(nextInum);
      PutInode(nextInum, next.value.(size := fileSize));
      ghost var v2 := bm.Vol();
      ChainRest(v, v2, lay, inode);
      FreeInode(nextInum, Layout(lay.chain[1..], lay.data[NDIRECT..]));
      RestFreed(v, v2, bm.Vol(), lay);
      AllDead(v2, bm.Vol(), lay);
    }

    /** Removes a file: exactly the bits of its inodes and data blocks are cleared, and no
        block is lost. */
    method RemoveFile(inum: nat)
      requires Valid() && inum in book.files
      modifies this`book, bm.d.blocks
      ensures Valid() && bm.Vol().used == old(bm.Vol()).used - BlocksOf(old(book).files[inum]) && Dead(bm.Vol(), old(book).files[inum].chain)
      ensures book == Book(old(book).files - {inum}, old(book).contents - {inum}, old(book).kinds - {inum}, old(book).lost)
    {
      ghost var v := bm.Vol();
      assert FileOk(v, inum, book.files[inum]);
      FreeInode(inum, book.files[inum]);
      BookRemoved(v, bm.Vol(), book.files, inum);
      book := BookOf(bm.Vol(), book.files - {inum});
    }

    /** The whole file; its access time becomes now. */
    method ReadFile(inum: nat, now: Word) returns (buf: seq<Byte>)
      requires Valid() && inum in book.files
      modifies bm.d.blocks
      ensures Valid() && buf == book.contents[inum]
      ensures bm.Vol() == old(bm.Vol()).(node := old(bm.Vol()).node[inum := NodeAt(old(bm.Vol()), inum).(atime := now)])
    {
      assert FileOk(bm.Vol(), inum, book.files[inum]);
      BookTouched(bm.Vol(), bm.Vol().(node := bm.Vol().node[inum := NodeAt(bm.Vol(), inum).(atime := now)]), book.files, inum, now);
      buf := ReadTouch(inum, book.files[inum], now);
    }

    /** read_file on one file, whatever else is on the disk. */
    method ReadTouch(inum: nat, ghost lay: Layout, now: Word) returns (buf: seq<Byte>)
      requires bm.Valid() && FileOk(bm.Vol(), inum, lay)
      modifies bm.d.blocks
      ensures buf == Content(old(bm.Vol()), inum, lay)
      ensures bm.Vol() == old(bm.Vol()).(node := old(bm.Vol()).node[inum := NodeAt(old(bm.Vol()), inum).(atime := now)])
    {
      assert lay.chain[0] in lay.chain;
      var head := GetInode(inum);
      buf := ReadBlocks(head.value, inum, lay);
      head := GetInode(inum);
      PutInode(inum, head.value.(atime := now));
    }

    /** Block cur of a file, which is reached in inode fileInode or in the one behind it. */
    method ReadNext(fileInode: Inode, index: nat, ghost cur: nat, ghost k: nat, ghost inum: nat, ghost lay: Layout)
      returns (fileInode': Inode, index': nat, ghost k': nat, block: Block)
      requires bm.Valid() && Readable(bm.Vol(), inum, lay)
      requires index <= NDIRECT && cur == NDIRECT * k + index && k < |lay.chain| && fileInode == NodeAt(bm.Vol(), lay.chain[k])
      requires cur < |lay.data| || cur == 0
      ensures index' < NDIRECT && cur == NDIRECT * k' + index' && k' < |lay.chain| && fileInode' == NodeAt(bm.Vol(), lay.chain[k'])
      ensures cur < |lay.data| ==> block == DataAt(bm.Vol(), lay.data[cur])
    {
      fileInode', index', k' := fileInode, index, k;
      if index > NDIRECT - 1 {
        fileInode' := ReadOn(fileInode, cur, k, inum, lay);
        index', k' := 0, k + 1;
      }
      BlockHere(bm.Vol(), inum, lay, k', index', cur);
      block := bm.ReadBlock(fileInode'.blocks[index']);
    }

    /** The next inode of a chain that goes on. */
    method ReadOn(fileInode: Inode, ghost cur: nat, ghost k: nat, ghost inum: nat, ghost lay: Layout) returns (fileInode': Inode)
      requires bm.Valid() && Readable(bm.Vol(), inum, lay)
      requires cur == NDIRECT * (k + 1) < |lay.data| && k < |lay.chain| && fileInode == NodeAt(bm.Vol(), lay.chain[k])
      ensures k + 1 < |lay.chain| && fileInode' == NodeAt(bm.Vol(), lay.chain[k + 1])
    {
      BlockOfFile(bm.Vol(), inum, lay, k + 1, 0, cur);
      var next := GetInode(fileInode.blocks[NDIRECT]);
      fileInode' := next.value;
    }

    /** The loop of read_file over the blocks of a file. */
    method ReadBlocks(head: Inode, inum: nat, ghost lay: Layout) returns (buf: seq<Byte>)
      requires bm.Valid() && Readable(bm.Vol(), inum, lay) && head == NodeAt(bm.Vol(), inum)
      ensures buf == Content(bm.Vol(), inum, lay)
    {
      ghost var v := bm.Vol();
      var fileInode, fileSize := head, head.size;
      var flag, cur, curBlockIndx := true, 0, 0;
      ghost var k := 0;
      buf := [];
      while flag
        invariant 0 <= curBlockIndx <= NDIRECT && cur == NDIRECT * k + curBlockIndx && 0 <= k < |lay.chain|
        invariant bm.Vol() == v && fileInode == NodeAt(v, lay.chain[k])
        invariant flag ==> (cur == 0 || cur < |lay.data|) && buf == FlatTo(v, lay.data, cur)
        invariant !flag ==> buf == Content(v, inum, lay)
        decreases flag, |lay.data| - cur
      {
        if (cur + 1) * BLOCK_SIZE >= fileSize {
          flag := false;
        }
        var block;
        fileInode, curBlockIndx, k, block := ReadNext(fileInode, curBlockIndx, cur, k, inum, lay);
        if !flag {
          LastChunk(v, inum, lay, cur, block);
          buf := buf + block[..fileSize - cur * BLOCK_SIZE];
        } else {
          FlatStep(v, lay.data, cur);
          buf := buf + block;
        }
        cur := cur + 1;
        curBlockIndx := curBlockIndx + 1;
      }
    }

    method GetAttr(inum: nat) returns (a: Attr)
      requires Valid() && inum in book.files
      ensures a.kind == book.kinds[inum] && a.size == |book.contents[inum]|
      ensures var n := NodeAt(bm.Vol(), inum); a.atime == n.atime && a.mtime == n.mtime && a.ctime == n.ctime
    {
      FileSize(bm.Vol(), inum, book.files[inum]);
      a := ReadAttr(inum);
    }

    method ReadAttr(inum: nat) returns (a: Attr)
      requires bm.Valid() && IsInum(inum)
      ensures var n := NodeAt(bm.Vol(), inum); a == Attr(n.kind, n.atime, n.mtime, n.ctime, n.size)
    {
      var buf := bm.ReadBlock(inum - 1 + INODE_START);
      var n := DecodeInode(buf);
      a := Attr(n.kind, n.atime, n.mtime, n.ctime, n.size);
    }

    /** write_file moves on to the next inode of the chain: to the one the file has ... */
    method FollowInode(ghost v0: Volume, ghost lay: Layout, ghost chain: seq<nat>, ghost data: seq<nat>, cur: Inode, last: nat)
      returns (cur': Inode, last': nat)
      requires bm.Valid() && Writing(v0, bm.Vol(), lay, chain, data, cur)
      requires InPlace(v0, lay) && Linked(v0, lay) && |lay.chain| == InodesFor(|lay.data|)
      requires |data| == NDIRECT * |chain| < |lay.data| && last == chain[|chain| - 1]
      modifies bm.d.blocks
      ensures Writing(v0, bm.Vol(), lay, chain + [last'], data, cur')
      ensures bm.Vol().data == old(bm.Vol()).data && bm.Vol().used == old(bm.Vol()).used
      ensures |chain| < |lay.chain| && last' == lay.chain[|chain|] && IBlock(last') in v0.used
    {
      assert last in chain;
      OldNext(v0, bm.Vol(), lay, chain, data, cur);
      NextOld(v0, bm.Vol(), lay, chain, data, cur);
      last' := cur.blocks[NDIRECT];
      var next := GetInode(last');
      cur' := next.value;
      PutInode(last, cur);
    }

    /** ... or to a new one, which is linked to the chain. */
    method AppendInode(ghost v0: Volume, ghost lay: Layout, ghost chain: seq<nat>, ghost data: seq<nat>, cur: Inode, last: nat,
                       now: Word, junk: Blocks, rest: Block)
      returns (ok: bool, cur': Inode, last': nat, ghost spare: nat)
      requires bm.Valid() && Writing(v0, bm.Vol(), lay, chain, data, cur) && InPlace(v0, lay) && DATA_START in v0.used
      requires |lay.data| <= |data| == NDIRECT * |chain| && last == chain[|chain| - 1]
      modifies bm.d.blocks
      ensures ok ==> Writing(v0, bm.Vol(), lay, chain + [last'], data, cur') && bm.Vol().data == old(bm.Vol()).data
      ensures ok <==> InodesLeft(old(bm.Vol()).used) > 0 && DataLeft(old(bm.Vol()).used) > 0
      ensures ok ==> Spent(old(bm.Vol()).used, bm.Vol().used, 1, 0)
      ensures ok ==> IsInum(last') && IBlock(last') !in old(bm.Vol()).used && IsData(spare) && spare !in old(bm.Vol()).used
      ensures ok ==> bm.Vol().used == old(bm.Vol()).used + {IBlock(last'), spare}
    {
      ghost var v := bm.Vol();
      assert last in chain;
      cur', last', spare := cur, last, 0;
      var newInum;
      newInum, ok := AllocNode(T_FILE, now, junk, rest);
      if ok {
        ghost var n := NodeAt(bm.Vol(), newInum);
        NextNew(v0, v, lay, chain, data, cur, newInum, n, n.blocks[0]);
        last', spare := newInum, n.blocks[0];
        var next := GetInode(last');
        cur' := next.value;
        PutInode(last, SetBlock(cur, NDIRECT, newInum));
      }
    }

    /** write_file writes a block that the file has ... */
    method OverwriteBlock(ghost v0: Volume, ghost lay: Layout, ghost chain: seq<nat>, ghost data: seq<nat>,
                          cur: Inode, index: nat, chunk: Block)
      returns (ghost y: nat)
      requires bm.Valid() && Writing(v0, bm.Vol(), lay, chain, data, cur) && InPlace(v0, lay)
      requires |data| < |lay.data| && index == |data| - NDIRECT * (|chain| - 1) < NDIRECT
      modifies bm.d.blocks
      ensures Writing(v0, bm.Vol(), lay, chain, data + [y], cur) && Added(old(bm.Vol()), bm.Vol(), data, y, chunk)
      ensures bm.Vol().used == old(bm.Vol()).used && y == lay.data[|data|] && y in v0.used
    {
      y := cur.blocks[index];
      OldBlock(v0, bm.Vol(), lay, chain, data, cur);
      PlaceOld(v0, bm.Vol(), lay, chain, data, cur, chunk);
      DataVolume(bm.d.Bytes(), cur.blocks[index], chunk);
      bm.WriteBlock(cur.blocks[index], chunk);
    }

    /** ... or a new one. */
    method AppendBlock(ghost v0: Volume, ghost lay: Layout, ghost chain: seq<nat>, ghost data: seq<nat>,
                       cur: Inode, index: nat, chunk: Block)
      returns (ok: bool, cur': Inode, ghost y: nat)
      requires bm.Valid() && Writing(v0, bm.Vol(), lay, chain, data, cur) && InPlace(v0, lay)
      requires |data| >= |lay.data| && index == |data| - NDIRECT * (|chain| - 1) < NDIRECT
      modifies bm.d.blocks
      ensures ok <==> DataLeft(old(bm.Vol()).used) > 0
      ensures ok ==> Writing(v0, bm.Vol(), lay, chain, data + [y], cur') && Added(old(bm.Vol()), bm.Vol(), data, y, chunk)
      ensures ok ==> Spent(old(bm.Vol()).used, bm.Vol().used, 0, 1)
      ensures ok ==> y !in old(bm.Vol()).used && bm.Vol().used == old(bm.Vol()).used + {y}
    {
      ghost var v := bm.Vol();
      DataAllocCount(v.used);
      var id := bm.AllocBlock(DATA);
      ok, cur', y := id != 0, cur, id;
      if ok {
        cur' := FillBlock(v0, v, lay, chain, data, cur, index, id, chunk);
      }
    }

    /** The block just allocated is entered in the inode and written. */
    method FillBlock(ghost v0: Volume, ghost v: Volume, ghost lay: Layout, ghost chain: seq<nat>, ghost data: seq<nat>,
                     cur: Inode, index: nat, id: Word, chunk: Block)
      returns (cur': Inode)
      requires bm.Valid() && Writing(v0, v, lay, chain, data, cur) && InPlace(v0, lay)
      requires |data| >= |lay.data| && index == |data| - NDIRECT * (|chain| - 1) < NDIRECT
      requires IsData(id) && id !in v.used && Shaped(v.used + {id}) && bm.Vol() == v.(used := v.used + {id})
      modifies bm.d.blocks
      ensures Writing(v0, bm.Vol(), lay, chain, data + [id], cur') && Added(v, bm.Vol(), data, id, chunk)
      ensures bm.Vol().used == v.used + {id}
    {
      PlaceNew(v0, v, lay, chain, data, cur, id, chunk);
      cur' := SetBlock(cur, index, id);
      DataVolume(bm.d.Bytes(), id, chunk);
      bm.WriteBlock(id, chunk);
    }

    /** Freeing an inode whose size is 0 frees nothing but that inode. */
    method FreeLone(z: nat)
      requires bm.Valid() && IsInum(z) && NodeAt(bm.Vol(), z).size == 0
      modifies bm.d.blocks
      ensures bm.Vol().used == old(bm.Vol()).used - {IBlock(z)} && bm.Vol().data == old(bm.Vol()).data
      ensures NodeAt(bm.Vol(), z).kind == 0
      ensures forall x :: x != z ==> NodeAt(bm.Vol(), x) == NodeAt(old(bm.Vol()), x)
    {
      FreeInode(z, Layout([z], []));
      assert NodeBlocks([z]) == {IBlock(z)};
    }

    /** write_file gives back the blocks behind the new end in the inode in memory. */
    method FreeBehind(ghost lay: Layout, ghost chain: seq<nat>, ghost data: seq<nat>, ghost base: nat,
                      cur: Inode, fileSize: nat, blockNum: nat, index: nat)
      returns (more: bool, ghost freed: set<nat>)
      requires bm.Valid() && Behind(lay, data, cur, base) && BlocksFor(fileSize) == |lay.data|
      requires |data| == blockNum == base + index && index <= NDIRECT
      modifies bm.d.blocks
      ensures Dropped(lay, chain, data, freed)
      ensures bm.Vol() == old(bm.Vol()).(used := old(bm.Vol()).used - freed)
      ensures more <==> |lay.data| > base + NDIRECT
      ensures freed == Span(lay.data, |data|, base + NDIRECT)
    {
      ghost var v := bm.Vol();
      var b, i := blockNum, index;
      freed := {};
      while b * BLOCK_SIZE < fileSize && i <= NDIRECT - 1
        invariant blockNum <= b && b == base + i && 0 <= i <= NDIRECT
        invariant b <= |lay.data| || b == blockNum
        invariant Dropped(lay, chain, data, freed) && freed == Span(lay.data, |data|, b)
        invariant bm.Vol() == v.(used := v.used - freed)
        decreases fileSize - b * BLOCK_SIZE
      {
        assert cur.blocks[i] == lay.data[b];
        bm.FreeBlock(cur.blocks[i]);
        DropBlock(lay, chain, data, freed, cur.blocks[i]);
        assert v.used - freed - {cur.blocks[i]} == v.used - (freed + {cur.blocks[i]});
        freed := freed + {cur.blocks[i]};
        SpanMore(lay.data, |data|, b);
        b := b + 1;
        i := i + 1;
      }
      SpanEnds(lay.data, |data|, b, base + NDIRECT);
      more := b * BLOCK_SIZE < fileSize;
    }

    /** write_file gives back the inode z of the old chain. */
    method FreeNext(ghost lay: Layout, ghost chain: seq<nat>, ghost data: seq<nat>, ghost freed: set<nat>, z: nat)
      returns (ghost freed': set<nat>)
      requires bm.Valid() && Dropped(lay, chain, data, freed)
      requires NextBehind(bm.Vol(), lay, chain, z)
      modifies bm.d.blocks
      ensures Dropped(lay, chain, data, freed') && freed' == freed + {IBlock(z)}
      ensures bm.Vol().used == old(bm.Vol()).used - {IBlock(z)} && bm.Vol().data == old(bm.Vol()).data
      ensures NodeAt(bm.Vol(), z).kind == 0
      ensures forall x :: x != z ==> NodeAt(bm.Vol(), x) == NodeAt(old(bm.Vol()), x)
    {
      FreeLone(z);
      DropInode(lay, chain, data, freed, z);
      freed' := freed + {IBlock(z)};
    }

    /** write_file gives back what lies behind the new end: the rest of the blocks of the
        last inode and, if the old chain went on, the next inode (but nothing behind it). */
    method FreeTail(ghost lay: Layout, ghost chain: seq<nat>, ghost data: seq<nat>, cur: Inode, fileSize: nat, blockNum: nat, index: nat)
      returns (ghost freed: set<nat>)
      requires bm.Valid() && chain != [] && BlocksFor(fileSize) == |lay.data| && |lay.chain| == InodesFor(|lay.data|)
      requires Behind(lay, data, cur, NDIRECT * (|chain| - 1))
      requires |lay.data| > NDIRECT * |chain| ==> NextBehind(bm.Vol(), lay, chain, cur.blocks[NDIRECT])
      requires |data| == blockNum == NDIRECT * (|chain| - 1) + index && index <= NDIRECT
      modifies bm.d.blocks
      ensures Dropped(lay, chain, data, freed) && freed == TailOf(lay, |chain|, |data|)
      ensures |chain| < |lay.chain| ==> NodeAt(bm.Vol(), lay.chain[|chain|]).kind == 0
      ensures bm.Vol().used == old(bm.Vol()).used - freed && bm.Vol().data == old(bm.Vol()).data
      ensures forall x :: IBlock(x) !in freed ==> NodeAt(bm.Vol(), x) == NodeAt(old(bm.Vol()), x)
    {
      var more;
      more, freed := FreeBehind(lay, chain, data, NDIRECT * (|chain| - 1), cur, fileSize, blockNum, index);
      if more {
        freed := FreeNext(lay, chain, data, freed, cur.blocks[NDIRECT]);
      }
    }

    /** write_file goes to the next inode when the one in memory is full. */
    method NextInode(ghost v0: Volume, ghost lay: Layout, ghost chain: seq<nat>, ghost data: seq<nat>,
                     cur: Inode, last: nat, fileSize: nat, blockNum: nat, index: nat, now: Word, junk: Blocks, rest: Block)
      returns (ok: bool, cur': Inode, last': nat, index': nat, ghost chain': seq<nat>, ghost spare: nat)
      requires bm.Valid() && Original(v0, lay, fileSize)
      requires Underway(v0, bm.Vol(), lay, chain, data, cur, last, blockNum, index)
      modifies bm.d.blocks
      ensures ok ==> Ready(v0, bm.Vol(), lay, chain', data, cur', last', blockNum, index') && bm.Vol().data == old(bm.Vol()).data
      ensures ok ==> NodeStep(v0.used, old(bm.Vol()).used, bm.Vol().used, lay, chain, chain', index > NDIRECT - 1, last', spare)
      ensures !ok ==> forall m: nat :: m > |data| ==> !Afforded(v0.used, lay, m)
    {
      ok, cur', last', index', chain', spare := true, cur, last, index, chain, 0;
      if index > NDIRECT - 1 {
        ghost var used := bm.Vol().used;
        Entered(v0.used, used, lay, chain, data, last, blockNum, index);
        if fileSize <= blockNum * BLOCK_SIZE {
          ok, cur', last', spare := AppendInode(v0, lay, chain, data, cur, last, now, junk, rest);
          if !ok { NoInode(v0.used, used, lay, |chain|, |data|); }
        } else {
          cur', last' := FollowInode(v0, lay, chain, data, cur, last);
        }
        chain', index' := chain + [last'], 0;
      }
    }

    /** write_file writes one block. */
    method WriteChunk(ghost v0: Volume, ghost lay: Layout, ghost chain: seq<nat>, ghost data: seq<nat>,
                      cur: Inode, ghost last: nat, fileSize: nat, blockNum: nat, index: nat, chunk: Block)
      returns (ok: bool, cur': Inode, ghost y: nat)
      requires bm.Valid() && Original(v0, lay, fileSize)
      requires Ready(v0, bm.Vol(), lay, chain, data, cur, last, blockNum, index)
      modifies bm.d.blocks
      ensures ok ==> BlockTaken(v0.used, old(bm.Vol()).used, bm.Vol().used, lay, |data|, y)
      ensures ok ==> Underway(v0, bm.Vol(), lay, chain, data + [y], cur', last, blockNum + 1, index + 1)
      ensures ok ==> Added(old(bm.Vol()), bm.Vol(), data, y, chunk)
      ensures !ok ==> forall m: nat :: m > |data| ==> !Afforded(v0.used, lay, m)
    {
      ghost var used := bm.Vol().used;
      Filled(v0.used, used, lay, chain, data, last, blockNum, index);
      if blockNum * BLOCK_SIZE >= fileSize {
        ok, cur', y := AppendBlock(v0, lay, chain, data, cur, index, chunk);
        if !ok { NoBlock(v0.used, used, lay, |chain|, |data|); }
      } else {
        ok, cur' := true, cur;
        y := OverwriteBlock(v0, lay, chain, data, cur, index, chunk);
      }
    }

    /** One round of write_file: a block of buf is written. */
    method WriteRound(ghost v0: Volume, ghost lay: Layout, ghost chain: seq<nat>, ghost data: seq<nat>,
                      cur: Inode, last: nat, fileSize: nat, blockNum: nat, index: nat, buf: seq<Byte>, now: Word, junk: Blocks, rest: Block)
      returns (ok: bool, cur': Inode, last': nat, index': nat, ghost chain': seq<nat>, ghost data': seq<nat>)
      requires bm.Valid() && Original(v0, lay, fileSize)
      requires Underway(v0, bm.Vol(), lay, chain, data, cur, last, blockNum, index)
      requires blockNum < BlocksFor(|buf|) && Spells(bm.Vol(), data, buf) && Took(v0.used, bm.Vol().used, lay, chain, data)
      modifies bm.d.blocks
      ensures ok ==> Took(v0.used, bm.Vol().used, lay, chain', data')
      ensures ok ==> Underway(v0, bm.Vol(), lay, chain', data', cur', last', blockNum + 1, index')
      ensures ok ==> Spells(bm.Vol(), data', buf)
      ensures !ok ==> !Afforded(v0.used, lay, BlocksFor(|buf|))
    {
      ghost var v, spare := bm.Vol(), 0;
      data' := data;
      ok, cur', last', index', chain', spare := NextInode(v0, lay, chain, data, cur, last, fileSize, blockNum, index, now, junk, rest);
      if ok {
        ghost var used, y := bm.Vol().used, 0;
        ok, cur', y := WriteChunk(v0, lay, chain', data, cur', last', fileSize, blockNum, index', Chunk(buf, blockNum));
        data', index' := data + [y], index' + 1;
        if ok {
          TookRound(v0.used, v.used, used, bm.Vol().used, lay, chain, chain', data, index > NDIRECT - 1, last', spare, y);
          SpellsMore(v, bm.Vol(), data, y, buf);
        }
      }
    }

    /** The loop of write_file over the blocks of buf. */
    method WriteBlocks(ghost lay: Layout, inum: nat, head: Inode, buf: seq<Byte>, now: Word, junk: nat -> Blocks, rest: nat -> Block)
      returns (ok: bool, cur: Inode, last: nat, blockNum: nat, index: nat, ghost chain: seq<nat>, ghost data: seq<nat>)
      requires bm.Valid() && FileOk(bm.Vol(), inum, lay) && Shaped(bm.Vol().used) && head == NodeAt(bm.Vol(), inum)
      requires DATA_START in bm.Vol().used
      modifies bm.d.blocks
      ensures ok ==> Took(old(bm.Vol()).used, bm.Vol().used, lay, chain, data)
      ensures ok ==> Underway(old(bm.Vol()), bm.Vol(), lay, chain, data, cur, last, blockNum, index)
      ensures ok ==> Spells(bm.Vol(), data, buf) && blockNum == BlocksFor(|buf|)
      ensures !ok ==> !Afforded(old(bm.Vol()).used, lay, BlocksFor(|buf|))
    {
      ghost var v0 := bm.Vol();
      Start(v0, inum, lay);
      assert lay.chain[0] in lay.chain;
      TookStart(v0.used, lay);
      cur, last, blockNum, index, chain, data := head, inum, 0, 0, [inum], [];
      var lostSize: int := |buf|;
      ok := true;
      while lostSize > 0
        invariant ok && Underway(v0, bm.Vol(), lay, chain, data, cur, last, blockNum, index)
        invariant lostSize == |buf| - BLOCK_SIZE * blockNum && blockNum <= BlocksFor(|buf|)
        invariant Spells(bm.Vol(), data, buf) && Took(v0.used, bm.Vol().used, lay, chain, data)
        decreases lostSize
      {
        ok, cur, last, index, chain, data :=
          WriteRound(v0, lay, chain, data, cur, last, head.size, blockNum, index, buf, now, junk(blockNum), rest(blockNum));
        if !ok { return; }
        blockNum := blockNum + 1;
        lostSize := lostSize - BLOCK_SIZE;
      }
    }

    /** write_file puts the inode in memory, and the head with its new size and times. */
    method Seal(inum: nat, cur: Inode, last: nat, size: Word, now: Word, ghost v: Volume, ghost chain: seq<nat>, ghost freed: set<nat>)
      requires bm.Valid() && IsInum(inum) && IsInum(last) && chain != [] && inum == chain[0] && last == chain[|chain| - 1]
      requires bm.Vol().used == v.used - freed && bm.Vol().data == v.data && IBlock(inum) !in freed && IBlock(last) !in freed
      requires forall x :: IBlock(x) !in freed ==> NodeAt(bm.Vol(), x) == NodeAt(v, x)
      modifies bm.d.blocks
      ensures Ended(v, bm.Vol(), chain, cur, size, now, freed)
    {
      PutInode(last, cur);
      var head := GetInode(inum);
      PutInode(inum, Sealed(head.value, size, now));
    }

    /** The second half of write_file. */
    method EndWrite(inum: nat, size: Word, now: Word, ghost v0: Volume, ghost lay: Layout, ghost chain: seq<nat>, ghost data: seq<nat>,
                    cur: Inode, last: nat, fileSize: nat, blockNum: nat, index: nat)
      returns (ghost freed: set<nat>)
      requires bm.Valid() && Original(v0, lay, fileSize) && lay.chain != [] && lay.chain[0] == inum
      requires Underway(v0, bm.Vol(), lay, chain, data, cur, last, blockNum, index)
      modifies bm.d.blocks
      ensures Dropped(lay, chain, data, freed) && Ended(old(bm.Vol()), bm.Vol(), chain, cur, size, now, freed)
      ensures freed == TailOf(lay, |chain|, |data|)
    {
      ghost var v := bm.Vol();
      BehindEnd(v0, v, lay, chain, data, cur);
      freed := FreeTail(lay, chain, data, cur, fileSize, blockNum, index);
      EndsIn(v, lay, chain, data, freed);
      Seal(inum, cur, last, size, now, v, chain, freed);
    }

    /** write_file on one file, whatever else is on the disk. */
    method Rewrite(ghost lay: Layout, inum: nat, buf: seq<Byte>, now: Word, junk: nat -> Blocks, rest: nat -> Block)
      returns (ok: bool, ghost run: Course)
      requires bm.Valid() && FileOk(bm.Vol(), inum, lay) && Shaped(bm.Vol().used) && |buf| < 0x8000_0000
      requires DATA_START in bm.Vol().used
      modifies bm.d.blocks
      ensures ok ==> Went(old(bm.Vol()), bm.Vol(), lay, run, buf, now)
      ensures !ok ==> !Afforded(old(bm.Vol()).used, lay, BlocksFor(|buf|))
    {
      ghost var v0 := bm.Vol();
      assert lay.chain[0] in lay.chain;
      var head := GetInode(inum);
      var cur, last, blockNum, index;
      ghost var chain, data;
      ok, cur, last, blockNum, index, chain, data := WriteBlocks(lay, inum, head.value, buf, now, junk, rest);
      run := Course(bm.Vol(), chain, data, cur, last, blockNum, index, {});
      if ok {
        ghost var freed := EndWrite(inum, |buf|, now, v0, lay, chain, data, cur, last, head.value.size, blockNum, index);
        run := run.(freed := freed);
      }
    }

    /** write_file on one of several files. */
    method WriteAmong(ghost files: map<nat, Layout>, inum: nat, buf: seq<Byte>, now: Word, junk: nat -> Blocks, rest: nat -> Block)
      returns (ok: bool, ghost lay: Layout)
      requires bm.Valid() && WellFormed(bm.Vol(), files) && inum in files && |buf| < 0x8000_0000 && DATA_START in bm.Vol().used
      modifies bm.d.blocks
      ensures ok <==> Afforded(old(bm.Vol()).used, files[inum], BlocksFor(|buf|))
      ensures ok ==> WroteAmong(old(bm.Vol()), bm.Vol(), files, inum, lay, buf, now)
    {
      ghost var v, run := bm.Vol(), *;
      assert FileOk(v, inum, files[inum]);
      ok, run := Rewrite(files[inum], inum, buf, now, junk, rest);
      lay := Layout(run.chain, run.data);
      if ok {
        Written(v, bm.Vol(), files, inum, run, buf, now);
        WrittenBlocks(v, bm.Vol(), files, inum, run, buf, now);
      }
    }

    /** Writes the whole file: it then holds buf, and every other file what it held. The
        source does not look whether the allocations it needs succeed; here the write stops
        at the first that fails, which it does exactly if there are too few slots. Blocks are
        lost unless the file needs as many inodes as before. */
    method WriteFile(inum: nat, buf: seq<Byte>, now: Word, junk: nat -> Blocks, rest: nat -> Block) returns (ok: bool)
      requires Valid() && inum in book.files && |buf| < 0x8000_0000
      modifies this`book, bm.d.blocks
      ensures ok <==> Afforded(old(bm.Vol()).used, old(book).files[inum], BlocksFor(|buf|))
      ensures ok ==> Valid() && Replaces(old(book), book, inum, buf) && Stamped(old(bm.Vol()), bm.Vol(), old(book).files, inum, now)
      ensures ok ==> Rewritten(old(bm.Vol()).used, bm.Vol().used, old(book).files[inum], book.files[inum])
      ensures ok ==> LosesExactly(old(bm.Vol()).used, old(book).lost, book.lost, old(book).files[inum], book.files[inum])
      ensures ok ==> (book.lost == old(book).lost <==> InodesFor(BlocksFor(|buf|)) == InodesFor(BlocksFor(|old(book).contents[inum]|)))
    {
      LengthOf(inum);
      ghost var v, lay := bm.Vol(), *;
      ok, lay := WriteAmong(book.files, inum, buf, now, junk, rest);
      if ok {
        BookWritten(v, bm.Vol(), book.files, inum, lay, buf, now);
        book := BookOf(bm.Vol(), book.files[inum := lay]);
      }
    }
  }
}
