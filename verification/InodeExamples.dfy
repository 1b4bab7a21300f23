// States that are reached: a disk without a free inode, and blocks lost by writing.

module InodeExamples {
  import opened DiskLayout
  import opened DiskVolume
  import opened FileTree
  import opened FileBlocks
  import opened InodeManager

  lemma {:induction false} CountHeads(lo: nat, hi: nat)
    requires lo <= hi
    ensures |set k | lo <= k < hi :: 8 * k| == hi - lo
  {
    var s := set k | lo <= k < hi :: 8 * k;
    if lo < hi {
      CountHeads(lo, hi - 1);
      assert s == (set k | lo <= k < hi - 1 :: 8 * k) + {8 * (hi - 1)};
    } else {
      assert s == {};
    }
  }

  const FRESH_INODES: nat := 512
  const FRESH_BLOCKS: nat := 3582

  /** A fresh disk has room for 512 more inodes and 3582 data blocks. */
  lemma Capacity()
    ensures InodesLeft({INODE_START, DATA_START}) == FRESH_INODES && DataLeft({INODE_START, DATA_START}) == FRESH_BLOCKS
  {
    var used := {INODE_START, DATA_START};
    assert FreeInodes(used) == set k | 2 <= k < 514 :: 8 * k by {
      forall i | i in FreeInodes(used) ensures i == 8 * (i / 8) && 2 <= i / 8 < 514 { assert i !in used; }
      forall k | 2 <= k < 514 ensures 8 * k in FreeInodes(used) { }
    }
    assert FreeData(used) == set k | 514 <= k < 4096 :: 8 * k by {
      forall i | i in FreeData(used) ensures i == 8 * (i / 8) && 514 <= i / 8 < 4096 { assert i !in used; }
      forall k | 514 <= k < 4096 ensures 8 * k in FreeData(used) { }
    }
    CountHeads(2, 514);
    CountHeads(514, 4096);
  }

  /** After 512 creates the disk is full: the next one is refused, for want of an inode. */
  method FillInodes(now: Word, junk: Blocks, rest: Block) returns (im: InodeManager)
    ensures fresh(im) && fresh(im.bm.d.blocks) && im.Valid() && InodesLeft(im.bm.Vol().used) == 0 && DataLeft(im.bm.Vol().used) == FRESH_BLOCKS - FRESH_INODES
  {
    Capacity();
    im := new InodeManager(now, junk);
    var n := 0;
    while n < FRESH_INODES
      invariant 0 <= n <= FRESH_INODES && fresh(im) && fresh(im.bm.d.blocks) && im.Valid()
      invariant InodesLeft(im.bm.Vol().used) == FRESH_INODES - n && DataLeft(im.bm.Vol().used) == FRESH_BLOCKS - n
    {
      var inum, ok := im.AllocInode(T_FILE, now, junk, rest);
      n := n + 1;
    }
  }

  method RefusedWhenFull(now: Word, junk: Blocks, rest: Block) returns (ok: bool)
    ensures !ok
  {
    var im := FillInodes(now, junk, rest);
    var inum;
    inum, ok := im.AllocInode(T_FILE, now, junk, rest);
  }

  // One byte more than fits in one inode.
  const LONG: nat := NDIRECT * BLOCK_SIZE + 1

  lemma LongNeeds(used: set<nat>, lay: Layout)
    ensures BlocksFor(LONG) == NDIRECT + 1 && InodesFor(NDIRECT + 1) == 2 && InodesFor(BlocksFor(0)) == 1
    ensures lay == Layout([1], []) && InodesLeft(used) == FRESH_INODES && DataLeft(used) == FRESH_BLOCKS ==> Afforded(used, lay, BlocksFor(LONG))
  {
  }

  lemma RootRewritten(used: set<nat>, book: Book, book': Book, buf: seq<Byte>)
    requires Replaces(book, book', 1, buf) && book.contents.Keys == {1}
    requires LosesExactly(used, book.lost, book'.lost, book.files[1], book'.files[1])
    requires |book'.files[1].chain| != |book.files[1].chain|
    ensures book'.contents == map[1 := buf] && book.lost < book'.lost
  {
  }

  // A write to the root that changes the number of its inodes.
  method WriteRoot(im: InodeManager, buf: seq<Byte>, now: Word, junk: nat -> Blocks, rest: nat -> Block)
    requires im.Valid() && im.book.contents.Keys == {1} && 1 in im.book.files && |buf| < 0x8000_0000
    requires Afforded(im.bm.Vol().used, im.book.files[1], BlocksFor(|buf|))
    requires InodesFor(BlocksFor(|buf|)) != InodesFor(BlocksFor(|im.book.contents[1]|))
    modifies im, im.bm.d.blocks
    ensures im.Valid() && im.book.contents == map[1 := buf] && old(im.book).lost < im.book.lost
  {
    ghost var was, used := im.book, im.bm.Vol().used;
    im.LengthOf(1);
    var ok := im.WriteFile(1, buf, now, junk, rest);
    RootRewritten(used, was, im.book, buf);
  }

  // The root, grown into a second inode: the data block that came with it is lost.
  method Grow(buf: seq<Byte>, now: Word, junk: nat -> Blocks, rest: nat -> Block) returns (im: InodeManager)
    requires |buf| == LONG
    ensures fresh(im) && fresh(im.bm.d.blocks) && im.Valid()
    ensures im.book.contents == map[1 := buf] && {DATA_START} < im.book.lost
  {
    Capacity();
    im := new InodeManager(now, junk(0));
    LongNeeds(im.bm.Vol().used, im.book.files[1]);
    WriteRoot(im, buf, now, junk, rest);
  }

  lemma EmptyNeeds(used: set<nat>, lay: Layout)
    ensures BlocksFor(0) == 0 && InodesFor(0) == 1
    ensures |lay.chain| >= 1 ==> Afforded(used, lay, 0)
  {
  }

  method Shrink(im: InodeManager, now: Word, junk: nat -> Blocks, rest: nat -> Block)
    requires im.Valid() && im.book.contents.Keys == {1} && |im.book.contents[1]| == LONG
    modifies im, im.bm.d.blocks
    ensures im.Valid() && im.book.contents == map[1 := []] && old(im.book).lost < im.book.lost
  {
    im.LengthOf(1);
    LongNeeds(im.bm.Vol().used, im.book.files[1]);
    EmptyNeeds(im.bm.Vol().used, im.book.files[1]);
    WriteRoot(im, [], now, junk, rest);
  }

  /** Growing and shrinking back leaves the same file, and each of the two loses blocks. */
  method LoseBlocks(buf: seq<Byte>, now: Word, junk: nat -> Blocks, rest: nat -> Block) returns (im: InodeManager, ghost grown: set<nat>)
    requires |buf| == LONG
    ensures fresh(im) && im.Valid() && im.book.contents == map[1 := []]
    ensures {DATA_START} < grown < im.book.lost
  {
    im := Grow(buf, now, junk, rest);
    grown := im.book.lost;
    Shrink(im, now, junk, rest);
  }
}
