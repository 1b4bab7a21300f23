// What the bytes of the disk mean: the set of used blocks, the inodes and the data
// blocks; and which blocks the allocator can still hand out.

module DiskVolume {
  import opened DiskLayout

  // The contents of the disk.
  type Image = d: seq<Block> | |d| == BLOCK_NUM witness seq(BLOCK_NUM, _ => Zeros(BLOCK_SIZE))

  predicate Used(d: Image, b: nat)
    requires b < BLOCK_NUM
  {
    Bit(d[BBlock(b)][b % BPB / 8], b % BPB % 8)
  }

  predicate PassesTest(d: Image, b: nat)
    requires b < BLOCK_NUM
  {
    FreeTest(d[BBlock(b)][b % BPB / 8], b % BPB % 8)
  }

  function Mark(d: Image, b: nat): Image
    requires b < BLOCK_NUM
  {
    d[BBlock(b) := d[BBlock(b)][b % BPB / 8 := SetBit(d[BBlock(b)][b % BPB / 8], b % BPB % 8)]]
  }

  function Unmark(d: Image, b: nat): Image
    requires b < BLOCK_NUM
  {
    d[BBlock(b) := d[BBlock(b)][b % BPB / 8 := ClearBit(d[BBlock(b)][b % BPB / 8], b % BPB % 8)]]
  }

  /** The disk as three independent parts: bitmap, inodes by number, data blocks by number. */
  datatype Volume = Volume(used: set<nat>, node: map<nat, Inode>, data: map<nat, Block>)

  ghost function UsedIn(d: Image): set<nat> {
    set b | 0 <= b < BLOCK_NUM && Used(d, b)
  }

  function VolumeNodes(d: Image): map<nat, Inode> {
    map x | 1 <= x <= INODE_NUM :: DecodeInode(d[IBlock(x)])
  }

  function VolumeData(d: Image): map<nat, Block> {
    map y | DATA_START <= y < BLOCK_NUM :: d[y]
  }

  ghost function VolumeOf(d: Image): Volume {
    Volume(UsedIn(d), VolumeNodes(d), VolumeData(d))
  }

  predicate IsInum(x: nat) {
    1 <= x < INODE_NUM
  }

  predicate IsData(y: nat) {
    DATA_START <= y < BLOCK_NUM
  }

  // ---- The writes of the source, and what they do to the volume ----

  lemma SamePlace(a: nat, b: nat)
    requires BBlock(a) == BBlock(b) && a % BPB / 8 == b % BPB / 8 && a % BPB % 8 == b % BPB % 8
    ensures a == b
  {
  }

  lemma MarkUsed(d: Image, r: nat, b: nat)
    requires r < BLOCK_NUM && b < BLOCK_NUM
    ensures Used(Mark(d, r), b) == (b == r || Used(d, b))
    ensures Used(Unmark(d, r), b) == (b != r && Used(d, b))
  {
    if BBlock(b) == BBlock(r) && b % BPB / 8 == r % BPB / 8 {
      SetBitBits(d[BBlock(r)][r % BPB / 8], r % BPB % 8, b % BPB % 8);
      ClearBitBits(d[BBlock(r)][r % BPB / 8], r % BPB % 8, b % BPB % 8);
      if b % BPB % 8 == r % BPB % 8 { SamePlace(b, r); }
    }
  }

  lemma MarkVolume(d: Image, r: nat)
    requires r < BLOCK_NUM
    ensures VolumeOf(Mark(d, r)) == VolumeOf(d).(used := VolumeOf(d).used + {r})
  {
    forall b | 0 <= b < BLOCK_NUM ensures Used(Mark(d, r), b) == (b == r || Used(d, b)) { MarkUsed(d, r, b); }
    assert UsedIn(Mark(d, r)) == UsedIn(d) + {r};
    assert VolumeNodes(Mark(d, r)) == VolumeNodes(d);
    assert VolumeData(Mark(d, r)) == VolumeData(d);
  }

  lemma UnmarkVolume(d: Image, r: nat)
    requires r < BLOCK_NUM
    ensures VolumeOf(Unmark(d, r)) == VolumeOf(d).(used := VolumeOf(d).used - {r})
  {
    forall b | 0 <= b < BLOCK_NUM ensures Used(Unmark(d, r), b) == (b != r && Used(d, b)) { MarkUsed(d, r, b); }
    assert UsedIn(Unmark(d, r)) == UsedIn(d) - {r};
    assert VolumeNodes(Unmark(d, r)) == VolumeNodes(d);
    assert VolumeData(Unmark(d, r)) == VolumeData(d);
  }

  // The bitmap lies in the blocks before the inodes.
  lemma UsedKept(d: Image, d': Image)
    requires forall k :: 0 <= k < INODE_START ==> d'[k] == d[k]
    ensures UsedIn(d') == UsedIn(d)
  {
    forall b | 0 <= b < BLOCK_NUM ensures Used(d', b) == Used(d, b) {
      assert BBlock(b) < INODE_START;
    }
  }

  lemma NodesAfter(d: Image, x: nat, n: Inode, rest: Block)
    requires IsInum(x)
    ensures VolumeNodes(d[IBlock(x) := EncodeInode(n, rest)]) == VolumeNodes(d)[x := n]
  {
    InodeRoundTrip(n, rest);
  }

  // An inode is written to its block; the bytes behind it may be anything.
  lemma NodeVolume(d: Image, x: nat, n: Inode, rest: Block)
    requires IsInum(x)
    ensures VolumeOf(d[IBlock(x) := EncodeInode(n, rest)]) == VolumeOf(d).(node := VolumeOf(d).node[x := n])
  {
    var d' := d[IBlock(x) := EncodeInode(n, rest)];
    UsedKept(d, d');
    NodesAfter(d, x, n, rest);
    assert VolumeData(d') == VolumeData(d);
  }

  lemma DataVolume(d: Image, y: nat, b: Block)
    requires IsData(y)
    ensures VolumeOf(d[y := b]) == VolumeOf(d).(data := VolumeOf(d).data[y := b])
  {
    UsedKept(d, d[y := b]);
    assert VolumeNodes(d[y := b]) == VolumeNodes(d);
    assert VolumeData(d[y := b]) == VolumeData(d)[y := b];
  }

  /** Freeing what has just been allocated restores the bitmap, byte for byte. */
  lemma UnmarkMark(d: Image, r: nat)
    requires r < BLOCK_NUM && !Used(d, r)
    ensures Unmark(Mark(d, r), r) == d
  {
    var b, k := d[BBlock(r)][r % BPB / 8], r % BPB % 8;
    forall j | 0 <= j < 8 ensures Bit(ClearBit(SetBit(b, k), k), j) == Bit(b, j) {
      SetBitBits(b, k, j);
      ClearBitBits(SetBit(b, k), k, j);
    }
    SameBits(ClearBit(SetBit(b, k), k), b);
    var place := r % BPB / 8;
    assert d[BBlock(r)][place := SetBit(b, k)][place := b] == d[BBlock(r)];
    assert Unmark(Mark(d, r), r) == d;
  }

  // ---- The allocator ----

  // All blocks from the start of i's bitmap byte through i are free.
  ghost predicate Clear(used: set<nat>, i: nat) {
    forall j :: i - i % 8 <= j <= i ==> j !in used
  }

  lemma PassesIffClear(d: Image, i: nat)
    requires i < BLOCK_NUM
    ensures PassesTest(d, i) <==> Clear(UsedIn(d), i)
  {
    var byte, k, base := d[BBlock(i)][i % BPB / 8], i % BPB % 8, i - i % 8;
    FreeTestBits(byte, k);
    assert k == i % 8;
    forall j | 0 <= j <= k ensures Bit(byte, j) == (base + j in UsedIn(d)) {
      SameByte(i, base + j);
    }
    forall j | base <= j <= i ensures Bit(byte, j - base) == (j in UsedIn(d)) { }
  }

  lemma SameByte(i: nat, j: nat)
    requires i - i % 8 <= j <= i
    ensures BBlock(j) == BBlock(i) && j % BPB / 8 == i % BPB / 8 && j % BPB % 8 == j - (i - i % 8)
  {
  }

  // The first block in [i, hi) that the allocator would take; 0 if there is none.
  ghost function FirstClear(used: set<nat>, i: nat, hi: nat): nat
    decreases hi - i
  {
    if i >= hi then 0 else if Clear(used, i) then i else FirstClear(used, i + 1, hi)
  }

  lemma {:induction false} FirstClearIsFirst(used: set<nat>, lo: nat, hi: nat)
    requires lo > 0
    ensures var r := FirstClear(used, lo, hi);
            if r == 0 then forall i :: lo <= i < hi ==> !Clear(used, i)
            else lo <= r < hi && Clear(used, r) && r !in used && forall i :: lo <= i < r ==> !Clear(used, i)
    decreases hi - lo
  {
    if lo < hi && !Clear(used, lo) {
      FirstClearIsFirst(used, lo + 1, hi);
    }
  }

  // The blocks the allocator can ever take in a region are the first of each bitmap byte.
  predicate SlotHead(i: nat, start: nat) {
    i % 8 == 0 || i == start
  }

  ghost function FreeSlots(used: set<nat>, lo: nat, hi: nat): set<nat> {
    set i | lo <= i < hi && SlotHead(i, lo) && Clear(used, i)
  }

  lemma FirstClearIsHead(used: set<nat>, lo: nat, hi: nat)
    requires lo > 0
    ensures var r := FirstClear(used, lo, hi); r != 0 ==> SlotHead(r, lo)
  {
    FirstClearIsFirst(used, lo, hi);
    var r := FirstClear(used, lo, hi);
    if r != 0 && !SlotHead(r, lo) {
      ClearBefore(used, r);
    }
  }

  lemma ClearBefore(used: set<nat>, i: nat)
    requires i % 8 != 0 && Clear(used, i)
    ensures Clear(used, i - 1)
  {
    assert (i - 1) - (i - 1) % 8 == i - i % 8;
  }

  lemma ClearWith(used: set<nat>, r: nat, i: nat)
    ensures Clear(used + {r}, i) <==> Clear(used, i) && !(i - i % 8 <= r <= i)
  {
  }

  // Two slot heads of one region never share a bitmap byte.
  lemma HeadsApart(i: nat, r: nat, lo: nat)
    requires lo <= i && lo <= r && SlotHead(i, lo) && SlotHead(r, lo) && i - i % 8 <= r <= i
    ensures i == r
  {
  }

  /** Allocation takes one slot, and succeeds exactly when there is one. */
  lemma AllocTakesSlot(used: set<nat>, lo: nat, hi: nat)
    requires lo > 0
    ensures var r := FirstClear(used, lo, hi);
            && (r == 0 <==> FreeSlots(used, lo, hi) == {})
            && (r != 0 ==> r in FreeSlots(used, lo, hi) && FreeSlots(used + {r}, lo, hi) == FreeSlots(used, lo, hi) - {r})
  {
    FirstClearIsFirst(used, lo, hi);
    FirstClearIsHead(used, lo, hi);
    var r := FirstClear(used, lo, hi);
    if r != 0 {
      forall i | lo <= i < hi && SlotHead(i, lo) ensures Clear(used + {r}, i) <==> i != r && Clear(used, i) {
        ClearWith(used, r, i);
        if i - i % 8 <= r <= i { HeadsApart(i, r, lo); }
      }
      assert r in FreeSlots(used, lo, hi);
      assert FreeSlots(used + {r}, lo, hi) == FreeSlots(used, lo, hi) - {r};
    } else {
      assert FreeSlots(used, lo, hi) == {};
    }
  }

  ghost function FreeInodes(used: set<nat>): set<nat> {
    FreeSlots(used, INODE_START, DATA_START)
  }

  ghost function FreeData(used: set<nat>): set<nat> {
    FreeSlots(used, DATA_START, BLOCK_NUM)
  }

  // The regions meet inside one bitmap byte: the last inode slot hides the first data slot.
  const LAST_INODE_SLOT: nat := DATA_START - DATA_START % 8

  lemma InodeAllocAndData(used: set<nat>, r: nat)
    requires r in FreeInodes(used)
    ensures FreeData(used + {r}) == FreeData(used) - (if r == LAST_INODE_SLOT then {DATA_START} else {})
  {
    forall i | DATA_START <= i < BLOCK_NUM && SlotHead(i, DATA_START)
      ensures Clear(used + {r}, i) <==> Clear(used, i) && !(r == LAST_INODE_SLOT && i == DATA_START)
    {
      assert i - i % 8 <= r <= i <==> r == LAST_INODE_SLOT && i == DATA_START;
    }
  }

  lemma DataAllocAndInodes(used: set<nat>, r: nat)
    requires r >= DATA_START
    ensures FreeInodes(used + {r}) == FreeInodes(used)
  {
    forall i | INODE_START <= i < DATA_START && SlotHead(i, INODE_START)
      ensures Clear(used + {r}, i) <==> Clear(used, i)
    {
    }
  }

  /** The last inode slot is taken only when it is the only one. */
  lemma LastInodeSlot(used: set<nat>)
    requires FirstClear(used, INODE_START, DATA_START) == LAST_INODE_SLOT
    ensures FreeInodes(used) == {LAST_INODE_SLOT}
  {
    FirstClearIsFirst(used, INODE_START, DATA_START);
    AllocTakesSlot(used, INODE_START, DATA_START);
  }

  // In every region only slot heads are ever used.
  ghost predicate Shaped(used: set<nat>) {
    forall b :: b in used ==> INODE_START <= b < BLOCK_NUM && (b % 8 == 0 || b == INODE_START || b == DATA_START)
  }

  /** Every bitmap byte that lies within one region is then 0x00 or 0x80. */
  lemma BitmapBytes(d: Image, b: nat)
    requires Shaped(UsedIn(d)) && b % 8 == 0
    requires (INODE_START <= b && b + 8 <= DATA_START) || (DATA_START <= b && b + 8 <= BLOCK_NUM)
    ensures d[BBlock(b)][b % BPB / 8] in {0x00, 0x80}
  {
    var byte := d[BBlock(b)][b % BPB / 8];
    forall j | 1 <= j < 8 ensures !Bit(byte, j) {
      SameByte(b + 7, b + j);
      SameByte(b + 7, b);
      assert b + j !in UsedIn(d);
      assert !Used(d, b + j);
    }
    SameBits(byte, if Bit(byte, 0) then 0x80 else 0x00);
  }

  // ---- Counting the slots ----

  ghost function InodesLeft(used: set<nat>): nat {
    |FreeInodes(used)|
  }

  ghost function DataLeft(used: set<nat>): nat {
    |FreeData(used)|
  }

  lemma DataAllocCount(used: set<nat>)
    ensures var r := FirstClear(used, DATA_START, BLOCK_NUM);
            && (r != 0 <==> DataLeft(used) > 0)
            && (r != 0 ==> r !in used && IsData(r) && DataLeft(used + {r}) == DataLeft(used) - 1
                           && InodesLeft(used + {r}) == InodesLeft(used))
            && (r != 0 && Shaped(used) ==> Shaped(used + {r}))
  {
    var r := FirstClear(used, DATA_START, BLOCK_NUM);
    FirstClearIsFirst(used, DATA_START, BLOCK_NUM);
    FirstClearIsHead(used, DATA_START, BLOCK_NUM);
    AllocTakesSlot(used, DATA_START, BLOCK_NUM);
    if r != 0 { DataAllocAndInodes(used, r); }
  }

  // The allocation of an inode takes no data slot, except for the last inode slot of a disk
  // whose first data block is free.
  lemma DataSlotsKept(used: set<nat>)
    requires InodesLeft(used) > 1 || DATA_START in used
    ensures var r := FirstClear(used, INODE_START, DATA_START); r != 0 ==> FreeData(used + {r}) == FreeData(used)
  {
    var r := FirstClear(used, INODE_START, DATA_START);
    AllocTakesSlot(used, INODE_START, DATA_START);
    if r != 0 {
      InodeAllocAndData(used, r);
      if r == LAST_INODE_SLOT { LastInodeSlot(used); }
      assert DATA_START in used ==> DATA_START !in FreeData(used);
    }
  }

  lemma InodeSlotTaken(used: set<nat>, r: nat)
    requires r == FirstClear(used, INODE_START, DATA_START)
    ensures r != 0 <==> InodesLeft(used) > 0
    ensures r != 0 ==> InodesLeft(used + {r}) == InodesLeft(used) - 1
  {
    AllocTakesSlot(used, INODE_START, DATA_START);
    if r != 0 { assert r in FreeInodes(used) && FreeInodes(used + {r}) == FreeInodes(used) - {r}; }
  }

  lemma InodeShape(used: set<nat>, r: nat)
    requires r == FirstClear(used, INODE_START, DATA_START) && r != 0
    ensures r !in used && INODE_START <= r < DATA_START && r - IBlock(0) < INODE_NUM
    ensures Shaped(used) ==> Shaped(used + {r})
  {
    FirstClearIsFirst(used, INODE_START, DATA_START);
    FirstClearIsHead(used, INODE_START, DATA_START);
  }

  lemma InodeAllocCount(used: set<nat>, r: nat)
    requires r == FirstClear(used, INODE_START, DATA_START)
    ensures r != 0 <==> InodesLeft(used) > 0
    ensures r != 0 ==> r !in used && INODE_START <= r < DATA_START && r - IBlock(0) < INODE_NUM
    ensures r != 0 ==> InodesLeft(used + {r}) == InodesLeft(used) - 1
    ensures r != 0 && (InodesLeft(used) > 1 || DATA_START in used) ==> DataLeft(used + {r}) == DataLeft(used)
    ensures r != 0 && Shaped(used) ==> Shaped(used + {r})
  {
    InodeSlotTaken(used, r);
    if r != 0 {
      InodeShape(used, r);
      if InodesLeft(used) > 1 || DATA_START in used { DataSlotsKept(used); }
    }
  }
}
