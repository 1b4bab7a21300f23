// The disk and the block layer: reading, writing, allocating and freeing blocks.

module BlockManager {
  import opened DiskLayout
  import opened DiskVolume

  const INODE: nat := 0
  const DATA: nat := 1

  class Disk {
    const blocks: array<Block>

    ghost predicate Valid() {
      blocks.Length == BLOCK_NUM
    }

    ghost function Bytes(): Image
      requires Valid()
      reads blocks
    {
      blocks[..]
    }

    constructor ()
      ensures Valid() && fresh(blocks)
      ensures forall i :: 0 <= i < BLOCK_NUM ==> Bytes()[i] == Zeros(BLOCK_SIZE)
    {
      blocks := new Block[BLOCK_NUM](_ => Zeros(BLOCK_SIZE));
    }

    method ReadBlock(id: nat) returns (buf: Block)
      requires Valid() && id < BLOCK_NUM
      ensures buf == Bytes()[id]
    {
      buf := blocks[id];
    }

    method WriteBlock(id: nat, buf: Block)
      requires Valid() && id < BLOCK_NUM
      modifies blocks
      ensures Bytes() == old(Bytes())[id := buf]
    {
      blocks[id] := buf;
    }
  }

  class BlockManager {
    const d: Disk

    ghost predicate Valid() {
      d.Valid()
    }

    ghost function Vol(): Volume
      requires Valid()
      reads d.blocks
    {
      VolumeOf(d.Bytes())
    }

    constructor ()
      ensures Valid() && fresh(d) && fresh(d.blocks)
      ensures Vol().used == {}
    {
      d := new Disk();
      new;
      forall b | 0 <= b < BLOCK_NUM ensures !Used(d.Bytes(), b) {
        assert d.Bytes()[BBlock(b)] == Zeros(BLOCK_SIZE);
      }
    }

    method ReadBlock(id: nat) returns (buf: Block)
      requires Valid() && id < BLOCK_NUM
      ensures buf == d.Bytes()[id]
      ensures IsData(id) ==> id in Vol().data && buf == Vol().data[id]
    {
      buf := d.ReadBlock(id);
    }

    method WriteBlock(id: nat, buf: Block)
      requires Valid() && id < BLOCK_NUM
      modifies d.blocks
      ensures d.Bytes() == old(d.Bytes())[id := buf]
    {
      d.WriteBlock(id, buf);
    }

    /** Marks and returns the first block of the region that passes the free test, or 0. */
    method AllocBlock(kind: nat) returns (id: nat)
      requires Valid()
      modifies d.blocks
      ensures id == if kind == INODE then FirstClear(old(Vol()).used, INODE_START, DATA_START)
                    else if kind == DATA then FirstClear(old(Vol()).used, DATA_START, BLOCK_NUM) else 0
      ensures d.Bytes() == if id != 0 && id < BLOCK_NUM then Mark(old(d.Bytes()), id) else old(d.Bytes())
      ensures id < BLOCK_NUM
      ensures Vol() == old(Vol()).(used := old(Vol()).used + if id != 0 then {id} else {})
    {
      var start, end;
      if kind == INODE {
        start, end := INODE_START, DATA_START;
      } else if kind == DATA {
        start, end := DATA_START, BLOCK_NUM;
      } else {
        return 0;
      }
      ghost var used := UsedIn(d.Bytes());
      var localBlockNum: nat, buf: Block := 0, Zeros(BLOCK_SIZE);
      var i := start;
      while i < end
        invariant start <= i <= end
        invariant d.Bytes() == old(d.Bytes())
        invariant localBlockNum != 0 ==> localBlockNum < BLOCK_NUM && buf == d.Bytes()[localBlockNum]
        invariant FirstClear(used, i, end) == FirstClear(used, start, end)
      {
        if localBlockNum != BBlock(i) {
          localBlockNum := BBlock(i);
          buf := d.ReadBlock(localBlockNum);
        }
        PassesIffClear(d.Bytes(), i);
        if FreeTest(buf[i % BPB / 8], i % BPB % 8) {
          MarkVolume(d.Bytes(), i);
          buf := buf[i % BPB / 8 := SetBit(buf[i % BPB / 8], i % BPB % 8)];
          d.WriteBlock(localBlockNum, buf);
          return i;
        }
        i := i + 1;
      }
      id := 0;
    }

    /** Clears the bit of a block behind the bitmap; other block numbers are ignored. */
    method FreeBlock(id: nat)
      requires Valid()
      modifies d.blocks
      ensures d.Bytes() == if INODE_START <= id < BLOCK_NUM then Unmark(old(d.Bytes()), id) else old(d.Bytes())
      ensures INODE_START <= id < BLOCK_NUM ==> Vol() == old(Vol()).(used := old(Vol()).used - {id})
    {
      if id < INODE_START || id >= BLOCK_NUM {
        return;
      }
      UnmarkVolume(d.Bytes(), id);
      var buf := d.ReadBlock(BBlock(id));
      buf := buf[id % BPB / 8 := ClearBit(buf[id % BPB / 8], id % BPB % 8)];
      d.WriteBlock(BBlock(id), buf);
    }
  }
}
