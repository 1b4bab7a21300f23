// The disk layout of inode_manager.h: block numbers, the bits of the free map, and the
// byte representation of an inode.

module DiskLayout {
  const BLOCK_SIZE: nat := 512
  const BLOCK_NUM: nat := 32768
  const INODE_NUM: nat := 4096
  const BPB: nat := 4096          // bitmap bits per block
  const NDIRECT: nat := 100

  // Block containing inode i, and block containing the bit of block b.
  function IBlock(i: nat): nat { BLOCK_NUM / BPB + i + 3 }
  function BBlock(b: nat): nat { b / BPB + 2 }

  const INODE_START: nat := IBlock(1)
  const DATA_START: nat := INODE_START + INODE_NUM

  type Byte = bv8
  type Block = b: seq<Byte> | |b| == BLOCK_SIZE witness Zeros(BLOCK_SIZE)

  function Zeros(n: nat): (bs: seq<Byte>)
    ensures |bs| == n
  {
    seq(n, _ => 0)
  }

  type Word = w: nat | w < 0x1_0000_0000

  // ---- Bits of a byte; bit 0 is the most significant one ----

  // 0x1 << (8 - k - 1)
  function Mask(k: nat): Byte
    requires k < 8
  {
    match k case 0 => 0x80 case 1 => 0x40 case 2 => 0x20 case 3 => 0x10 case 4 => 0x08 case 5 => 0x04 case 6 => 0x02 case 7 => 0x01
  }

  // b >> (8 - k - 1)
  function Shifted(b: Byte, k: nat): Byte
    requires k < 8
  {
    match k case 0 => b >> 7 case 1 => b >> 6 case 2 => b >> 5 case 3 => b >> 4 case 4 => b >> 3 case 5 => b >> 2 case 6 => b >> 1 case 7 => b
  }

  predicate Bit(b: Byte, k: nat)
    requires k < 8
  {
    b & Mask(k) != 0
  }

  // The test that !CHECK(p, index) amounts to: the negation applies to the shifted
  // byte, not to its last bit.
  predicate FreeTest(b: Byte, k: nat)
    requires k < 8
  {
    Shifted(b, k) == 0
  }

  function SetBit(b: Byte, k: nat): Byte
    requires k < 8
  {
    b | Mask(k)
  }

  // ~(~b | mask)
  function ClearBit(b: Byte, k: nat): Byte
    requires k < 8
  {
    !(!b | Mask(k))
  }

  lemma SetBitBits(b: Byte, k: nat, j: nat)
    requires k < 8 && j < 8
    ensures Bit(SetBit(b, k), j) == (j == k || Bit(b, j))
  {
  }

  lemma ClearBitBits(b: Byte, k: nat, j: nat)
    requires k < 8 && j < 8
    ensures Bit(ClearBit(b, k), j) == (j != k && Bit(b, j))
  {
  }

  /** The free test looks at all bits from the start of the byte. */
  lemma FreeTestBits(b: Byte, k: nat)
    requires k < 8
    ensures FreeTest(b, k) <==> forall j :: 0 <= j <= k ==> !Bit(b, j)
  {
    if !FreeTest(b, k) {
      var j := if Bit(b, 0) then 0 else if Bit(b, 1) then 1 else if Bit(b, 2) then 2 else if Bit(b, 3) then 3
               else if Bit(b, 4) then 4 else if Bit(b, 5) then 5 else if Bit(b, 6) then 6 else 7;
      assert j <= k && Bit(b, j);
    }
  }

  /** A byte is determined by its bits. */
  lemma SameBits(a: Byte, b: Byte)
    requires forall j :: 0 <= j < 8 ==> Bit(a, j) == Bit(b, j)
    ensures a == b
  {
    assert Bit(a, 0) == Bit(b, 0) && Bit(a, 1) == Bit(b, 1) && Bit(a, 2) == Bit(b, 2) && Bit(a, 3) == Bit(b, 3);
    assert Bit(a, 4) == Bit(b, 4) && Bit(a, 5) == Bit(b, 5) && Bit(a, 6) == Bit(b, 6) && Bit(a, 7) == Bit(b, 7);
  }

  // ---- Inodes ----

  datatype Inode = Inode(kind: Word, size: Word, atime: Word, mtime: Word, ctime: Word, blocks: Blocks)

  type Blocks = b: seq<Word> | |b| == NDIRECT + 1 witness seq(NDIRECT + 1, _ => 0)

  function SetBlock(n: Inode, i: nat, w: Word): Inode
    requires i <= NDIRECT
  {
    n.(blocks := n.blocks[i := w])
  }

  const INODE_WORDS: nat := 106
  const INODE_BYTES: nat := 424

  function ToWords(n: Inode): (ws: seq<Word>)
    ensures |ws| == INODE_WORDS
  {
    [n.kind, n.size, n.atime, n.mtime, n.ctime] + n.blocks
  }

  function FromWords(ws: seq<Word>): Inode
    requires |ws| == INODE_WORDS
  {
    Inode(ws[0], ws[1], ws[2], ws[3], ws[4], ws[5..])
  }

  // Bytes as numbers, bit by bit.
  function FromBits(b0: bool, b1: bool, b2: bool, b3: bool, b4: bool, b5: bool, b6: bool, b7: bool): Byte {
    (if b0 then 0x80 else 0) | (if b1 then 0x40 else 0) | (if b2 then 0x20 else 0) | (if b3 then 0x10 else 0)
    | (if b4 then 0x08 else 0) | (if b5 then 0x04 else 0) | (if b6 then 0x02 else 0) | (if b7 then 0x01 else 0)
  }

  function Sum(b0: bool, b1: bool, b2: bool, b3: bool, b4: bool, b5: bool, b6: bool, b7: bool): nat {
    128 * Num(b0) + 64 * Num(b1) + 32 * Num(b2) + 16 * Num(b3) + 8 * Num(b4) + 4 * Num(b5) + 2 * Num(b6) + Num(b7)
  }

  function Num(b: bool): (n: nat)
    ensures n < 2
  {
    if b then 1 else 0
  }

  lemma Digit(x: nat)
    ensures x == 2 * (x / 2) + Num(x % 2 == 1)
  {
  }

  function ByteOf(x: nat): Byte {
    var x1 := x / 2; var x2 := x1 / 2; var x3 := x2 / 2; var x4 := x3 / 2; var x5 := x4 / 2; var x6 := x5 / 2; var x7 := x6 / 2;
    FromBits(x7 % 2 == 1, x6 % 2 == 1, x5 % 2 == 1, x4 % 2 == 1, x3 % 2 == 1, x2 % 2 == 1, x1 % 2 == 1, x % 2 == 1)
  }

  function ValueOf(b: Byte): (x: nat)
    ensures x < 256
  {
    Sum(Bit(b, 0), Bit(b, 1), Bit(b, 2), Bit(b, 3), Bit(b, 4), Bit(b, 5), Bit(b, 6), Bit(b, 7))
  }

  lemma ByteOfBits(b0: bool, b1: bool, b2: bool, b3: bool, b4: bool, b5: bool, b6: bool, b7: bool)
    ensures var b := FromBits(b0, b1, b2, b3, b4, b5, b6, b7);
            && Bit(b, 0) == b0 && Bit(b, 1) == b1 && Bit(b, 2) == b2 && Bit(b, 3) == b3
            && Bit(b, 4) == b4 && Bit(b, 5) == b5 && Bit(b, 6) == b6 && Bit(b, 7) == b7
  {
  }

  lemma BitsValue(b0: bool, b1: bool, b2: bool, b3: bool, b4: bool, b5: bool, b6: bool, b7: bool)
    ensures ValueOf(FromBits(b0, b1, b2, b3, b4, b5, b6, b7)) == Sum(b0, b1, b2, b3, b4, b5, b6, b7)
  {
    ByteOfBits(b0, b1, b2, b3, b4, b5, b6, b7);
  }

  // Little-endian words.
  function EncodeWord(w: nat, n: nat): (bs: seq<Byte>)
    ensures |bs| == n
  {
    if n == 0 then [] else [ByteOf(w % 256)] + EncodeWord(w / 256, n - 1)
  }

  function DecodeWord(bs: seq<Byte>): nat {
    if bs == [] then 0 else ValueOf(bs[0]) + 256 * DecodeWord(bs[1..])
  }

  function Pow256(n: nat): nat {
    if n == 0 then 1 else 256 * Pow256(n - 1)
  }

  lemma {:induction false} DecodeWordBound(bs: seq<Byte>)
    ensures DecodeWord(bs) < Pow256(|bs|)
  {
    if bs != [] {
      DecodeWordBound(bs[1..]);
    }
  }

  lemma {:induction false} WordRoundTrip(w: nat, n: nat)
    requires w < Pow256(n)
    ensures DecodeWord(EncodeWord(w, n)) == w
  {
    if n > 0 {
      WordRoundTrip(w / 256, n - 1);
      ByteRoundTrip(w % 256);
      assert EncodeWord(w, n)[1..] == EncodeWord(w / 256, n - 1);
    }
  }

  lemma Nibble(x: nat)
    ensures var x1 := x / 2; var x2 := x1 / 2; var x3 := x2 / 2;
            x == 16 * (x3 / 2) + 8 * Num(x3 % 2 == 1) + 4 * Num(x2 % 2 == 1) + 2 * Num(x1 % 2 == 1) + Num(x % 2 == 1)
  {
    Digit(x); Digit(x / 2); Digit(x / 2 / 2); Digit(x / 2 / 2 / 2);
  }

  lemma Binary(x: nat)
    requires x < 256
    ensures var x1 := x / 2; var x2 := x1 / 2; var x3 := x2 / 2; var x4 := x3 / 2; var x5 := x4 / 2; var x6 := x5 / 2; var x7 := x6 / 2;
            x == Sum(x7 % 2 == 1, x6 % 2 == 1, x5 % 2 == 1, x4 % 2 == 1, x3 % 2 == 1, x2 % 2 == 1, x1 % 2 == 1, x % 2 == 1)
  {
    var x1 := x / 2; var x2 := x1 / 2; var x3 := x2 / 2; var x4 := x3 / 2; var x5 := x4 / 2; var x6 := x5 / 2; var x7 := x6 / 2;
    Nibble(x);
    Nibble(x4);
    assert x7 / 2 == 0;
  }

  lemma ByteRoundTrip(x: nat)
    requires x < 256
    ensures ValueOf(ByteOf(x)) == x
  {
    var x1 := x / 2; var x2 := x1 / 2; var x3 := x2 / 2; var x4 := x3 / 2; var x5 := x4 / 2; var x6 := x5 / 2; var x7 := x6 / 2;
    Binary(x);
    BitsValue(x7 % 2 == 1, x6 % 2 == 1, x5 % 2 == 1, x4 % 2 == 1, x3 % 2 == 1, x2 % 2 == 1, x1 % 2 == 1, x % 2 == 1);
  }

  function EncodeWords(ws: seq<Word>): (bs: seq<Byte>)
    ensures |bs| == 4 * |ws|
  {
    if ws == [] then [] else EncodeWord(ws[0], 4) + EncodeWords(ws[1..])
  }

  function DecodeWords(bs: seq<Byte>, n: nat): (ws: seq<Word>)
    requires |bs| >= 4 * n
    ensures |ws| == n
  {
    if n == 0 then []
    else
      DecodeWordBound(bs[..4]);
      assert Pow256(4) == 0x1_0000_0000;
      [DecodeWord(bs[..4])] + DecodeWords(bs[4..], n - 1)
  }

  lemma {:induction false} WordsRoundTrip(ws: seq<Word>, rest: seq<Byte>)
    ensures DecodeWords(EncodeWords(ws) + rest, |ws|) == ws
  {
    if ws != [] {
      var first, tail := EncodeWord(ws[0], 4), EncodeWords(ws[1..]);
      assert Pow256(4) == 0x1_0000_0000;
      WordRoundTrip(ws[0], 4);
      WordsRoundTrip(ws[1..], rest);
      assert (first + tail + rest)[..4] == first;
      assert (first + tail + rest)[4..] == tail + rest;
    }
  }

  function DecodeInode(b: Block): Inode {
    FromWords(DecodeWords(b[..INODE_BYTES], INODE_WORDS))
  }

  // The inode overwrites the start of the block; the rest of the block stays.
  function EncodeInode(n: Inode, b: Block): Block {
    EncodeWords(ToWords(n)) + b[INODE_BYTES..]
  }

  lemma InodeRoundTrip(n: Inode, b: Block)
    ensures DecodeInode(EncodeInode(n, b)) == n
  {
    var bs := EncodeWords(ToWords(n));
    assert EncodeInode(n, b)[..INODE_BYTES] == bs + [];
    WordsRoundTrip(ToWords(n), []);
  }
}
