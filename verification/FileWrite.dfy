// The state in the middle of write_file, and what each of its actions does to it.

module FileWrite {
  import opened DiskLayout
  import opened DiskVolume
  import opened FileTree

  // How far a write that began on volume v0, in the file with layout lay, has come on
  // volume v: chain and data are the inodes and blocks passed so far, and cur is the
  // inode in memory, the last of chain, which has not been put yet.
  ghost predicate Writing(v0: Volume, v: Volume, lay: Layout, chain: seq<nat>, data: seq<nat>, cur: Inode) {
    && v0.used <= v.used && Shaped(v.used)
    && chain != [] && lay.chain != [] && chain[0] == lay.chain[0]
    && NDIRECT * (|chain| - 1) <= |data| <= NDIRECT * |chain|
    && InPlace(v, Layout(chain, data))
    && OwnOrNew(v0, lay, chain, data)
    && Passed(v, chain, data)
    && Holds(cur, |chain| - 1, chain, data)
    && (|data| < |lay.data| ==> Ahead(v0, v, lay, chain, data, cur))
    && Elsewhere(v0, v, lay)
    && SameHead(NodeAt(v0, chain[0]), if |chain| == 1 then cur else NodeAt(v, chain[0]))
    && (data == [] ==> |chain| == 1 && cur == NodeAt(v0, chain[0]))
  }

  // The type and the access time of the file.
  predicate SameHead(n: Inode, n': Inode) {
    n'.kind == n.kind && n'.atime == n.atime
  }

  // What has been passed was part of the file or was free.
  ghost predicate OwnOrNew(v0: Volume, lay: Layout, chain: seq<nat>, data: seq<nat>) {
    && (forall x :: x in chain ==> x in lay.chain || IBlock(x) !in v0.used)
    && (forall y :: y in data ==> y in lay.data || y !in v0.used)
  }

  // All inodes of the chain but the last are on the disk.
  ghost predicate Passed(v: Volume, chain: seq<nat>, data: seq<nat>) {
    forall k :: 0 <= k < |chain| - 1 ==> Holds(NodeAt(v, chain[k]), k, chain, data)
  }

  // The part of the file that has not been reached yet is as it was.
  ghost predicate Ahead(v0: Volume, v: Volume, lay: Layout, chain: seq<nat>, data: seq<nat>, cur: Inode)
    requires chain != []
  {
    && chain <= lay.chain && data <= lay.data
    && Holds(cur, |chain| - 1, lay.chain, lay.data)
    && forall k :: |chain| <= k < |lay.chain| ==> NodeAt(v, lay.chain[k]) == NodeAt(v0, lay.chain[k])
  }

  // Used inodes and blocks that are not the file's own are as they were.
  ghost predicate Elsewhere(v0: Volume, v: Volume, lay: Layout) {
    && (forall x :: IBlock(x) in v0.used && x !in lay.chain ==> NodeAt(v, x) == NodeAt(v0, x))
    && (forall y :: y in v0.used && y !in lay.data ==> DataAt(v, y) == DataAt(v0, y))
  }

  lemma Start(v: Volume, h: nat, lay: Layout)
    requires FileOk(v, h, lay) && Shaped(v.used)
    ensures Writing(v, v, lay, [h], [], NodeAt(v, h))
  {
    assert lay.chain[0] in lay.chain;
    assert [h] <= lay.chain;
    assert Holds(NodeAt(v, lay.chain[0]), 0, lay.chain, lay.data);
  }

  // ---- A block is written ----

  // Block y holds b, and the blocks of data what they held.
  ghost predicate Added(v: Volume, v': Volume, data: seq<nat>, y: nat, b: Block) {
    DataAt(v', y) == b && forall z :: z in data ==> DataAt(v', z) == DataAt(v, z)
  }

  lemma InPlaceAppend(v: Volume, v': Volume, chain: seq<nat>, data: seq<nat>, y: nat)
    requires InPlace(v, Layout(chain, data)) && v.used <= v'.used
    requires IsData(y) && y in v'.used && y !in data
    ensures InPlace(v', Layout(chain, data + [y]))
  {
  }

  lemma OwnAppend(v0: Volume, lay: Layout, chain: seq<nat>, data: seq<nat>, y: nat)
    requires OwnOrNew(v0, lay, chain, data) && (y in lay.data || y !in v0.used)
    ensures OwnOrNew(v0, lay, chain, data + [y])
  {
  }

  lemma ElsewhereData(v0: Volume, v: Volume, v': Volume, lay: Layout, y: nat, b: Block)
    requires Elsewhere(v0, v, lay) && (y in lay.data || y !in v0.used)
    requires v'.node == v.node && v'.data == v.data[y := b]
    ensures Elsewhere(v0, v', lay)
  {
  }

  lemma HoldsAppend(n: Inode, n': Inode, k: nat, chain: seq<nat>, data: seq<nat>, y: Word)
    requires Holds(n, k, chain, data) && NDIRECT * k <= |data| < NDIRECT * (k + 1) && k + 1 == |chain|
    requires n' == SetBlock(n, |data| - NDIRECT * k, y)
    ensures Holds(n', k, chain, data + [y])
  {
  }

  lemma PassedMore(v: Volume, v': Volume, chain: seq<nat>, data: seq<nat>, y: nat)
    requires Passed(v, chain, data) && v'.node == v.node && NDIRECT * (|chain| - 1) <= |data|
    ensures Passed(v', chain, data + [y])
  {
    forall k | 0 <= k < |chain| - 1 ensures Holds(NodeAt(v', chain[k]), k, chain, data + [y]) {
      assert Holds(NodeAt(v, chain[k]), k, chain, data);
    }
  }

  lemma AheadAppend(v0: Volume, v: Volume, v': Volume, lay: Layout, chain: seq<nat>, data: seq<nat>, cur: Inode)
    requires chain != [] && Ahead(v0, v, lay, chain, data, cur) && v'.node == v.node && |data| < |lay.data|
    ensures Ahead(v0, v', lay, chain, data + [lay.data[|data|]], cur)
  {
  }

  // A block that the file already has.
  lemma OldBlock(v0: Volume, v: Volume, lay: Layout, chain: seq<nat>, data: seq<nat>, cur: Inode)
    requires Writing(v0, v, lay, chain, data, cur) && InPlace(v0, lay)
    requires |data| < |lay.data| && |data| < NDIRECT * |chain|
    ensures var y := cur.blocks[|data| - NDIRECT * (|chain| - 1)];
            y == lay.data[|data|] && y in lay.data && y !in data && IsData(y) && y in v0.used
  {
    var y := cur.blocks[|data| - NDIRECT * (|chain| - 1)];
    assert y == lay.data[|data|];
    assert forall i :: 0 <= i < |data| ==> data[i] == lay.data[i];
  }

  lemma PlaceOld(v0: Volume, v: Volume, lay: Layout, chain: seq<nat>, data: seq<nat>, cur: Inode, b: Block)
    requires Writing(v0, v, lay, chain, data, cur) && InPlace(v0, lay)
    requires |data| < |lay.data| && |data| < NDIRECT * |chain|
    ensures var y := cur.blocks[|data| - NDIRECT * (|chain| - 1)];
            var v' := v.(data := v.data[y := b]);
            IsData(y)
            && Writing(v0, v', lay, chain, data + [y], cur)
            && Added(v, v', data, y, b)
  {
    var y := cur.blocks[|data| - NDIRECT * (|chain| - 1)];
    var v' := v.(data := v.data[y := b]);
    OldBlock(v0, v, lay, chain, data, cur);
    InPlaceAppend(v, v', chain, data, y);
    PassedMore(v, v', chain, data, y);
    OwnAppend(v0, lay, chain, data, y);
    ElsewhereData(v0, v, v', lay, y, b);
    assert cur.blocks[|data| - NDIRECT * (|chain| - 1) := y] == cur.blocks;
    HoldsAppend(cur, cur, |chain| - 1, chain, data, y);
    AheadAppend(v0, v, v', lay, chain, data, cur);
  }

  // A block that has just been allocated.
  lemma PlaceNew(v0: Volume, v: Volume, lay: Layout, chain: seq<nat>, data: seq<nat>, cur: Inode, y: Word, b: Block)
    requires Writing(v0, v, lay, chain, data, cur) && InPlace(v0, lay)
    requires |lay.data| <= |data| < NDIRECT * |chain|
    requires IsData(y) && y !in v.used && Shaped(v.used + {y})
    ensures var cur' := SetBlock(cur, |data| - NDIRECT * (|chain| - 1), y);
            var v' := v.(used := v.used + {y}, data := v.data[y := b]);
            Writing(v0, v', lay, chain, data + [y], cur')
            && Added(v, v', data, y, b)
  {
    var cur' := SetBlock(cur, |data| - NDIRECT * (|chain| - 1), y);
    var v' := v.(used := v.used + {y}, data := v.data[y := b]);
    assert y !in data && y !in lay.data;
    InPlaceAppend(v, v', chain, data, y);
    PassedMore(v, v', chain, data, y);
    OwnAppend(v0, lay, chain, data, y);
    ElsewhereData(v0, v, v', lay, y, b);
    HoldsAppend(cur, cur', |chain| - 1, chain, data, y);
  }

  // ---- The write goes on in the next inode ----

  lemma PassedNext(v: Volume, v': Volume, chain: seq<nat>, data: seq<nat>, cur: Inode, z: nat)
    requires chain != [] && NoDup(chain + [z]) && Passed(v, chain, data) && Holds(cur, |chain| - 1, chain, data)
    requires cur.blocks[NDIRECT] == z
    requires NodeAt(v', chain[|chain| - 1]) == cur
    requires forall x :: x in chain && x != chain[|chain| - 1] ==> NodeAt(v', x) == NodeAt(v, x)
    ensures Passed(v', chain + [z], data)
  {
    var chain' := chain + [z];
    forall k | 0 <= k < |chain| ensures Holds(NodeAt(v', chain'[k]), k, chain', data) {
      assert chain'[k] == chain[k];
      if k < |chain| - 1 {
        assert Holds(NodeAt(v, chain[k]), k, chain, data);
        assert chain'[k] != chain'[|chain| - 1];
      }
    }
  }

  lemma InPlaceNext(v: Volume, v': Volume, chain: seq<nat>, data: seq<nat>, z: nat)
    requires InPlace(v, Layout(chain, data)) && v.used <= v'.used
    requires IsInum(z) && IBlock(z) in v'.used && z !in chain
    ensures InPlace(v', Layout(chain + [z], data))
  {
  }

  lemma OwnNext(v0: Volume, lay: Layout, chain: seq<nat>, data: seq<nat>, z: nat)
    requires OwnOrNew(v0, lay, chain, data) && (z in lay.chain || IBlock(z) !in v0.used)
    ensures OwnOrNew(v0, lay, chain + [z], data)
  {
  }

  // The next inode of the old chain.
  lemma OldNext(v0: Volume, v: Volume, lay: Layout, chain: seq<nat>, data: seq<nat>, cur: Inode)
    requires Writing(v0, v, lay, chain, data, cur) && InPlace(v0, lay) && Linked(v0, lay)
    requires NDIRECT * |chain| < |lay.data| && |lay.chain| == InodesFor(|lay.data|)
    ensures var z := cur.blocks[NDIRECT];
            |chain| < |lay.chain| && z == lay.chain[|chain|] && z in lay.chain && z !in chain && IsInum(z)
            && IBlock(z) in v0.used && NodeAt(v, z) == NodeAt(v0, z)
            && Holds(NodeAt(v, z), |chain|, lay.chain, lay.data) && NodeAt(v, z).size == 0
  {
    assert chain <= lay.chain;
    assert |chain| < |lay.chain|;
    assert forall i :: 0 <= i < |chain| ==> chain[i] == lay.chain[i];
    assert Holds(NodeAt(v0, lay.chain[|chain|]), |chain|, lay.chain, lay.data);
  }

  lemma AheadNext(v0: Volume, v: Volume, v': Volume, lay: Layout, chain: seq<nat>, data: seq<nat>, cur: Inode, next: Inode)
    requires chain != [] && Ahead(v0, v, lay, chain, data, cur) && |chain| < |lay.chain| && NoDup(lay.chain)
    requires Holds(next, |chain|, lay.chain, lay.data)
    requires forall x :: x != chain[|chain| - 1] ==> NodeAt(v', x) == NodeAt(v, x)
    ensures Ahead(v0, v', lay, chain + [lay.chain[|chain|]], data, next)
  {
    assert chain[|chain| - 1] == lay.chain[|chain| - 1];
  }

  lemma NextOld(v0: Volume, v: Volume, lay: Layout, chain: seq<nat>, data: seq<nat>, cur: Inode)
    requires Writing(v0, v, lay, chain, data, cur) && InPlace(v0, lay) && Linked(v0, lay)
    requires |data| == NDIRECT * |chain| < |lay.data| && |lay.chain| == InodesFor(|lay.data|)
    ensures var z := cur.blocks[NDIRECT];
            IsInum(z) && z != chain[|chain| - 1]
            && Writing(v0, v.(node := v.node[chain[|chain| - 1] := cur]), lay, chain + [z], data, NodeAt(v, z))
  {
    var z, last := cur.blocks[NDIRECT], chain[|chain| - 1];
    var v' := v.(node := v.node[last := cur]);
    OldNext(v0, v, lay, chain, data, cur);
    assert last in chain;
    InPlaceNext(v, v', chain, data, z);
    OwnNext(v0, lay, chain, data, z);
    PassedNext(v, v', chain, data, cur, z);
    AheadNext(v0, v, v', lay, chain, data, cur, NodeAt(v, z));
    assert Elsewhere(v0, v', lay);
  }

  // A new inode n, allocated together with a data block y that is not used further.
  lemma NextNew(v0: Volume, v: Volume, lay: Layout, chain: seq<nat>, data: seq<nat>, cur: Inode, z: Word, n: Inode, y: nat)
    requires Writing(v0, v, lay, chain, data, cur) && InPlace(v0, lay)
    requires |lay.data| <= |data| == NDIRECT * |chain|
    requires IsInum(z) && IBlock(z) !in v.used && IsData(y) && y !in v.used && n.size == 0
    requires Shaped(v.used + {IBlock(z), y})
    ensures var cur' := SetBlock(cur, NDIRECT, z);
            var v' := v.(used := v.used + {IBlock(z), y}, node := v.node[z := n][chain[|chain| - 1] := cur']);
            z != chain[|chain| - 1] && Writing(v0, v', lay, chain + [z], data, n)
  {
    var cur', last := SetBlock(cur, NDIRECT, z), chain[|chain| - 1];
    var v' := v.(used := v.used + {IBlock(z), y}, node := v.node[z := n][last := cur']);
    assert last in chain && z !in chain;
    InPlaceNext(v, v', chain, data, z);
    OwnNext(v0, lay, chain, data, z);
    assert Holds(cur', |chain| - 1, chain, data);
    PassedNext(v, v', chain, data, cur', z);
    assert Elsewhere(v0, v', lay);
  }

  // ---- The write ends ----

  // The inode in memory is put, and the head gets its new size and times.
  function Sealed(n: Inode, size: Word, now: Word): Inode {
    n.(size := size, ctime := now, mtime := now)
  }

  lemma SealedFile(v0: Volume, v: Volume, v': Volume, lay: Layout, chain: seq<nat>, data: seq<nat>, cur: Inode, size: Word, now: Word)
    requires Writing(v0, v, lay, chain, data, cur) && FileOk(v0, chain[0], lay)
    requires |chain| == InodesFor(|data|) && BlocksFor(size) == |data|
    requires InPlace(v', Layout(chain, data))
    requires forall x :: x in chain ==>
               var n := if x == chain[|chain| - 1] then cur else NodeAt(v, x);
               NodeAt(v', x) == if x == chain[0] then Sealed(n, size, now) else n
    ensures FileOk(v', chain[0], Layout(chain, data))
    ensures SameHead(NodeAt(v0, chain[0]), NodeAt(v', chain[0])) && NodeAt(v', chain[0]).size == size
    ensures NodeAt(v', chain[0]).mtime == now && NodeAt(v', chain[0]).ctime == now
  {
    var last := chain[|chain| - 1];
    forall k | 0 <= k < |chain| ensures Holds(NodeAt(v', chain[k]), k, chain, data) {
      assert chain[k] in chain;
      if k < |chain| - 1 {
        assert Holds(NodeAt(v, chain[k]), k, chain, data);
        assert chain[k] != last;
      }
      assert k > 0 ==> chain[k] != chain[0];
    }
    assert chain[0] in chain;
    assert Holds(NodeAt(v', chain[0]), 0, chain, data);
    if data != [] { assert data[0] in data; }
  }

  // Blocks given back were part of the old file and are not part of the new one.
  ghost predicate Dropped(lay: Layout, chain: seq<nat>, data: seq<nat>, freed: set<nat>) {
    forall b :: b in freed ==>
      (IsData(b) && b in lay.data && b !in data)
      || (INODE_START <= b < DATA_START && b - IBlock(0) in lay.chain && b - IBlock(0) !in chain)
  }

  // The volume after the write, given what was freed.
  ghost predicate Ended(v: Volume, v': Volume, chain: seq<nat>, cur: Inode, size: Word, now: Word, freed: set<nat>) {
    && chain != []
    && v'.used == v.used - freed && v'.data == v.data
    && forall x :: IBlock(x) !in freed ==>
         var n := if x == chain[|chain| - 1] then cur else NodeAt(v, x);
         NodeAt(v', x) == if x == chain[0] then Sealed(n, size, now) else n
  }

  // A block of the old file behind the end of the new one, in the inode in memory.
  lemma TailBlock(v0: Volume, v: Volume, lay: Layout, chain: seq<nat>, data: seq<nat>, cur: Inode, i: nat, j: nat)
    requires Writing(v0, v, lay, chain, data, cur) && InPlace(v0, lay)
    requires j == NDIRECT * (|chain| - 1) + i && i < NDIRECT && |data| <= j < |lay.data|
    ensures cur.blocks[i] == lay.data[j] && lay.data[j] in lay.data && IsData(lay.data[j]) && lay.data[j] !in data
  {
    assert forall k :: 0 <= k < |data| ==> data[k] == lay.data[k];
  }

  lemma DropBlock(lay: Layout, chain: seq<nat>, data: seq<nat>, freed: set<nat>, y: nat)
    requires Dropped(lay, chain, data, freed) && IsData(y) && y in lay.data && y !in data
    ensures Dropped(lay, chain, data, freed + {y})
  {
  }

  lemma DropInode(lay: Layout, chain: seq<nat>, data: seq<nat>, freed: set<nat>, z: nat)
    requires Dropped(lay, chain, data, freed) && IsInum(z) && z in lay.chain && z !in chain
    ensures Dropped(lay, chain, data, freed + {IBlock(z)})
  {
    assert IBlock(z) - IBlock(0) == z;
  }

  lemma EndedInPlace(v: Volume, v': Volume, lay: Layout, chain: seq<nat>, data: seq<nat>, freed: set<nat>)
    requires InPlace(v, Layout(chain, data)) && Dropped(lay, chain, data, freed) && v'.used == v.used - freed
    ensures InPlace(v', Layout(chain, data))
    ensures forall x :: x in chain ==> IBlock(x) !in freed
  {
    forall x | x in chain ensures IBlock(x) !in freed { assert IsInum(x); }
    forall y | y in data ensures y !in freed { assert IsData(y); }
  }

  // Another file g is not touched.
  lemma OtherFile(v0: Volume, v: Volume, v': Volume, lay: Layout, chain: seq<nat>, data: seq<nat>, cur: Inode,
                  size: Word, now: Word, freed: set<nat>, other: Layout)
    requires Writing(v0, v, lay, chain, data, cur) && Ended(v, v', chain, cur, size, now, freed)
    requires Dropped(lay, chain, data, freed) && InPlace(v0, other)
    requires (forall x :: x in other.chain ==> x !in lay.chain) && (forall y :: y in other.data ==> y !in lay.data)
    ensures SameOn(v0, v', other)
    ensures forall x :: x in other.chain ==> x !in chain
    ensures forall y :: y in other.data ==> y !in data
  {
    assert chain[0] in chain && chain[|chain| - 1] in chain;
    forall x | x in other.chain ensures x !in chain && NodeAt(v', x) == NodeAt(v0, x) && IBlock(x) in v'.used {
      assert IsInum(x) && IBlock(x) in v0.used;
      assert IBlock(x) - IBlock(0) == x;
    }
    forall y | y in other.data ensures y !in data && DataAt(v', y) == DataAt(v0, y) && y in v'.used {
      assert IsData(y) && y in v0.used;
    }
  }

  /** After the write the file holds the written bytes, and every other file what it held. */
  lemma Finish(v0: Volume, v: Volume, v': Volume, files: map<nat, Layout>, h: nat, chain: seq<nat>, data: seq<nat>, cur: Inode,
               size: Word, now: Word, freed: set<nat>)
    requires WellFormed(v0, files) && h in files
    requires Writing(v0, v, files[h], chain, data, cur) && Ended(v, v', chain, cur, size, now, freed)
    requires Dropped(files[h], chain, data, freed)
    requires |chain| == InodesFor(|data|) && BlocksFor(size) == |data|
    ensures WellFormed(v', files[h := Layout(chain, data)])
    ensures size <= |Flat(v, data)| && Store(v', files[h := Layout(chain, data)]) == Store(v0, files)[h := Flat(v, data)[..size]]
    ensures SameHead(NodeAt(v0, h), NodeAt(v', h)) && NodeAt(v', h).mtime == now && NodeAt(v', h).ctime == now
    ensures forall g :: g in files && g != h ==> NodeAt(v', g) == NodeAt(v0, g)
  {
    var lay, lay' := files[h], Layout(chain, data);
    assert FileOk(v0, h, lay);
    EndedInPlace(v, v', lay, chain, data, freed);
    SealedFile(v0, v, v', lay, chain, data, cur, size, now);
    FlatKept(v, v', data);
    forall g | g in files && g != h
      ensures SameOn(v0, v', files[g])
      ensures forall x :: x in files[g].chain ==> x !in chain
      ensures forall y :: y in files[g].data ==> y !in data
      ensures NodeAt(v', g) == NodeAt(v0, g)
    {
      assert FileOk(v0, g, files[g]);
      OtherFile(v0, v, v', lay, chain, data, cur, size, now, freed, files[g]);
      assert files[g].chain[0] in files[g].chain;
    }
    Replaced(v0, v', files, h, lay');
  }
}
