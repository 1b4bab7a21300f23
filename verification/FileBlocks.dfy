// Which blocks are marked used: those of the files, and those that no file has any more.

module FileBlocks {
  import opened DiskLayout
  import opened DiskVolume
  import opened FileTree
  import opened FileWrite

  ghost function ToSet(s: seq<nat>): set<nat> {
    set y | y in s
  }

  ghost function NodeBlocks(chain: seq<nat>): set<nat> {
    set x | x in chain :: IBlock(x)
  }

  // The inode blocks and data blocks of a file.
  ghost function BlocksOf(lay: Layout): set<nat> {
    NodeBlocks(lay.chain) + ToSet(lay.data)
  }

  ghost function AllBlocks(files: map<nat, Layout>): set<nat> {
    set h, b | h in files && b in BlocksOf(files[h]) :: b
  }

  /** The blocks that are marked used and belong to no file: nothing will ever free them. */
  ghost function Lost(used: set<nat>, files: map<nat, Layout>): set<nat> {
    used - AllBlocks(files)
  }

  function Over(n: nat, m: nat): nat {
    if n > m then n - m else 0
  }

  // ---- Blocks of one file and of the others ----

  lemma BlocksReplaced(files: map<nat, Layout>, h: nat, lay: Layout)
    ensures AllBlocks(files[h := lay]) == AllBlocks(files - {h}) + BlocksOf(lay)
  {
    var files', rest := files[h := lay], files - {h};
    forall b | b in BlocksOf(lay) ensures b in AllBlocks(files') {
      assert h in files' && b in BlocksOf(files'[h]);
    }
    forall b | b in AllBlocks(rest) ensures b in AllBlocks(files') {
      var g :| g in rest && b in BlocksOf(rest[g]);
      assert g in files' && b in BlocksOf(files'[g]);
    }
    forall b | b in AllBlocks(files') ensures b in AllBlocks(rest) + BlocksOf(lay) {
      var g :| g in files' && b in BlocksOf(files'[g]);
      if g != h { assert g in rest && b in BlocksOf(rest[g]); }
    }
  }

  lemma BlocksApart(v: Volume, files: map<nat, Layout>, h: nat)
    requires AllOk(v, files) && Apart(files) && h in files
    ensures AllBlocks(files - {h}) !! BlocksOf(files[h]) && AllBlocks(files) <= v.used
    ensures AllBlocks(files) == AllBlocks(files - {h}) + BlocksOf(files[h])
  {
    BlocksReplaced(files, h, files[h]);
    assert files[h := files[h]] == files;
    forall b | b in AllBlocks(files) ensures b in v.used {
      var g :| g in files && b in BlocksOf(files[g]);
      OneBlock(v, files, g, h, b);
    }
    forall b | b in AllBlocks(files - {h}) ensures b !in BlocksOf(files[h]) {
      var g :| g in files - {h} && b in BlocksOf(files[g]);
      OneBlock(v, files, g, h, b);
    }
  }

  lemma OneBlock(v: Volume, files: map<nat, Layout>, g: nat, h: nat, b: nat)
    requires AllOk(v, files) && Apart(files) && g in files && h in files && b in BlocksOf(files[g])
    ensures b in v.used && (g != h ==> b !in BlocksOf(files[h]))
  {
    assert FileOk(v, g, files[g]) && FileOk(v, h, files[h]);
    if b in ToSet(files[g].data) {
      assert IsData(b);
      forall x | x in files[h].chain ensures IBlock(x) != b { assert IsInum(x); }
    } else {
      var x :| x in files[g].chain && b == IBlock(x);
      assert IsInum(x);
      forall y | y in files[h].data ensures y != b { assert IsData(y); }
      forall z | z in files[h].chain && g != h ensures IBlock(z) != b { assert z != x; }
    }
  }

  /** Removing a file loses no block. */
  lemma RemoveLosesNone(v: Volume, used': set<nat>, files: map<nat, Layout>, h: nat)
    requires AllOk(v, files) && Apart(files) && h in files && used' == v.used - BlocksOf(files[h])
    ensures Lost(used', files - {h}) == Lost(v.used, files)
  {
    BlocksApart(v, files, h);
  }

  /** Creating a file loses the data block that comes with the inode. */
  lemma CreateLosesOne(v: Volume, used': set<nat>, files: map<nat, Layout>, z: nat, y: nat)
    requires AllOk(v, files) && z !in files && IsInum(z) && IsData(y)
    requires IBlock(z) !in v.used && y !in v.used && used' == v.used + {IBlock(z), y}
    ensures Lost(used', files[z := Layout([z], [])]) == Lost(v.used, files) + {y}
  {
    var lay := Layout([z], []);
    BlocksReplaced(files, z, lay);
    assert files - {z} == files;
    assert BlocksOf(lay) == {IBlock(z)};
    forall b | b in AllBlocks(files) ensures b in v.used {
      var g :| g in files && b in BlocksOf(files[g]);
      assert FileOk(v, g, files[g]);
    }
  }

  // ---- What a write takes ----

  // The new layout runs along the old one as far as both go.
  ghost predicate Along(lay: Layout, chain: seq<nat>, data: seq<nat>) {
    && (forall k :: 0 <= k < |chain| && k < |lay.chain| ==> chain[k] == lay.chain[k])
    && (forall j :: 0 <= j < |data| && j < |lay.data| ==> data[j] == lay.data[j])
  }

  // The write has marked the blocks it has passed, and spare: the data blocks that came
  // with new inodes.
  ghost predicate TookWith(used0: set<nat>, used: set<nat>, lay: Layout, chain: seq<nat>, data: seq<nat>, spare: set<nat>) {
    && used == used0 + NodeBlocks(chain) + ToSet(data) + spare
    && spare !! used0 + NodeBlocks(chain) + ToSet(data)
    && |spare| == Over(|chain|, |lay.chain|) && forall y :: y in spare ==> IsData(y)
  }

  ghost predicate Took(used0: set<nat>, used: set<nat>, lay: Layout, chain: seq<nat>, data: seq<nat>) {
    Along(lay, chain, data) && exists spare :: TookWith(used0, used, lay, chain, data, spare)
  }

  lemma TookStart(used: set<nat>, lay: Layout)
    requires lay.chain != [] && IBlock(lay.chain[0]) in used
    ensures Took(used, used, lay, [lay.chain[0]], [])
  {
    assert NodeBlocks([lay.chain[0]]) == {IBlock(lay.chain[0])} && ToSet([]) == {};
    assert TookWith(used, used, lay, [lay.chain[0]], [], {});
  }

  lemma NodeBlocksMore(chain: seq<nat>, z: nat)
    ensures NodeBlocks(chain + [z]) == NodeBlocks(chain) + {IBlock(z)}
  {
  }

  lemma ToSetMore(data: seq<nat>, y: nat)
    ensures ToSet(data + [y]) == ToSet(data) + {y}
  {
  }

  lemma AlongMore(lay: Layout, chain: seq<nat>, data: seq<nat>, z: nat)
    requires Along(lay, chain, data)
    ensures |chain| >= |lay.chain| || z == lay.chain[|chain|] ==> Along(lay, chain + [z], data)
    ensures |data| >= |lay.data| || z == lay.data[|data|] ==> Along(lay, chain, data + [z])
  {
  }

  // A set counted with one more element.
  lemma SpareMore(spare: set<nat>, y: nat)
    requires y !in spare
    ensures |spare + {y}| == |spare| + 1
  {
  }

  // Inode k of the write is z: the one that the old file has there, or a new one that comes
  // with block y.
  ghost predicate NodeTaken(used0: set<nat>, used: set<nat>, used': set<nat>, lay: Layout, k: nat, z: nat, y: nat) {
    if k < |lay.chain| then z == lay.chain[k] && IBlock(z) in used0 && used' == used
    else IBlock(z) !in used && IsInum(z) && IsData(y) && y !in used && used' == used + {IBlock(z), y}
  }

  // Block j of the write is y: the one that the old file has there, or a new one.
  ghost predicate BlockTaken(used0: set<nat>, used: set<nat>, used': set<nat>, lay: Layout, j: nat, y: nat) {
    if j < |lay.data| then y == lay.data[j] && y in used0 && used' == used
    else y !in used && used' == used + {y}
  }

  lemma TookNode(used0: set<nat>, used: set<nat>, used': set<nat>, lay: Layout, chain: seq<nat>, data: seq<nat>, z: nat, y: nat)
    requires Took(used0, used, lay, chain, data)
    requires NodeTaken(used0, used, used', lay, |chain|, z, y)
    ensures Took(used0, used', lay, chain + [z], data)
  {
    var spare :| TookWith(used0, used, lay, chain, data, spare);
    NodeBlocksMore(chain, z);
    AlongMore(lay, chain, data, z);
    if |chain| < |lay.chain| {
      assert TookWith(used0, used', lay, chain + [z], data, spare);
    } else {
      SpareMore(spare, y);
      assert TookWith(used0, used', lay, chain + [z], data, spare + {y});
    }
  }

  lemma TookBlock(used0: set<nat>, used: set<nat>, used': set<nat>, lay: Layout, chain: seq<nat>, data: seq<nat>, y: nat)
    requires Took(used0, used, lay, chain, data)
    requires BlockTaken(used0, used, used', lay, |data|, y)
    ensures Took(used0, used', lay, chain, data + [y])
  {
    var spare :| TookWith(used0, used, lay, chain, data, spare);
    AlongMore(lay, chain, data, y);
    TookMore(used0, used, used', lay, chain, data, spare, y);
  }

  lemma TookMore(used0: set<nat>, used: set<nat>, used': set<nat>, lay: Layout, chain: seq<nat>, data: seq<nat>, spare: set<nat>, y: nat)
    requires TookWith(used0, used, lay, chain, data, spare)
    requires BlockTaken(used0, used, used', lay, |data|, y)
    ensures TookWith(used0, used', lay, chain, data + [y], spare)
  {
    ToSetMore(data, y);
  }

  // The write goes on in the next inode if the last one is full.
  ghost predicate NodeStep(used0: set<nat>, used: set<nat>, used': set<nat>, lay: Layout, chain: seq<nat>, chain': seq<nat>, full: bool, z: nat, y: nat) {
    if full then chain' == chain + [z] && NodeTaken(used0, used, used', lay, |chain|, z, y) else chain' == chain && used' == used
  }

  // One round of a write: perhaps an inode, then a block.
  lemma TookRound(used0: set<nat>, used: set<nat>, used1: set<nat>, used2: set<nat>, lay: Layout, chain: seq<nat>, chain': seq<nat>, data: seq<nat>,
                  full: bool, z: nat, spare: nat, y: nat)
    requires Took(used0, used, lay, chain, data)
    requires NodeStep(used0, used, used1, lay, chain, chain', full, z, spare) && BlockTaken(used0, used1, used2, lay, |data|, y)
    ensures Took(used0, used2, lay, chain', data + [y])
  {
    if full { TookNode(used0, used, used1, lay, chain, data, z, spare); }
    TookBlock(used0, used1, used2, lay, chain', data, y);
  }

  // ---- What a write gives back, and what it loses ----

  // The blocks of data from lo up to hi.
  ghost function Span(data: seq<nat>, lo: nat, hi: nat): set<nat> {
    set j | lo <= j < hi && j < |data| :: data[j]
  }

  lemma SpanMore(data: seq<nat>, lo: nat, hi: nat)
    requires lo <= hi < |data|
    ensures Span(data, lo, hi + 1) == Span(data, lo, hi) + {data[hi]}
  {
  }

  lemma SpanEnds(data: seq<nat>, lo: nat, hi: nat, end: nat)
    requires hi == end || (hi <= end && hi >= |data|)
    ensures Span(data, lo, hi) == Span(data, lo, end)
  {
  }

  /** What a write that ends with so many inodes and blocks gives back of the old file: the
      rest of the blocks of its last inode, and the next inode if there is one. */
  ghost function TailOf(lay: Layout, inodes: nat, blocks: nat): set<nat> {
    Span(lay.data, blocks, NDIRECT * inodes) + if inodes < |lay.chain| then {IBlock(lay.chain[inodes])} else {}
  }

  /** What it neither keeps nor gives back: the inodes behind that one, and their blocks. */
  ghost function Abandoned(lay: Layout, inodes: nat): set<nat> {
    Span(lay.data, NDIRECT * inodes, |lay.data|) + NodeBlocks(lay.chain[if inodes < |lay.chain| then inodes + 1 else |lay.chain|..])
  }

  /** The used blocks after a write that has replaced lay by lay'. */
  ghost predicate Rewritten(used: set<nat>, used': set<nat>, lay: Layout, lay': Layout) {
    exists spare :: RewrittenWith(used, used', lay, lay', spare)
  }

  ghost predicate RewrittenWith(used: set<nat>, used': set<nat>, lay: Layout, lay': Layout, spare: set<nat>) {
    && spare !! used + BlocksOf(lay') && |spare| == Over(|lay'.chain|, |lay.chain|)
    && used' == used + BlocksOf(lay') + spare - TailOf(lay, |lay'.chain|, |lay'.data|)
  }

  // The new layout consists of old blocks and of blocks that were free.
  ghost predicate Fits(used: set<nat>, lay: Layout, lay': Layout) {
    && NoDup(lay.data) && NoDup(lay'.data) && NoDup(lay.chain) && NoDup(lay'.chain)
    && (forall x :: x in lay.chain || x in lay'.chain ==> IsInum(x)) && (forall y :: y in lay.data || y in lay'.data ==> IsData(y))
    && Along(lay, lay'.chain, lay'.data)
    && |lay.chain| == InodesFor(|lay.data|) && |lay'.chain| == InodesFor(|lay'.data|)
    && BlocksOf(lay) <= used && forall b :: b in BlocksOf(lay') && b in used ==> b in BlocksOf(lay)
  }

  lemma NotInPrefix(s: seq<nat>, t: seq<nat>, j: nat)
    requires NoDup(s) && |t| <= j < |s| && forall i :: 0 <= i < |t| ==> t[i] == s[i]
    ensures s[j] !in t
  {
  }

  // Block j of the old file is part of the new one if that is so long.
  lemma OldBlockKept(used: set<nat>, lay: Layout, lay': Layout, j: nat)
    requires Fits(used, lay, lay') && j < |lay.data|
    ensures lay.data[j] in BlocksOf(lay') <==> j < |lay'.data|
  {
    var y := lay.data[j];
    assert y in lay.data && IsData(y);
    forall x | x in lay'.chain ensures IBlock(x) != y { assert IsInum(x); }
    if j >= |lay'.data| { NotInPrefix(lay.data, lay'.data, j); }
  }

  lemma OldNodeKept(used: set<nat>, lay: Layout, lay': Layout, k: nat)
    requires Fits(used, lay, lay') && k < |lay.chain|
    ensures IBlock(lay.chain[k]) in BlocksOf(lay') <==> k < |lay'.chain|
  {
    var x := lay.chain[k];
    assert x in lay.chain && IsInum(x);
    forall y | y in lay'.data ensures IBlock(x) != y { assert IsData(y); }
    if k < |lay'.chain| {
      assert lay'.chain[k] in lay'.chain;
    } else {
      NotInPrefix(lay.chain, lay'.chain, k);
    }
  }

  // Inode k is in the tail if it is the next one, and block j if it is in the last inode.
  lemma InTail(used: set<nat>, lay: Layout, lay': Layout, j: nat, k: nat)
    requires Fits(used, lay, lay')
    ensures j < |lay.data| ==> (lay.data[j] in TailOf(lay, |lay'.chain|, |lay'.data|) <==> |lay'.data| <= j < NDIRECT * |lay'.chain|)
    ensures k < |lay.chain| ==> (IBlock(lay.chain[k]) in TailOf(lay, |lay'.chain|, |lay'.data|) <==> k == |lay'.chain|)
    ensures j < |lay.data| ==> (lay.data[j] in Abandoned(lay, |lay'.chain|) <==> NDIRECT * |lay'.chain| <= j)
    ensures k < |lay.chain| ==> (IBlock(lay.chain[k]) in Abandoned(lay, |lay'.chain|) <==> k > |lay'.chain|)
  {
    forall i | 0 <= i < |lay.data| ensures IsData(lay.data[i]) { assert lay.data[i] in lay.data; }
    forall i | 0 <= i < |lay.chain| ensures IsInum(lay.chain[i]) { assert lay.chain[i] in lay.chain; }
  }

  // What is left of the old file outside the new one is given back or abandoned.
  lemma RestOfOld(used: set<nat>, lay: Layout, lay': Layout)
    requires Fits(used, lay, lay')
    ensures BlocksOf(lay) - BlocksOf(lay') - TailOf(lay, |lay'.chain|, |lay'.data|) == Abandoned(lay, |lay'.chain|)
    ensures TailOf(lay, |lay'.chain|, |lay'.data|) <= BlocksOf(lay) - BlocksOf(lay')
  {
    var tail, gone := TailOf(lay, |lay'.chain|, |lay'.data|), Abandoned(lay, |lay'.chain|);
    forall b | b in BlocksOf(lay) ensures b !in BlocksOf(lay') && b !in tail <==> b in gone {
      if b in ToSet(lay.data) {
        var j :| 0 <= j < |lay.data| && lay.data[j] == b;
        OldBlockKept(used, lay, lay', j);
        InTail(used, lay, lay', j, 0);
      } else {
        var k :| 0 <= k < |lay.chain| && IBlock(lay.chain[k]) == b;
        OldNodeKept(used, lay, lay', k);
        InTail(used, lay, lay', 0, k);
      }
    }
    forall b | b in tail ensures b in BlocksOf(lay) && b !in BlocksOf(lay') {
      if j :| |lay'.data| <= j < NDIRECT * |lay'.chain| && j < |lay.data| && b == lay.data[j] {
        OldBlockKept(used, lay, lay', j);
      } else {
        OldNodeKept(used, lay, lay', |lay'.chain|);
      }
    }
    forall b | b in gone ensures b in BlocksOf(lay) {
      GoneIsOld(lay, |lay'.chain|, b);
    }
  }

  lemma GoneIsOld(lay: Layout, inodes: nat, b: nat)
    requires b in Abandoned(lay, inodes)
    ensures b in BlocksOf(lay)
  {
    if !(exists j :: NDIRECT * inodes <= j < |lay.data| && b == lay.data[j]) {
      var from := if inodes < |lay.chain| then inodes + 1 else |lay.chain|;
      var x :| x in lay.chain[from..] && b == IBlock(x);
      assert x in lay.chain;
    }
  }

  lemma AbandonedIff(used: set<nat>, lay: Layout, lay': Layout)
    requires Fits(used, lay, lay')
    ensures Abandoned(lay, |lay'.chain|) == {} <==> |lay'.chain| >= |lay.chain|
  {
    if |lay'.chain| < |lay.chain| {
      var j := NDIRECT * |lay'.chain|;
      InTail(used, lay, lay', j, 0);
      assert lay.data[j] in Abandoned(lay, |lay'.chain|);
    } else {
      assert lay.chain[|lay.chain|..] == [];
    }
  }

  // lost grows by the data blocks that came with new inodes and by what is abandoned.
  ghost predicate Loses(used: set<nat>, lost: set<nat>, lost': set<nat>, lay: Layout, lay': Layout) {
    exists spare: set<nat> ::
      spare !! used && |spare| == Over(|lay'.chain|, |lay.chain|) && lost' == lost + spare + Abandoned(lay, |lay'.chain|)
  }

  ghost predicate LosesExactly(used: set<nat>, lost: set<nat>, lost': set<nat>, lay: Layout, lay': Layout) {
    Loses(used, lost, lost', lay, lay') && lost <= lost' && (lost' == lost <==> |lay'.chain| == |lay.chain|)
  }

  /** A write loses the blocks that came with new inodes and what it has abandoned; so it
      loses nothing exactly if the number of inodes stays the same. */
  lemma WriteLoses(used: set<nat>, used': set<nat>, files: map<nat, Layout>, h: nat, lay': Layout)
    requires h in files && Fits(used, files[h], lay') && Rewritten(used, used', files[h], lay')
    requires AllBlocks(files - {h}) !! BlocksOf(files[h]) && AllBlocks(files) <= used
    requires AllBlocks(files) == AllBlocks(files - {h}) + BlocksOf(files[h])
    ensures LosesExactly(used, Lost(used, files), Lost(used', files[h := lay']), files[h], lay')
  {
    var lay, tail, gone := files[h], TailOf(files[h], |lay'.chain|, |lay'.data|), Abandoned(files[h], |lay'.chain|);
    var spare :| RewrittenWith(used, used', lay, lay', spare);
    BlocksReplaced(files, h, lay');
    RestOfOld(used, lay, lay');
    AbandonedIff(used, lay, lay');
    LostThen(used, used', AllBlocks(files - {h}), BlocksOf(lay), BlocksOf(lay'), spare, tail, gone);
    assert gone != {} ==> exists b :: b in gone;
  }

  // The same on plain sets.
  lemma LostThen(used: set<nat>, used': set<nat>, others: set<nat>, was: set<nat>, now: set<nat>, spare: set<nat>, tail: set<nat>, gone: set<nat>)
    requires others !! was && others + was <= used && spare !! used + now
    requires used' == used + now + spare - tail && (forall b :: b in now && b in used ==> b in was)
    requires tail <= was - now && was - now - tail == gone
    ensures used' - (others + now) == used - (others + was) + spare + gone
    ensures used - (others + was) !! spare + gone
  {
  }
}
