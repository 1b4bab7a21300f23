// The file operations of yfs_client, over the extent cache and the inode layer. The lock of
// an id is held throughout each operation on it.

module Yfs {
  import opened DiskLayout
  import opened FileTree
  import opened InodeManager
  import opened ExtentNet
  import opened Extents
  import D = YfsDirectory
  import F = YfsFile

  // Work on other objects does not affect the server.
  twostate lemma Undisturbed(server: ExtentServer)
    requires old(server.Valid())
    requires unchanged(server) && unchanged(server.im) && unchanged(server.im.bm.d.blocks) && unchanged(server.handles.Values)
    ensures server.Valid()
  {
    assert server.Valid() == old(server.Valid());
  }

  lemma PutTwice(m: map<nat, seq<Byte>>, id: nat, a: seq<Byte>, b: seq<Byte>)
    ensures m[id := a][id := b] == m[id := b]
  {
  }

  // Asking for attributes changes nothing about who would have to flush what.
  lemma AttrAsks(n: Net, c: ClientId, id: nat)
    requires Coherent(n) && id in n.store
    ensures var n1 := GetAttr(n, c, id);
            && Coherent(n1) && View(n1) == View(n) && Flushes(n1, c, id) == Flushes(n, c, id)
            && n1.store == n.store && Latest(n1, id) == Latest(n, id)
  {
    GetAttrKeeps(n, c, id);
    var n1 := Touch(n, c, id);
    TouchSame(n, c, id);
    var n2 := Claim(n1, c, id);
    SlotSet(n2, c, id, Slot(n1.caches, c, id).(attrStat := OK, attrSize := SizeFor(n2, c, id)));
    assert View(GetAttr(n, c, id))[id] == Latest(GetAttr(n, c, id), id) && View(n)[id] == Latest(n, id);
  }

  // A put to a new inode makes nobody flush, and leaves the client what it has.
  lemma NewIsFree(n: Net, c: ClientId, id: nat, buf: seq<Byte>, parent: nat, data: seq<Byte>)
    requires Coherent(n) && id !in n.store && Has(n, c, parent, data)
    ensures var n1 := Create(n, id); !Flushes(n1, c, id) && Has(Put(n1, c, id, buf), c, parent, data)
  {
    assert CoherentAt(n, id);
    CreateKeeps(n, id);
    PutElsewhere(Create(n, id), c, id, buf, parent, data);
  }

  class YfsClient {
    const ec: ExtentClient
    const server: ExtentServer

    constructor (ec: ExtentClient, server: ExtentServer)
      ensures this.ec == ec && this.server == server
    {
      this.ec, this.server := ec, server;
    }

    ghost predicate Ready()
      reads this, server, server.im, server.im.bm.d.blocks, server.handles.Values
    {
      server.Valid() && ec.Registered(server)
    }

    /** A get or put of id is refused: the owner would have to flush, for which the disk has
        no room. */
    ghost predicate Refused(id: nat)
      reads this, server, server.im, server.im.bm.d.blocks
    {
      server.Refuses(ec.cltId, id)
    }

    // The data of id are with this client, so nobody has to flush.
    ghost predicate Cached(id: nat, data: seq<Byte>)
      reads this, server, server.im
    {
      Has(server.Snapshot(), ec.cltId, id, data)
    }

    /** Every client that starts makes the root directory empty. */
    method InitRoot(env: Env) returns (ok: bool)
      requires Ready() && 1 in server.im.book.contents
      modifies server`fileManger, server`caches, server.im, server.im.bm.d.blocks, server.handles.Values
      ensures ok <==> !old(Refused(1))
      ensures ok ==> Ready() && server.Contents() == old(server.Contents())[1 := []]
      ensures D.IsDirectory([]) && D.NamesOf([]) == map[]
      ensures ok ==> server.im.book.kinds == old(server.im.book.kinds)
    {
      D.EmptyDirectory();
      ok := ec.Put(server, 1, [], env);
    }

    // id is a file or directory whose size allows for more bytes.
    ghost predicate Fits(id: nat, more: nat)
      reads this, server, server.im
    {
      id < 0x8000_0000 && id in server.im.book.contents && |server.Contents()[id]| + more < MAX_SIZE
    }

    /** Read a range of a file. */
    method Read(ino: nat, size: nat, off: nat, env: Env) returns (data: seq<Byte>, ok: bool)
      requires Ready() && Fits(ino, 0)
      modifies server`fileManger, server`caches, server.im, server.im.bm.d.blocks, server.handles.Values
      ensures ok <==> !old(Refused(ino))
      ensures ok ==> Ready() && server.Contents() == old(server.Contents())
      ensures ok ==> data == F.ReadRange(old(server.Contents())[ino], off, size)
      ensures ok ==> server.im.book.kinds == old(server.im.book.kinds)
    {
      var file;
      file, ok := ec.Get(server, ino, env);
      data := if off >= |file| then [] else file[off..F.Min(off + size, |file|)];
    }

    /** Write a range of a file. */
    method Write(ino: nat, off: nat, data: seq<Byte>, env: Env) returns (ok: bool)
      requires Ready() && Fits(ino, 0) && off + |data| < MAX_SIZE
      modifies server`fileManger, server`caches, server.im, server.im.bm.d.blocks, server.handles.Values
      ensures ok <==> !old(Refused(ino))
      ensures ok ==> Ready()
      ensures ok ==> server.Contents() == old(server.Contents())[ino := F.WriteRange(old(server.Contents())[ino], off, data)]
      ensures ok ==> server.im.book.kinds == old(server.im.book.kinds)
    {
      var file;
      file, ok := ec.Get(server, ino, env);
      if ok {
        var file' := F.Splice(file, off, data);
        F.WriteMeans(file, off, data);
        ok := ec.Put(server, ino, file', env);
      }
    }

    /** Cut or extend a file, going by the size that the client has cached or is told. */
    method Setattr(ino: nat, size: nat, env: Env) returns (attrSize: nat, thrown: bool, ok: bool)
      requires Ready() && Fits(ino, size)
      modifies server`fileManger, server`caches, server.im, server.im.bm.d.blocks, server.handles.Values
      ensures attrSize == Slot(GetAttr(old(server.Snapshot()), ec.cltId, ino).caches, ec.cltId, ino).attrSize
      ensures ok <==> attrSize == size || !old(Refused(ino))
      ensures ok ==> Ready() && (thrown <==> F.Resize(old(server.Contents())[ino], attrSize, size) == F.Thrown)
      ensures ok ==> server.Contents() == old(server.Contents())[ino := F.ResizedFile(old(server.Contents())[ino], attrSize, size)]
      ensures ok ==> server.im.book.kinds == old(server.im.book.kinds)
    {
      thrown, ok := false, true;
      attrSize := AttrSize(ino);
      if attrSize == size {
        return;
      }
      thrown, ok := CutFile(ino, attrSize, size, env);
    }

    method CutFile(ino: nat, attrSize: nat, size: nat, env: Env) returns (thrown: bool, ok: bool)
      requires Ready() && Fits(ino, size) && attrSize != size
      modifies server`fileManger, server`caches, server.im, server.im.bm.d.blocks, server.handles.Values
      ensures ok <==> !old(Refused(ino))
      ensures ok ==> Ready() && (thrown <==> F.Resize(old(server.Contents())[ino], attrSize, size) == F.Thrown)
      ensures ok ==> server.Contents() == old(server.Contents())[ino := F.ResizedFile(old(server.Contents())[ino], attrSize, size)]
      ensures ok ==> server.im.book.kinds == old(server.im.book.kinds)
    {
      var file;
      thrown := false;
      file, ok := ec.Get(server, ino, env);
      if !ok { return; }
      file, thrown := F.Cut(file, attrSize, size);
      if !thrown {
        ok := ec.Put(server, ino, file, env);
      }
    }

    method AttrSize(ino: nat) returns (size: nat)
      requires Ready() && Fits(ino, 0)
      modifies server`fileManger, server`caches, server.handles.Values
      ensures Ready() && server.Contents() == old(server.Contents()) && server.handles == old(server.handles)
      ensures ino in server.im.book.contents && (Refused(ino) <==> old(Refused(ino)))
      ensures size == Slot(GetAttr(old(server.Snapshot()), ec.cltId, ino).caches, ec.cltId, ino).attrSize
    {
      AttrAsks(server.Snapshot(), ec.cltId, ino);
      size := ec.GetAttr(server, ino);
    }

    // The size of an entry: the name, an inode number of at most four digits, two slashes.
    ghost function EntrySize(name: D.Name): nat {
      |name| + 6
    }

    /** Every operation on a directory starts by reading and parsing it. */
    method Open(parent: nat, name: D.Name, env: Env, junk: nat) returns (direct: D.Directory, found: nat, ok: bool)
      requires Ready() && Fits(parent, 0)
      modifies server`fileManger, server`caches, server.im, server.im.bm.d.blocks, server.handles.Values
      ensures fresh(direct) && server.handles == old(server.handles)
      ensures ok <==> !old(Refused(parent))
      ensures ok ==> Ready() && server.Contents() == old(server.Contents()) && parent in server.im.book.contents
      ensures ok ==> direct.dirString == old(server.Contents())[parent] && direct.dir == D.Parse(direct.dirString, junk)
      ensures ok ==> found == D.FindIn(direct.dir, name) && Cached(parent, direct.dirString)
      ensures ok ==> server.im.book.kinds == old(server.im.book.kinds)
      ensures ok ==> Got(old(server.Snapshot()), parent, old(server.Used()), old(server.im.book.files), server.Used())
    {
      var dirStr;
      ghost var n, used, files := server.Snapshot(), server.Used(), server.im.book.files;
      dirStr, ok := ec.Get(server, parent, env);
      assert ok ==> GotBlocks(n, ec.cltId, parent, used, files, server.Used(), server.im.book.files);
      label got:
      direct := new D.Directory(dirStr, junk);
      if ok { Undisturbed@got(server); }
      found := direct.Find(name);
    }

    // The name is in the directory.
    ghost predicate Taken(parent: nat, name: D.Name, junk: nat)
      requires parent in server.im.book.contents
      reads this, server, server.im
    {
      D.FindIn(D.Parse(server.Contents()[parent], junk), name) != 0
    }

    /** The used blocks after a get of id by this client: the same, unless another client had to
        write its data back. */
    ghost predicate Got(n: Net, id: nat, used: set<nat>, files: map<nat, Layout>, used': set<nat>)
      reads this
    {
      exists files' :: GotBlocks(n, ec.cltId, id, used, files, used', files')
    }

    /** create and mkdir: a new empty inode of that type under a new name of the parent. It is
        refused exactly if the parent is, or if the name is new and no inode or data block is
        free; used are the blocks in use when the parent has been read. */
    method Create(parent: nat, name: D.Name, kind: Word, env: Env, junk: nat) returns (r: D.Status, ino: nat, ok: bool, ghost used: set<nat>)
      requires Ready() && Fits(parent, EntrySize(name))
      modifies server`fileManger, server`caches, server.im, server.im.bm.d.blocks, server.handles.Values
      ensures ok <==> !old(Refused(parent)) && (old(Taken(parent, name, junk)) || !NoneFree(used))
      ensures !old(Refused(parent)) ==> Got(old(server.Snapshot()), parent, old(server.Used()), old(server.im.book.files), used)
      ensures ok ==> r == if old(Taken(parent, name, junk)) then D.EXIST else D.OK
      ensures ok && D.IsDirectory(old(server.Contents())[parent]) ==>
                r == if name in D.NamesOf(old(server.Contents())[parent]) then D.EXIST else D.OK
      ensures ok ==> Ready() && (r == D.OK ==> ino !in old(server.Contents()) && 0 < ino < INODE_NUM)
      ensures ok ==> var (status, s) := D.CreateIn(old(server.Contents())[parent], name, ino, junk);
                     && r == status
                     && server.Contents() == if r == D.EXIST then old(server.Contents()) else old(server.Contents())[ino := []][parent := s]
      ensures ok ==> server.im.book.kinds == if r == D.EXIST then old(server.im.book.kinds) else old(server.im.book.kinds)[ino := kind]
    {
      r, ino := D.OK, 0;
      if D.IsDirectory(server.Contents()[parent]) { D.TakenMeans(server.Contents()[parent], name, junk); }
      var direct, found;
      direct, found, ok := Open(parent, name, env, junk);
      used := server.Used();
      if !ok { return; }
      if found != 0 {
        r := D.EXIST;
      } else {
        ino, ok := AddNew(parent, name, kind, direct, env);
      }
    }

    /** A new inode, and an entry for it in the parent. */
    method AddNew(parent: nat, name: D.Name, kind: Word, direct: D.Directory, env: Env) returns (ino: nat, ok: bool)
      requires Ready() && Fits(parent, EntrySize(name)) && direct.dirString == server.Contents()[parent] && Cached(parent, direct.dirString)
      modifies direct, server`fileManger, server`caches, server.im, server.im.bm.d.blocks, server.handles.Values
      ensures ok <==> !old(NoneFree(server.Used()))
      ensures !ok ==> NoneFree(server.Used())
      ensures ok ==> Ready() && ino !in old(server.Contents()) && 0 < ino < INODE_NUM
      ensures ok ==> server.Contents() == old(server.Contents())[ino := []][parent := old(direct.dirString) + D.PrintEntry(D.Entry(name, ino))]
      ensures ok ==> server.im.book.kinds == old(server.im.book.kinds)[ino := kind]
    {
      ino, ok := server.Create(kind, env);
      if ok {
        assert Cached(parent, direct.dirString) && parent in server.Contents();
        PutEntry(parent, name, ino, direct, env);
      }
    }

    /** symlink: the new inode holds the target of the link. */
    method Symlink(parent: nat, link: seq<Byte>, name: D.Name, env: Env, junk: nat) returns (r: D.Status, ino: nat, ok: bool, ghost used: set<nat>)
      requires Ready() && Fits(parent, EntrySize(name)) && |link| < MAX_SIZE
      modifies server`fileManger, server`caches, server.im, server.im.bm.d.blocks, server.handles.Values
      ensures ok <==> !old(Refused(parent)) && (old(Taken(parent, name, junk)) || !NoneFree(used))
      ensures !old(Refused(parent)) ==> Got(old(server.Snapshot()), parent, old(server.Used()), old(server.im.book.files), used)
      ensures ok ==> r == if old(Taken(parent, name, junk)) then D.EXIST else D.OK
      ensures ok && D.IsDirectory(old(server.Contents())[parent]) ==>
                r == if name in D.NamesOf(old(server.Contents())[parent]) then D.EXIST else D.OK
      ensures ok ==> Ready() && (r == D.OK ==> ino !in old(server.Contents()) && 0 < ino < INODE_NUM)
      ensures ok ==> var (status, s) := D.CreateIn(old(server.Contents())[parent], name, ino, junk);
                     && r == status
                     && server.Contents() == if r == D.EXIST then old(server.Contents()) else old(server.Contents())[ino := link][parent := s]
      ensures ok ==> server.im.book.kinds == if r == D.EXIST then old(server.im.book.kinds) else old(server.im.book.kinds)[ino := T_LINK]
    {
      r, ino := D.OK, 0;
      if D.IsDirectory(server.Contents()[parent]) { D.TakenMeans(server.Contents()[parent], name, junk); }
      var direct, found;
      direct, found, ok := Open(parent, name, env, junk);
      used := server.Used();
      if !ok { return; }
      if found != 0 {
        r := D.EXIST;
      } else {
        ino, ok := AddLink(parent, link, name, direct, env);
      }
    }

    method AddLink(parent: nat, link: seq<Byte>, name: D.Name, direct: D.Directory, env: Env) returns (ino: nat, ok: bool)
      requires Ready() && Fits(parent, EntrySize(name)) && direct.dirString == server.Contents()[parent] && Cached(parent, direct.dirString)
      requires |link| < MAX_SIZE
      modifies direct, server`fileManger, server`caches, server.im, server.im.bm.d.blocks, server.handles.Values
      ensures ok <==> !old(NoneFree(server.Used()))
      ensures !ok ==> NoneFree(server.Used())
      ensures ok ==> Ready() && ino !in old(server.Contents()) && 0 < ino < INODE_NUM
      ensures ok ==> server.Contents() == old(server.Contents())[ino := link][parent := old(direct.dirString) + D.PrintEntry(D.Entry(name, ino))]
      ensures ok ==> server.im.book.kinds == old(server.im.book.kinds)[ino := T_LINK]
    {
      ino, ok := NewLink(link, parent, direct.dirString, env);
      if ok {
        assert parent in server.Contents();
        PutEntry(parent, name, ino, direct, env);
      }
    }

    method NewLink(link: seq<Byte>, ghost parent: nat, ghost dirStr: seq<Byte>, env: Env) returns (ino: nat, ok: bool)
      requires Ready() && |link| < MAX_SIZE && Cached(parent, dirStr)
      modifies server`fileManger, server`caches, server.im, server.im.bm.d.blocks, server.handles.Values
      ensures server.handles == old(server.handles)
      ensures ok <==> !old(NoneFree(server.Used()))
      ensures !ok ==> NoneFree(server.Used())
      ensures ok ==> Ready() && ino !in old(server.Contents()) && 0 < ino < INODE_NUM && server.Contents() == old(server.Contents())[ino := link]
      ensures ok ==> server.im.book.kinds == old(server.im.book.kinds)[ino := T_LINK] && Cached(parent, dirStr)
    {
      ghost var was: map<nat, seq<Byte>> := server.Contents();
      ghost var n := server.Snapshot();
      ino, ok := server.Create(T_LINK, env);
      if ok {
        NewIsFree(n, ec.cltId, ino, link, parent, dirStr);
        ok := ec.Put(server, ino, link, env);
        PutTwice(was, ino, [], link);
      }
    }

    /** An entry is added and the directory put back, for which nobody has to be asked. */
    method PutEntry(parent: nat, name: D.Name, ino: nat, direct: D.Directory, env: Env)
      requires Ready() && Fits(parent, EntrySize(name)) && direct.dirString == server.Contents()[parent] && ino < INODE_NUM
      requires exists data :: Cached(parent, data)
      modifies direct, server`fileManger, server`caches, server.im, server.im.bm.d.blocks, server.handles.Values
      ensures Ready() && server.Contents() == old(server.Contents())[parent := old(direct.dirString) + D.PrintEntry(D.Entry(name, ino))]
      ensures server.im.book.kinds == old(server.im.book.kinds)
    {
      label made:
      direct.AddEnt(D.Entry(name, ino));
      Undisturbed@made(server);
      EntryLength(name, ino);
      var s := direct.ToString();
      var ok := ec.Put(server, parent, s, env);
    }

    lemma EntryLength(name: D.Name, ino: nat)
      requires ino < INODE_NUM
      ensures |D.PrintEntry(D.Entry(name, ino))| <= EntrySize(name)
    {
      assert D.Pow10(4) == 10000;
      D.DecimalLength(ino, 4);
    }

    method Lookup(parent: nat, name: D.Name, env: Env, junk: nat) returns (r: D.Status, found: bool, ino: nat, ok: bool)
      requires Ready() && Fits(parent, 0)
      modifies server`fileManger, server`caches, server.im, server.im.bm.d.blocks, server.handles.Values
      ensures ok <==> !old(Refused(parent))
      ensures ok ==> Ready() && server.Contents() == old(server.Contents())
      ensures ok ==> (r, ino) == D.LookupIn(old(server.Contents())[parent], name, junk) && (found <==> r == D.OK)
      ensures ok ==> r == (if old(Taken(parent, name, junk)) then D.OK else D.NOENT) && (r == D.NOENT ==> ino == 0)
      ensures ok && D.IsDirectory(old(server.Contents())[parent]) ==>
                var m := D.NamesOf(old(server.Contents())[parent]);
                (r, ino) == if name in m then (D.OK, m[name]) else (D.NOENT, 0)
      ensures ok ==> server.im.book.kinds == old(server.im.book.kinds)
    {
      if D.IsDirectory(server.Contents()[parent]) { D.LookupMeans(server.Contents()[parent], name, junk); }
      r, ino, found := D.OK, 0, false;
      var direct;
      direct, ino, ok := Open(parent, name, env, junk);
      if ino == 0 {
        r := D.NOENT;
        found := false;
      } else {
        found := true;
      }
    }

    /** The entry goes; the inode stays, because finum holds the result of the comparison. */
    method Unlink(parent: nat, name: D.Name, env: Env, junk: nat) returns (r: D.Status, ok: bool)
      requires Ready() && Fits(parent, 0) && |D.UnlinkIn(server.Contents()[parent], name, junk).1| < MAX_SIZE
      modifies server`fileManger, server`caches, server.im, server.im.bm.d.blocks, server.handles.Values
      ensures ok <==> !old(Refused(parent))
      ensures ok ==> Ready()
      ensures r == D.OK
      ensures ok ==> var (status, s) := D.UnlinkIn(old(server.Contents())[parent], name, junk);
                     r == status && server.Contents() == old(server.Contents())[parent := s]
      ensures ok ==> server.im.book.kinds == old(server.im.book.kinds)
    {
      r := D.OK;
      var direct, found;
      direct, found, ok := Open(parent, name, env, junk);
      if !ok { return; }
      if found == 0 {
        return;
      }
      PutWithout(parent, name, direct, env);
    }

    method PutWithout(parent: nat, name: D.Name, direct: D.Directory, env: Env)
      requires Ready() && Fits(parent, 0) && |D.Print(D.Without(direct.dir, name))| < MAX_SIZE
      requires exists data :: Cached(parent, data)
      modifies direct, server`fileManger, server`caches, server.im, server.im.bm.d.blocks, server.handles.Values
      ensures Ready() && server.Contents() == old(server.Contents())[parent := D.Print(D.Without(old(direct.dir), name))]
      ensures server.im.book.kinds == old(server.im.book.kinds)
    {
      label parsed:
      direct.DelEnt(name);
      Undisturbed@parsed(server);
      var s := direct.ToString();
      var ok := ec.Put(server, parent, s, env);
    }
  }
}
