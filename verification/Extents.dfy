// The extent server and its clients. RPC calls are method calls: a call reaches the other
// side once and returns.

module Extents {
  import opened DiskLayout
  import opened FileTree
  import opened FileBlocks
  import opened InodeManager
  import opened ExtentNet

  // What the environment supplies: the time, and what uninitialised memory happens to hold.
  datatype Env = Env(now: Word, junk: nat -> Blocks, rest: nat -> Block)

  // The part of an id that the server uses.
  function Masked(id: nat): (r: nat)
    ensures id < 0x8000_0000 ==> r == id
  {
    id % 0x8000_0000
  }

  class ExtentServer {
    const im: InodeManager
    var fileManger: map<nat, ClientId>
    var handles: map<ClientId, ExtentClient>   // the clients that handle(owner) reaches

    ghost var caches: map<ClientId, Cache>     // what these clients have cached

    // The clients are reached by their ids.
    ghost predicate Wired()
      reads this, handles.Values
    {
      forall k: nat :: Named(k) == Reached()
    }

    ghost predicate Reached()
      reads this, handles.Values
    {
      && (forall c :: c in caches <==> c in handles)
      && (forall c :: c in handles ==> handles[c].Matches(c, caches[c]))
    }

    ghost function Snapshot(): Net
      reads this, im
    {
      Net(fileManger, caches, im.book.contents)
    }

    ghost predicate Valid()
      reads this, im, im.bm.d.blocks, handles.Values
    {
      Sound(im) && Wired() && Coherent(Snapshot())
    }

    /** The abstract value: id to bytes, wherever the bytes are. */
    ghost function Contents(): map<nat, seq<Byte>>
      reads this, im
    {
      View(Snapshot())
    }

    // The blocks of the disk that are marked used.
    ghost function Used(): set<nat>
      reads im, im.bm.d.blocks
    {
      UsedOn(im.bm.d.blocks[..])
    }

    /** A get or put of id by client c makes the owner flush, and the disk has no room for
        what the owner has. */
    ghost predicate Refuses(c: ClientId, id: nat)
      reads this, im, im.bm.d.blocks
    {
      Flushes(Snapshot(), c, id) && id in im.book.contents && Full(Used(), im.book.files, id, Latest(Snapshot(), id))
    }

    constructor (env: Env)
      ensures Valid() && fresh(im) && fresh(im.bm) && fresh(im.bm.d.blocks) && handles == map[]
      ensures Contents() == map[1 := []]
    {
      im := new InodeManager(env.now, env.junk(0));
      fileManger := map[];
      handles, caches := map[], map[];
      new;
      StartKeeps(Snapshot());
    }

    /** A new client, with an id of its own. */
    method Join(c: ExtentClient)
      requires Valid() && c.cltId !in handles && c.fileManager == map[]
      modifies this`handles, this`caches
      ensures Valid() && handles == old(handles)[c.cltId := c] && Contents() == old(Contents())
    {
      ghost var n := Snapshot();
      assert Named(0);
      handles, caches := handles[c.cltId := c], caches[c.cltId := map[]];
      JoinKeeps(n, Snapshot(), c.cltId);
    }

    /** A new empty file; nothing else changes for anybody. */
    method Create(kind: Word, env: Env) returns (id: nat, ok: bool)
      requires Valid()
      modifies im, im.bm.d.blocks
      ensures ok <==> !old(NoneFree(Used()))
      ensures !ok ==> NoneFree(Used())
      ensures ok ==> Valid() && id !in old(im.book.contents) && Snapshot() == ExtentNet.Create(old(Snapshot()), id)
      ensures ok ==> 0 < id < INODE_NUM && id !in old(Contents()) && Contents() == old(Contents())[id := []]
      ensures ok ==> im.book.kinds == old(im.book.kinds)[id := kind]
    {
      ghost var n := Snapshot();
      id, ok := AllocThrough(im, kind, env);
      if ok { CreateKeeps(n, id); }
    }

    /** Writes through to the inode layer. */
    method Put(id: nat, buf: seq<Byte>, env: Env) returns (ok: bool)
      requires Sound(im) && Wired() && id < 0x8000_0000 && id in im.book.contents && |buf| < MAX_SIZE
      modifies im, im.bm.d.blocks
      ensures Wired()
      ensures ok <==> !old(Full(Used(), im.book.files, id, buf))
      ensures ok ==> Sound(im) && Snapshot() == old(Snapshot()).(store := old(Snapshot()).store[id := buf])
      ensures ok ==> im.book.kinds == old(im.book.kinds)
      ensures ok ==> WroteBlocks(old(Used()), old(im.book.files), Used(), im.book.files, id, buf)
    {
      ok := WriteThrough(im, Masked(id), buf, env);
    }

    /** Client clt asks for the data: the owner, if it is another one, is made to flush. */
    method Get(clt: ClientId, id: nat, env: Env) returns (buf: seq<Byte>, ok: bool)
      requires Sound(im) && Wired() && Coherent(Snapshot()) && id < 0x8000_0000 && id in im.book.contents && clt in handles
      modifies this`fileManger, this`caches, im, im.bm.d.blocks, handles.Values
      ensures handles == old(handles)
      ensures ok <==> !old(Refuses(clt, id))
      ensures ok ==> Sound(im) && Wired() && Snapshot() == Serve(old(Snapshot()), clt, id) && id in im.book.contents && buf == im.book.contents[id]
      ensures ok ==> im.book.kinds == old(im.book.kinds)
      ensures ok ==> GotBlocks(old(Snapshot()), clt, id, old(Used()), old(im.book.files), Used(), im.book.files)
    {
      var inum := Masked(id);
      ok, buf := true, [];
      if inum !in fileManger {
        fileManger := fileManger[inum := clt];
      }
      var owner := fileManger[inum];
      if owner != clt {
        ok := Recall(owner, inum, env);
      }
      if ok {
        buf := HandOver(clt, inum, env);
      }
    }

    /** The client becomes the owner and gets what is stored. */
    method HandOver(clt: ClientId, id: nat, env: Env) returns (buf: seq<Byte>)
      requires Sound(im) && Wired() && id in im.book.contents
      modifies this`fileManger, im.bm.d.blocks
      ensures Sound(im) && Wired() && buf == im.book.contents[id] && Used() == old(Used())
      ensures fileManger == old(fileManger)[id := clt]
    {
      fileManger := fileManger[id := clt];
      buf := ReadThrough(im, id, env);
    }

    /** The server has the owner of an id write its data back. */
    method Recall(owner: ClientId, id: nat, env: Env) returns (ok: bool)
      requires Sound(im) && Wired() && Coherent(Snapshot()) && id < 0x8000_0000 && id in fileManger && owner == fileManger[id]
      modifies this`caches, im, im.bm.d.blocks, handles.Values
      ensures handles == old(handles)
      ensures ok <==> !old(Slot(caches, owner, id).dataStat == OK && id in im.book.contents && Full(Used(), im.book.files, id, Latest(Snapshot(), id)))
      ensures ok ==> Sound(im) && Wired() && Snapshot() == Flush(old(Snapshot()), owner, id) && id in im.book.contents
      ensures ok ==> im.book.kinds == old(im.book.kinds)
      ensures ok ==> if old(Slot(caches, owner, id).dataStat) == NONE then Used() == old(Used())
                     else id in old(im.book.contents)
                          && WroteBlocks(old(Used()), old(im.book.files), Used(), im.book.files, id, Latest(old(Snapshot()), id))
    {
      OwnerData(Snapshot(), id);
      assert Named(0);
      ok := handles[owner].FlushHandler(this, id, env);
    }

    /** The size comes from the owner's cache, or from the inode layer if the owner is clt
        itself. */
    method GetAttr(clt: ClientId, id: nat) returns (size: nat)
      requires Sound(im) && Wired() && id < 0x8000_0000 && id in im.book.contents
      requires id in fileManger && fileManger[id] != clt ==> Coherent(Snapshot())
      modifies this`fileManger
      ensures Sound(im) && Wired() && Snapshot() == Claim(old(Snapshot()), clt, id)
      ensures size == SizeFor(Snapshot(), clt, id)
    {
      var inum := Masked(id);
      if inum !in fileManger {
        fileManger := fileManger[inum := clt];
      }
      var owner := fileManger[inum];
      if owner != clt {
        OwnerData(Snapshot(), inum);
        assert Named(0);
        size := handles[owner].GetAttrHandler(inum);
      } else {
        size := AttrThrough(im, inum);
      }
    }
  }

  ghost function UsedOn(blocks: seq<Block>): set<nat> {
    if |blocks| == BLOCK_NUM then DiskVolume.UsedIn(blocks) else {}
  }

  // No inode can be allocated, or no data block.
  ghost predicate NoneFree(used: set<nat>) {
    DiskVolume.InodesLeft(used) == 0 || DiskVolume.DataLeft(used) == 0
  }

  // How the used blocks have changed by a write of buf to the file id.
  ghost predicate WroteBlocks(used: set<nat>, files: map<nat, Layout>, used': set<nat>, files': map<nat, Layout>, id: nat, buf: seq<Byte>) {
    && id in files && id in files' && Rewritten(used, used', files[id], files'[id])
    && |files'[id].data| == BlocksFor(|buf|) && |files'[id].chain| == InodesFor(BlocksFor(|buf|))
  }

  /** How they have changed by a get of client c: not at all, unless another client had to
      write its data back. */
  ghost predicate GotBlocks(n: Net, c: ClientId, id: nat, used: set<nat>, files: map<nat, Layout>, used': set<nat>, files': map<nat, Layout>) {
    if Flushes(n, c, id) then id in n.store && WroteBlocks(used, files, used', files', id, Latest(n, id)) else used' == used
  }

  // There is no room on the disk for buf in place of the file id.
  ghost predicate Full(used: set<nat>, files: map<nat, Layout>, id: nat, buf: seq<Byte>) {
    id in files && !Afforded(used, files[id], BlocksFor(|buf|))
  }

  method AllocThrough(im: InodeManager, kind: Word, env: Env) returns (id: nat, ok: bool)
    requires Sound(im)
    modifies im, im.bm.d.blocks
    ensures ok <==> !NoneFree(UsedOn(old(im.bm.d.blocks[..])))
    ensures !ok ==> NoneFree(UsedOn(im.bm.d.blocks[..]))
    ensures ok ==> Sound(im) && id !in old(im.book.contents) && im.book.contents == old(im.book.contents)[id := []] && 0 < id < INODE_NUM
    ensures ok ==> im.book.kinds == old(im.book.kinds)[id := kind]
  {
    assert Asked(0);
    id, ok := im.AllocInode(kind, env.now, env.junk(0), env.rest(0));
  }

  // im.Valid(), folded: it is unfolded only where Asked is mentioned.
  ghost predicate Sound(im: InodeManager)
    reads im, im.bm.d.blocks
  {
    forall k: nat :: Asked(k) == im.Valid()
  }

  predicate Asked(k: nat) {
    true
  }

  // Likewise for the clients of a server.
  predicate Named(k: nat) {
    true
  }

  method WriteThrough(im: InodeManager, id: nat, buf: seq<Byte>, env: Env) returns (ok: bool)
    requires Sound(im) && id in im.book.contents && |buf| < MAX_SIZE
    modifies im, im.bm.d.blocks
    ensures ok <==> !Full(UsedOn(old(im.bm.d.blocks[..])), old(im.book.files), id, buf)
    ensures ok ==> Sound(im) && im.book.contents == old(im.book.contents)[id := buf] && im.book.kinds == old(im.book.kinds)
    ensures ok ==> WroteBlocks(UsedOn(old(im.bm.d.blocks[..])), old(im.book.files), UsedOn(im.bm.d.blocks[..]), im.book.files, id, buf)
  {
    assert Asked(0);
    im.LengthOf(id);
    ok := im.WriteFile(id, buf, env.now, env.junk, env.rest);
  }

  method ReadThrough(im: InodeManager, id: nat, env: Env) returns (buf: seq<Byte>)
    requires Sound(im) && id in im.book.contents
    modifies im.bm.d.blocks
    ensures Sound(im) && buf == im.book.contents[id]
    ensures UsedOn(im.bm.d.blocks[..]) == UsedOn(old(im.bm.d.blocks[..]))
  {
    assert Asked(0);
    im.LengthOf(id);
    buf := im.ReadFile(id, env.now);
  }

  method AttrThrough(im: InodeManager, id: nat) returns (size: nat)
    requires Sound(im) && id in im.book.contents
    ensures size == |im.book.contents[id]|
  {
    assert Asked(0);
    im.LengthOf(id);
    var a := im.GetAttr(id);
    size := a.size;
  }

  lemma TouchCoherent(n: Net, c: ClientId, id: nat)
    ensures Coherent(n) ==> Coherent(Touch(n, c, id))
  {
    if Coherent(n) { TouchKeeps(n, c, id); }
  }

  // Making an entry changes nothing about who would have to flush what.
  lemma TouchAsks(n: Net, c: ClientId, id: nat)
    requires Coherent(n) && id in n.store
    ensures var n1 := Touch(n, c, id);
            && Coherent(n1) && Flushes(n1, c, id) == Flushes(n, c, id) && Latest(n1, id) == Latest(n, id) && n1.store == n.store
            && (Slot(n1.caches, c, id).dataStat == OK ==> !Flushes(n, c, id) && Slot(n1.caches, c, id).attrStat == OK)
  {
    TouchSame(n, c, id);
    TouchKeeps(n, c, id);
    assert CoherentAt(n, id);
    assert Slot(n.caches, c, id).dataStat == OK ==> Holder(n, c, id);
  }

  lemma ServeEntry(n: Net, c: ClientId, id: nat)
    requires c in n.caches && id in n.caches[c]
    ensures c in Serve(n, c, id).caches && id in Serve(n, c, id).caches[c]
  {
  }

  // What the server relies on when it asks the owner to flush.
  lemma OwnerData(n: Net, id: nat)
    requires Coherent(n) && id in n.owner
    ensures n.owner[id] in n.caches && id in n.caches[n.owner[id]] && n.caches[n.owner[id]][id].attrStat == OK && id in n.store
    ensures n.caches[n.owner[id]][id].dataStat == OK ==>
              View(n)[id] == n.caches[n.owner[id]][id].fileData && |n.caches[n.owner[id]][id].fileData| < MAX_SIZE
  {
    assert CoherentAt(n, id);
    assert Slot(n.caches, n.owner[id], id).dataStat == OK ==> Holder(n, n.owner[id], id);
  }

  lemma StartKeeps(n: Net)
    requires n.owner == map[] && n.caches == map[] && n.store == map[1 := []]
    ensures Coherent(n) && View(n) == map[1 := []]
  {
    forall g ensures CoherentAt(n, g) { }
  }

  lemma JoinKeeps(n: Net, n': Net, c: ClientId)
    requires Coherent(n) && c !in n.caches && n' == n.(caches := n.caches[c := map[]])
    ensures Coherent(n') && View(n') == View(n)
  {
    forall g ensures CoherentAt(n', g) && (g in n.store ==> Latest(n', g) == Latest(n, g)) {
      assert CoherentAt(n, g);
      assert SameAt(n, n', g);
      CoherentElsewhere(n, n', g);
    }
  }

  class ExtentClient {
    const cltId: ClientId
    var fileManager: map<nat, FileData>

    constructor (cltId: ClientId)
      ensures this.cltId == cltId && fileManager == map[]
    {
      this.cltId := cltId;
      fileManager := map[];
    }

    ghost predicate Registered(server: ExtentServer)
      reads server
    {
      cltId in server.handles && server.handles[cltId] == this
    }

    // The client c, with that cache.
    ghost predicate Matches(c: ClientId, cache: Cache)
      reads this
    {
      cltId == c && fileManager == cache
    }

    lemma Mine(server: ExtentServer)
      requires server.Wired() && Registered(server)
      ensures cltId in server.caches && server.caches[cltId] == fileManager
    {
      assert Named(0);
    }

    method SetEntry(ghost server: ExtentServer, eid: nat, d: FileData)
      requires server.Wired() && Registered(server)
      modifies this`fileManager, server`caches
      ensures server.Wired() && server.Snapshot() == SetSlot(old(server.Snapshot()), cltId, eid, d)
      ensures fileManager == old(fileManager)[eid := d]
    {
      assert Named(0);
      fileManager := fileManager[eid := d];
      server.caches := server.caches[cltId := fileManager];
    }

    /** Writes cached data back to the server and forgets it. */
    method FlushHandler(server: ExtentServer, eid: nat, env: Env) returns (ok: bool)
      requires Sound(server.im) && server.Wired() && Registered(server) && eid < 0x8000_0000 && eid in server.im.book.contents
      requires eid in fileManager && fileManager[eid].dataStat == OK ==> |fileManager[eid].fileData| < MAX_SIZE
      modifies this`fileManager, server`caches, server.im, server.im.bm.d.blocks
      ensures ok <==> !old(eid in fileManager && fileManager[eid].dataStat == OK && Full(server.Used(), server.im.book.files, eid, fileManager[eid].fileData))
      ensures ok ==> Sound(server.im) && server.Wired() && server.Snapshot() == Flush(old(server.Snapshot()), cltId, eid)
      ensures ok ==> server.im.book.kinds == old(server.im.book.kinds)
      ensures ok ==> if old(eid !in fileManager || fileManager[eid].dataStat == NONE) then fileManager == old(fileManager)
                     else fileManager == old(fileManager)[eid := old(fileManager)[eid].(dataStat := NONE, attrStat := NONE)]
      ensures ok ==> if old(eid !in fileManager || fileManager[eid].dataStat == NONE) then server.Used() == old(server.Used())
                     else WroteBlocks(old(server.Used()), old(server.im.book.files), server.Used(), server.im.book.files, eid, old(fileManager)[eid].fileData)
    {
      Mine(server);
      if eid !in fileManager {
        return true;
      }
      if fileManager[eid].dataStat == NONE {
        return true;
      }
      var buf := fileManager[eid].fileData;
      ok := server.Put(eid, buf, env);
      if ok {
        SetEntry(server, eid, fileManager[eid].(dataStat := NONE, attrStat := NONE));
      }
    }

    /** The size in an entry; the source tests neither that there is one nor that its
        attributes are valid. */
    method GetAttrHandler(eid: nat) returns (size: nat)
      requires eid in fileManager && fileManager[eid].attrStat == OK
      ensures size == fileManager[eid].attrSize
    {
      size := fileManager[eid].attrSize;
    }

    /** Makes an entry if there is none. */
    method Enter(ghost server: ExtentServer, eid: nat)
      requires server.Wired() && Registered(server)
      modifies this`fileManager, server`caches
      ensures server.Wired() && server.Snapshot() == Touch(old(server.Snapshot()), cltId, eid)
      ensures eid in fileManager && fileManager[eid] == Slot(old(server.caches), cltId, eid)
    {
      Mine(server);
      if eid !in fileManager {
        SetEntry(server, eid, NEW);
      } else {
        TouchTwice(server.Snapshot(), cltId, eid);
      }
    }

    /** The size that the client has cached, after asking for it if it has none. */
    method GetAttr(server: ExtentServer, eid: nat) returns (size: nat)
      requires Sound(server.im) && server.Wired() && Registered(server) && eid < 0x8000_0000 && eid in server.im.book.contents
      requires eid in server.fileManger && server.fileManger[eid] != cltId ==> Coherent(server.Snapshot())
      modifies this`fileManager, server`caches, server`fileManger
      ensures Sound(server.im) && server.Wired() && server.Snapshot() == ExtentNet.GetAttr(old(server.Snapshot()), cltId, eid)
      ensures size == Slot(server.caches, cltId, eid).attrSize
    {
      TouchCoherent(server.Snapshot(), cltId, eid);
      Enter(server, eid);
      Mine(server);
      if fileManager[eid].attrStat == NONE {
        ghost var n := Claim(server.Snapshot(), cltId, eid);
        size := AskAttr(server, eid);
        SlotSet(n, cltId, eid, Slot(n.caches, cltId, eid).(attrStat := OK, attrSize := size));
      } else {
        size := fileManager[eid].attrSize;
      }
    }

    method AskAttr(server: ExtentServer, eid: nat) returns (size: nat)
      requires Sound(server.im) && server.Wired() && Registered(server) && eid < 0x8000_0000 && eid in server.im.book.contents
      requires eid in server.fileManger && server.fileManger[eid] != cltId ==> Coherent(server.Snapshot())
      requires eid in fileManager
      modifies this`fileManager, server`caches, server`fileManger
      ensures Sound(server.im) && server.Wired()
      ensures var n := Claim(old(server.Snapshot()), cltId, eid);
              && size == SizeFor(n, cltId, eid)
              && server.Snapshot() == SetSlot(n, cltId, eid, old(fileManager)[eid].(attrStat := OK, attrSize := size))
    {
      size := server.GetAttr(cltId, eid);
      SetEntry(server, eid, fileManager[eid].(attrStat := OK, attrSize := size));
    }

    /** The data of an id: everybody sees the same as before, and that is what is returned. */
    method Get(server: ExtentServer, eid: nat, env: Env) returns (buf: seq<Byte>, ok: bool)
      requires server.Valid() && Registered(server) && eid < 0x8000_0000 && eid in server.im.book.contents
      modifies server`fileManger, server`caches, server.im, server.im.bm.d.blocks, server.handles.Values
      ensures server.handles == old(server.handles)
      ensures ok <==> !old(server.Refuses(cltId, eid))
      ensures ok ==> server.Valid() && server.Snapshot() == ExtentNet.Get(old(server.Snapshot()), cltId, eid)
      ensures ok ==> buf == old(server.Contents())[eid] && server.Contents() == old(server.Contents())
      ensures ok ==> Has(server.Snapshot(), cltId, eid, buf) && server.im.book.kinds == old(server.im.book.kinds)
      ensures ok ==> GotBlocks(old(server.Snapshot()), cltId, eid, old(server.Used()), old(server.im.book.files), server.Used(), server.im.book.files)
    {
      GetKeeps(server.Snapshot(), cltId, eid);
      buf, ok := GetEntry(server, eid, env);
      if ok { Mine(server); }
    }

    method GetEntry(server: ExtentServer, eid: nat, env: Env) returns (buf: seq<Byte>, ok: bool)
      requires Sound(server.im) && server.Wired() && Coherent(server.Snapshot())
      requires Registered(server) && eid < 0x8000_0000 && eid in server.im.book.contents
      modifies server`fileManger, server`caches, server.im, server.im.bm.d.blocks, server.handles.Values
      ensures server.handles == old(server.handles)
      ensures ok <==> !old(server.Refuses(cltId, eid))
      ensures ok ==> Sound(server.im) && server.Wired() && server.Snapshot() == ExtentNet.Get(old(server.Snapshot()), cltId, eid)
      ensures ok ==> eid in fileManager && buf == fileManager[eid].fileData && server.im.book.kinds == old(server.im.book.kinds)
      ensures ok ==> GotBlocks(old(server.Snapshot()), cltId, eid, old(server.Used()), old(server.im.book.files), server.Used(), server.im.book.files)
    {
      TouchAsks(server.Snapshot(), cltId, eid);
      Enter(server, eid);
      Mine(server);
      ok := true;
      if fileManager[eid].dataStat == NONE {
        buf, ok := FetchWhole(server, eid, env);
      } else {
        buf := fileManager[eid].fileData;
      }
    }

    /** The data from the server, and the attributes if they are missing. */
    method FetchWhole(server: ExtentServer, eid: nat, env: Env) returns (buf: seq<Byte>, ok: bool)
      requires Sound(server.im) && server.Wired() && Coherent(server.Snapshot())
      requires Registered(server) && eid < 0x8000_0000 && eid in server.im.book.contents && eid in fileManager && fileManager[eid].dataStat == NONE
      modifies server`fileManger, server`caches, server.im, server.im.bm.d.blocks, server.handles.Values
      ensures server.handles == old(server.handles)
      ensures ok <==> !old(server.Refuses(cltId, eid))
      ensures ok ==> Sound(server.im) && server.Wired() && server.Snapshot() == FetchAll(old(server.Snapshot()), cltId, eid)
      ensures ok ==> eid in fileManager && buf == fileManager[eid].fileData && server.im.book.kinds == old(server.im.book.kinds)
      ensures ok ==> GotBlocks(old(server.Snapshot()), cltId, eid, old(server.Used()), old(server.im.book.files), server.Used(), server.im.book.files)
    {
      Mine(server);
      FetchAllSettles(server.Snapshot(), cltId, eid);
      buf, ok := FetchEntry(server, eid, env);
      if ok {
        Mine(server);
        AttrIfMissing(server, eid);
      }
    }

    method AttrIfMissing(server: ExtentServer, eid: nat)
      requires Sound(server.im) && server.Wired() && Registered(server) && eid < 0x8000_0000 && eid in server.im.book.contents
      requires eid in server.fileManger && server.fileManger[eid] == cltId && eid in fileManager
      modifies this`fileManager, server`caches, server`fileManger
      ensures Sound(server.im) && server.Wired()
      ensures eid in fileManager && fileManager[eid].fileData == old(fileManager)[eid].fileData
      ensures server.Snapshot() == if old(fileManager)[eid].attrStat == NONE then ExtentNet.GetAttr(old(server.Snapshot()), cltId, eid)
                                   else old(server.Snapshot())
    {
      Mine(server);
      if fileManager[eid].attrStat == NONE {
        AttrAdded(server.Snapshot(), cltId, eid);
        var _ := GetAttr(server, eid);
        Mine(server);
      }
    }

    /** The part of get that asks the server. */
    method FetchEntry(server: ExtentServer, eid: nat, env: Env) returns (buf: seq<Byte>, ok: bool)
      requires Sound(server.im) && server.Wired() && Coherent(server.Snapshot())
      requires Registered(server) && eid < 0x8000_0000 && eid in server.im.book.contents && eid in fileManager && fileManager[eid].dataStat == NONE
      modifies server`fileManger, server`caches, server.im, server.im.bm.d.blocks, server.handles.Values
      ensures server.handles == old(server.handles)
      ensures ok <==> !old(server.Refuses(cltId, eid))
      ensures ok ==> Sound(server.im) && server.Wired() && eid in fileManager && eid in server.im.book.contents
      ensures ok ==> server.Snapshot() == Fetch(old(server.Snapshot()), cltId, eid) && buf == fileManager[eid].fileData
      ensures ok ==> server.im.book.kinds == old(server.im.book.kinds)
      ensures ok ==> GotBlocks(old(server.Snapshot()), cltId, eid, old(server.Used()), old(server.im.book.files), server.Used(), server.im.book.files)
    {
      Mine(server);
      ServeEntry(server.Snapshot(), cltId, eid);
      buf, ok := server.Get(cltId, eid, env);
      if ok {
        Mine(server);
        SetEntry(server, eid, fileManager[eid].(fileData := buf, dataStat := OK));
      }
    }

    /** Replaces the data of an id; this is what everybody sees afterwards. */
    method Put(server: ExtentServer, eid: nat, buf: seq<Byte>, env: Env) returns (ok: bool)
      requires server.Valid() && Registered(server) && eid < 0x8000_0000 && eid in server.im.book.contents && |buf| < MAX_SIZE
      modifies server`fileManger, server`caches, server.im, server.im.bm.d.blocks, server.handles.Values
      ensures server.handles == old(server.handles)
      ensures ok <==> !old(server.Refuses(cltId, eid))
      ensures ok ==> server.Valid() && server.Snapshot() == ExtentNet.Put(old(server.Snapshot()), cltId, eid, buf)
      ensures ok ==> server.Contents() == old(server.Contents())[eid := buf] && server.im.book.kinds == old(server.im.book.kinds)
    {
      PutKeeps(server.Snapshot(), cltId, eid, buf);
      TouchAsks(server.Snapshot(), cltId, eid);
      Enter(server, eid);
      Mine(server);
      ok := true;
      if fileManager[eid].dataStat == NONE || fileManager[eid].attrStat == NONE {
        var was;
        was, ok := GetEntry(server, eid, env);
      }
      if ok { SetEntry(server, eid, FileData(OK, OK, buf, |buf|)); }
    }
  }
}
