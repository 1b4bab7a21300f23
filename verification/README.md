# A model of the YFS file system

YFS is a small distributed file system: clients cache locks and file contents, a lock
server hands out locks, and an extent server keeps files as chains of inodes on a disk of
32768 blocks. This project models its four cores in Dafny and proves what they promise.

| files | what they model |
|---|---|
| `LockServer`, `LockClient`, `LockProtocol`, `LockInvariant`, `LockTheorems`, `LockFairness` | the caching lock protocol |
| `DiskLayout`, `DiskVolume`, `BlockManager`, `FileTree`, `FileWrite`, `FileBlocks`, `InodeManager`, `InodeExamples` | disk, block allocator and inode layer |
| `ExtentNet`, `ExtentSizes`, `Extents`, `SetattrSizes` | the write-back extent cache with one owner per file, and the file sizes it caches |
| `ExtentSteps`, `LockedExtents` | locks and extent cache together: operations on one id are atomic |
| `YfsDirectory`, `YfsFile`, `Yfs` | the directory text format, byte ranges, the file operations |

`dafny verify dfyconfig.toml` checks everything.

## How it is built

**Locks.** Both halves are classes whose methods are the critical sections of the source: a
section ends where the mutex is dropped, at a return, an RPC or a condition wait. Each method
is tied to a function on the entry (`AcquireSection`, `Leave`, ...). `LockProtocol.System`
puts one server entry and any number of clients and threads together; every call in flight
belongs to the thread it was made for, so its program counter says where request, revoke,
retry and reply are. A run is any schedule, a sequence of threads: `Step(s, t)` lets thread
`t` run its next section. Revokes and retries may therefore run before the reply they
overtake. `fault` is set where the source would fail an `assert`, reach `assert(0)`,
dereference a missing entry or take the front of an empty list or set. `duty`, `hosts` and
`log` only record what has happened; no step depends on them. Assumptions: RPC delivers each
call and reply once; client ids are distinct and not empty; condition variables have no
spurious wakeups; a thread releases only what it holds and does not acquire what it holds
(a thread is in one place at a time).

**Disk.** `Disk.blocks` is an array of 512-byte blocks of 8-bit vectors; the bitmap is tested
and changed bit by bit, inodes are encoded as little-endian words. `VolumeOf` reads the bytes
as a set of used blocks, inodes and data blocks. `InodeManager.Valid()` says that the files
form chains that share nothing, and `book` records what the disk amounts to: where the files
lie, their bytes, their types, and the blocks that are marked used but belong to no file
(`lost`). The first data block comes with the root inode and is lost from the start. What the
source leaves uninitialised is a parameter (`junk`, `rest`), and so is the time. The source
does not look whether an allocation has succeeded; the model stops with `ok == false` there,
and says exactly when that happens, counted in free slots, because the free test of the
allocator only ever finds the first block of each bitmap byte.

**Extents.** `ExtentNet.Net` is the state as a value: the owner map, the cache of every client
and the store; the methods of `Extents` are proved to do what its functions say. There each
operation on an id is one step and an RPC is a method call. That this is enough is proved in
`LockedExtents`: clients run the sections of the lock protocol and perform the single accesses
of their operations (`ExtentSteps.Action`) in any interleaving, a thread working on an id only
while it holds its lock. Ids are below 2^31, because the server masks ids and the clients do
not. `Sound` and `Wired` are folded forms of the validity predicates (`Asked` and `Named`
unfold them); they keep the proofs of the methods small. An operation is refused
(`ok == false`) exactly if another client would have to write data back for which the disk has
no room (`Refuses`).

**File operations.** `Yfs.YfsClient` runs on top of all this: its contracts speak about one map
from id to bytes, and `YfsDirectory` and `YfsFile` say what the new bytes mean.

Where code and comments disagree the code is followed: `unlink` removes only the directory
entry, since `finum` receives the result of the comparison (yfs_client.cc:513), and the
expansion of `!CHECK(...)` tests all bits of the byte up to the block's own
(inode_manager.cc:63).

## Model

| member | source | states |
|---|---|---|
| LockServer.LockServerCache.Acquire | lock_server_cache.cc:18-87 | the section of acquire is `AcquireSection`: entry, reply, pending revoke, and every failing assert |
| LockServer.LockServerCache.Release | lock_server_cache.cc:89-107 | the section of release is `ReleaseSection`; the next client is the least waiting one |
| LockServer.First | lock_server_cache.cc:99-100 | `*begin()` is the least element of the set |
| LockClient.LockClientCache.Acquire | lock_client_cache.cc:35-69 | entering the queue: take a FREE lock, start acquiring, or wait |
| LockClient.LockClientCache.Resume | lock_client_cache.cc:51-67 | what a woken thread does, with the unreachable `assert(0)` as fault |
| LockClient.LockClientCache.AcquireReturned | lock_client_cache.cc:142-156 | the loop body of blockUntilGot after the reply |
| LockClient.LockClientCache.Release | lock_client_cache.cc:73-98 | release: hand over, go FREE, or call the server when revoked |
| LockClient.LockClientCache.ReleaseReturned | lock_client_cache.cc:86-98 | after the release call: NONE, mailbox empty, next thread signalled |
| LockClient.LockClientCache.Revoked | lock_client_cache.cc:103-118 | revoke handler: release a FREE lock or leave a message |
| LockClient.LockClientCache.RevokedReleaseReturned | lock_client_cache.cc:113-121 | the rest of the revoke handler |
| LockClient.LockClientCache.Retried | lock_client_cache.cc:124-133 | retry handler: message, and a signal to the front |
| LockInvariant.StepInv | lock_client_cache.cc:35-158 | every step of any thread keeps the invariant of queues, mailboxes, owner, waiting set and calls in flight |
| LockInvariant.RunInv | lock_server_cache.cc:18-107 | the invariant holds after every schedule |
| LockTheorems.MutualExclusion | lock_client_cache.cc:35-100 | in every run at most one thread of the whole system is between acquire and release |
| LockTheorems.MutualExclusionEverywhere | lock_server_cache.cc:25-34 | the same for every lock id in every run over all ids |
| LockTheorems.LocksAreIndependent | lock_client_cache.cc:38-39 | a run over all ids is, for one id, a run of that id |
| LockTheorems.NoAssertFails | lock_server_cache.cc:29-98 | no assert fails, no `assert(0)` is reached, `begin()` and `front()` are never taken of something empty |
| LockTheorems.OwnershipAgreement | lock_server_cache.cc:37-104 | the server's owner is c exactly when c is LOCKED, FREE, ACQUIRING with the grant on its way, or RELEASING with the release not yet processed |
| LockTheorems.MailboxFresh | lock_client_cache.cc:80-88 | the slot is EMPTY in NONE and FREE, RETRY appears only while ACQUIRING, REVOKE only at the owner being revoked |
| LockTheorems.MailboxNeverOverwritten | lock_client_cache.cc:109-130 | a handler about to write the slot finds it empty |
| LockTheorems.RevokingExactlyOne | lock_server_cache.cc:45-62 | in REVOKING exactly one of: revoke unhandled, REVOKE in the owner's slot, its release in flight |
| LockTheorems.RetryingExactlyOne | lock_server_cache.cc:99-105 | in RETRYING exactly one of: retry unhandled, RETRY in the slot, the new acquire in flight |
| LockTheorems.Counting | lock_server_cache.cc:50-105 | revokes minus releases is 1 in REVOKING, else 0; grants minus releases is 1 in LOCKED or REVOKING, else 0 |
| LockTheorems.OwnerReadLate | lock_server_cache.cc:53-54 | the owner read after the mutex is dropped is the one seen under it, whatever runs between |
| LockTheorems.FirstComeFirstServed | lock_client_cache.cc:41-56 | the threads of a client get the lock in the order in which they queued; FREE means that all have had it |
| LockTheorems.OnlyTheFrontMoves | lock_client_cache.cc:91-96 | only the front of a queue is not waiting: every signal went to it |
| LockTheorems.NoStuckState | lock_client_cache.cc:142-157 | while a thread is inside acquire or release, some thread can move or holds the lock |
| LockTheorems.StepAdvances | lock_client_cache.cc:73-158 | every such step lowers a measure over all threads |
| LockTheorems.DrainIsBounded | lock_server_cache.cc:89-107 | without new acquires only finitely many steps remain, whatever the interleaving |
| LockTheorems.EveryoneServed | lock_client_cache.cc:35-100 | when they are over, every thread that asked has had the lock |
| LockTheorems.RevokingIsReached | lock_server_cache.cc:45-54 | a run of two clients that reaches REVOKING with the holder unaware |
| LockTheorems.DrainExists | lock_client_cache.cc:73-100 | such an end can be reached from every reachable state |
| LockFairness.PassedOver | lock_server_cache.cc:99-103 | at a release a waiting client stays waiting if and only if a smaller id waits |
| LockFairness.Overtaken | lock_server_cache.cc:99-105 | for every n there is a run in which a client waits throughout while the lock is granted n times to others |
| DiskLayout.FreeTestBits | inode_manager.h:71 | `!CHECK` holds exactly if all bits from the start of the byte through the block's are clear |
| DiskLayout.InodeRoundTrip | inode_manager.cc:242-255 | decoding an encoded inode gives it back, whatever lies behind it |
| DiskVolume.MarkVolume | inode_manager.cc:64-68 | setting the bit adds exactly that block to the used ones and touches no inode or data |
| DiskVolume.UnmarkVolume | inode_manager.cc:94-97 | clearing it removes exactly that block |
| DiskVolume.UnmarkMark | inode_manager.cc:82-97 | freeing a block just allocated restores the disk byte for byte |
| DiskVolume.PassesIffClear | inode_manager.cc:63 | the test of the scan in terms of the used blocks |
| DiskVolume.FirstClearIsFirst | inode_manager.cc:52-79 | the block found is in range, unused, and the first that passes the test; 0 if none does |
| DiskVolume.AllocTakesSlot | inode_manager.cc:52-79 | an allocation succeeds exactly if a slot is free, and takes that slot only |
| DiskVolume.InodeAllocAndData | inode_manager.h:77-78 | the last inode slot shares a byte with the first data slot and hides it |
| DiskVolume.BitmapBytes | inode_manager.h:66-71 | a bitmap byte within one region is 0x00 or 0x80 |
| BlockManager.BlockManager.AllocBlock | inode_manager.cc:31-79 | the scan returns that first block and sets only its bit |
| BlockManager.BlockManager.FreeBlock | inode_manager.cc:82-100 | clears the bit of an id behind the bitmap, ignores others |
| BlockManager.BlockManager.ReadBlock | inode_manager.cc:116-119 | the bytes of a block |
| BlockManager.BlockManager.WriteBlock | inode_manager.cc:122-125 | replaces the bytes of one block |
| BlockManager.Disk.constructor | inode_manager.cc:7-10 | all blocks are zero |
| FileTree.Replaced | inode_manager.cc:322-403 | giving one file new blocks that belong to no other keeps all files well formed, and changes the store for that file only |
| FileTree.Removed | inode_manager.cc:174-207 | the same for removing a file |
| FileWrite.PlaceOld | inode_manager.cc:360-371 | a block that the file has is overwritten |
| FileWrite.PlaceNew | inode_manager.cc:360-371 | a new block is entered in the inode in memory and written |
| FileWrite.NextOld | inode_manager.cc:345-358 | the write follows the chain |
| FileWrite.NextNew | inode_manager.cc:345-358 | the write extends the chain by a new inode |
| FileWrite.Finish | inode_manager.cc:380-402 | the file ends up well formed with the written bytes and its type; every other file and inode is as it was |
| FileBlocks.WriteLoses | inode_manager.cc:345-389 | a write loses the data blocks that came with new inodes and, when it shrinks, all behind the next inode: nothing if and only if the number of inodes stays the same |
| FileBlocks.RemoveLosesNone | inode_manager.cc:174-207 | removing a file loses no block |
| FileBlocks.CreateLosesOne | inode_manager.cc:150-160 | creating a file loses the data block that comes with the inode, and only that |
| InodeManager.Created | inode_manager.cc:142-171 | a new file is empty and no other file is touched |
| InodeManager.SizeFits | inode_manager.cc:272 | no file is larger than the data region, so sizes fit an int |
| InodeManager.RemovedFile | inode_manager.cc:431-439 | removing a file leaves every other one as it is |
| InodeManager.SpelledOut | inode_manager.cc:363-371 | the blocks written, the last one padded with zeros, hold the buffer |
| InodeManager.InodeManager.constructor | inode_manager.cc:129-137 | the first inode is number 1, a directory, and the only file; the first data block is used and in no file |
| InodeManager.InodeManager.GetInode | inode_manager.cc:213-239 | the inode of a number below INODE_NUM, NULL otherwise |
| InodeManager.InodeManager.PutInode | inode_manager.cc:242-256 | replaces that inode and nothing else |
| InodeManager.InodeManager.AllocInode | inode_manager.cc:142-171 | a fresh number, an empty file of that type with all times now, all others kept, one block lost; succeeds if and only if an inode and a data slot are free |
| InodeManager.InodeManager.FreeInode | inode_manager.cc:174-207 | frees exactly the chained inodes, whose type is cleared, and the data blocks that hold bytes; ends because the chain gets shorter |
| InodeManager.InodeManager.RemoveFile | inode_manager.cc:431-439 | exactly the bits of the file are cleared, its inodes have no type any more, the file is gone from the map, no block is lost |
| InodeManager.InodeManager.ReadFile | inode_manager.cc:262-319 | returns the bytes of the file, for every size and chain length; nothing on the disk changes but the access time |
| InodeManager.InodeManager.WriteFile | inode_manager.cc:322-403 | the file then holds the buffer, for all old and new sizes, every other file what it held; change and modification times are now; the used blocks afterwards; it succeeds if and only if the slots suffice, and loses no block if and only if old and new size need the same number of inodes |
| InodeManager.InodeManager.FreeTail | inode_manager.cc:380-389 | frees exactly the rest of the old blocks in the last inode and, if the old chain went on, the next inode alone |
| InodeManager.InodeManager.GetAttr | inode_manager.cc:406-428 | type and times of the inode; the size is the length of the contents |
| InodeManager.InodeManager.Isolation | inode_manager.cc:142-403 | in every reachable state the blocks of a file are marked, in their region, distinct, and not another file's |
| InodeManager.InodeManager.BitmapShape | inode_manager.cc:52-68 | in every reachable state bitmap bytes within a region are 0x00 or 0x80 |
| InodeManager.InodeManager.LengthOf | inode_manager.cc:340-378 | in every reachable state the length of a file gives its numbers of blocks and inodes |
| InodeExamples.Capacity | inode_manager.h:77-78 | a fresh disk has room for exactly 512 more inodes and 3582 data blocks |
| InodeExamples.FillInodes | inode_manager.cc:142-171 | 512 creates succeed and leave no inode |
| InodeExamples.RefusedWhenFull | inode_manager.cc:150 | the next create is refused |
| InodeExamples.LoseBlocks | inode_manager.cc:345-389 | a reachable disk: growing the root by an inode and emptying it again loses blocks each time |
| ExtentNet.SingleHolder | extent_client.cc:61-66 | at most one client has the data of an id, and it is the recorded owner |
| ExtentNet.GetKeeps | extent_client.cc:47-76 | a get leaves every id's bytes as they are, and the client then owns and has the latest ones |
| ExtentNet.PutKeeps | extent_client.cc:102-132 | a put changes what everybody sees of that id, and nothing else |
| ExtentNet.GetAttrKeeps | extent_client.cc:78-101 | getattr, which may make the client the owner, keeps coherence and bytes |
| ExtentNet.CreateKeeps | extent_server.cc:18-25 | a create adds an empty file |
| ExtentNet.ServeAlone | extent_server.cc:38-68 | after a flush and the change of owner the latest bytes are in the store and in no other cache |
| ExtentNet.RunRefines | extent_server.cc:18-68 | over every run of create, get, getattr and put by any clients, owner map, caches and store behave as one map |
| ExtentNet.SingleHolderAlways | extent_client.cc:61-66 | in every run from the start at most one client has the data of an id, and it is the recorded owner |
| ExtentNet.GetReturnsLatestPut | extent_client.cc:47-132 | after any run a get at any client returns the latest put by any client |
| ExtentSizes.OpSlots | extent_client.cc:47-161 | the entries of all clients after a get, getattr or put: the client's own in full; another one that has the data gives up data and attributes, all others keep theirs |
| ExtentSizes.OpOwner | extent_server.cc:38-95 | who is recorded afterwards, and which bytes are in the store |
| ExtentSizes.FlushedForgets | extent_client.cc:158-162 | a client loses its attributes by another one's get or put if and only if it has the data |
| ExtentSizes.AsksAfterFlush | extent_client.cc:78-101 | in every run the next getattr of a flushed client returns the size that the client recorded then has cached |
| ExtentSizes.SizeIsOfOrigin | extent_client.cc:78-101 | in every run a cached size is the length that the file had at a known earlier point; it is right if and only if the length is that again |
| ExtentSizes.AloneKnows | extent_client.cc:78-132 | while one client alone works on an id, its cached size is right |
| ExtentSizes.SizesStayRight | extent_client.cc:118-126 | one operation keeps all cached sizes right if and only if it is not a put that changes the length while another client keeps its attributes |
| SetattrSizes.SetattrAlone | yfs_client.cc:225-253 | while one client alone works on a file, its setattr gives exactly the requested size |
| SetattrSizes.StaleSize | yfs_client.cc:241-253 | a run of two clients after which setattr to two bytes makes a file of three bytes five bytes long |
| ExtentSteps.AllActions | extent_client.cc:47-132 | the single accesses of an operation, undisturbed, are the operation as one step |
| LockedExtents.RunGood | yfs_client.cc:267-572 | in every interleaving of lock sections and accesses, each id is as the completed operations and the accesses of at most one unfinished one have left it |
| LockedExtents.OperationsAreAtomic | yfs_client.cc:417-489 | at most one operation is under way on an id; while none is, the id holds the latest completed put |
| LockedExtents.GetIsAtomic | yfs_client.cc:417-442 | a get that completes has fetched the latest completed put, whatever ran in between |
| Extents.ExtentServer.Create | extent_server.cc:18-25 | a fresh id of that type with no bytes, all other ids unchanged; refused if and only if no inode or no data block is free |
| Extents.ExtentServer.Put | extent_server.cc:27-36 | writes through to the inode layer; refused if and only if the disk has no room for it |
| Extents.ExtentServer.Get | extent_server.cc:38-68 | is `Serve`: flush another owner, record the caller, return the stored bytes |
| Extents.ExtentServer.GetAttr | extent_server.cc:70-94 | is `Claim`; the size is what the recorded owner has cached, whose entry exists and is valid, or the stored length if that is the caller |
| Extents.ExtentClient.FlushHandler | extent_client.cc:142-163 | is `Flush`: cached data goes to the store, the entry loses data and attributes and all others stay; refused if and only if there are data and no room |
| Extents.ExtentClient.Get | extent_client.cc:47-76 | returns what the id holds for everybody, down to the bits of the disk; refused if and only if another client has data for which the disk has no room |
| Extents.ExtentClient.Put | extent_client.cc:102-132 | the id then holds buf for everybody; refused as a get is, so never by a client that has the data |
| Extents.ExtentClient.GetAttr | extent_client.cc:78-101 | is `ExtentNet.GetAttr`, and returns the size that this leaves in the cache |
| YfsDirectory.RoundTrip | yfs_client.cc:592-613 | parsing the printed entries gives them back if and only if no name contains a slash, for all 64-bit inums |
| YfsDirectory.ParsedInums | yfs_client.cc:605-610 | whatever the string, the inums read from it fit 64 bits |
| YfsDirectory.DecimalRoundTrip | yfs_client.cc:605-607 | reading a printed 64-bit number gives it back |
| YfsDirectory.ParseMeans | yfs_client.cc:602-612 | any string: its texts are read in pairs, and what a missing slash or number at its end gives |
| YfsDirectory.ReadMeans | yfs_client.cc:606-607 | any number text: leading spaces, what follows the digits, signs, overflow, no digits, nothing at all |
| YfsDirectory.PrintExample | yfs_client.cc:645-652 | two entries and their nine bytes |
| YfsDirectory.Directory.constructor | yfs_client.cc:592-613 | the loop is `Parse`, for every string |
| YfsDirectory.Directory.Find | yfs_client.cc:615-630 | the first entry of that name, 0 if none |
| YfsDirectory.Directory.AddEnt | yfs_client.cc:644-652 | appends the entry; the string stays the printed form |
| YfsDirectory.Directory.DelEnt | yfs_client.cc:654-673 | drops all entries of the name; the string becomes the printed form |
| YfsDirectory.FindIsNames | yfs_client.cc:615-630 | find is the map from name to inum, 0 exactly outside it |
| YfsDirectory.CreateMeans | yfs_client.cc:291-303 | the reply is EXIST if the name is there and OK otherwise; then the map gets the new name, the entry comes last, and names stay distinct |
| YfsDirectory.LookupMeans | yfs_client.cc:376-387 | OK and the inum of the map, or NOENT and 0 |
| YfsDirectory.UnlinkMeans | yfs_client.cc:513-521 | the reply is OK; the name leaves the map, the other entries stay in order, and a string without the name stays as it is |
| YfsDirectory.UnlinkReplies | yfs_client.cc:493-530 | the reply is OK for every string and name |
| YfsDirectory.NamespaceRefines | yfs_client.cc:267-572 | over every run the directory string means the map that the operations describe |
| YfsDirectory.RepliesFollow | yfs_client.cc:291-388 | after every run the replies of create, lookup and unlink are those that the map gives |
| YfsDirectory.UnlinkShrinks | yfs_client.cc:654-673 | a directory does not grow by an unlink |
| YfsFile.WriteMeans | yfs_client.cc:467-481 | length max(old, off + size), data in the range, zeros in a gap, all else kept |
| YfsFile.ReadMeans | yfs_client.cc:434-438 | the bytes from off on, as far as the file goes |
| YfsFile.ReadAfterWrite | yfs_client.cc:434-481 | reading the written range returns the data |
| YfsFile.ReadElsewhere | yfs_client.cc:434-481 | reading outside it returns what it did, or new zeros |
| YfsFile.WritesCommute | yfs_client.cc:467-481 | two writes commute if and only if they agree where they overlap |
| YfsFile.LastWriteWins | yfs_client.cc:467-481 | a write hides an earlier one to the same place |
| YfsFile.Splice | yfs_client.cc:461-481 | both branches, with the loop that fills the gap, compute `WriteRange` |
| YfsFile.ResizeMeans | yfs_client.cc:231-253 | setattr for every reported size: erase from the requested size on, zeros at the end, nothing, or an exception, byte by byte |
| YfsFile.ResizeFits | yfs_client.cc:231-253 | the result has the requested length if and only if the reported size is good enough, as it is when it is the true one |
| YfsFile.Cut | yfs_client.cc:242-253 | the string edits of setattr compute `Resize` |
| YfsFile.Fill | yfs_client.cc:472-478 | the loop gives that many zeros |
| Yfs.YfsClient.InitRoot | yfs_client.cc:12-18 | a starting client puts the empty string at the root, whatever was there; it means the empty directory; refused as any put |
| Yfs.YfsClient.Read | yfs_client.cc:416-442 | returns the range of the one map's bytes; refused if and only if the get is |
| Yfs.YfsClient.Write | yfs_client.cc:444-489 | replaces that range in the one map; refused if and only if the get is, as the put cannot be |
| Yfs.YfsClient.Setattr | yfs_client.cc:208-264 | resizes by the size in the client's cache, which is the one that `ExtentNet.GetAttr` leaves there |
| Yfs.YfsClient.Create | yfs_client.cc:267-352 | create and mkdir: OK, a fresh empty inode of the given type and an entry in the parent, or EXIST and no change if the name is there; refused if and only if the get of the parent is, or the name is new and, with the parent read, no inode or data block is free |
| Yfs.YfsClient.Symlink | yfs_client.cc:533-572 | the same with type T_LINK and the link target as contents, refused in the same cases |
| Yfs.YfsClient.Lookup | yfs_client.cc:355-391 | OK and the inum, or NOENT and 0, by the names of the parent; nothing changes; refused if and only if the get is |
| Yfs.YfsClient.Unlink | yfs_client.cc:491-531 | the reply is OK, and the parent's string is the only thing that changes; refused if and only if the get is |

## Left out

- fuse.cc, the server main programs, demos, tests and scripts: kernel calls and drivers.
- The RPC library, its thread pool, marshalling and `handle.cc`: calls are modelled as reliable and made once; running out of handler threads is not modelled.
- The old blocking lock (`lock_server.cc`, `lock_client.cc`), which the server does not register.
- Service in the order of asking between clients: `LockFairness` shows that it does not hold; what is proved is the end of every drain.
- Times and types in cached attributes; of the attributes in the client cache only the size is carried.
- Extent `remove` and `flush_rm`, which `unlink` never reaches.
- `finddir` and `n2i`, which use another format and are not called; `readdir`, `readlink`, `isfile`, `isdir` and the like, which would only add easy members.
- What a refused write or create leaves on the disk: the model stops there, the source would go on with block or inode 0.
- The 16-bit type of an inode and its padding are one 32-bit word.
- InodeManager.InodeManager.ReadFile: for a file number that is not live the source reads whatever the block holds; the model asks for a live one, as its callers do.
- InodeManager.InodeManager.RemoveFile: asks for a live file number, too; freeing a dead one again could free blocks of other files.
- InodeManager.InodeManager.GetAttr: asks for a live file number, too.
- LockedExtents.OperationsAreAtomic: the put of an empty root by a starting client and the put of a link target are made without the lock of their id; they are not among its operations.
- Extents.ExtentClient.Put: contents of 2^31 bytes or more, which the server's `int size` cannot hold, are excluded.
- Error replies of RPC (`RPCERR`, `READERR`, `CREERR`, `WRTERR`): the extent server always answers OK, and calls do not fail here.
- Concurrent accesses to the server's own map and to the disk, which the source does not protect: each access of `ExtentSteps` is one step. Also logging and memory management.
