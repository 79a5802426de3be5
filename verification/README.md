# An in-memory DVB recorder: file system, queues and transport stream

The program receives a DVB channel, cuts it into transport stream segments and keeps the
last few segments as files on a FAT volume that lives in memory. This project models the
layers that carry the data and proves what each promises to the one above it.

**FAT file system** (`src/ff.cpp`, `src/ramdisk.cpp`). A disk is an array of 512-byte
sectors. `Window` is the one-sector write-back cache; what the volume *shows* is the disk
with a dirty window laid over it, the second FAT copy masked out. `FatTable` and `FatAccess`
turn packed 12, 16 and 32 bit entries into a plain table, `Chains` and `Allocation` turn the
table into disjoint cluster chains, `FileData` and `FileObject` turn a chain, a private
sector buffer and a size into a byte sequence, `DirTable` and `Directory` turn directory
sectors into a map from 11-byte names to slots, and `Format` and `Mount` cover making and
accepting a volume. `VolumeState` states when a whole volume is in order (`Sound`): every
used cluster lies on exactly one chain and every chain belongs to the root, to one
directory or to one file. `Volume` has `f_open`, `f_read`, `f_write`, `f_lseek`, `f_sync`,
`f_close`, `f_unlink` and `f_mkdir` as methods of a mounted volume: each keeps that invariant
and states the new map from files to bytes and the new map of names. A run of calls, from
`NewVolume.FormatNew` on, therefore never loses or shares a cluster. Each call also keeps the
volume `Regular` (`Upkeep`): files have no cluster that their bytes do not need, directories
stay bounded, the boot sectors stay. It also keeps the volume `Saved`: unless a file was written
since its last sync, the disk holds all that the volume shows, FSInfo included. It follows how
many clusters are free (`Room`), and that after the last close, whatever calls came before,
mounting the disk again finds the same files (`Remount`). FAT type, cluster size and volume
size are symbolic throughout.

**Byte queue and file server** (`src/buffer.cpp`, `src/ramdisk.cpp`). `Fifo` has the queue's
methods; `FifoRuns` has the same queue as a state machine with one producer and one
consumer that read the other's index, copy byte by byte and publish their own index.
`MsgRing` is the request queue. `FileServer` is the state machine of the worker thread and
its callers, over every interleaving of their steps: what reaches a file is what callers gave.
`ServerProgress` shows that the worker always has a next step and that every accepted request
is posted within a bound, `ServerReturns` which writes are accepted and how much each read
returns. `ServerCalls` shows that the fine steps of `FifoRuns` and `MsgRing` are,
for the file server, invisible or one whole call.

**Tables and packets** (`src/dvbpsi.cpp`, `src/channel.cpp`). `CrcTable` and `Crc` relate the
table-driven CRC to polynomial division, `Psi`, `Pat` and `Pmt` generate table sections,
`Packets` and `Packetizer` cut blocks into 188-byte packets. The inverse of each is a decoder
written after ISO/IEC 13818-1: sections 2.4.3.2 and 2.4.3.4 (packets and adaptation field),
2.4.4.3 (program association), 2.4.4.8 (program map) and Annex A (CRC).

**Segments** (`src/channel.cpp`). `Segments` is the rotation of segment files and the bound on
the clusters that they need. `Recorder` puts it on a `MountedVolume`: the files of the volume
are those of the window, so a cluster is always free, and opening a segment, writing its
packets, closing it and removing the oldest file do not fail, from `Recorder.Start` on.
`RecordedWrites` makes those writes steps of the file server, which thus never runs short.

The compiled configuration of `src/ffconf.h` is the one modelled: no long names, no relative
paths, a sector buffer per file, one volume of 512-byte sectors, no file locks.

Reading the Dafny files:

- `Arith`, `Bytes` and `Geometry` hold shared definitions, `Sealed` a predicate that keeps
  large definitions folded, `InfoSector` the FSInfo sector, `VolumeSteps` the proof steps of
  `Volume`.
- `Img`, `View` and `V` are what the volume shows; `Contents` is a file's bytes or the map
  of all files to their bytes; `NamesOf` is the map of all directories to their names.
- A slot is a directory and an index in it; it stands for a file for as long as it exists.
- `loose` are chains that nothing owns yet and `pend` are files whose entry is older than
  the open file object; between calls of the public operations no chain is loose.

Where the code and its comments disagree, the code is followed: the comment of
`dir_register` (src/ff.cpp:1539) promises "denied" when there is no room for an entry, but a
full fixed root, or a directory of 65536 entries, ends with "no file", because `dir_next`
reports the end of the table that way. `Directory.Dir.Register` and `VolumeSteps.NoRoom`
tell the two cases apart. A call of `f_mkdir` that fails after it took a cluster frees it again,
but does not sync the volume: `Volume.MountedVolume.MkDir` states that this is the only case in
which a call leaves changes of its own waiting that belong to no open file. `PEStoTS` turns an empty block into a packet
without a payload, which a decoder cannot take for data: `Packets.RecoveredIff` shows that
the round trip holds exactly for lists without an empty block.

## Model

| member | source | states |
|---|---|---|
| `RamDisk.RefusedIff` | src/ramdisk.cpp:310-340 | the bounds check refuses exactly the transfers that leave the disk, if and only if its 32-bit sum does not wrap |
| `RamDisk.ReadBack` | src/ramdisk.cpp:310-340 | a read finds what the last write to those sectors stored, and elsewhere what was there before |
| `RamDisk.DiskWrite` | src/ramdisk.cpp:326-340 | a transfer inside the disk replaces exactly those sectors; a refused one changes nothing |
| `Window.FlushKeepsImage` | src/ff.cpp:707-728 | writing the window back, and into the second FAT copy, changes nothing the volume shows and makes both copies agree |
| `Window.FatFs.SyncWindow` | src/ff.cpp:707-728 | afterwards the window is clean, both FAT copies agree, and the volume shows what it showed |
| `Window.FatFs.MoveWindow` | src/ff.cpp:733-749 | the window shows the wanted sector of the volume, and the volume shows what it showed |
| `Window.WritePastWindow` | src/ff.cpp:2563-2595 | data written straight to the disk, past a window that may be dirty, shows in the volume and keeps the FAT copies |
| `Window.ReadPastWindow` | src/ff.cpp:2455-2490 | data read straight from the disk, past a window that may be dirty, is what the volume shows |
| `FatTable.PatchThenGet` | src/ff.cpp:817-912 | an entry stored in the packed FAT reads back at the entry's width, for 12, 16 and 32 bits |
| `FatTable.PatchEntries` | src/ff.cpp:860-912 | storing an entry changes that entry of the table and no other, FAT12 neighbours that share a byte included |
| `FatTable.PatchKeepsTopBits` | src/ff.cpp:892-899 | a FAT32 store keeps the four reserved bits |
| `FatAccess.SplitStore` | src/ff.cpp:868-884 | a FAT12 entry whose two bytes lie in two sectors is stored like any other |
| `FatAccess.GetFat` | src/ff.cpp:817-850 | reads the entry of the plain table through the window, without leaving the first FAT copy and without changing the volume; 1 for a number out of range |
| `FatAccess.PutFat` | src/ff.cpp:860-912 | the plain table changes at that entry only, and nothing outside the FAT does; a number out of range changes nothing |
| `Chains.ChainDistinct` | src/ff.cpp:923-965 | a chain that ends never visits a cluster twice |
| `Chains.NewChain` | src/ff.cpp:1004-1017 | marking a free cluster as an end adds one chain and keeps all others well formed, disjoint and complete |
| `Chains.ExtendChain` | src/ff.cpp:1004-1017 | linking a free cluster behind a tail extends that chain by it and keeps all others |
| `Chains.RemoveChainOk` | src/ff.cpp:923-965 | freeing a chain's clusters removes that chain and keeps all others; no cluster is lost or shared |
| `Chains.FreedChain` | src/ff.cpp:932-961 | the walk of remove_chain over a well-formed chain frees exactly the clusters of the chain |
| `Chains.OwnedIffUsed` | src/ff.cpp:817-850 | on a volume in order, a cluster is in use exactly when it lies on a chain |
| `Allocation.FindFree` | src/ff.cpp:984-1003 | the cyclic search returns the first free cluster behind the hint, and 0 only when every cluster is in use |
| `Allocation.CreateChain` | src/ff.cpp:976-1025 | a free cluster becomes the new tail; 0 only when every cluster is in use, whatever the hint; the cached free count stays right, and FSInfo holds it or is due to be written |
| `Allocation.RemoveChain` | src/ff.cpp:923-965 | terminates on every FAT, cyclic ones included, with the effect of the link-by-link walk; the cached free count stays right |
| `Allocation.GetFree` | src/ff.cpp:3132-3190 | the cached count if it is plausible, else the count of a scan, for every FAT: an entry of 1 ends a FAT12 scan with an error, and zero reserved entries are counted by the others |
| `Allocation.FreeIsRight` | src/ff.cpp:3132-3190 | a scan gives the true number of free clusters exactly when the reserved entries are in use, and on FAT12 when no cluster behind an entry of 1 is free |
| `Allocation.StartChain` | src/ff.cpp:976-1025 | a new one-cluster chain and one free cluster less, or every cluster was in use |
| `Allocation.NextCluster` | src/ff.cpp:976-1025 | the next cluster of a chain, the chain growing by one at its end, or every cluster was in use |
| `Allocation.DropChain` | src/ff.cpp:923-965 | the chain disappears, its clusters become free, everything else stays |
| `FileData.FlatPatch` | src/ff.cpp:2597-2617 | storing into one file sector stores at that position of the file's bytes |
| `FileData.FlatOverwrite` | src/ff.cpp:2563-2595 | a direct transfer of sectors replaces exactly those bytes of the file |
| `FileData.PositionsDiffer` | src/ff.cpp:799-807 | different positions of a file lie in different sectors |
| `FileData.FilesApart` | src/ff.cpp:799-807 | files without a common cluster have no common sector |
| `FileObject.WritesJoin` | src/ff.cpp:2542-2617 | consecutive turns of the write loop are one write of the joined bytes |
| `FileObject.Fil.Read` | src/ff.cpp:2415-2506 | returns exactly the next bytes of the contents, fewer only at the end of the file; contents and volume stay |
| `FileObject.Fil.Write` | src/ff.cpp:2516-2626 | the contents become the old ones with the written bytes spliced in at the pointer; fewer bytes than asked only when no cluster is free or the size would pass 4 GB; nothing but the FAT and this file's sectors changes; the chain gets no cluster that the bytes do not need |
| `FileObject.Fil.Lseek` | src/ff.cpp:2852-3001 | the old contents stay; the pointer stops at the end in read mode; in write mode the file grows to the goal, or to the end of its last cluster when the disk is full; the chain gets no cluster that the new size does not need |
| `FileObject.Fil.CursorIsWalk` | src/ff.cpp:2922-2945 | the current cluster and the cached sector are those of a walk from the first cluster, so a seek's short cut ends where a full seek does |
| `DirTable.ScanIsLookup` | src/ff.cpp:1420-1471 | the scan of a directory finds a name exactly when the directory's map has it, and at the map's slot |
| `DirTable.NothingFoundIff` | src/ff.cpp:1481-1529 | dir_read finds nothing exactly if only end marks, deleted entries, dot entries, long names and labels are left |
| `DirTable.RegisterAdds` | src/ff.cpp:1539-1606 | a fresh entry in the first blank slot adds exactly one binding; names stay unique and no entry lies behind an end mark |
| `DirTable.RemoveDeletes` | src/ff.cpp:1617-1651 | marking an entry deleted removes exactly its binding and creates no end mark |
| `DirTable.UpdateKeepsMap` | src/ff.cpp:2647-2656 | changing an entry behind its name keeps the map |
| `DirTable.GrowKeepsMap` | src/ff.cpp:1142-1152 | stretching a table by zeroed entries keeps the map |
| `DirTable.NoItems` | src/ff.cpp:1481-1529 | where dir_read finds nothing, no later entry names anything |
| `Directory.ZeroCluster` | src/ff.cpp:1143-1150 | a stretched directory's new cluster holds zeros, and no other sector changes |
| `Directory.Dir.Sdi` | src/ff.cpp:1063-1101 | the cursor lands on the sector of the entry, by division in the fixed root and along the chain elsewhere; it fails exactly behind the end |
| `Directory.Dir.Next` | src/ff.cpp:1111-1169 | the cursor moves to the next entry; at the end it reports so, or the directory gets exactly one zeroed cluster, or no cluster is free; index 65535 is always the end |
| `Directory.Dir.Find` | src/ff.cpp:1420-1471 | ends on the entry that the scan of the whole table finds, and changes nothing |
| `Directory.Dir.ReadItem` | src/ff.cpp:1481-1529 | finds the next file or directory of the whole table, and changes nothing |
| `Directory.Dir.Alloc` | src/ff.cpp:1180-1204 | ends on the first blank entry; a full table is stretched once; it fails exactly when the table cannot grow, and then changes nothing |
| `Directory.Dir.Register` | src/ff.cpp:1539-1606 | the directory's map gains exactly the new name; all other entries stay; a failure changes nothing and happens exactly when no entry is blank and the table cannot grow |
| `Directory.Dir.Remove` | src/ff.cpp:1617-1651 | the directory's map loses exactly the name at the cursor |
| `VolumeState.NothingLost` | src/ff.cpp:923-1025 | every used cluster lies on exactly one chain, and that chain belongs to the root or to one entry |
| `VolumeState.AreasApart` | src/ff.cpp:799-807 | the fixed root and all chains occupy disjoint sectors |
| `VolumeState.FileStep` | src/ff.cpp:2516-2626 | a change of one file's chain keeps the whole volume in order, all names and all other files |
| `VolumeState.SlotStep` | src/ff.cpp:2283-2406 | adding, changing or removing one file's entry keeps the whole volume in order and all other files |
| `VolumeState.LooseStep` | src/ff.cpp:976-1025 | a change of a chain without owner keeps the whole volume in order and all files |
| `VolumeState.DirLinked` | src/ff.cpp:3316-3380 | an ownerless chain becomes a directory of the volume, everything else stays |
| `VolumeState.DirUnlinked` | src/ff.cpp:3247-3307 | an empty directory leaves the volume, everything else stays |
| `EntryFields.SyncedFields` | src/ff.cpp:2647-2656 | after a sync an entry decodes to the file's size, start cluster and time of writing, and has its archive bit; name and kind stay |
| `EntryFields.EmptiedFields` | src/ff.cpp:2341-2347 | an emptied entry decodes to a file of no bytes and no cluster, made at the given time |
| `EntryFields.MadeDirFields` | src/ff.cpp:3365-3370 | a made directory's entry decodes to a directory at its cluster, and the given time |
| `EntryFields.AttributeMasks` | src/ff.h:295-303 | the kinds of an entry are the bits of its attribute byte under the masks 0x01, 0x08 and 0x10 |
| `EntryStore.StoreSynced` | src/ff.cpp:2647-2656 | the stores of f_sync change that one entry of the directory's table to the synced one |
| `OpenFiles.FileStays` | src/ff.cpp:2516-2626 | an open file keeps its validity and its contents when any other area of the volume changes |
| `Sync.SyncFs` | src/ff.cpp:759-788 | afterwards the disk holds what the volume shows, both FAT copies agree, and the FSInfo sector of a FAT32 volume gives the free count and the search hint |
| `Paths.ResolveMeans` | src/ff.cpp:1954-2006 | a path ends in a directory of the volume; an entry found has the last name and an owner, a missing one's name is in no entry |
| `Paths.FollowPath` | src/ff.cpp:1954-2006 | the cursor ends where the path resolves to, with the error that tells a missing file from a missing directory |
| `DotDirs.NewDirTable` | src/ff.cpp:3338-3359 | a new directory's table is its two dot entries and zeros, for any cluster size |
| `DotDirs.DotsDecode` | src/ff.cpp:3338-3352 | the first two entries of a new directory decode to "." with its own cluster and ".." with its parent |
| `Volume.MountedVolume.Open` | src/ff.cpp:2283-2406 | every outcome by path, entry and mode; a new or truncated file is empty, and no other file and no other name changes; an open that writes nothing leaves the disk complete |
| `Volume.MountedVolume.Read` | src/ff.cpp:2415-2506 | returns exactly the bytes of the volume's file at the pointer, as many as asked for or as the file has left; no file and no name changes, and the disk stays complete |
| `Volume.MountedVolume.Write` | src/ff.cpp:2516-2626 | exactly one file of the volume changes, by a splice at the pointer, and that file is then marked as written; no name changes |
| `Volume.MountedVolume.Lseek` | src/ff.cpp:2852-3001 | at most one file changes, and only by bytes behind its end; in write mode the pointer reaches its goal, or the end of the last cluster when the disk is full; the file is marked as written exactly when it grows, and otherwise the disk stays complete |
| `Volume.MountedVolume.Sync` | src/ff.cpp:2635-2672 | the entry agrees with the file, the disk with the volume; no contents change |
| `Volume.MountedVolume.Close` | src/ff.cpp:2683-2718 | the contents that the open file had are the contents of the closed one; if it was written, the disk is complete afterwards, and if not, it is as complete as before |
| `Volume.MountedVolume.Unlink` | src/ff.cpp:3247-3307 | removes exactly the named file, or the named directory if it is empty; denied exactly for read-only entries and for directories with more than deleted entries, labels and end marks |
| `Volume.MountedVolume.MkDir` | src/ff.cpp:3316-3380 | adds exactly one empty directory under the path's last name, whose dot entries lead to itself and to its parent; when there is no room, names and contents are as before; a complete disk stays complete exactly unless the call fails after it took a cluster |
| `NewVolume.NewIsSound` | src/ramdisk.cpp:205-220 | a formatted and mounted volume is in order and names nothing |
| `Upkeep.RegularByFile` | src/ff.cpp:2516-2626 | a file that gets only needed clusters keeps all files tight, all directories bounded and the boot sectors |
| `Upkeep.RegularBySlot` | src/ff.cpp:2283-2406 | so does adding, emptying or removing an entry |
| `Room.FreePlusChains` | src/ff.cpp:3149-3187 | free clusters and the lengths of all chains add up to the number of clusters |
| `Room.FreeSpace` | src/ff.cpp:3149-3187 | free clusters, the clusters that the files' bytes need and those of the directories add up to the number of clusters |
| `Volume.MountedVolume.FreeClusters` | src/ff.cpp:3149-3187 | the same of a mounted volume with open files |
| `Remount.Again` | src/ff.cpp:2118-2200 | mounting the disk of a volume without open files again finds the same directories, files, names and bytes, whatever calls came before |
| `Remount.InfoRead` | src/ff.cpp:2168-2190 | the free count that a mount reads from the FSInfo sector is the one that the volume has, or none |
| `Remount.WriteSurvives` | src/ff.cpp:2516-2718 | after a write, the last close and a new mount, the file holds the written bytes, and every other file, directory and name is as it was |
| `NewVolume.FormatNew` | src/ramdisk.cpp:205-220 | if formatting succeeds, the volume that is mounted is in order, wholly on its disk, holds no file and no name, and has the layout's geometry; every failure has its exact reason |
| `Format.Plan` | src/ff.cpp:3800-3897 | every accepted layout has areas that fit the disk, a cluster count of its FAT type, and the smallest FAT for the clusters of the whole volume; it gives up exactly when the planned layout leaves no cluster or too few for its FAT type; the cluster size is the given one or the automatic one |
| `Format.AutoUnit` | src/ff.cpp:3826-3830 | the table lookup picks the cluster size by the volume's size, with its thresholds in sectors |
| `Format.Mkfs` | src/ff.cpp:3775-4003 | success leaves the partition table, if there is one, with the one partition, boot sector, backups, FAT and empty root that fit the layout; any other result, each with its exact reason, changes nothing |
| `Mount.FormattedMounts` | src/ff.cpp:2042-2200 | a formatted disk is accepted by the mount with the layout's FAT type, bases, cluster size and cluster count |
| `Mount.AcceptedIsSound` | src/ff.cpp:2118-2200 | the geometry derived from an accepted boot sector is in order, each area behind the other and inside the disk, if and only if the sums without wrap-around fit the disk, the clusters stay below 0x0FFFFFF0, and FAT32 root and FSInfo lie in their ranges |
| `Mount.NewVolumeOk` | src/ff.cpp:3938-3965 | the new FAT has no lost or shared cluster, and the free count is right |
| `Mount.FormatAndMount` | src/ff.cpp:3775-4003 | format, then mount: same geometry, volume in order, for every size, unit and partition rule |
| `Fifo.ByteFifo.Put` | src/buffer.cpp:179-228 | appends all bytes, or none if there are none or no byte would stay free, also when an index rests at the end |
| `Fifo.ByteFifo.Get` | src/buffer.cpp:230-279 | takes exactly that many bytes off the front, or none |
| `Fifo.ByteFifo.Skip` | src/buffer.cpp:329-373 | drops exactly that many bytes off the front, or none |
| `Fifo.ByteFifo.Fsize` | src/buffer.cpp:375-397 | the number of bytes that still fit |
| `Fifo.ByteFifo.Bsize` | src/buffer.cpp:400-419 | the number of bytes held |
| `FifoRuns.StepRefines` | src/buffer.cpp:179-279 | every step of an interleaved Put and Get is nothing, one whole Put or one whole Get on the queue; refusals happen exactly when they should |
| `FifoRuns.RegionsApart` | src/buffer.cpp:179-279 | the byte being written is never one of the bytes being read |
| `FifoRuns.FifoOrder` | src/buffer.cpp:179-279 | in every run the bytes taken are a prefix of the bytes put, and at most the size less one lie between |
| `FifoRuns.NeverStuck` | src/buffer.cpp:179-279 | a call that was begun can always go on inside the buffer |
| `MsgRing.MsgQueue.SendMsg` | src/ramdisk.cpp:137-149 | the message is appended, or the queue holds 63 and nothing changes |
| `MsgRing.MsgQueue.RecvMsg` | src/ramdisk.cpp:151-162 | the oldest message is taken, or there is none |
| `MsgRing.ReceivedInOrder` | src/ramdisk.cpp:137-162 | in every run messages are received in send order, none lost and none twice |
| `FileServer.RunKeeps` | src/ramdisk.cpp:684-924 | the invariant of queue, slots, worker and handles holds at every step of every run |
| `FileServer.WriteConservation` | src/ramdisk.cpp:557-598 | as long as the disk has room, at every step the bytes in the file, in the worker's hand and in the FIFO are together the bytes accepted, in order |
| `FileServer.ClosedFile` | src/ramdisk.cpp:754-791 | with at most eight files open for writing and room on the disk, a file whose close is answered holds exactly the bytes accepted, over what it held |
| `FileServer.UnslottedFile` | src/ramdisk.cpp:754-791 | a file that got no slot is closed as it was opened, and all its accepted bytes are lost in the FIFO |
| `FileServer.SlotForNext` | src/ramdisk.cpp:701-731 | with fewer than eight writers there is a slot for the next |
| `FileServer.OpenGetsSlot` | src/ramdisk.cpp:724-752 | a successful write-mode open with fewer than eight writers gets a slot |
| `FileServer.ReadPrefix` | src/ramdisk.cpp:792-820 | bytes returned so far are a prefix of the file, and the worker's chunk always fits the FIFO |
| `FileServer.EmptyReadAtEnd` | src/ramdisk.cpp:510-555 | a read that asked the worker returns nothing only when everything was returned |
| `FileServer.Protocol` | src/ramdisk.cpp:464-508 | one outstanding request per handle, each posted once, and no trace of a handle after its close is answered |
| `ServerReturns.WhenAccepted` | src/ramdisk.cpp:557-598 | in any step, bytes are accepted exactly when a put finds room for all of them and one more, at once or at the end of the call |
| `ServerReturns.WhenTaken` | src/ramdisk.cpp:510-555 | in any step, bytes are returned only from the front of the FIFO, as many as were asked for at once, or as there are at the end of the call |
| `ServerReturns.WriteReturns` | src/ramdisk.cpp:557-598 | a blocking write is accepted whole exactly if it fits the ring when the worker has answered; with a slot, each of at most 64 KiB that the ring holds is; without one, none is |
| `ServerReturns.ReadReturns` | src/ramdisk.cpp:510-555 | a blocking read returns the next bytes of the file, exactly as many as were asked for, the ring holds, lay in the FIFO or fit into 64 KiB beside it, and are left; up to 64 KiB and the ring, it is short only at the end of the file |
| `ServerReturns.CallBegan` | src/ramdisk.cpp:510-598 | every call that waits for the worker began with a transfer that the FIFO refused |
| `ServerReturns.SweepTurn` | src/ramdisk.cpp:699-731 | a sweep's turn at a slot writes whole chunks until less than one is left in the FIFO, or 64 of them |
| `ServerProgress.WorkerNeverStuck` | src/ramdisk.cpp:684-924 | in every reachable state the worker has a next step |
| `ServerProgress.ServedIsPosted` | src/ramdisk.cpp:733-856 | every request that the worker serves is posted, within a bound that the state gives, the unbounded drain of a close included |
| `ServerProgress.ReceivesInTime` | src/ramdisk.cpp:699-731 | while a message waits, the worker, sweeping or serving, polls the queue again within a bound that the state gives |
| `ServerProgress.QueuedIsServed` | src/ramdisk.cpp:151-162 | a request at some place of the queue is served by the receive with that number |
| `ServerProgress.QueuedIsPosted` | src/ramdisk.cpp:684-924 | a queued request is posted when the worker has taken its greatest rank in steps for each request before it, and twice for its own |
| `ServerProgress.AcceptedIsPosted` | src/ramdisk.cpp:464-508 | every accepted request is posted, within 64 times the greatest rank in steps of the worker |
| `ServerProgress.RankBound` | src/ramdisk.cpp:684-924 | that rank is bounded by the sizes of FIFOs and files alone |
| `ServerCalls.FifoCallIsAtomic` | src/buffer.cpp:179-279 | every step inside a Put or Get is invisible to the file server or is its whole call, refusals included |
| `ServerCalls.QueueCallIsAtomic` | src/ramdisk.cpp:137-162 | every step inside a send or receive is invisible to the file server or is its whole call |
| `CrcTable.TableIs` | src/dvbpsi.cpp:63-129 | each of the 256 table words is eight steps of division by 0x04c11db7 |
| `Crc.TableDivides` | src/dvbpsi.cpp:206-222 | the table-driven loop computes division bit by bit, for every message |
| `Crc.OnesDivide` | src/dvbpsi.cpp:184-222 | starting with a register of ones is dividing the message with its first four bytes complemented |
| `Crc.OwnCrcIsZero` | src/dvbpsi.cpp:184-222 | a message followed by its CRC leaves a zero register |
| `Crc.BurstDetected` | src/dvbpsi.cpp:184-199 | messages that differ within four consecutive bytes never have the same CRC |
| `Psi.Section.CalculateCrc32` | src/dvbpsi.cpp:206-222 | the section is followed by the CRC of Annex A of ISO/IEC 13818-1: the remainder of the message with its first four bytes complemented |
| `Psi.Section.ValidSection` | src/dvbpsi.cpp:184-199 | accepts exactly the sections whose bytes, the first four complemented, leave no remainder |
| `Psi.ProtectedChecks` | src/dvbpsi.cpp:184-222 | every section with its CRC behind it is accepted |
| `Psi.KnownCrc` | src/dvbpsi.cpp:184-222 | the CRC of a program association section with one program, by its bytes |
| `Psi.Section.Build` | src/dvbpsi.cpp:229-273 | the built section is its header, the payload and the CRC, and is accepted |
| `Psi.HeaderDecodes` | src/dvbpsi.cpp:229-273 | every field of a built section decodes to what was built in, by section 2.4.4 of ISO/IEC 13818-1 |
| `Pat.Table.ProgramAdd` | src/dvbpsi.cpp:315-343 | the linked list of programs gains the new one behind its last node and stays well linked; PID 0 is refused |
| `Pat.Table.SectionsGenerate` | src/dvbpsi.cpp:345-431 | the sections are those of the program list cut into chunks, numbered 0 to last |
| `Pat.SectionDecodes` | src/dvbpsi.cpp:345-431 | a generated section has at most 1024 bytes, an exact length field and its programs in order |
| `Pat.PatRoundTrip` | src/dvbpsi.cpp:345-431 | decoding the generated sections yields the program list in order, for up to 256 sections |
| `Pmt.SectionsGenerate` | src/dvbpsi.cpp:631-809 | a table that fits one section gives one section |
| `Pmt.PmtRoundTrip` | src/dvbpsi.cpp:631-809 | decoding it recovers PCR PID, descriptors and streams in order, with exact info lengths |
| `BlockChain.Join` | src/buffer.cpp:69-82 | appending at the end of a linked list keeps both lists, in order |
| `BlockChain.BufferChain.Append` | src/buffer.cpp:101-112 | the chain gains the blocks in order and counts them |
| `BlockChain.BufferChain.Get` | src/buffer.cpp:114-131 | the first block is taken, or there is none |
| `Packets.PacketCount` | src/channel.cpp:110-180 | a block takes one packet for each 184 bytes begun, at least one |
| `Packets.PacketsRoundTrip` | src/channel.cpp:110-180 | a decoder after section 2.4.3 of ISO/IEC 13818-1 recovers every list of non-empty blocks, continuity counters included |
| `Packets.EmptyBlockLost` | src/channel.cpp:110-180 | an empty block and everything behind it is lost, whatever was decoded before |
| `Packets.RecoveredIff` | src/channel.cpp:110-180 | the decoder recovers a list of blocks if and only if none is empty |
| `Packetizer.PesToTs` | src/channel.cpp:110-180 | the chain gains exactly the packets of the blocks, and its depth their number |
| `Packetizer.WritePsiSection` | src/channel.cpp:78-108 | a section becomes a block with a zero pointer field before it |
| `Packetizer.PatOverPackets` | src/channel.cpp:366-413 | program list to packets and back is the identity, whatever the number of sections |
| `Packetizer.GetDvbPsi` | src/channel.cpp:366-413 | the chain gains packets from which a receiver learns the channel: on PID 0 one accepted section with the one program and its map's PID, on that PID one accepted section with the clock's PID and every stream's type and PID, in order |
| `Packetizer.TablesAnnounce` | src/channel.cpp:366-413 | a receiver that decodes the packets of the channel's tables finds the program, its map's PID, and every stream's type and PID |
| `Packetizer.TwoPackets` | src/channel.cpp:366-413 | two packets carry both tables exactly up to 33 streams |
| `Segments.SegmentWindow.TakePackets` | src/channel.cpp:478-535 | every stream that brought a packet is counted once, in the number and in the file |
| `Segments.SegmentWindow.Round` | src/channel.cpp:472-562 | the packets counted are those that the round brought; the live files stay the last four segments, each within its packet limit; a segment of more than 13000 packets, or an old one, is closed and the oldest file goes |
| `Segments.RamDiskClusters` | src/ramdisk.cpp:205-220 | the RAM disk's volume has 24384 clusters |
| `Segments.WindowFits` | src/channel.cpp:416-573 | four segments of the greatest size, and a directory of the greatest useful size, need fewer clusters than the volume has |
| `Recorder.TablesFit` | src/channel.cpp:366-413 | the tables take the two packets that the window counts for them, exactly up to 33 streams |
| `Recorder.Start` | src/ramdisk.cpp:205-220 | formatting and mounting the RAM disk and making the channel's directory cannot fail |
| `Recorder.Recorder.RoomLeft` | src/channel.cpp:416-573 | whenever the files of the volume are the segments of the window, a cluster is free |
| `Recorder.Recorder.OpenSegment` | src/channel.cpp:442-470 | the open of a segment's file succeeds: the volume gains one empty file under the segment's name, and nothing else changes |
| `Recorder.Recorder.Store` | src/ramdisk.cpp:821-856 | a write of bytes that the open segment has packets for is never short, and appends exactly them |
| `Recorder.Recorder.Round` | src/channel.cpp:472-562 | the packets counted are those that the round brought; at the end of a segment its file is closed with all its bytes and the oldest file is removed, neither of which fails; the volume's files stay exactly those of the window |
| `Recorder.Recorder.Recorded` | src/channel.cpp:472-562 | between two segments, a mount of the disk finds everything that was recorded |
| `RecordedWrites.WriteChunk` | src/ramdisk.cpp:557-598 | the worker's write to the open segment is a step of the file server that leaves room, and the handle goes on holding the segment's bytes |

## Left out

Contracts that ask for more, or state less, than the code's callers might expect:

- Volume.MountedVolume.Unlink: the empty path is excluded, because `f_unlink` reads the start directory's absent entry before it returns.
- Volume.MountedVolume.Unlink: removing a file that is open is excluded, as the configuration has no file locks to refuse it.
- Volume.MountedVolume.Open: opening a file that is already open is excluded, so there is one file object per file.
- Volume.MountedVolume.MkDir: each sector of the new cluster is written from a prepared sector, so the window always shows the disk; the source zeroes the window's memory once more after the last write and reloads it before the next use. Its call of `remove_chain` with cluster 0 after a failed allocation, which does nothing, is omitted.
- Sync.SyncFs: the free count must fit 32 bits, as its field in the source does; the search hint is stored modulo 2^32.
- Format.Plan: a given cluster size must lead to fewer than 0x0FFFFFF0 clusters, the most that FAT32 can number.
- Pmt.SectionsGenerate: the table must fit one section. The source starts a further one only for descriptors; streams without descriptors, as the recorder has them, would be written behind the end of the section.
- Packetizer.GetDvbPsi: at most 201 streams, for the same reason. What a receiver decodes is stated for a service number of 16 bits and a nonzero map PID of 13 bits, which is what the fields hold.
- Packetizer.TablesAnnounce: the same.
- RamDisk.DiskRead: a transfer whose end wraps in 32 bits is excluded if the bounds check accepts it, since it would leave the memory of the disk; `RamDisk.RefusedIff` shows that the check is wrong exactly for such transfers.
- RamDisk.DiskWrite: the same.
- Mount.ChkMounted: a boot sector or FSInfo sector numbered 0xFFFFFFFF is excluded for that reason.
- Mount.FormatAndMount: a given cluster size must lead to fewer than 0x0FFFFFF0 clusters, as for Format.Plan.
- Format.Mkfs: the same.
- NewVolume.FormatNew: the same.
- Pmt.PmtRoundTrip: tables that fit one section, as Pmt.SectionsGenerate.
- Segments.SegmentWindow.Round: one running channel, whose sends find room in the request queue; what a source brings in a round, and whether the time is up, are parameters.
- Recorder.Recorder.Round: file names are a parameter, legal and different within the window; what a close has still to write is a parameter within the packets counted.
- Recorder.Start: at most 33 streams, beyond which the tables no longer fit the two packets that the window counts for them (`Recorder.TablesFit`).
- FileServer.WriteConservation: the worker's `f_write` is seen through its contract: it is short only when it leaves no free cluster, or at the largest size of a file. That each write of the run leaves one is asked for; `RecordedWrites.WriteChunk` shows that the recorder's writes do.
- ServerReturns.SweepTurn: the same.
- FileServer.ClosedFile: the same; `FileServer.UnslottedFile` shows what happens to a ninth file open for writing.

What the model does not have:

- Disk faults, failing allocation of memory and interrupted semaphores; transfers that leave the disk are modelled.
- Weak memory order: the queue's indices and bytes are read and written one at a time in one global order.
- Bit masks over the cluster size are written as remainders, since the cluster size is a power of two.
- The clock and the volume serial number, which are parameters.
- The branch of `chk_mounted` that trusts a mounted volume after asking for the disk's status.
- `create_name`: paths are lists of 11-byte names that do not start with a dot.
- `f_truncate`, `f_rename`, `f_chmod`, `f_utime`, labels, `f_opendir`, `f_readdir`, `f_stat` and the string functions.
- Branches that are not compiled: long names, code pages, relative paths, fast seek, the tiny configuration, file locks, several partitions.
- Handles are numbers given out in order, and each is a reader or a writer.
- `buffer_fifoPeek` and the resynchronising branch that uses it.
- Sockets, thread start-up, HTTP and XML output, string escaping, command line.

Nothing was executed: the claims are those of the Dafny verifier about the model.
