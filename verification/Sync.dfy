/** Synchronising the volume (src/ff.cpp: sync_fs): the window goes to the disk, and on FAT32 the FSInfo sector too. */
module Sync {
  import opened Bytes
  import opened Geometry
  import opened RamDisk
  import opened Window
  import opened FatAccess
  import opened Chains
  import opened Allocation
  import opened InfoSector
  import opened Format

  /** A change of one reserved sector under an empty window. */
  lemma ReservedWrite(g: Geometry, d: seq<Sector>, w: Sector, w': Sector, s: nat, x: Sector)
    requires FatLayout(g, |d|) && s < g.fatbase && MirrorAgrees(g, d, false, 0)
    ensures Image(g, d[s := x], 0, w') == Image(g, d, 0, w)[s := x] && MirrorAgrees(g, d[s := x], false, 0)
    ensures FatOf(g, Image(g, d, 0, w)[s := x]) == FatOf(g, Image(g, d, 0, w))
  {
    hide FatBytesNeeded, FatOf;
    FatUntouched(g, Image(g, d, 0, w), Image(g, d, 0, w)[s := x]);
  }

  lemma Fat32Reserved(g: Geometry, n: nat)
    requires FatLayout(g, n) && DataLayout(g, n) && g.fsType == Fat32
    ensures 1 <= g.fsiSector < g.fatbase && g.fsiSector < n
  {
    hide FatBytesNeeded, MaxEntries, PowerOfTwo;
  }

  /** sync_fs: afterwards the disk holds what the volume shows, both FAT copies agree, and a FAT32 volume that is mounted
      again finds this free count and search hint. */
  method SyncFs(fs: FatFs) returns (res: FResult)
    requires VolumeOk(fs) && fs.freeClust < 0x1_0000_0000
    modifies fs`winsect, fs`wflag, fs`fsiFlag, fs.disk, fs.win
    ensures VolumeOk(fs) && res == FrOk && !fs.wflag && Fat(fs) == old(Fat(fs))
    ensures fs.winsect == old(fs.winsect) || fs.winsect == 0
    ensures OnDisk(fs)
    ensures if fs.geo.fsType == Fat32 && old(fs.fsiFlag)
            then FsInfo(fs.Img(), fs.geo) == (fs.lastClust % 0x1_0000_0000, fs.freeClust) && !fs.fsiFlag
                 && fs.geo.fsiSector < fs.geo.fatbase && fs.geo.fsiSector < |fs.Img()|
                 && fs.Img() == old(fs.Img())[fs.geo.fsiSector := fs.Img()[fs.geo.fsiSector]]
            else fs.Img() == old(fs.Img())
  {
    hide FatFs.Valid, FatFs.Img, FatOf, FatLayout, DataLayout, FreeBelow, InfoFresh, InfoIs, FsInfo, OnDisk;
    res := fs.SyncWindow();
    if fs.geo.fsType == Fat32 && fs.fsiFlag {
      WriteInfo(fs);
      fs.fsiFlag := false;
      InfoFound(fs.Img(), fs.geo, fs.lastClust, fs.freeClust);
      InfoFreshIs(fs.geo, fs.Img(), fs.freeClust, false);
    }
    CleanOnDisk(fs);
  }

  /** What the volume shows is on the disk, and nothing waits to be written. */
  ghost predicate OnDisk(fs: FatFs)
    requires fs.Valid()
    reads fs`winsect, fs`wflag, fs`fsiFlag, fs.disk, fs.win
  {
    && fs.Clean()
    && (forall s: nat {:trigger fs.disk[s]} :: s < fs.disk.Length && !InMirror(fs.geo, s) ==> fs.disk[s] == fs.Img()[s])
    && MirrorAgrees(fs.geo, fs.disk[..], false, 0)
  }

  lemma CleanOnDisk(fs: FatFs)
    requires fs.Valid()
    ensures OnDisk(fs) <==> fs.Clean()
  {
    hide FatBytesNeeded, DataLayout;
    if fs.Clean() { CleanMirror(fs.geo, fs.disk[..], fs.winsect, 0); }
  }

  lemma InfoFound(img: seq<Sector>, g: Geometry, last: nat, free: nat)
    requires g.fsType == Fat32 && g.fsiSector < |img| && InfoIs(img[g.fsiSector], last % 0x1_0000_0000, free)
    ensures FsInfo(img, g) == (last % 0x1_0000_0000, free)
  {
  }

  /** Writes the FSInfo sector; the window holds nothing afterwards. */
  method WriteInfo(fs: FatFs)
    requires fs.Valid() && !fs.wflag && fs.geo.fsType == Fat32 && fs.freeClust < 0x1_0000_0000
    modifies fs`winsect, fs.disk, fs.win
    ensures fs.Valid() && fs.winsect == 0 && Fat(fs) == old(Fat(fs))
    ensures 1 <= fs.geo.fsiSector < fs.geo.fatbase && fs.geo.fsiSector < |fs.Img()|
    ensures InfoIs(fs.Img()[fs.geo.fsiSector], fs.lastClust % 0x1_0000_0000, fs.freeClust)
    ensures fs.Img() == old(fs.Img())[fs.geo.fsiSector := fs.Img()[fs.geo.fsiSector]]
  {
    hide FatLayout, DataLayout, MirrorAgrees, Image, InMirror, FatOf, InfoIs, Overwrite;
    ghost var d, w := fs.disk[..], fs.win[..];
    Fat32Reserved(fs.geo, fs.disk.Length);
    FatInside(fs.geo, fs.disk.Length);
    CleanMirror(fs.geo, d, fs.winsect, 0);
    CleanWindow(fs.geo, d, fs.winsect, w, w);
    fs.winsect := 0;
    MakeInfo(fs.win, fs.lastClust, fs.freeClust);
    ReservedWrite(fs.geo, d, w, fs.win[..], fs.geo.fsiSector, fs.win[..]);
    NotMirrored(fs.geo, fs.disk.Length, fs.geo.fsiSector);
    var r := DiskWrite(fs.disk, [fs.win[..]], fs.geo.fsiSector);
    if r != ResOk { assert false; }
    ghost var x: Sector := fs.win[..];
    assert fs.disk[..] == d[fs.geo.fsiSector := x];
  }

  lemma FatInside(g: Geometry, n: nat)
    requires FatLayout(g, n)
    ensures FatEnd(g) <= n
  {
    hide FatBytesNeeded;
  }

  lemma NotMirrored(g: Geometry, n: nat, s: nat)
    requires FatLayout(g, n) && s < g.fatbase
    ensures !InMirror(g, s) && !InMirror(g, 0)
  {
    hide FatBytesNeeded;
  }
}
