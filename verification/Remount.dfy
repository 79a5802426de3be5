/** A volume that holds files survives: after the last close, mounting its disk again finds the same files, bytes and names. */
module Remount {
  import opened Bytes
  import opened Geometry
  import opened Window
  import opened InfoSector
  import opened FatAccess
  import opened FileObject
  import opened Chains
  import opened Allocation
  import opened VolumeState
  import opened VolumeSteps
  import opened Upkeep
  import opened Sync
  import opened Volume
  import Format
  import Mount

  /** With everything on the disk, a file system object without a window shows the same volume. */
  lemma SameImage(fs: FatFs, w: Sector)
    requires fs.Valid() && OnDisk(fs)
    ensures Image(fs.geo, fs.disk[..], 0, w) == fs.Img() && MirrorAgrees(fs.geo, fs.disk[..], false, 0)
  {
    hide FatLayout, DataLayout, InMirror;
    forall s: nat | s < fs.disk.Length ensures Image(fs.geo, fs.disk[..], 0, w)[s] == fs.Img()[s] {
      if !InMirror(fs.geo, s) { assert fs.disk[s] == fs.Img()[s]; }
    }
  }

  /** The reserved sectors of the disk are those of the volume. */
  lemma ReservedOnDisk(fs: FatFs, s: nat)
    requires fs.Valid() && OnDisk(fs) && s < fs.geo.fatbase
    ensures s < fs.disk.Length && fs.disk[..][s] == fs.Img()[s]
  {
    hide DataLayout, FatBytesNeeded;
  }

  /** So a mount finds the geometry on the disk. */
  lemma DiskMounts(fs: FatFs, v: Vol)
    requires fs.Valid() && OnDisk(fs) && v.g == fs.geo && v.img == fs.Img() && Based(v) && Mountable(v)
    ensures Mount.MountOf(fs.disk[..]) == Mount.MountedAs(fs.geo) && Mount.NoLastSector(fs.disk[..])
  {
    hide Based, OnDisk, FatFs.Valid, FatFs.Img, Mount.ReadBpb, Mount.Derive, Signed, Format.FatString, LdDword, IsInfo;
    BootSector(v);
    BeforeFat(v);
    InfoNumbers(v);
    ReservedOnDisk(fs, 0);
    ReservedOnDisk(fs, Mount.FindVolume(v.img).1);
  }

  lemma InfoNumbers(v: Vol)
    requires Based(v) && Mountable(v)
    ensures v.g.fatbase <= |v.img| <= 0xFFFF_FFFF && v.g.fsiSector < 0xFFFF_FFFF
  {
    hide FatBytesNeeded, MaxEntries, PowerOfTwo, DataEnd, FatOf, ChainsOk, Mount.FindVolume, Mount.ReadBpb, RamDisk.W32;
  }

  /** A volume without open files. */
  ghost predicate AtRest(vol: MountedVolume)
    reads vol, vol.fs`winsect, vol.fs`wflag, vol.fs`freeClust, vol.fs`fsiFlag, vol.fs`chains, vol.fs.disk, vol.fs.win,
          vol.files.Values
    reads set s | s in vol.files :: vol.files[s].buf
    ensures AtRest(vol) ==> vol.fs.Valid()
  {
    vol.Valid() && vol.files == map[] && vol.Saved() && Regular(vol.V(), vol.Contents())
  }

  lemma AtRestMeans(vol: MountedVolume)
    requires AtRest(vol)
    ensures vol.Valid() && Regular(vol.V(), vol.Contents()) && vol.files == map[] && vol.Saved() && OnDisk(vol.fs)
  {
    hide MountedVolume.Valid, MountedVolume.V, MountedVolume.Contents, Regular, OnDisk;
    NothingPending(vol);
  }

  /** A second file system object on the disk of a volume without open files. */
  method Again(vol: MountedVolume) returns (vol2: MountedVolume)
    requires AtRest(vol)
    ensures fresh(vol2) && fresh(vol2.fs) && vol2.fs.disk == vol.fs.disk && vol2.Valid() && vol2.files == map[]
    ensures vol2.V() == vol.V() && vol2.Contents() == vol.Contents()
  {
    hide *;
    AtRestMeans(vol);
    vol.Start();
    RegularMeans(vol.V(), vol.Contents());
    NothingPending(vol);
    ghost var v, c := vol.V(), vol.Contents();
    assert vol.files.Keys == {} && ContentsFor(v, {}, c);
    DiskMounts(vol.fs, vol.V());
    var disk := vol.fs.disk;
    var res, fs := Mount.ChkMounted(disk);
    if fs == null { assert false; }
    fs.chains := vol.fs.chains;
    SameVolume(vol.fs, fs);
    SameVol(Vol(fs.geo, fs.Img(), fs.chains, vol.dirs, vol.starts), vol.V());
    vol2 := new MountedVolume.Again(fs, vol.dirs, vol.starts);
    vol2.BasedNow();
    SameVol(vol2.V(), vol.V());
    vol2.ClosedContents(c);
  }

  lemma NothingPending(vol: MountedVolume)
    requires vol.files == map[]
    ensures vol.Pending() == {}
  {
  }

  lemma SameVolume(fs: FatFs, fs2: FatFs)
    requires VolumeOk(fs) && OnDisk(fs) && fs2.disk == fs.disk && fs2.geo == fs.geo && fs2.chains == fs.chains
    requires fs2.winsect == 0 && !fs2.wflag && fs2.win.Length == 512 && fs2.freeClust == FsInfo(fs.disk[..], fs.geo).1
    ensures VolumeOk(fs2) && fs2.Img() == fs.Img()
  {
    hide OnDisk, FatLayout, DataLayout, MirrorAgrees, Image, FreeBelow, ChainsOk, FatOf, FsInfo, InfoFresh;
    SameImage(fs, fs2.win[..]);
    FirstSector(fs);
    InfoRead(fs);
    InfoFreshIs(fs2.geo, fs2.Img(), fs2.freeClust, fs2.fsiFlag);
  }

  /** The free count that a mount finds is the one that the volume has, or none. */
  lemma InfoRead(fs: FatFs)
    requires VolumeOk(fs) && OnDisk(fs)
    ensures FsInfo(fs.disk[..], fs.geo).1 == if fs.geo.fsType == Fat32 then fs.freeClust else NO_CLUSTER
    ensures FsInfo(fs.Img(), fs.geo) == FsInfo(fs.disk[..], fs.geo)
  {
    hide FatFs.Valid, FatFs.Img, FatLayout, DataLayout, FatOf, FreeBelow, ChainsOk, OnDisk, InfoFresh, Signed, LdDword;
    CleanOnDisk(fs);
    if fs.geo.fsType == Fat32 {
      InfoBelow(fs.geo, fs.disk.Length);
      ReservedOnDisk(fs, fs.geo.fsiSector);
      InfoFreshMeans(fs.geo, fs.Img(), fs.freeClust, fs.fsiFlag);
    }
  }

  lemma FirstSector(fs: FatFs)
    requires fs.Valid()
    ensures 0 < fs.disk.Length && !InMirror(fs.geo, 0) && FatEnd(fs.geo) <= fs.disk.Length
  {
    hide FatBytesNeeded, DataLayout, MirrorAgrees;
  }

  /** f_write, the last f_close, and a mount on the same disk: it finds the bytes that were written, and every other file,
      directory and name as it was. */
  method WriteSurvives(vol: MountedVolume, f: Fil, ghost slot: Slot, wdata: seq<byte>, tm: nat)
      returns (bw: nat, vol2: MountedVolume)
    requires vol.Valid() && vol.Saved() && Regular(vol.V(), vol.Contents()) && vol.files == map[slot := f]
             && |wdata| <= 0xFFFF_FFFF
    modifies vol`starts, vol`files, f, f.buf, vol.fs, vol.fs.disk, vol.fs.win
    ensures fresh(vol2) && fresh(vol2.fs) && vol2.fs.disk == vol.fs.disk && AtRest(vol) && vol2.Valid() && vol2.files == map[]
    ensures slot in old(vol.Contents()) && old(f.fptr) <= |old(vol.Contents()[slot])| && bw <= |wdata|
    ensures vol2.Contents() == if old(f.faWrite) then old(vol.Contents())[slot := Splice(old(vol.Contents())[slot], old(f.fptr), wdata[..bw])]
                               else old(vol.Contents())
    ensures NamesOf(vol2.V()) == old(NamesOf(vol.V())) && vol2.V() == vol.V()
  {
    hide *;
    var res;
    vol.Begin(slot);
    res, bw := vol.Write(f, slot, wdata);
    res := vol.Close(f, slot, tm);
    AtRestIs(vol);
    vol2 := Again(vol);
  }

  lemma AtRestIs(vol: MountedVolume)
    requires vol.Valid() && vol.files == map[] && vol.Saved() && Regular(vol.V(), vol.Contents())
    ensures AtRest(vol)
  {
    hide MountedVolume.Valid, MountedVolume.V, MountedVolume.Contents, MountedVolume.Saved, Regular;
  }
}
