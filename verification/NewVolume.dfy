/** A volume that was just formatted and mounted (src/ramdisk.cpp: ramdisk_init): in order, and empty. */
module NewVolume {
  import opened Bytes
  import opened Geometry
  import opened Window
  import opened FatAccess
  import opened Chains
  import opened Allocation
  import opened FileData
  import Format
  import Mount
  import opened DirTable
  import opened Directory
  import opened VolumeState
  import opened OpenFiles
  import opened VolumeSteps
  import opened Upkeep
  import opened Sync
  import opened Volume

  /** The state of a new volume: its root directory is all there is. */
  ghost function NewState(d: seq<Sector>, l: Format.Layout): Vol {
    Vol(Mount.GeoOf(l), d, Mount.NewChains(l), {0}, map[])
  }

  /** The root directory's sectors, which a format leaves zero. */
  lemma RootIsZero(d: seq<Sector>, l: Format.Layout, i: nat)
    requires Format.Formatted(d, l)
    requires i < |DirSecs(Mount.GeoOf(l), Mount.NewChains(l), 0)|
    ensures var s := DirSecs(Mount.GeoOf(l), Mount.NewChains(l), 0)[i]; s < |d| && d[s] == ZeroSector()
  {
    hide Format.BootOk, Format.MbrOk, Format.FsInfoOk, Format.Clusters, Secs, ClusterSecs, Format.FatStart, Format.Has,
         Format.ZeroFrom, Format.AllZero;
    var g, chains := Mount.GeoOf(l), Mount.NewChains(l);
    var s := DirSecs(g, chains, 0)[i];
    if l.fmt == Fat32 {
      SingleSecs(g, chains, 2);
      HeadSecsIs(g, chains, 2);
      ClusterMembers(g, 2);
    }
    assert Format.BFat(l) + 1 <= s < Format.RootEnd(l);
    ZeroIs(d[s]);
  }

  lemma ZeroIs(s: Sector)
    requires Format.AllZero(s)
    ensures s == ZeroSector()
  {
  }

  /** An empty table is in order and names nothing. */
  lemma ZeroTable(t: seq<Entry>)
    requires forall j {:trigger t[j]} :: 0 <= j < |t| ==> AllZero(t[j])
    ensures TableOk(t) && NameMap(t) == map[] && forall j {:trigger t[j]} :: 0 <= j < |t| ==> !Owns(t[j])
  {
    hide Live, IsLabel;
    forall j | 0 <= j < |t| ensures !Live(t[j]) && t[j][0] == 0 { ZeroNotLive(t[j]); }
    NothingNamed(t);
  }

  lemma {:induction false} NothingNamed(t: seq<Entry>)
    requires forall j {:trigger t[j]} :: 0 <= j < |t| ==> !Live(t[j])
    ensures NameMap(t) == map[]
  {
    hide Live;
    if t != [] {
      assert !Live(t[|t| - 1]);
      NothingNamed(t[..|t| - 1]);
    }
  }

  lemma RootTable(d: seq<Sector>, l: Format.Layout)
    requires Format.Formatted(d, l) && SectorsOk(d, DirSecs(Mount.GeoOf(l), Mount.NewChains(l), 0))
    ensures var t := Tab(NewState(d, l), 0);
            TableOk(t) && NameMap(t) == map[] && forall j {:trigger t[j]} :: 0 <= j < |t| ==> !Owns(t[j]) && PlainEntry(t[j])
  {
    hide Format.Formatted, PlainEntry, DirSecs, SlotSector, SlotOffset, TableOk, NameMap, Owns, Table, SectorsOk;
    var secs := DirSecs(Mount.GeoOf(l), Mount.NewChains(l), 0);
    var t := Tab(NewState(d, l), 0);
    TabIs(NewState(d, l), 0);
    forall j | 0 <= j < |t| ensures AllZero(t[j]) {
      TableAt(d, secs, j);
      RootIsZero(d, l, SlotSector(j));
    }
    forall j | 0 <= j < |t| ensures PlainEntry(t[j]) { ZeroPlain(t[j]); }
    ZeroTable(t);
  }

  /** A formatted volume is in order. */
  lemma NewIsSound(fs: FatFs, l: Format.Layout)
    requires VolumeOk(fs) && Format.Formatted(fs.disk[..], l) && fs.geo == Mount.GeoOf(l) && fs.chains == Mount.NewChains(l)
    requires fs.Img() == fs.disk[..]
    ensures Sound(NewState(fs.disk[..], l), {}, {}) && NamesOf(NewState(fs.disk[..], l)) == map[0 := map[]]
  {
    hide FatFs.Valid, FatFs.Img, FatOf, FatLayout, DataLayout, ChainsOk, FreeBelow, Format.Formatted, DirSecs,
         DirSecsOk, TableOk, NameMap, Owns, Table, SectorsOk, Tab;
    var v := NewState(fs.disk[..], l);
    KnownInOrder(fs, 0);
    DirSecsMean(fs.geo, fs.Img(), DirSecs(fs.geo, fs.chains, 0));
    RootTable(fs.disk[..], l);
    assert DirOk(v, 0);
    forall s ensures s in v.starts <==> IsOwner(v, s) { if s.dir == 0 && s.index < |Tab(v, 0)| { EntryAtSlot(v, s); } }
    assert HeadsOk(v, {});
    assert AgreeOk(v, {});
    assert SubdirsOk(v);
    SoundIs(v, {}, {});
  }

  /** Its root directory is short, and a mount finds it. */
  lemma NewIsRegular(d: seq<Sector>, l: Format.Layout)
    requires Format.Formatted(d, l) && SectorsOk(d, DirSecs(Mount.GeoOf(l), Mount.NewChains(l), 0))
    ensures Regular(NewState(d, l), map[])
  {
    hide Format.Formatted, DirSecs, TableOk, NameMap, Owns, SectorsOk, Tab, PlainEntry, Mount.MountOf, Mount.FindVolume,
         Format.LayoutOk;
    var v := NewState(d, l);
    RootTable(d, l);
    Mount.LayoutOf(d, l);
    RootShort(l, |d|);
    Mount.FormattedMounts(d, l);
    Mount.VolumeFound(d, l);
    assert DirPlain(v, 0);
  }

  lemma RootShort(l: Format.Layout, n: nat)
    requires Format.LayoutOk(l, n)
    ensures |DirSecs(Mount.GeoOf(l), Mount.NewChains(l), 0)| <= 128
  {
    hide Format.LayoutOk, ClusterSecs;
    if l.fmt == Fat32 {
      SingleSecs(Mount.GeoOf(l), Mount.NewChains(l), 2);
      HeadSecsIs(Mount.GeoOf(l), Mount.NewChains(l), 2);
    }
  }

  /** ramdisk_init's volume: if formatting succeeds, the mounted volume is in order and holds no file and no name. */
  method FormatNew(disk: array<Sector>, sfd: nat, unit: nat, serial: nat)
      returns (res: FResult, vol: MountedVolume?, ghost l: Format.Layout)
    requires disk.Length <= 0xFFFF_FFFF && (unit != 0 ==> Format.Clusters(disk.Length, Format.UnitSectors(unit)) < 0x0FFF_FFF0)
    modifies disk
    ensures res == FrOk ==> vol != null && fresh(vol) && fresh(vol.fs) && fresh(vol.fs.win) && vol.fs.disk == disk && vol.Valid()
    ensures res == FrOk ==> vol.Contents() == map[] && vol.files == map[] && NamesOf(vol.V()) == map[0 := map[]]
    ensures res == FrOk ==> OnDisk(vol.fs) && vol.Saved() && Regular(vol.V(), map[]) && vol.fs.geo == Mount.GeoOf(l) && vol.dirs == {0}
    ensures res == FrOk ==> Format.LayoutOk(l, disk.Length) && l.bVol == (if sfd == 1 then 0 else 63) && l.au > 0 && Format.FatChosen(l)
    ensures res == FrOk ==> l.au == Format.UnitFor(l.nVol, unit)
    ensures res == FrOk || res == FrInvalidParameter || res == FrDiskErr || res == FrMkfsAborted
    ensures res == FrInvalidParameter <==> sfd > 1 || !Format.UnitOk(unit)
    ensures res == FrDiskErr <==> sfd <= 1 && Format.UnitOk(unit) && disk.Length < 128
    ensures res == FrMkfsAborted ==> 1 <= l.au && Format.PlannedFor(l, disk.Length, sfd == 1, unit) && !Format.HasRoom(l)
    ensures res != FrOk ==> vol == null && disk[..] == old(disk[..])
  {
    hide *;
    vol := null;
    var fs, layout;
    res, fs, layout := Mount.FormatAndMount(disk, sfd, unit, serial);
    l := layout;
    if res == FrOk {
      if fs == null { assert false; }
      Mount.LayoutOf(disk[..], l);
      NewIsSound(fs, l);
      NewStateIs(fs.geo, fs.Img(), fs.chains, l);
      vol := new MountedVolume(fs);
      vol.BasedNow();
      SameVol(vol.V(), NewState(disk[..], l));
      DirTableOk(vol.V(), 0, {}, {});
      DirSecsMean(fs.geo, disk[..], DirSecs(fs.geo, fs.chains, 0));
      NewIsRegular(disk[..], l);
      vol.SavedIs();
    }
  }

  lemma NewStateIs(g: Geometry, d: seq<Sector>, chains: map<nat, seq<nat>>, l: Format.Layout)
    requires g == Mount.GeoOf(l) && chains == Mount.NewChains(l)
    ensures NewState(d, l) == Vol(g, d, chains, {0}, map[])
  {
  }
}
