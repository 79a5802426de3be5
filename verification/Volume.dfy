/** The mounted volume with its open files (src/ff.cpp: f_open, f_write, f_lseek, f_sync, f_close, f_unlink, f_mkdir): a map from
    directory slots to byte sequences. */
module Volume {
  import opened Bytes
  import opened Geometry
  import opened Window
  import opened FatAccess
  import opened Chains
  import opened Allocation
  import opened FileData
  import opened FileObject
  import opened DirTable
  import opened Directory
  import opened VolumeState
  import opened OpenFiles
  import opened EntryFields
  import opened EntryStore
  import opened Sync
  import opened Paths
  import opened DotDirs
  import opened VolumeSteps
  import opened Upkeep
  import opened Room

  class MountedVolume {
    const fs: FatFs
    ghost var dirs: set<nat>
    ghost var starts: map<Slot, nat>
    ghost var files: map<Slot, Fil>   // the open files, by entry

    /** A volume whose root directory is empty. */
    constructor (fs: FatFs)
      requires VolumeOk(fs) && Sound(Vol(fs.geo, fs.Img(), fs.chains, {0}, map[]), {}, {})
      ensures this.fs == fs && dirs == {0} && starts == map[] && files == map[] && Valid() && Contents() == map[]
    {
      this.fs, dirs, starts, files := fs, {0}, map[], map[];
      new;
      assert Pending() == {};
    }

    /** A volume with the given directories and files, none of them open. */
    constructor Again(fs: FatFs, ghost dirs: set<nat>, ghost starts: map<Slot, nat>)
      requires VolumeOk(fs) && Sound(Vol(fs.geo, fs.Img(), fs.chains, dirs, starts), {}, {})
      ensures this.fs == fs && this.dirs == dirs && this.starts == starts && files == map[] && Valid()
    {
      this.fs, this.dirs, this.starts, files := fs, dirs, starts, map[];
      new;
      assert Pending() == {};
    }

    /** With no file open, contents are what the volume gives. */
    lemma ClosedContents(c: map<Slot, seq<byte>>)
      requires Valid() && files == map[] && ContentsFor(V(), {}, c)
      ensures Contents() == c
    {
      hide VolumeOk, Sound, EntryOf, FileOf, IsDir, FilBytes;
    }

    ghost function V(): Vol
      reads this`dirs, this`starts, fs`winsect, fs`wflag, fs`chains, fs.disk, fs.win
      requires fs.Valid()
    {
      Vol(fs.geo, fs.Img(), fs.chains, dirs, starts)
    }

    /** Entries that may lag behind: those of files written since their last sync. */
    ghost function Pending(): set<Slot>
      reads this`files, files.Values
    {
      set s | s in files && files[s].faWritten
    }

    /** Everything is on the disk, unless a file was written since its last sync. */
    ghost predicate Saved()
      reads this`files, files.Values, fs`winsect, fs`wflag, fs`fsiFlag, fs.disk, fs.win
      requires fs.Valid()
    {
      Pending() == {} ==> OnDisk(fs)
    }

    lemma SavedIs()
      requires fs.Valid()
      ensures Saved() <==> (Pending() == {} ==> OnDisk(fs))
      ensures OnDisk(fs) <==> fs.Clean()
    {
      hide FatFs.Valid, OnDisk, FatFs.Clean;
      CleanOnDisk(fs);
    }

    /** The files other than `slot`'s, in terms of a state and contents. */
    ghost predicate Others(slot: Slot, v: Vol, ws: nat, pend: set<Slot>, c: map<Slot, seq<byte>>)
      reads this`files, set s | s in files && s != slot :: files[s], set s | s in files && s != slot :: files[s].buf
    {
      forall s {:trigger files[s]} :: s in files && s != slot ==>
        OpenOk(fs, files[s], s, v, ws) && s in c && c[s] == FilBytes(files[s], v) && (s in pend <==> files[s].faWritten)
    }

    ghost predicate Apart()
      reads this`files
    {
      forall s, t {:trigger files[s], files[t]} :: s in files && t in files && s != t ==> files[s] != files[t] && files[s].buf != files[t].buf
    }

    ghost predicate Valid()
      reads this, fs`winsect, fs`wflag, fs`freeClust, fs`fsiFlag, fs`chains, fs.disk, fs.win, files.Values,
            set s | s in files :: files[s].buf
      ensures Valid() ==> VolumeOk(fs)
    {
      && VolumeOk(fs) && Sound(V(), {}, Pending()) && Apart()
      && forall s {:trigger files[s]} :: s in files ==> OpenOk(fs, files[s], s, V(), fs.winsect)
    }

    /** The contents of all files, by slot. */
    ghost function Contents(): map<Slot, seq<byte>>
      reads this, fs`winsect, fs`wflag, fs`freeClust, fs`fsiFlag, fs`chains, fs.disk, fs.win, files.Values,
            set s | s in files :: files[s].buf
      requires fs.Valid()
    {
      map s | s in starts && !IsDir(EntryOf(V(), s)) :: if s in files then FilBytes(files[s], V()) else FileOf(V(), s)
    }

    /** The open file of a slot, as a file object. */
    lemma FileIs(slot: Slot)
      requires Valid() && slot in files
      ensures files[slot].fs == fs && files[slot].isOpen && !files[slot].faError && files[slot].buf != fs.win
              && files[slot].Valid()
      ensures FilView(files[slot], V()) == files[slot].View() && FilBytes(files[slot], V()) == files[slot].Content()
      ensures files[slot].faDirty ==> files[slot].faWritten
      ensures slot in starts && starts[slot] == files[slot].sclust && !IsDir(EntryOf(V(), slot))
      ensures SlotPlace(V(), slot, files[slot].dirSect, files[slot].dirOfs)
      ensures !files[slot].faWritten ==> SizeOf(EntryOf(V(), slot)) == files[slot].fsize
    {
      hide Sound, VolumeOk, FilOk, FilBytes, FilView, EntryOf, SlotPlace, IsDir, SizeOf;
      FilOkIs(files[slot], V());
    }

    lemma SoundNow()
      requires Valid()
      ensures Sound(V(), {}, Pending()) && Based(V()) && Apart()
    {
      hide VolumeOk, EntryOf, FilBytes, IsDir, FileOf, OpenOk;
      SoundMeans(V(), {}, Pending());
    }

    lemma ClosedAre()
      requires Valid()
      ensures ContentsFor(V(), files.Keys, Contents())
    {
      hide VolumeOk, Sound, EntryOf, FilBytes, IsDir, FileOf, OpenOk;
    }

    lemma OthersAre(slot: Slot)
      requires Valid()
      ensures Others(slot, V(), fs.winsect, Pending(), Contents())
    {
      hide VolumeOk, Sound, EntryOf, FilBytes, IsDir, FileOf, SlotPlace, FilOk, SizeOf;
    }

    /** The open files besides one keep their meaning when another area changes. */
    lemma OthersStay(slot: Slot, v: Vol, ws: nat, h: nat, pend: set<Slot>, c: map<Slot, seq<byte>>, c': map<Slot, seq<byte>>)
      requires VolumeOk(fs) && Others(slot, v, ws, pend, c) && Based(v) && Based(V()) && OnlyArea(v, V(), h)
      requires WindowGoes(fs.geo, fs.chains, h, ws, fs.winsect) && 0 !in v.chains && 0 !in fs.chains
      requires forall s {:trigger s in files} :: s in files && s != slot ==>
                 && s in starts && s in v.starts && starts[s] == v.starts[s] && EntryOf(V(), s) == EntryOf(v, s)
                 && (starts[s] == 0 || starts[s] != h) && s.dir in v.dirs
      requires PlacesKept(v, V())
      requires forall s {:trigger s in files} :: s in files && s != slot && s in c ==> s in c' && c'[s] == c[s]
      ensures Others(slot, V(), fs.winsect, pend, c')
    {
      hide VolumeOk, FilOk, FilBytes, FilView, EntryOf, SlotPlace, IsDir, SizeOf, Based, OnlyArea, WindowGoes, PlacesKept;
      StateIs();
      forall s | s in files && s != slot
        ensures OpenOk(fs, files[s], s, V(), fs.winsect) && s in c' && c'[s] == FilBytes(files[s], V())
      {
        FileStays(files[s], v, ws, V(), fs.winsect, h);
        PlaceStays(v, V(), s, files[s].dirSect, files[s].dirOfs);
      }
    }

    lemma StateIs()
      requires fs.Valid()
      ensures V().g == fs.geo && V().img == fs.Img() && V().chains == fs.chains && V().dirs == dirs && V().starts == starts
    {
      hide FatFs.Valid, FatFs.Img;
    }

    lemma BasedNow()
      requires VolumeOk(fs)
      ensures Based(V()) && V().g == fs.geo && V().img == fs.Img() && V().chains == fs.chains && V().dirs == dirs
              && V().starts == starts
      ensures |V().img| == fs.disk.Length
    {
      hide FatFs.Valid, FatFs.Img, FatOf, FatLayout, DataLayout, ChainsOk, FreeBelow;
    }

    lemma OthersMoved(slot: Slot, v: Vol, ws: nat, pend: set<Slot>, c: map<Slot, seq<byte>>, c': map<Slot, seq<byte>>, h: nat)
      requires VolumeOk(fs) && Others(slot, v, ws, pend, c) && Based(v) && Based(V()) && OnlyArea(v, V(), h)
      requires WindowGoes(fs.geo, fs.chains, h, ws, fs.winsect) && HeadsOk(v, {}) && slot in v.starts && slot in starts
      requires h == AreaOf(starts[slot]) && (starts[slot] == v.starts[slot] || (v.starts[slot] == 0 && starts[slot] !in v.chains))
      requires starts == v.starts[slot := starts[slot]] && forall s {:trigger s in v.starts} :: s in v.starts ==> s.dir in v.dirs
      requires forall s {:trigger s in v.starts} :: s in v.starts ==> EntryOf(V(), s) == EntryOf(v, s)
      requires PlacesKept(v, V()) && forall s {:trigger s in c} :: s != slot && s in c ==> s in c' && c'[s] == c[s]
      ensures Others(slot, V(), fs.winsect, pend, c')
    {
      hide VolumeOk, FilOk, FilBytes, FilView, EntryOf, SlotPlace, IsDir, SizeOf, Based, OnlyArea, WindowGoes, PlacesKept, AreaOf;
      BasedNow();
      NoZeroHead(v, {});
      forall s | s in files && s != slot
        ensures s in starts && s in v.starts && starts[s] == v.starts[s] && starts[s] != h && 0 !in v.chains && 0 !in fs.chains
      {
        assert OpenOk(fs, files[s], s, v, ws);
        StartDiffers(v, V(), slot, h, s, {});
      }
      NoHeadZero(V());
      OthersStay(slot, v, ws, h, pend, c, c');
    }

    lemma PendingBut(slot: Slot, v: Vol, ws: nat, pend: set<Slot>, c: map<Slot, seq<byte>>)
      requires Others(slot, v, ws, pend, c) && pend <= files.Keys
      ensures pend - {slot} == Pending() - {slot}
    {
      hide OpenOk, FilBytes;
    }

    /** The other files are other objects. */
    lemma OthersApart(slot: Slot)
      requires Valid() && slot in files
      ensures forall s {:trigger files[s]} :: s in files && s != slot ==>
                files[s] != files[slot] && files[s].buf != files[slot].buf && files[s].buf != fs.win
      ensures Pending() <= files.Keys
    {
      hide VolumeOk, Sound, FilOk, SlotPlace, EntryOf;
    }

    lemma PendingHas(slot: Slot)
      requires slot in files
      ensures slot in Pending() <==> files[slot].faWritten
    {
    }

    /** The file's own part of the volume's order. */
    lemma OwnPart(slot: Slot, v: Vol, pend: set<Slot>)
      requires VolumeOk(fs) && slot in files && files[slot].fs == fs && FilOk(files[slot], V(), fs.winsect) && files[slot].isOpen
      requires !files[slot].faError && files[slot].buf != fs.win
      requires slot in v.starts && !IsDir(EntryOf(v, slot)) && EntryOf(V(), slot) == EntryOf(v, slot) && v.g == fs.geo
      requires starts == v.starts[slot := files[slot].sclust] && SlotPlace(V(), slot, files[slot].dirSect, files[slot].dirOfs)
      requires Sound(v, {}, pend) && Sound(V(), {}, pend + {slot})
      requires pend - {slot} == Pending() - {slot} && (files[slot].faDirty ==> files[slot].faWritten)
      requires !files[slot].faWritten ==>
                 slot !in pend && files[slot].sclust == v.starts[slot] && SizeOf(EntryOf(v, slot)) == files[slot].fsize
      ensures Sound(V(), {}, Pending()) && OpenOk(fs, files[slot], slot, V(), fs.winsect)
    {
      hide Based, DirsOk, SlotsOk, HeadsOk, SubdirsOk, EntryOf, IsDir, SizeOf, StartOf, SlotPlace, VolumeOk, FileShape,
           ClustOk, Secs, Fits;
      PendingHas(slot);
      SameBut(pend, Pending(), slot);
      if !files[slot].faWritten {
        SoundMeans(v, {}, pend);
        assert Agrees(v, slot);
        Settled(V(), slot, {}, pend + {slot});
      }
    }

    /** After an operation on one file, the volume is in order again and only that file's contents differ. */
    lemma FileMoved(slot: Slot, v: Vol, ws: nat, pend: set<Slot>, c: map<Slot, seq<byte>>, view: seq<Sector>)
      requires slot in files && files[slot].fs == fs && files[slot].Valid() && files[slot].isOpen && !files[slot].faError
      requires files[slot].buf != fs.win && Apart() && Sound(v, {}, pend) && slot in v.starts && !IsDir(EntryOf(v, slot))
      requires SlotPlace(v, slot, files[slot].dirSect, files[slot].dirOfs) && Others(slot, v, ws, pend, c)
               && ContentsFor(v, files.Keys, c)
      requires starts == v.starts[slot := files[slot].sclust] && dirs == v.dirs && v.g == fs.geo && |v.img| == fs.disk.Length
      requires files[slot].OnlyChain(v.chains, v.starts[slot]) && TouchesOnly(v.g, view, files[slot].View(), files[slot].Chain())
      requires ViewOf(view, v.img, Secs(v.g, ChainAt(v.chains, v.starts[slot])))
      requires fs.winsect == ws || InFat(fs.geo, fs.winsect)
      requires pend <= files.Keys && (files[slot].faDirty ==> files[slot].faWritten)
      requires !files[slot].faWritten ==>
                 slot !in pend && files[slot].sclust == v.starts[slot] && SizeOf(EntryOf(v, slot)) == files[slot].fsize
      requires slot in c && |c[slot]| <= files[slot].fsize
      requires |files[slot].Chain()| == |ChainAt(v.chains, v.starts[slot])| || Snug(v.g, |files[slot].Chain()|, files[slot].fsize)
      ensures Valid() && Contents() == c[slot := files[slot].Content()] && NamesOf(V()) == NamesOf(v)
              && Pending() - {slot} == pend - {slot}
      ensures Regular(v, c) ==> Regular(V(), Contents())
    {
      hide *;
      var f := files[slot];
      var h := AreaOf(f.sclust);
      var c' := c[slot := f.Content()];
      SoundParts(v, {}, pend);
      StateIs();
      BasedNow();
      FileArea(f, v, V(), v.starts[slot], view);
      FileHead(f);
      FileHeadNoDir(v, V(), slot, h, {}, pend);
      FileStep(v, V(), slot, {}, pend);
      FileBounds(f);
      RegularByFile(v, V(), slot, {}, pend, c, f.Content());
      NamesKept(v, V());
      WindowNear(fs.geo, fs.chains, h, ws, fs.winsect);
      PlacesKeptNoDir(v, V(), h);
      OthersMoved(slot, v, ws, pend, c, c', h);
      FilOkIs(f, V());
      PlaceStays(v, V(), slot, f.dirSect, f.dirOfs);
      PendingBut(slot, v, ws, pend, c);
      OwnPart(slot, v, pend);
      ContentsMoved(v, V(), slot, files.Keys, c, f.Content());
      Whole(slot, pend, c');
    }

    /** The parts make a valid volume, with the given contents. */
    lemma Whole(slot: Slot, pend: set<Slot>, c: map<Slot, seq<byte>>)
      requires VolumeOk(fs) && Sound(V(), {}, Pending()) && Apart() && Others(slot, V(), fs.winsect, pend, c)
      requires slot in files ==> OpenOk(fs, files[slot], slot, V(), fs.winsect) && slot in c && c[slot] == FilBytes(files[slot], V())
      requires ContentsFor(V(), files.Keys, c)
      ensures Valid() && Contents() == c
    {
      hide Sound, VolumeOk, FilOk, FilBytes, FilView, EntryOf, SlotPlace, IsDir, SizeOf, FileOf, OpenOk;
    }

    /** After an operation on one file: that file waits for its sync, or nothing more waits than before. */
    lemma SavedAfter(slot: Slot, pend: set<Slot>, saved: bool, clean: bool)
      requires fs.Valid() && slot in files && Pending() - {slot} == pend - {slot} && (saved <==> (pend == {} ==> clean))
      requires files[slot].faWritten || (slot !in pend && (clean ==> fs.Clean()))
      ensures (saved ==> Saved()) && (OnDisk(fs) <==> fs.Clean())
    {
      hide FatFs.Valid, OnDisk, FatFs.Clean;
      PendingHas(slot);
      SavedIs();
      if !files[slot].faWritten { assert Pending() == Pending() - {slot} == pend; }
    }

    /** f_write on an open file: exactly that file's contents change; no name and no other file does. */
    method Write(f: Fil, ghost slot: Slot, wdata: seq<byte>) returns (res: FResult, bw: nat)
      requires Valid() && slot in files && files[slot] == f && |wdata| <= 0xFFFF_FFFF
      modifies this`starts, f, f.buf, fs, fs.disk, fs.win
      ensures Valid() && slot in old(Contents()) && NamesOf(V()) == old(NamesOf(V())) && f.faWrite == old(f.faWrite)
              && f.faRead == old(f.faRead)
      ensures res == if f.faWrite then FrOk else FrDenied
      ensures res == FrOk ==>
                && bw <= |wdata| && f.fptr == old(f.fptr) + bw && old(f.fptr) <= |old(Contents()[slot])|
                && Contents() == old(Contents())[slot := Splice(old(Contents())[slot], old(f.fptr), wdata[..bw])]
                && (bw < |wdata| ==> CountFree(Fat(fs)) == 0 || (bw == 0 && |old(Contents())[slot]| + |wdata| > 0xFFFF_FFFF))
      ensures res != FrOk ==> bw == 0 && Contents() == old(Contents())
      ensures old(Regular(V(), Contents())) ==> Regular(V(), Contents())
      ensures f.faWritten == (old(f.faWritten) || res == FrOk) && (res != FrOk && old(OnDisk(fs)) ==> OnDisk(fs))
      ensures old(Saved()) ==> Saved()
    {
      hide *;
      Begin(slot);
      SavedIs();
      ghost var saved, clean := Saved(), fs.Clean();
      OwnView(f);
      FileHead(f);
      FileBounds(f);
      ghost var v, ws, pend, c, view := V(), fs.winsect, Pending(), Contents(), f.View();
      PendingHas(slot);
      res, bw := f.Write(wdata);
      FileBounds(f);
      starts := starts[slot := f.sclust];
      PendingHas(slot);
      FileMoved(slot, v, ws, pend, c, view);
      SavedAfter(slot, pend, saved, clean);
    }

    /** f_read on an open file: the file's next bytes; nothing changes. */
    method Read(f: Fil, ghost slot: Slot, btr: nat) returns (res: FResult, data: seq<byte>)
      requires Valid() && slot in files && files[slot] == f
      modifies this`starts, f, f.buf, fs, fs.disk, fs.win
      ensures Valid() && Contents() == old(Contents()) && NamesOf(V()) == old(NamesOf(V())) && slot in Contents()
      ensures f.faWrite == old(f.faWrite) && f.faRead == old(f.faRead)
      ensures res == if f.faRead then FrOk else FrDenied
      ensures res == FrOk ==> old(f.fptr) + |data| == f.fptr <= |Contents()[slot]| && data == Contents()[slot][old(f.fptr)..f.fptr]
      ensures res == FrOk ==> |data| == if btr <= |Contents()[slot]| - old(f.fptr) then btr else |Contents()[slot]| - old(f.fptr)
      ensures old(Regular(V(), Contents())) ==> Regular(V(), Contents())
      ensures f.faWritten == old(f.faWritten) && (old(OnDisk(fs)) ==> OnDisk(fs))
      ensures old(Saved()) ==> Saved()
    {
      hide *;
      Begin(slot);
      SavedIs();
      ghost var saved, clean := Saved(), fs.Clean();
      PendingHas(slot);
      OwnView(f);
      FileHead(f);
      ghost var v, ws, pend, c, view := V(), fs.winsect, Pending(), Contents(), f.View();
      f.NothingWritten();
      FileBounds(f);
      res, data := f.Read(btr);
      f.NothingWritten();
      FileBounds(f);
      starts := starts[slot := f.sclust];
      FileMoved(slot, v, ws, pend, c, view);
      SavedAfter(slot, pend, saved, clean);
      SlotContents(slot);
    }

    /** f_lseek on an open file: the old contents stay, perhaps with more bytes behind them in write mode. */
    method Lseek(f: Fil, ghost slot: Slot, ofs: nat) returns (res: FResult)
      requires Valid() && slot in files && files[slot] == f && ofs <= 0xFFFF_FFFF
      modifies this`starts, f, f.buf, fs, fs.disk, fs.win
      ensures Valid() && NamesOf(V()) == old(NamesOf(V())) && res == FrOk && f.faWrite == old(f.faWrite)
              && f.faRead == old(f.faRead)
      ensures slot in old(Contents()) && slot in Contents() && old(Contents())[slot] <= Contents()[slot]
      ensures Contents() == old(Contents())[slot := Contents()[slot]]
      ensures |Contents()[slot]| == if f.fptr > |old(Contents())[slot]| then f.fptr else |old(Contents())[slot]|
      ensures !f.faWrite ==> f.fptr == if ofs > |old(Contents())[slot]| then |old(Contents())[slot]| else ofs
      ensures f.faWrite ==>
                f.fptr == ofs || (f.fptr < ofs && CountFree(Fat(fs)) == 0 && f.fptr == ClusterBytes(fs.geo, |f.Chain()|))
      ensures old(Regular(V(), Contents())) ==> Regular(V(), Contents())
      ensures f.faWritten == (old(f.faWritten) || |Contents()[slot]| > |old(Contents())[slot]|)
      ensures |Contents()[slot]| == |old(Contents())[slot]| && old(OnDisk(fs)) ==> OnDisk(fs)
      ensures old(Saved()) ==> Saved()
    {
      hide *;
      Begin(slot);
      SavedIs();
      ghost var saved, clean := Saved(), fs.Clean();
      PendingHas(slot);
      OwnView(f);
      FileHead(f);
      FileBounds(f);
      ghost var v, ws, pend, c, view := V(), fs.winsect, Pending(), Contents(), f.View();
      res := f.Lseek(ofs);
      OnlyFatTouched(fs.geo, view, f.View(), f.Chain());
      starts := starts[slot := f.sclust];
      FileBounds(f);
      FileMoved(slot, v, ws, pend, c, view);
      SavedAfter(slot, pend, saved, clean);
      assert Contents()[slot] == f.Content();
    }

    lemma Begin(slot: Slot)
      requires Valid() && slot in files
      ensures files[slot].fs == fs && files[slot].isOpen && !files[slot].faError && files[slot].buf != fs.win
              && files[slot].Valid()
      ensures files[slot].faDirty ==> files[slot].faWritten
      ensures slot in starts && starts[slot] == files[slot].sclust && !IsDir(EntryOf(V(), slot))
      ensures SlotPlace(V(), slot, files[slot].dirSect, files[slot].dirOfs)
      ensures !files[slot].faWritten ==> SizeOf(EntryOf(V(), slot)) == files[slot].fsize && slot !in Pending()
      ensures Sound(V(), {}, Pending()) && Based(V()) && Apart()
      ensures ContentsFor(V(), files.Keys, Contents()) && Others(slot, V(), fs.winsect, Pending(), Contents())
      ensures V().g == fs.geo && V().img == fs.Img() && V().chains == fs.chains && V().dirs == dirs && V().starts == starts
      ensures 0 !in V().chains && Pending() <= files.Keys
      ensures forall s {:trigger files[s]} :: s in files && s != slot ==>
                files[s] != files[slot] && files[s].buf != files[slot].buf && files[s].buf != fs.win
      ensures slot in Contents() && Contents()[slot] == files[slot].Content() && files[slot].fptr <= |Contents()[slot]|
    {
      hide *;
      FileIs(slot);
      SoundNow();
      ClosedAre();
      OthersAre(slot);
      BasedNow();
      SlotContents(slot);
      OthersApart(slot);
      PendingHas(slot);
      NoHeadZero(V());
    }

    /** Writes a dirty buffer back: no reader sees a change. */
    method Flush(f: Fil, ghost slot: Slot)
      requires Valid() && slot in files && files[slot] == f
      modifies f`faDirty, fs.disk
      ensures Valid() && !f.faDirty && Contents() == old(Contents()) && NamesOf(V()) == old(NamesOf(V()))
      ensures old(Regular(V(), Contents())) ==> Regular(V(), Contents())
    {
      hide *;
      Begin(slot);
      OwnView(f);
      FileHead(f);
      f.NothingWritten();
      f.ValidMeans();
      f.FileSizes();
      ghost var v, ws, pend, c, view := V(), fs.winsect, Pending(), Contents(), f.View();
      var r := f.FlushBuffer();
      Revalid(f);
      f.FileSizes();
      f.NothingWritten();
      PendingHas(slot);
      assert starts == v.starts[slot := f.sclust];
      FileMoved(slot, v, ws, pend, c, view);
      assert c[slot := f.Content()] == c;
    }

    /** f_sync's update of the directory entry of a written file. */
    method UpdateEntry(f: Fil, ghost slot: Slot, tm: nat)
      requires Valid() && slot in files && files[slot] == f && f.faWritten && !f.faDirty
      modifies f`faWritten, fs`winsect, fs`wflag, fs.disk, fs.win
      ensures Valid() && !f.faWritten && Contents() == old(Contents()) && NamesOf(V()) == old(NamesOf(V()))
      ensures old(Regular(V(), Contents())) ==> Regular(V(), Contents())
    {
      hide *;
      Begin(slot);
      FilOkIs(f, V());
      FileSizesOf(f);
      ghost var v, ws, pend, c := V(), fs.winsect, Pending(), Contents();
      PlaceReachable(slot);
      Fetch(fs, f.dirSect);
      OnVolumeIs(fs, v);
      PlaceInWindow(slot, f.dirSect, f.dirOfs, v, pend);
      StoreSynced(fs, slot, f.dirOfs, f.fsize, f.sclust, tm);
      f.faWritten := false;
      SyncDone(slot, v, ws, pend, c, tm);
    }

    /** The sector of an open file's entry can be brought into the window. */
    lemma PlaceReachable(slot: Slot)
      requires Valid() && slot in files
      ensures 0 < files[slot].dirSect < fs.disk.Length && !InMirror(fs.geo, files[slot].dirSect)
    {
      hide VolumeOk, Sound, FilOk, EntryOf, IsDir, SizeOf, DirSecs, SlotSector, Reach, SlotOffset;
      SoundNow();
      BasedNow();
      PlaceSector(V(), slot, files[slot].dirSect, files[slot].dirOfs, {}, Pending());
    }

    /** With its sector in the window, an entry is. */
    lemma PlaceInWindow(slot: Slot, sect: nat, ofs: nat, v: Vol, pend: set<Slot>)
      requires VolumeOk(fs) && Sound(v, {}, pend) && slot in v.starts && OnVolume(fs, v)
      requires SlotPlace(v, slot, sect, ofs) && fs.winsect == sect
      ensures InWindow(fs, slot) && ofs == SlotOffset(slot.index)
      ensures Tab(v, slot.dir) == TableOf(fs, slot) && slot.index < |Tab(v, slot.dir)|
              && EntryOf(v, slot) == TableOf(fs, slot)[slot.index]
    {
      hide VolumeOk, Sound, DirSecs, SlotSector, SlotOffset, Table, SectorsOk, DirSecsOk;
      PlaceSector(v, slot, sect, ofs, {}, pend);
      TabIs(v, slot.dir);
    }

    /** An entry in the window has its place there. */
    lemma WindowPlace(slot: Slot, v: Vol)
      requires InWindow(fs, slot) && OnVolume(fs, v)
      ensures SlotPlace(v, slot, fs.winsect, SlotOffset(slot.index))
      ensures Tab(v, slot.dir) == TableOf(fs, slot) && slot.index < |Tab(v, slot.dir)|
              && EntryOf(v, slot) == TableOf(fs, slot)[slot.index]
      ensures fs.winsect in DirSecs(v.g, v.chains, slot.dir) && 0 < fs.winsect < fs.disk.Length && !InMirror(fs.geo, fs.winsect)
    {
      hide VolumeOk, DirSecs, SlotSector, SlotOffset, Table, SectorsOk, DirSecsOk;
      TabIs(v, slot.dir);
      DirSector(fs.geo, fs.disk.Length, DirSecs(fs.geo, fs.chains, slot.dir), SlotSector(slot.index));
    }

    /** The open files besides one keep their meaning when one entry of a directory changes. */
    lemma OthersBySlot(slot: Slot, v: Vol, ws: nat, loose: set<nat>, pend: set<Slot>, c: map<Slot, seq<byte>>,
                       c': map<Slot, seq<byte>>, d: nat)
      requires VolumeOk(fs) && Others(slot, v, ws, pend, c) && Sound(v, loose, pend) && d in v.dirs
      requires OnlyArea(v, V(), DirHead(v.g, d)) && WindowGoes(fs.geo, fs.chains, DirHead(v.g, d), ws, fs.winsect)
               && PlacesKept(v, V())
      requires forall s {:trigger s in v.starts} :: s in v.starts && s != slot ==>
                 s in starts && starts[s] == v.starts[s] && EntryOf(V(), s) == EntryOf(v, s)
      requires forall s {:trigger s in c} :: s != slot && s in c ==> s in c' && c'[s] == c[s]
      ensures Others(slot, V(), fs.winsect, pend, c')
    {
      hide VolumeOk, FilOk, FilBytes, FilView, EntryOf, SlotPlace, IsDir, SizeOf, Based, OnlyArea, WindowGoes,
           PlacesKept, Sound, DirHead, V;
      BasedNow();
      SoundParts(v, loose, pend);
      NoHeadZero(V());
      forall s | s in files && s != slot ensures s in v.starts && (v.starts[s] == 0 || v.starts[s] != DirHead(v.g, d)) {
        assert OpenOk(fs, files[s], s, v, ws);
        FileNotDir(v, loose, pend, s, d);
      }
      OthersStay(slot, v, ws, DirHead(v.g, d), pend, c, c');
    }

    /** So does the file whose entry it is. */
    lemma OwnBySlot(slot: Slot, v: Vol, ws: nat, loose: set<nat>, pend: set<Slot>)
      requires VolumeOk(fs) && slot in files && FilOk(files[slot], v, ws) && Sound(v, loose, pend)
      requires slot in v.starts && v.starts[slot] == files[slot].sclust && !IsDir(EntryOf(v, slot)) && slot.dir in v.dirs
      requires OnlyArea(v, V(), DirHead(v.g, slot.dir)) && WindowGoes(fs.geo, fs.chains, DirHead(v.g, slot.dir), ws, fs.winsect)
      requires PlacesKept(v, V()) && SlotPlace(v, slot, files[slot].dirSect, files[slot].dirOfs)
      ensures FilOk(files[slot], V(), fs.winsect) && FilBytes(files[slot], V()) == FilBytes(files[slot], v)
      ensures SlotPlace(V(), slot, files[slot].dirSect, files[slot].dirOfs)
    {
      hide VolumeOk, FilOk, FilBytes, FilView, EntryOf, SlotPlace, IsDir, SizeOf, Based, OnlyArea, WindowGoes,
           PlacesKept, Sound, DirHead, V;
      BasedNow();
      SoundParts(v, loose, pend);
      NoHeadZero(V());
      FileNotDir(v, loose, pend, slot, slot.dir);
      FileStays(files[slot], v, ws, V(), fs.winsect, DirHead(v.g, slot.dir));
      PlaceStays(v, V(), slot, files[slot].dirSect, files[slot].dirOfs);
    }

    /** A synced entry says what is. */
    lemma SettledNow(slot: Slot, v: Vol, pend: set<Slot>)
      requires fs.Valid() && slot in files && slot in starts && starts[slot] == files[slot].sclust
               && FilOk(files[slot], V(), fs.winsect)
      requires Sound(V(), {}, pend + {slot}) && StartOf(fs.geo, EntryOf(V(), slot)) == starts[slot]
      requires SizeOf(EntryOf(V(), slot)) == files[slot].fsize
      ensures Sound(V(), {}, (pend + {slot}) - {slot})
    {
      hide Sound, EntryOf, IsDir, SizeOf, StartOf, FileShape, ClustOk, Secs, Fits, FatFs.Valid, FatFs.Img;
      Settled(V(), slot, {}, pend + {slot});
    }

    lemma TabInWindow(slot: Slot)
      requires InWindow(fs, slot)
      ensures Tab(V(), slot.dir) == TableOf(fs, slot)
    {
      hide VolumeOk, AtSlot, DirSecs, Table, SectorsOk;
      TabIs(V(), slot.dir);
    }

    /** f_sync's entry update, seen from the volume. */
    lemma SyncDone(slot: Slot, v: Vol, ws: nat, pend: set<Slot>, c: map<Slot, seq<byte>>, tm: nat)
      requires VolumeOk(fs) && slot in files && Apart() && Sound(v, {}, pend) && Others(slot, v, ws, pend, c)
               && pend <= files.Keys
      requires files[slot].fs == fs && files[slot].isOpen && !files[slot].faError && files[slot].buf != fs.win
               && FilOk(files[slot], v, ws)
      requires !files[slot].faWritten && !files[slot].faDirty && slot in c && c[slot] == FilBytes(files[slot], v)
      requires slot in v.starts && v.starts[slot] == files[slot].sclust && !IsDir(EntryOf(v, slot))
      requires SlotPlace(v, slot, files[slot].dirSect, files[slot].dirOfs) && ContentsFor(v, files.Keys, c)
      requires starts == v.starts && dirs == v.dirs && fs.chains == v.chains && fs.geo == v.g && files[slot].fsize <= 0xFFFF_FFFF
      requires InWindow(fs, slot) && slot.index < |Tab(v, slot.dir)| && EntryOf(v, slot) == Tab(v, slot.dir)[slot.index]
      requires TableOf(fs, slot) == Tab(v, slot.dir)[slot.index := Synced(EntryOf(v, slot), files[slot].fsize, files[slot].sclust, tm)]
      requires OnlySecs(fs.geo, v.img, fs.Img(), DirSecs(fs.geo, fs.chains, slot.dir))
      ensures Valid() && Contents() == c && NamesOf(V()) == NamesOf(v) && (Regular(v, c) ==> Regular(V(), c))
    {
      hide *;
      var f, h := files[slot], DirHead(v.g, slot.dir);
      var e' := Synced(EntryOf(v, slot), f.fsize, f.sclust, tm);
      BasedNow();
      SoundParts(v, {}, pend);
      TabInWindow(slot);
      StartFits(v, slot, {}, pend);
      SyncedFields(v.g, EntryOf(v, slot), f.fsize, f.sclust, tm);
      OwnerNoLabel(v, slot, {}, pend);
      SameStarts(v.starts, slot);
      EntryChanged(v, V(), slot, e', {}, pend);
      NothingFreed(v, V(), slot);
      SlotStep(v, V(), slot, {}, pend);
      KindPlain(EntryOf(v, slot), e');
      PlainStore(v, V(), slot.dir, slot.index, e');
      RegularInDir(v, V(), slot.dir, {}, pend, files.Keys, c);
      WindowInDir(v.g, fs.chains, slot.dir, ws, fs.winsect);
      PlacesSame(v, V());
      OthersBySlot(slot, v, ws, {}, pend, c, c, slot.dir);
      OwnBySlot(slot, v, ws, {}, pend);
      SettledNow(slot, v, pend);
      PendingBut(slot, v, ws, pend, c);
      PendingHas(slot);
      SameBut(pend, Pending(), slot);
      ContentsBySlot(v, V(), slot, files.Keys, c);
      OpenIs(fs, f, slot, V(), fs.winsect);
      Whole(slot, pend, c);
    }

    /** sync_fs, seen from the volume. */
    method SyncVolume()
      requires Valid()
      modifies fs`winsect, fs`wflag, fs`fsiFlag, fs.disk, fs.win
      ensures Valid() && Contents() == old(Contents()) && NamesOf(V()) == old(NamesOf(V())) && OnDisk(fs)
      ensures old(Regular(V(), Contents())) ==> Regular(V(), Contents())
      ensures forall d {:trigger d in dirs} :: d in dirs ==> Tab(V(), d) == old(Tab(V(), d))
    {
      hide *;
      SoundNow();
      ClosedAre();
      OthersAre(NOBODY);
      BasedNow();
      NobodyThere();
      BufsApart();
      FreeCountFits(fs);
      ghost var v, ws, pend, c := V(), fs.winsect, Pending(), Contents();
      var r := SyncFs(fs);
      MetaDone(v, ws, pend, c);
    }

    /** A change of the FSInfo sector, seen from the volume. */
    lemma MetaDone(v: Vol, ws: nat, pend: set<Slot>, c: map<Slot, seq<byte>>)
      requires VolumeOk(fs) && Apart() && Sound(v, {}, pend) && Others(NOBODY, v, ws, pend, c) && pend == Pending()
               && NOBODY !in files
      requires starts == v.starts && dirs == v.dirs && fs.chains == v.chains && fs.geo == v.g && ContentsFor(v, files.Keys, c)
      requires |v.img| == |fs.Img()|
      requires fs.Img() == v.img || (fs.geo.fsType == Fat32 && fs.geo.fsiSector < |fs.Img()|
                                     && fs.Img() == v.img[fs.geo.fsiSector := fs.Img()[fs.geo.fsiSector]])
      requires fs.winsect == ws || fs.winsect == 0
      ensures Valid() && Contents() == c && NamesOf(V()) == NamesOf(v) && (Regular(v, c) ==> Regular(V(), c))
      ensures forall d {:trigger d in v.dirs} :: d in v.dirs ==> Tab(V(), d) == Tab(v, d)
    {
      hide *;
      BasedNow();
      SoundParts(v, {}, pend);
      InfoArea(v, V(), fs.geo.fsiSector);
      NoHeadOne(v);
      NoHeadOne(V());
      WindowDropped(fs.geo, fs.chains, 1, ws, fs.winsect);
      LooseDone(v, ws, {}, pend, c, 1);
      assert {} - {1} == {};
      Whole(NOBODY, pend, c);
    }

    /** Open files have entries. */
    lemma OthersWere(slot: Slot, v: Vol, ws: nat, pend: set<Slot>, c: map<Slot, seq<byte>>)
      requires Others(slot, v, ws, pend, c)
      ensures forall s {:trigger s in files} :: s in files && s != slot ==> s in v.starts && !IsDir(EntryOf(v, s))
    {
      hide FilOk, FilBytes, EntryOf, SlotPlace, IsDir, SizeOf;
      forall s | s in files && s != slot ensures s in v.starts && !IsDir(EntryOf(v, s)) { assert OpenOk(fs, files[s], s, v, ws); }
    }

    lemma BufsApart()
      requires Valid()
      ensures forall s {:trigger files[s]} :: s in files ==> files[s].buf != fs.win
    {
      hide VolumeOk, Sound, FilOk, EntryOf, SlotPlace, IsDir, SizeOf;
    }

    lemma FilesHaveEntries()
      requires Valid()
      ensures files.Keys <= starts.Keys && Pending() <= files.Keys
    {
      hide VolumeOk, Sound, FilOk, EntryOf, SlotPlace, IsDir, SizeOf;
    }

    lemma NobodyThere()
      requires Valid()
      ensures NOBODY !in files && NOBODY !in starts
    {
      hide VolumeOk, FilOk, EntryOf, SlotPlace, IsDir, SizeOf;
      SoundNow();
      if NOBODY in starts { TooFar(V(), {}, Pending()); }
    }

    /** f_sync: the entry of a written file is brought up to date, and everything goes to the disk. */
    method Sync(f: Fil, ghost slot: Slot, tm: nat) returns (res: FResult)
      requires Valid() && slot in files && files[slot] == f
      modifies f`faWritten, f`faDirty, fs`winsect, fs`wflag, fs`fsiFlag, fs.disk, fs.win
      ensures Valid() && res == FrOk && !f.faWritten && !f.faDirty
      ensures Contents() == old(Contents()) && NamesOf(V()) == old(NamesOf(V()))
      ensures old(f.faWritten || OnDisk(fs)) ==> OnDisk(fs)
      ensures old(Saved()) ==> Saved()
      ensures old(Regular(V(), Contents())) ==> Regular(V(), Contents())
    {
      hide *;
      Begin(slot);
      SavedIs();
      if f.faWritten {
        if f.faDirty { Flush(f, slot); }
        UpdateEntry(f, slot, tm);
        SyncVolume();
        SavedIs();
      }
      return FrOk;
    }

    /** f_close: after a sync the file object is discarded; the contents live on in the volume. */
    method Close(f: Fil, ghost slot: Slot, tm: nat) returns (res: FResult)
      requires Valid() && slot in files && files[slot] == f
      modifies this`files, f`faWritten, f`faDirty, f`isOpen, fs`winsect, fs`wflag, fs`fsiFlag, fs.disk, fs.win
      ensures Valid() && res == FrOk && !f.isOpen && files == old(files) - {slot}
      ensures Contents() == old(Contents()) && NamesOf(V()) == old(NamesOf(V()))
              && (old(f.faWritten || OnDisk(fs)) ==> OnDisk(fs))
      ensures old(Saved()) ==> Saved()
      ensures old(Regular(V(), Contents())) ==> Regular(V(), Contents())
    {
      hide *;
      res := Sync(f, slot, tm);
      Begin(slot);
      SavedIs();
      ghost var v, ws, pend, c, files0 := V(), fs.winsect, Pending(), Contents(), files;
      ClosedBytes(slot);
      OthersMean(slot, v, ws, pend, c);
      f.isOpen := false;
      files := files - {slot};
      forall s | s in files && s != slot
        ensures OpenOk(fs, files[s], s, v, ws) && s in c && c[s] == FilBytes(files[s], v) && (s in pend <==> files[s].faWritten)
      {
        assert files[s] == files0[s];
      }
      OthersIs(slot, v, ws, pend, c);
      ApartStill(files0);
      CloseDone(slot, files0, v, ws, pend, c);
      SavedIs();
    }

    lemma OthersMean(slot: Slot, v: Vol, ws: nat, pend: set<Slot>, c: map<Slot, seq<byte>>)
      requires Others(slot, v, ws, pend, c) && Apart()
      ensures forall s {:trigger files[s]} :: s in files && s != slot ==>
                OpenOk(fs, files[s], s, v, ws) && s in c && c[s] == FilBytes(files[s], v) && (s in pend <==> files[s].faWritten)
      ensures forall s, t {:trigger files[s], files[t]} :: s in files && t in files && s != t ==>
                files[s] != files[t] && files[s].buf != files[t].buf
    {
      hide OpenOk, FilBytes;
    }

    lemma OthersIs(slot: Slot, v: Vol, ws: nat, pend: set<Slot>, c: map<Slot, seq<byte>>)
      requires forall s {:trigger files[s]} :: s in files && s != slot ==>
                 OpenOk(fs, files[s], s, v, ws) && s in c && c[s] == FilBytes(files[s], v) && (s in pend <==> files[s].faWritten)
      ensures Others(slot, v, ws, pend, c)
    {
      hide OpenOk, FilBytes;
    }

    lemma ApartStill(files0: map<Slot, Fil>)
      requires forall s {:trigger files[s]} :: s in files ==> s in files0 && files[s] == files0[s]
      requires forall s, t {:trigger files0[s], files0[t]} :: s in files0 && t in files0 && s != t ==>
                 files0[s] != files0[t] && files0[s].buf != files0[t].buf
      ensures Apart()
    {
    }

    /** A file that was not written since its last sync can be read from the volume. */
    lemma ClosedBytes(slot: Slot)
      requires Valid() && slot in files && !files[slot].faWritten
      ensures slot in starts && FileOf(V(), slot) == FilBytes(files[slot], V()) && slot in Contents()
              && Contents()[slot] == FilBytes(files[slot], V())
    {
      hide VolumeOk, Sound, FilOk, EntryOf, SlotPlace, IsDir, SizeOf, Flat, Fits;
      FileIs(slot);
    }

    lemma CloseDone(slot: Slot, files0: map<Slot, Fil>, v: Vol, ws: nat, pend: set<Slot>, c: map<Slot, seq<byte>>)
      requires VolumeOk(fs) && V() == v && fs.winsect == ws && Sound(v, {}, pend) && Others(slot, v, ws, pend, c) && Apart()
      requires files == files0 - {slot} && slot !in pend && pend <= files0.Keys && slot in v.starts && slot in c
               && c[slot] == FileOf(v, slot)
      requires ContentsFor(v, files0.Keys, c)
      ensures Valid() && Contents() == c && Pending() == pend
    {
      hide VolumeOk, Sound, OpenOk, FilBytes, FileOf, EntryOf, IsDir, V;
      assert pend <= files.Keys;
      PendingBut(slot, v, ws, pend, c);
      assert Pending() == pend;
      assert ContentsFor(v, files.Keys, c);
      Whole(slot, pend, c);
    }

    lemma Start()
      requires Valid()
      ensures Sound(V(), {}, Pending()) && Based(V()) && Apart() && ContentsFor(V(), files.Keys, Contents())
      ensures Others(NOBODY, V(), fs.winsect, Pending(), Contents()) && NOBODY !in files
      ensures V().g == fs.geo && V().img == fs.Img() && V().chains == fs.chains && V().dirs == dirs && V().starts == starts
      ensures OnVolume(fs, V()) && files.Keys <= starts.Keys && Pending() <= files.Keys && |V().img| == fs.disk.Length
      ensures forall s {:trigger files[s]} :: s in files ==> files[s].buf != fs.win
    {
      hide *;
      SoundNow();
      ClosedAre();
      OthersAre(NOBODY);
      BasedNow();
      NobodyThere();
      BufsApart();
      FilesHaveEntries();
      OnVolumeIs(fs, V());
    }

    /** follow_path, seen from the volume: nothing changes. */
    method Follow(dj: Dir, path: seq<Name>) returns (res: FResult)
      requires Valid() && dj.fs == fs && PathOk(path)
      modifies dj`sclust, dj`index, dj`clust, dj`sect
      modifies fs`winsect, fs`wflag, fs`lastClust, fs`freeClust, fs`fsiFlag, fs`chains, fs.disk, fs.win
      ensures Valid() && V() == old(V()) && Contents() == old(Contents()) && dj.Known() && dj.sclust in dirs
      ensures var r := Resolve(V(), 0, path);
              && res == (match r case AtStart => FrOk case AtEntry(_) => FrOk case Missing(_) => FrNoFile case NoWay => FrNoPath)
              && (r.Missing? ==> dj.sclust == r.dir)
              && (r.AtEntry? ==> Slot(dj.sclust, dj.index) == r.slot && dj.Stands(dj.index) && fs.winsect == dj.sect)
      ensures old(fs.Clean()) ==> fs.Clean()
    {
      hide *;
      Start();
      ghost var v, ws, pend, c := V(), fs.winsect, Pending(), Contents();
      ghost var wd;
      res, wd := FollowPath(dj, path, v, pend);
      OnVolumeMeans(fs, v);
      KnownVolume(dj);
      LookDone(v, ws, pend, c, wd);
    }

    /** A look into a directory changes nothing but the window. */
    lemma LookDone(v: Vol, ws: nat, pend: set<Slot>, c: map<Slot, seq<byte>>, wd: nat)
      requires VolumeOk(fs) && Apart() && Sound(v, {}, pend) && Others(NOBODY, v, ws, pend, c) && pend == Pending()
               && NOBODY !in files
      requires starts == v.starts && dirs == v.dirs && fs.chains == v.chains && fs.geo == v.g && fs.Img() == v.img
      requires ContentsFor(v, files.Keys, c) && wd in v.dirs && MovedIn(v.g, ws, fs.winsect, DirSecs(v.g, v.chains, wd))
      ensures Valid() && Contents() == c && V() == v
    {
      hide *;
      BasedNow();
      SameVol(V(), v);
      SameArea(v, DirHead(v.g, wd));
      WindowLooked(v.g, v.chains, wd, ws, fs.winsect);
      PlacesSame(v, v);
      OthersBySlot(NOBODY, v, ws, {}, pend, c, c, wd);
      Whole(NOBODY, pend, c);
    }

    /** dir_register, seen from the volume: a new, empty file under the name, or no change at all. */
    method CreateEntry(dj: Dir, name: Name) returns (res: FResult)
      requires Valid() && dj.fs == fs && dj.Known() && dj.sclust in dirs && SegmentOk(name)
               && name !in NameMap(Tab(V(), dj.sclust))
      modifies dj`index, dj`clust, dj`sect, this`starts
      modifies fs`winsect, fs`wflag, fs`lastClust, fs`freeClust, fs`fsiFlag, fs`chains, fs.disk, fs.win
      ensures Valid() && dj.Known() && dj.sclust in old(NamesOf(V()))
      ensures res == FrOk ==>
                && dj.Stands(dj.index) && fs.winsect == dj.sect && Slot(dj.sclust, dj.index) !in files
                && starts == old(starts)[Slot(dj.sclust, dj.index) := 0]
                     && EntryOf(V(), Slot(dj.sclust, dj.index)) == NewEntry(name)
                && Slot(dj.sclust, dj.index) !in old(Contents()) && Contents() == old(Contents())[Slot(dj.sclust, dj.index) := []]
                && NamesOf(V()) == WithName(old(NamesOf(V())), dj.sclust, name, dj.index)
      ensures res != FrOk ==> Contents() == old(Contents()) && NamesOf(V()) == old(NamesOf(V())) && starts == old(starts)
      ensures res != FrOk ==> NoRoom(old(Tab(V(), dj.sclust)), dj.Head(), res, CountFree(Fat(fs)))
      ensures old(Regular(V(), Contents())) ==> Regular(V(), Contents())
      ensures res != FrOk && old(fs.Clean()) ==> fs.Clean()
    {
      hide *;
      Start();
      ghost var v, ws, pend, c := V(), fs.winsect, Pending(), Contents();
      DirInNames(v, dj.sclust);
      res := RegisterAt(dj, name, v, {}, pend);
      KnownVolume(dj);
      if res == FrOk {
        starts := starts[Slot(dj.sclust, dj.index) := 0];
        BasedNow();
        WithSlotIs(fs, v, Slot(dj.sclust, dj.index));
        SameVol(V(), WithSlot(fs, v, Slot(dj.sclust, dj.index)));
        CreateDone(dj.sclust, dj.index, v, ws, pend, c, name);
      } else {
        OnVolumeMeans(fs, v);
        LookDone(v, ws, pend, c, dj.sclust);
      }
    }

    /** A registered name, seen from the volume: a new, empty file, and nothing else. */
    lemma CreateStep(d: nat, i: nat, v: Vol, ws: nat, loose: set<nat>, pend: set<Slot>, c: map<Slot, seq<byte>>, name: Name)
      requires VolumeOk(fs) && Sound(v, loose, pend) && Others(NOBODY, v, ws, pend, c) && NOBODY !in files
      requires ContentsFor(v, files.Keys, c) && pend <= v.starts.Keys && files.Keys <= v.starts.Keys
      requires d in v.dirs && Registered(v, V(), d, i, name) && SegmentOk(name)
      requires MovedIn(v.g, ws, fs.winsect, DirSecs(v.g, fs.chains, d))
      ensures Sound(V(), loose, pend) && Others(NOBODY, V(), fs.winsect, pend, c[Slot(d, i) := []])
      ensures ContentsFor(V(), files.Keys, c[Slot(d, i) := []]) && Slot(d, i) !in files && Slot(d, i) !in v.starts
              && Slot(d, i) !in c
      ensures EntryOf(V(), Slot(d, i)) == NewEntry(name) && d in NamesOf(v)
      ensures NamesOf(V()) == WithName(NamesOf(v), d, name, i) && OnlyArea(v, V(), DirHead(v.g, d))
      ensures Regular(v, c) ==> Regular(V(), c[Slot(d, i) := []])
    {
      hide *;
      var slot := Slot(d, i);
      var c' := c[slot := []];
      BasedNow();
      RegisteredMeans(v, V(), d, i, name);
      SoundParts(v, loose, pend);
      GrownArea(v, V(), d);
      NewSlot(v, slot, loose, pend);
      EntryAtSlot(V(), slot);
      NewEntryFields(v.g, name);
      NewSlotChange(v, V(), slot);
      SlotStep(v, V(), slot, loose, pend);
      ContentsHave(v, files.Keys, c);
      DirIs(v, d, loose, pend);
      PlainGrown(v, V(), d, i);
      RegularBySlot(v, V(), slot, d, loose, pend, files.Keys, c, c');
      NoneFreed(v, V(), slot, loose);
      EmptyAgrees(V(), slot, loose, pend);
      WindowLooked(v.g, fs.chains, d, ws, fs.winsect);
      GrownPlaces(v, V(), d, loose, pend);
      NotInContents(v, files.Keys, c, slot);
      OthersBySlot(NOBODY, v, ws, loose, pend, c, c', d);
      NewContents(v, V(), slot, files.Keys, c);
      NewNames(v, V(), d, name, i, loose, pend);
    }

    lemma CreateDone(d: nat, i: nat, v: Vol, ws: nat, pend: set<Slot>, c: map<Slot, seq<byte>>, name: Name)
      requires VolumeOk(fs) && Apart() && Sound(v, {}, pend) && Others(NOBODY, v, ws, pend, c) && pend == Pending()
               && NOBODY !in files
      requires ContentsFor(v, files.Keys, c) && pend <= v.starts.Keys && files.Keys <= v.starts.Keys
      requires d in v.dirs && Registered(v, V(), d, i, name) && SegmentOk(name)
      requires MovedIn(v.g, ws, fs.winsect, DirSecs(v.g, fs.chains, d))
      ensures Valid() && Contents() == c[Slot(d, i) := []] && Slot(d, i) !in files && Slot(d, i) !in c
      ensures EntryOf(V(), Slot(d, i)) == NewEntry(name) && d in NamesOf(v)
      ensures NamesOf(V()) == WithName(NamesOf(v), d, name, i) && (Regular(v, c) ==> Regular(V(), c[Slot(d, i) := []]))
    {
      hide *;
      CreateStep(d, i, v, ws, {}, pend, c, name);
      Whole(NOBODY, pend, c[Slot(d, i) := []]);
    }

    /** f_open's truncation of the entry in the window: the file is empty, its chain is free. */
    method Empty(ghost slot: Slot, ofs: nat, tm: nat)
      requires Valid() && slot in starts && slot !in files && !IsDir(EntryOf(V(), slot)) && InWindow(fs, slot)
               && ofs == SlotOffset(slot.index)
      modifies this`starts, fs`winsect, fs`wflag, fs`lastClust, fs`freeClust, fs`fsiFlag, fs`chains, fs.disk, fs.win
      ensures Valid() && InWindow(fs, slot) && starts == old(starts)[slot := 0] && !IsDir(EntryOf(V(), slot))
      ensures Contents() == old(Contents())[slot := []] && NamesOf(V()) == old(NamesOf(V()))
      ensures old(Regular(V(), Contents())) ==> Regular(V(), Contents())
    {
      hide *;
      Start();
      ghost var v, ws, pend, c := V(), fs.winsect, Pending(), Contents();
      ghost var c' := c[slot := []];
      WindowPlace(slot, v);
      var cl := StoreEmptied(fs, slot, ofs, tm);
      starts := starts[slot := 0];
      EmptiedDone(slot, v, ws, pend, c, tm);
      if cl != 0 {
        DropAndReturn(slot, ofs, cl, pend, c');
      } else {
        Whole(NOBODY, pend, c');
      }
    }

    /** Frees the chain that an entry had, and brings the entry back into the window. */
    method DropAndReturn(ghost slot: Slot, ofs: nat, cl: nat, ghost pend: set<Slot>, ghost c: map<Slot, seq<byte>>)
      requires VolumeOk(fs) && Apart() && Sound(V(), {cl}, pend) && Others(NOBODY, V(), fs.winsect, pend, c) && pend == Pending()
      requires ContentsFor(V(), files.Keys, c) && NOBODY !in files && forall s {:trigger files[s]} :: s in files ==>
               files[s].buf != fs.win
      requires InWindow(fs, slot) && slot in starts && ofs == SlotOffset(slot.index) && cl > 0
      modifies fs`winsect, fs`wflag, fs`lastClust, fs`freeClust, fs`fsiFlag, fs`chains, fs.disk, fs.win
      ensures Valid() && Contents() == c && NamesOf(V()) == old(NamesOf(V())) && InWindow(fs, slot)
      ensures EntryOf(V(), slot) == old(EntryOf(V(), slot)) && (old(Regular(V(), c)) ==> Regular(V(), c))
    {
      hide *;
      OnVolumeNow();
      ghost var v := V();
      BasedNow();
      WindowPlace(slot, v);
      SoundParts(v, {cl}, pend);
      var dw := fs.winsect;
      DropOwnerless(cl, pend, c);
      fs.lastClust := cl - 1;
      PlaceStays(v, V(), slot, dw, ofs);
      assert slot in starts && SlotPlace(V(), slot, dw, SlotOffset(slot.index));
      Fetched(dw);
      OnVolumeNow();
      SoundNow();
      BasedNow();
      PlaceInWindow(slot, dw, ofs, V(), Pending());
    }

    /** Frees a chain that has no owner any more. */
    method DropOwnerless(h: nat, ghost pend: set<Slot>, ghost c: map<Slot, seq<byte>>)
      requires VolumeOk(fs) && Apart() && Sound(V(), {h}, pend) && Others(NOBODY, V(), fs.winsect, pend, c) && pend == Pending()
      requires ContentsFor(V(), files.Keys, c) && NOBODY !in files && forall s {:trigger files[s]} :: s in files ==>
               files[s].buf != fs.win
      modifies fs`winsect, fs`wflag, fs`freeClust, fs`fsiFlag, fs`chains, fs.disk, fs.win
      ensures Valid() && Contents() == c && NamesOf(V()) == old(NamesOf(V())) && Sound(V(), {}, pend)
              && fs.chains == old(fs.chains) - {h}
      ensures h in old(fs.chains) && (|old(fs.chains)[h]| == 1 ==> fs.wflag)
      ensures PlacesKept(old(V()), V()) && forall s {:trigger s in starts} :: s in starts ==>
              EntryOf(V(), s) == old(EntryOf(V(), s))
      ensures fs.winsect == old(fs.winsect) || InFat(fs.geo, fs.winsect)
      ensures old(Regular(V(), c)) ==> Regular(V(), c)
    {
      hide *;
      BasedNow();
      ghost var v, ws := V(), fs.winsect;
      LooseHere(v, h, pend);
      var r := DropChain(fs, h);
      DropDone(v, ws, pend, c, h);
    }

    /** Brings a sector back into the window. */
    method Fetched(sect: nat)
      requires Valid() && exists s :: s in starts && SlotPlace(V(), s, sect, SlotOffset(s.index))
      modifies fs`winsect, fs`wflag, fs.disk, fs.win
      ensures Valid() && V() == old(V()) && Contents() == old(Contents()) && fs.winsect == sect && VolumeOk(fs)
    {
      hide *;
      Start();
      ghost var v, ws, pend, c := V(), fs.winsect, Pending(), Contents();
      ghost var s :| s in starts && SlotPlace(v, s, sect, SlotOffset(s.index));
      SoundParts(v, {}, pend);
      PlaceSector(v, s, sect, SlotOffset(s.index), {}, pend);
      Fetch(fs, sect);
      PlaceMoved(v, s, sect, SlotOffset(s.index), ws);
      LookDone(v, ws, pend, c, s.dir);
    }

    /** For slots that are not open, Others says the same. */
    lemma OthersSwap(a: Slot, b: Slot, v: Vol, ws: nat, pend: set<Slot>, c: map<Slot, seq<byte>>)
      requires Others(a, v, ws, pend, c) && a !in files && b !in files
      ensures Others(b, v, ws, pend, c)
    {
      hide OpenOk, FilBytes;
    }

    lemma OnVolumeNow()
      requires VolumeOk(fs)
      ensures OnVolume(fs, V())
    {
      hide *;
      BasedNow();
      OnVolumeIs(fs, V());
    }

    /** The emptied entry, seen from the volume: its old chain has no owner. */
    lemma EmptiedDone(slot: Slot, v: Vol, ws: nat, pend: set<Slot>, c: map<Slot, seq<byte>>, tm: nat)
      requires InWindow(fs, slot) && Sound(v, {}, pend) && Others(NOBODY, v, ws, pend, c) && ContentsFor(v, files.Keys, c)
      requires slot in v.starts && slot !in files && !IsDir(EntryOf(v, slot)) && pend <= files.Keys && NOBODY !in files
      requires starts == v.starts[slot := 0] && dirs == v.dirs && fs.chains == v.chains && fs.geo == v.g && |fs.Img()| == |v.img|
      requires fs.winsect == ws && slot.index < |Tab(v, slot.dir)| && EntryOf(v, slot) == Tab(v, slot.dir)[slot.index]
      requires TableOf(fs, slot) == Tab(v, slot.dir)[slot.index := Emptied(EntryOf(v, slot), tm)]
      requires OnlySecs(fs.geo, v.img, fs.Img(), DirSecs(fs.geo, fs.chains, slot.dir))
      ensures VolumeOk(fs) && NamesOf(V()) == NamesOf(v) && Others(NOBODY, V(), ws, pend, c[slot := []])
      ensures Sound(V(), if v.starts[slot] == 0 then {} else {v.starts[slot]}, pend)
              && StartOf(v.g, EntryOf(v, slot)) == v.starts[slot]
      ensures ContentsFor(V(), files.Keys, c[slot := []]) && !IsDir(EntryOf(V(), slot)) && SlotOffset(slot.index) + 32 <= 512
      ensures Regular(v, c) ==> Regular(V(), c[slot := []])
    {
      hide *;
      var e' := Emptied(EntryOf(v, slot), tm);
      InWindowMeans(fs, slot);
      BasedNow();
      SoundParts(v, {}, pend);
      TabInWindow(slot);
      EmptiedFields(v.g, EntryOf(v, slot), tm);
      EntryAgrees(v, slot, {}, pend);
      OneStart(v.starts, slot, 0);
      EntryChanged(v, V(), slot, e', {}, pend);
      ToZeroFreed(v, V(), slot);
      SlotStep(v, V(), slot, {}, pend);
      ContentsHave(v, files.Keys, c);
      KindPlain(EntryOf(v, slot), e');
      PlainStore(v, V(), slot.dir, slot.index, e');
      RegularBySlot(v, V(), slot, slot.dir, {}, pend, files.Keys, c, c[slot := []]);
      EmptyAgrees(V(), slot, if v.starts[slot] == 0 then {} else {v.starts[slot]}, pend);
      PlacesSame(v, V());
      WindowStill(v.g, fs.chains, DirHead(v.g, slot.dir), ws);
      OthersSwap(NOBODY, slot, v, ws, pend, c);
      OthersBySlot(slot, v, ws, {}, pend, c, c[slot := []], slot.dir);
      OthersSwap(slot, NOBODY, V(), fs.winsect, pend, c[slot := []]);
      ContentsEmptied(v, V(), slot, files.Keys, c);
    }

    /** A change to a chain without owner, seen from the volume. */
    lemma LooseDone(v: Vol, ws: nat, loose: set<nat>, pend: set<Slot>, c: map<Slot, seq<byte>>, h: nat)
      requires VolumeOk(fs) && Sound(v, loose, pend) && Others(NOBODY, v, ws, pend, c) && NOBODY !in files
      requires starts == v.starts && dirs == v.dirs && fs.geo == v.g && OnlyArea(v, V(), h) && ContentsFor(v, files.Keys, c)
      requires WindowGoes(fs.geo, fs.chains, h, ws, fs.winsect) && (h in loose || (h != 0 && h !in v.chains))
      ensures Sound(V(), if h in fs.chains then loose + {h} else loose - {h}, pend) && Others(NOBODY, V(), fs.winsect, pend, c)
      ensures ContentsFor(V(), files.Keys, c) && NamesOf(V()) == NamesOf(v) && PlacesKept(v, V())
              && (Regular(v, c) ==> Regular(V(), c))
      ensures forall s {:trigger s in v.starts} :: s in v.starts ==> EntryOf(V(), s) == EntryOf(v, s)
      ensures forall d {:trigger d in v.dirs} :: d in v.dirs ==> Tab(V(), d) == Tab(v, d)
    {
      hide *;
      BasedNow();
      SoundParts(v, loose, pend);
      if h in loose { LooseNoDir(v, loose, pend, h); } else { FreshNoDir(v, loose, pend, h); }
      LooseStep(v, V(), h, loose, pend);
      RegularLoose(v, V(), h, loose, pend, files.Keys, c);
      TabsAndNames(v, V(), h, loose, pend);
      PlacesKeptNoDir(v, V(), h);
      NoHeadZero(V());
      LooseStarts(v, loose, pend, h);
      OthersWere(NOBODY, v, ws, pend, c);
      OthersStay(NOBODY, v, ws, h, pend, c, c);
      ContentsStay(v, V(), files.Keys, c);
    }

    /** The chain of a head without owner is freed, seen from the volume. */
    lemma DropDone(v: Vol, ws: nat, pend: set<Slot>, c: map<Slot, seq<byte>>, h: nat)
      requires VolumeOk(fs) && Apart() && Sound(v, {h}, pend) && Others(NOBODY, v, ws, pend, c) && pend == Pending()
               && NOBODY !in files
      requires starts == v.starts && dirs == v.dirs && fs.chains == v.chains - {h} && fs.geo == v.g
               && SameOutsideFat(v.g, v.img, fs.Img())
      requires ContentsFor(v, files.Keys, c) && (fs.winsect == ws || InFat(fs.geo, fs.winsect))
      ensures Valid() && Contents() == c && NamesOf(V()) == NamesOf(v) && Sound(V(), {}, pend)
              && (Regular(v, c) ==> Regular(V(), c))
      ensures PlacesKept(v, V()) && forall s {:trigger s in v.starts} :: s in v.starts ==> EntryOf(V(), s) == EntryOf(v, s)
    {
      hide *;
      BasedNow();
      FreedArea(v, V(), h);
      WindowNear(fs.geo, fs.chains, h, ws, fs.winsect);
      LooseDone(v, ws, {h}, pend, c, h);
      assert {h} - {h} == {};
      Whole(NOBODY, pend, c);
    }

    /** The end of f_open: a file object for the entry in the window. */
    method Attach(ghost slot: Slot, ofs: nat, read: bool, write: bool, written: bool) returns (f: Fil)
      requires Valid() && slot in starts && slot !in files && !IsDir(EntryOf(V(), slot)) && InWindow(fs, slot)
               && ofs == SlotOffset(slot.index)
      modifies this`files
      ensures Valid() && fresh(f) && fresh(f.buf) && files == old(files)[slot := f] && Contents() == old(Contents())
      ensures f.faRead == read && f.faWrite == write && f.faWritten == written && f.fptr == 0
      ensures Pending() == old(Pending()) + (if written then {slot} else {})
      ensures old(Regular(V(), Contents())) ==> Regular(V(), Contents())
    {
      hide *;
      Start();
      ghost var v, ws, pend, c, files0 := V(), fs.winsect, Pending(), Contents(), files;
      OthersMean(NOBODY, v, ws, pend, c);
      EntryShown(fs, slot);
      WindowPlace(slot, v);
      var dir: Entry := fs.win[ofs..ofs + 32];
      f := new Fil(fs, fs.winsect, ofs, StartOf(fs.geo, dir), SizeOf(dir), read, write, written);
      files := files[slot := f];
      forall s | s in files && s != slot
        ensures OpenOk(fs, files[s], s, v, ws) && s in c && c[s] == FilBytes(files[s], v) && (s in pend <==> files[s].faWritten)
      {
        assert files[s] == files0[s];
      }
      OthersIs(slot, v, ws, pend, c);
      ApartMore(files0, slot);
      AttachDone(slot, f, files0, v, ws, pend, c);
    }

    lemma ApartMore(files0: map<Slot, Fil>, slot: Slot)
      requires slot !in files0 && slot in files && files == files0[slot := files[slot]]
      requires forall s, t {:trigger files0[s], files0[t]} :: s in files0 && t in files0 && s != t ==>
                 files0[s] != files0[t] && files0[s].buf != files0[t].buf
      requires forall s {:trigger files0[s]} :: s in files0 ==> files0[s] != files[slot] && files0[s].buf != files[slot].buf
      ensures Apart()
    {
    }

    lemma AttachDone(slot: Slot, f: Fil, files0: map<Slot, Fil>, v: Vol, ws: nat, pend: set<Slot>, c: map<Slot, seq<byte>>)
      requires VolumeOk(fs) && OnVolume(fs, v) && V() == v && fs.winsect == ws && Sound(v, {}, pend)
               && Others(slot, v, ws, pend, c) && Apart()
      requires slot !in files0 && files == files0[slot := f] && pend <= files0.Keys && ContentsFor(v, files0.Keys, c)
      requires slot in v.starts && !IsDir(EntryOf(v, slot)) && SlotPlace(v, slot, f.dirSect, f.dirOfs) && f.dirSect == ws
      requires ws in DirSecs(v.g, v.chains, slot.dir)
      requires f.fs == fs && f.isOpen && !f.faError && f.buf != fs.win && f.buf.Length == 512 && !f.faDirty
               && f.fptr == 0 && f.dsect == 0
      requires f.sclust == StartOf(v.g, EntryOf(v, slot)) && f.fsize == SizeOf(EntryOf(v, slot))
      ensures Valid() && Contents() == c && Pending() == pend + (if f.faWritten then {slot} else {})
    {
      hide *;
      EntryAgrees(v, slot, {}, pend);
      NewFil(f, v, slot, ws, pend);
      OpenIs(fs, f, slot, v, ws);
      PendingGrows(slot, v, ws, pend, c);
      SoundMore(v, {}, pend, Pending());
      ContentsWith(v, files0.Keys, files.Keys, slot, c);
      Whole(slot, pend, c);
    }

    lemma PendingGrows(slot: Slot, v: Vol, ws: nat, pend: set<Slot>, c: map<Slot, seq<byte>>)
      requires Others(slot, v, ws, pend, c) && pend <= files.Keys && slot !in pend && slot in files
      ensures pend <= Pending() && Pending() == pend + (if files[slot].faWritten then {slot} else {})
    {
      hide OpenOk, FilBytes;
      PendingBut(slot, v, ws, pend, c);
      assert forall s :: s != slot ==> (s in pend <==> s in pend - {slot}) && (s in Pending() <==> s in Pending() - {slot});
    }

    /** f_open once the path has led to an entry. */
    method OpenFound(dj: Dir, mode: Mode, tm: nat) returns (res: FResult, f: Fil?)
      requires Valid() && dj.fs == fs && dj.Known() && dj.Stands(dj.index) && fs.winsect == dj.sect
      requires Slot(dj.sclust, dj.index) in starts && Slot(dj.sclust, dj.index) !in files
      modifies this`starts, this`files, fs`winsect, fs`wflag, fs`lastClust, fs`freeClust, fs`fsiFlag, fs`chains, fs.disk, fs.win
      ensures Valid() && NamesOf(V()) == old(NamesOf(V())) && res == FoundResult(old(EntryOf(V(), Slot(dj.sclust, dj.index))), mode)
      ensures if res == FrOk then f != null && fresh(f) && OpenedAs(f, mode, mode.createAlways)
              && files == old(files)[Slot(dj.sclust, dj.index) := f]
              else f == null && files == old(files)
      ensures Contents() == if res == FrOk && mode.createAlways then old(Contents())[Slot(dj.sclust, dj.index) := []]
              else old(Contents())
      ensures old(Regular(V(), Contents())) ==> Regular(V(), Contents())
      ensures (res != FrOk || !f.faWritten) && old(fs.Clean()) ==> fs.Clean()
      ensures res == FrOk ==> Pending() == old(Pending()) + (if f.faWritten then {Slot(dj.sclust, dj.index)} else {})
    {
      hide *;
      ghost var slot := Slot(dj.sclust, dj.index);
      f := null;
      Start();
      CursorInWindow(dj);
      EntryShown(fs, slot);
      WindowPlace(slot, V());
      var o := SlotOffset(dj.index);
      var dir: Entry := fs.win[o..o + 32];
      if Creating(mode) {
        if IsReadOnly(dir) || IsDir(dir) {
          res := FrDenied;
        } else if mode.createNew {
          res := FrExist;
        } else {
          res := FrOk;
        }
        FoundIs(dir, mode, res);
        if res == FrOk && mode.createAlways { Empty(slot, o, tm); }
      } else {
        if IsDir(dir) {
          res := FrNoFile;
        } else if mode.write && IsReadOnly(dir) {
          res := FrDenied;
        } else {
          res := FrOk;
        }
        FoundIs(dir, mode, res);
      }
      if res == FrOk {
        f := Attach(slot, o, mode.read, mode.write, mode.createAlways);
        OpenedIs(f, mode, mode.createAlways);
      }
    }

    /** f_open where the path's last name is in no entry. */
    method OpenMissing(dj: Dir, name: Name, mode: Mode, tm: nat) returns (res: FResult, f: Fil?)
      requires Valid() && dj.fs == fs && dj.Known() && dj.sclust in dirs && SegmentOk(name)
               && name !in NameMap(Tab(V(), dj.sclust))
      modifies dj`index, dj`clust, dj`sect, this`starts, this`files
      modifies fs`winsect, fs`wflag, fs`lastClust, fs`freeClust, fs`fsiFlag, fs`chains, fs.disk, fs.win
      ensures Valid() && dj.sclust in old(NamesOf(V())) && (!Creating(mode) ==> res == FrNoFile)
      ensures res == FrOk ==>
                && f != null && fresh(f) && OpenedAs(f, mode, true) && Slot(dj.sclust, dj.index) !in old(files)
                && files == old(files)[Slot(dj.sclust, dj.index) := f] && Slot(dj.sclust, dj.index) !in old(Contents())
                && Contents() == old(Contents())[Slot(dj.sclust, dj.index) := []]
                && NamesOf(V()) == WithName(old(NamesOf(V())), dj.sclust, name, dj.index)
      ensures res != FrOk ==> f == null && files == old(files) && Contents() == old(Contents()) && NamesOf(V()) == old(NamesOf(V()))
      ensures res != FrOk && Creating(mode) ==> NoRoom(old(Tab(V(), dj.sclust)), dj.Head(), res, CountFree(Fat(fs)))
      ensures old(Regular(V(), Contents())) ==> Regular(V(), Contents())
      ensures res != FrOk && old(fs.Clean()) ==> fs.Clean()
      ensures res == FrOk ==> f.faWritten && Pending() == old(Pending()) + {Slot(dj.sclust, dj.index)}
    {
      hide *;
      f := null;
      res := FrNoFile;
      BasedNow();
      DirInNames(V(), dj.sclust);
      if Creating(mode) {
        res := CreateEntry(dj, name);
        if res == FrOk {
          ghost var slot := Slot(dj.sclust, dj.index);
          BasedNow();
          NewEntryFields(fs.geo, name);
          CursorInWindow(dj);
          assert Contents()[slot := []] == Contents();
          Empty(slot, SlotOffset(dj.index), tm);
          f := Attach(slot, SlotOffset(dj.index), mode.read, mode.write, true);
          OpenedIs(f, mode, true);
        }
      }
    }

    /** f_open. */
    method Open(path: seq<Name>, mode: Mode, tm: nat) returns (res: FResult, f: Fil?, ghost slot: Slot)
      requires Valid() && PathOk(path) && (Resolve(V(), 0, path).AtEntry? ==> Resolve(V(), 0, path).slot !in files)
      modifies this`starts, this`files, fs`winsect, fs`wflag, fs`lastClust, fs`freeClust, fs`fsiFlag, fs`chains, fs.disk, fs.win
      ensures Valid()
      ensures res != FrOk ==> f == null && files == old(files) && Contents() == old(Contents()) && NamesOf(V()) == old(NamesOf(V()))
      ensures res == FrOk ==> f != null && fresh(f) && files == old(files)[slot := f]
      ensures old(Resolve(V(), 0, path)).AtStart? ==> res == FrInvalidName
      ensures old(Resolve(V(), 0, path)).NoWay? ==> res == FrNoPath
      ensures old(Resolve(V(), 0, path)).AtEntry? ==>
                && res == FoundResult(old(EntryOf(V(), Resolve(V(), 0, path).slot)), mode)
                     && slot == old(Resolve(V(), 0, path)).slot
                && NamesOf(V()) == old(NamesOf(V())) && (res == FrOk ==> OpenedAs(f, mode, mode.createAlways))
                && Contents() == if res == FrOk && mode.createAlways then old(Contents())[slot := []] else old(Contents())
      ensures old(Resolve(V(), 0, path)).Missing? && res == FrOk ==>
                && Creating(mode) && path != [] && slot.dir == old(Resolve(V(), 0, path)).dir && slot !in old(files)
                     && OpenedAs(f, mode, true)
                && slot !in old(Contents()) && Contents() == old(Contents())[slot := []] && slot.dir in old(NamesOf(V()))
                && NamesOf(V()) == WithName(old(NamesOf(V())), slot.dir, path[|path| - 1], slot.index)
      ensures old(Resolve(V(), 0, path)).Missing? && res != FrOk ==>
                if !Creating(mode) then res == FrNoFile
                else var d := old(Resolve(V(), 0, path)).dir; NoRoom(old(Tab(V(), d)), DirHead(fs.geo, d), res, CountFree(Fat(fs)))
      ensures old(Regular(V(), Contents())) ==> Regular(V(), Contents())
      ensures (res != FrOk || !f.faWritten) && old(OnDisk(fs)) ==> OnDisk(fs)
      ensures old(Saved()) ==> Saved()
    {
      hide *;
      f := null;
      Start();
      SavedIs();
      RootHere();
      ResolveMeans(V(), {}, Pending(), 0, path);
      var dj := new Dir(fs, 0);
      res := Follow(dj, path);
      slot := Slot(dj.sclust, dj.index);
      if res == FrOk {
        if path == [] {
          SavedIs();
          return FrInvalidName, null, slot;
        }
        BasedNow();
        res, f := OpenFound(dj, mode, tm);
      } else if res == FrNoFile {
        LastSegment(path);
        HeadIs(dj);
        res, f := OpenMissing(dj, path[|path| - 1], mode, tm);
        slot := Slot(dj.sclust, dj.index);
      }
      SavedIs();
    }

    lemma RootHere()
      requires Valid()
      ensures 0 in dirs
    {
      hide *;
      SoundNow();
      BasedNow();
      SoundParts(V(), {}, Pending());
      RootIn(V());
    }

    /** f_unlink's look into a directory: it must hold nothing behind the dot entries. */
    method CheckEmpty(c: nat) returns (res: FResult)
      requires Valid() && c in dirs && c != 0
      modifies fs`winsect, fs`wflag, fs`lastClust, fs`freeClust, fs`fsiFlag, fs`chains, fs.disk, fs.win
      ensures Valid() && V() == old(V()) && Contents() == old(Contents()) && 2 <= |Tab(V(), c)|
      ensures res == if ItemScan(Tab(V(), c), 2) < |Tab(V(), c)| then FrDenied else FrOk
      ensures old(fs.Clean()) ==> fs.Clean()
    {
      hide *;
      Start();
      ghost var v, ws, pend, cs := V(), fs.winsect, Pending(), Contents();
      var sdj := new Dir(fs, c);
      DirKnownHere(sdj, v, {}, pend);
      EntriesTab(sdj, v);
      DotsHere(v, c, {}, pend);
      SecondEntry(sdj);
      res := sdj.Sdi(2);
      if res != FrOk { assert false; }
      ghost var ws1 := fs.winsect;
      res := sdj.ReadItem();
      KnownVolume(sdj);
      OnVolumeIs(fs, v);
      EntriesTab(sdj, v);
      MovedOn(v.g, ws, ws1, fs.winsect, [], DirSecs(v.g, v.chains, c));
      LookDone(v, ws, pend, cs, c);
      if res == FrOk { res := FrDenied; }
      if res == FrNoFile { res := FrOk; }
    }

    lemma SecondEntry(dj: Dir)
      requires dj.Known()
      ensures SlotSector(2) < |dj.MySecs()|
    {
      hide *;
      dj.NotEmpty();
      FirstSector();
    }

    /** f_unlink's removal of an entry: afterwards its chain has no owner. */
    method DeleteEntry(dj: Dir, ghost slot: Slot) returns (ghost pend: set<Slot>, ghost c: map<Slot, seq<byte>>)
      requires Valid() && dj.fs == fs && dj.Known() && dj.Stands(dj.index) && slot == Slot(dj.sclust, dj.index)
      requires slot in starts && slot !in files && slot.dir in dirs
               && (IsDir(EntryOf(V(), slot)) ==> NoneOwned(V(), starts[slot]))
      modifies dj`index, dj`clust, dj`sect, this`starts, this`dirs, fs`winsect, fs`wflag, fs.disk, fs.win
      ensures VolumeOk(fs) && Apart() && Sound(V(), if old(starts)[slot] == 0 then {} else {old(starts)[slot]}, pend)
              && pend == Pending()
      ensures Others(NOBODY, V(), fs.winsect, pend, c) && ContentsFor(V(), files.Keys, c) && NOBODY !in files
      ensures forall s {:trigger files[s]} :: s in files ==> files[s].buf != fs.win
      ensures c == old(Contents()) - {slot} && starts == old(starts) - {slot} && NamesOf(V()) == old(NamesLess(V(), slot))
      ensures old(Regular(V(), Contents())) ==> Regular(V(), c)
    {
      hide *;
      Start();
      ghost var v, ws := V(), fs.winsect;
      pend, c := Pending(), Contents();
      RemoveAt(dj, slot, v, pend);
      KnownVolume(dj);
      starts := starts - {slot};
      if IsDirEntry(v, slot) { dirs := dirs - {v.starts[slot]}; }
      IsDirMeans(v, slot);
      BasedNow();
      RemovedMeans(v, fs, slot);
      SameTabs(V(), StateOf(fs, v), slot.dir);
      RemovedDone(slot, v.starts[slot], v, ws, pend, c, EntryOf(v, slot)[..11]);
      NamesLessIs(v, slot);
      c := c - {slot};
    }

    /** f_unlink's changes: the name is gone, and the clusters are free. */
    method RemoveEntry(dj: Dir, dclst: nat, ghost slot: Slot)
      requires Valid() && dj.fs == fs && dj.Known() && dj.Stands(dj.index) && slot == Slot(dj.sclust, dj.index)
      requires slot in starts && slot !in files && slot.dir in dirs && dclst == starts[slot]
      requires IsDir(EntryOf(V(), slot)) ==> NoneOwned(V(), dclst)
      modifies dj`index, dj`clust, dj`sect, this`starts, this`dirs
      modifies fs`winsect, fs`wflag, fs`freeClust, fs`fsiFlag, fs`chains, fs.disk, fs.win
      ensures Valid() && starts == old(starts) - {slot} && OnDisk(fs)
      ensures Contents() == old(Contents()) - {slot} && NamesOf(V()) == old(NamesLess(V(), slot))
      ensures old(Regular(V(), Contents())) ==> Regular(V(), Contents())
    {
      hide *;
      ghost var pend, c := DeleteEntry(dj, slot);
      if dclst != 0 {
        DropOwnerless(dclst, pend, c);
      } else {
        Whole(NOBODY, pend, c);
      }
      SyncVolume();
    }

    /** The removed entry, seen from the volume: its chain has no owner any more. */
    lemma RemovedDone(slot: Slot, h: nat, v: Vol, ws: nat, pend: set<Slot>, c: map<Slot, seq<byte>>, n: Name)
      requires VolumeOk(fs) && Sound(v, {}, pend) && Others(NOBODY, v, ws, pend, c) && ContentsFor(v, files.Keys, c)
      requires slot in v.starts && slot !in files && pend <= files.Keys && NOBODY !in files && h == v.starts[slot]
      requires starts == v.starts - {slot} && dirs == (if IsDir(EntryOf(v, slot)) then v.dirs - {h} else v.dirs)
      requires fs.chains == v.chains && fs.geo == v.g && |fs.Img()| == |v.img| && n == EntryOf(v, slot)[..11]
      requires IsDir(EntryOf(v, slot)) ==> NoneOwned(v, h)
      requires slot.index < |Tab(v, slot.dir)| && EntryOf(v, slot) == Tab(v, slot.dir)[slot.index]
      requires Tab(V(), slot.dir) == Tab(v, slot.dir)[slot.index := Patch(EntryOf(v, slot), 0, [DDE])]
      requires NameMap(Tab(V(), slot.dir)) == NameMap(Tab(v, slot.dir)) - {n} && DirOk(V(), slot.dir)
      requires OnlySecs(v.g, v.img, fs.Img(), DirSecs(v.g, v.chains, slot.dir))
      requires MovedIn(v.g, ws, fs.winsect, DirSecs(v.g, v.chains, slot.dir))
      ensures Sound(V(), if h == 0 then {} else {h}, pend) && Others(NOBODY, V(), fs.winsect, pend, c - {slot})
      ensures ContentsFor(V(), files.Keys, c - {slot}) && slot.dir in NamesOf(v) && (Regular(v, c) ==> Regular(V(), c - {slot}))
      ensures NamesOf(V()) == if IsDir(EntryOf(v, slot)) then WithoutName(NamesOf(v), slot.dir, n) - {h}
              else WithoutName(NamesOf(v), slot.dir, n)
    {
      hide *;
      var e' := Patch(EntryOf(v, slot), 0, [DDE]);
      BasedNow();
      SoundParts(v, {}, pend);
      StoreIsArea(v, V(), slot.dir);
      EntryAtSlot(V(), slot);
      DeletedOwns(EntryOf(v, slot));
      KeptIs(Tab(v, slot.dir), slot.index, e');
      LessStart(v.starts, slot);
      SlotChanged(v, V(), slot);
      if IsDir(EntryOf(v, slot)) {
        SubdirOf(v, slot, {}, pend);
        EmptyDir(v, h, {}, pend);
        DirUnlinked(v, V(), slot, h, {}, pend);
        assert {} + {h} == {h};
      } else {
        GoneFreed(v, V(), slot);
        SlotStep(v, V(), slot, {}, pend);
        assert pend - {slot} == pend;
      }
      PlacesSame(v, V());
      WindowLooked(v.g, v.chains, slot.dir, ws, fs.winsect);
      OthersSwap(NOBODY, slot, v, ws, pend, c);
      OthersBySlot(slot, v, ws, {}, pend, c, c - {slot}, slot.dir);
      OthersSwap(slot, NOBODY, V(), fs.winsect, pend, c - {slot});
      ContentsRemoved(v, V(), slot, files.Keys, c);
      ContentsHave(v, files.Keys, c);
      DeletedPlain(EntryOf(v, slot));
      PlainStore(v, V(), slot.dir, slot.index, e');
      RegularBySlot(v, V(), slot, slot.dir, {}, pend, files.Keys, c, c - {slot});
      LessName(v, V(), slot, n, {}, pend, if IsDir(EntryOf(v, slot)) then {h} else {});
    }

    /** f_unlink once the path has led to an entry. */
    method UnlinkFound(dj: Dir, ghost slot: Slot) returns (res: FResult)
      requires Valid() && dj.fs == fs && dj.Known() && dj.Stands(dj.index) && fs.winsect == dj.sect
               && slot == Slot(dj.sclust, dj.index)
      requires slot in starts && slot !in files && slot.dir in dirs
      modifies dj`index, dj`clust, dj`sect, this`starts, this`dirs
      modifies fs`winsect, fs`wflag, fs`lastClust, fs`freeClust, fs`fsiFlag, fs`chains, fs.disk, fs.win
      ensures Valid() && res == if old(Removable(V(), slot)) then FrOk else FrDenied
      ensures res == FrOk ==>
                OnDisk(fs) && starts == old(starts) - {slot} && Contents() == old(Contents()) - {slot}
                    && NamesOf(V()) == old(NamesLess(V(), slot))
      ensures res != FrOk ==> V() == old(V()) && Contents() == old(Contents())
      ensures old(Regular(V(), Contents())) ==> Regular(V(), Contents())
      ensures res != FrOk && old(fs.Clean()) ==> fs.Clean()
    {
      hide *;
      Start();
      ghost var v, pend := V(), Pending();
      CursorInWindow(dj);
      EntryShown(fs, slot);
      WindowPlace(slot, v);
      EntryAgrees(v, slot, {}, pend);
      var o := SlotOffset(dj.index);
      var dir: Entry := fs.win[o..o + 32];
      res := FrOk;
      if IsReadOnly(dir) { res := FrDenied; }
      var dclst := StartOf(fs.geo, dir);
      if res == FrOk && IsDir(dir) {
        SubdirOf(v, slot, {}, pend);
        NotOne(v, slot, {}, pend);
        if dclst < 2 { assert false; }
        DirTableOk(v, dclst, {}, pend);
        res := CheckEmpty(dclst);
        SoundNow();
        BasedNow();
        OnVolumeIs(fs, v);
        DirKnownHere(dj, v, {}, pend);
        if res == FrOk { NoneFound(v, dclst, {}, pend); }
      }
      RemovableIs(v, slot, res);
      if res == FrOk {
        RemoveEntry(dj, dclst, slot);
      }
    }

    /** f_unlink: a file, or an empty directory, loses its name and its clusters; no other file changes. */
    method Unlink(path: seq<Name>) returns (res: FResult)
      requires Valid() && PathOk(path) && path != []
      requires Resolve(V(), 0, path).AtEntry? ==> Resolve(V(), 0, path).slot !in files
      modifies this`starts, this`dirs, fs`winsect, fs`wflag, fs`lastClust, fs`freeClust, fs`fsiFlag, fs`chains, fs.disk, fs.win
      ensures Valid()
      ensures match old(Resolve(V(), 0, path))
              case AtEntry(s) => res == if old(Removable(V(), s)) then FrOk else FrDenied
              case Missing(_) => res == FrNoFile
              case NoWay => res == FrNoPath
              case AtStart => false
      ensures res == FrOk ==>
                var s := old(Resolve(V(), 0, path)).slot;
                && OnDisk(fs) && s in old(starts) && s.dir in old(dirs) && starts == old(starts) - {s}
                && Contents() == old(Contents()) - {s} && NamesOf(V()) == old(NamesLess(V(), s))
      ensures res != FrOk ==> V() == old(V()) && Contents() == old(Contents())
      ensures old(Regular(V(), Contents())) ==> Regular(V(), Contents())
      ensures res != FrOk && old(OnDisk(fs)) ==> OnDisk(fs)
      ensures old(Saved()) ==> Saved()
    {
      hide *;
      Start();
      SavedIs();
      RootHere();
      ResolveMeans(V(), {}, Pending(), 0, path);
      var dj := new Dir(fs, 0);
      res := Follow(dj, path);
      if res == FrOk {
        BasedNow();
        res := UnlinkFound(dj, Slot(dj.sclust, dj.index));
      }
      SavedIs();
    }

    /** Others and ContentsFor, with what else holds between the steps of f_mkdir. */
    ghost predicate Between(v: Vol, loose: set<nat>, pend: set<Slot>, c: map<Slot, seq<byte>>)
      reads this`starts, this`dirs, this`files, fs`winsect, fs`wflag, fs`freeClust, fs`fsiFlag, fs`chains, fs.disk, fs.win
      reads files.Values, set s | s in files :: files[s].buf
    {
      && VolumeOk(fs) && V() == v && Sound(v, loose, pend) && Others(NOBODY, v, fs.winsect, pend, c)
           && ContentsFor(v, files.Keys, c)
      && Apart() && pend == Pending() && NOBODY !in files && pend <= files.Keys && files.Keys <= v.starts.Keys
      && forall s {:trigger files[s]} :: s in files ==> files[s].buf != fs.win
    }

    lemma BetweenMeans(v: Vol, loose: set<nat>, pend: set<Slot>, c: map<Slot, seq<byte>>)
      requires Between(v, loose, pend, c)
      ensures VolumeOk(fs) && V() == v && Sound(v, loose, pend) && Others(NOBODY, v, fs.winsect, pend, c)
              && ContentsFor(v, files.Keys, c)
      ensures Apart() && pend == Pending() && NOBODY !in files && pend <= files.Keys && files.Keys <= v.starts.Keys && Based(v)
      ensures pend <= v.starts.Keys
      ensures forall s {:trigger files[s]} :: s in files ==> files[s].buf != fs.win
      ensures OnVolume(fs, v) && v.g == fs.geo && v.img == fs.Img() && v.chains == fs.chains && v.dirs == dirs
              && v.starts == starts
      ensures |v.img| == fs.disk.Length
    {
      hide VolumeOk, Sound, Others, ContentsFor, Apart, Pending, Based, OnVolume;
      BasedNow();
      OnVolumeIs(fs, v);
    }

    lemma BetweenIs(loose: set<nat>, pend: set<Slot>, c: map<Slot, seq<byte>>)
      requires VolumeOk(fs) && Sound(V(), loose, pend) && Others(NOBODY, V(), fs.winsect, pend, c)
               && ContentsFor(V(), files.Keys, c)
      requires Apart() && pend == Pending() && NOBODY !in files && pend <= files.Keys && files.Keys <= starts.Keys
      requires forall s {:trigger files[s]} :: s in files ==> files[s].buf != fs.win
      ensures Between(V(), loose, pend, c)
    {
      hide VolumeOk, Sound, Others, ContentsFor, Apart, Pending;
    }

    /** f_mkdir's allocation of the new directory's cluster. */
    method NewCluster() returns (dcl: nat, ghost pend: set<Slot>, ghost c: map<Slot, seq<byte>>)
      requires Valid()
      modifies fs`winsect, fs`wflag, fs`lastClust, fs`freeClust, fs`fsiFlag, fs`chains, fs.disk, fs.win
      ensures fs.Valid() && c == old(Contents()) && NamesOf(V()) == old(NamesOf(V()))
      ensures dcl == 0 ==> Valid() && Contents() == c && CountFree(Fat(fs)) == 0
      ensures dcl != 0 ==> Between(V(), {dcl}, pend, c) && InRange(fs.geo, dcl) && dcl in fs.chains && fs.chains[dcl] == [dcl]
      ensures if dcl == 0 then old(CountFree(Fat(fs))) == 0 else CountFree(Fat(fs)) + 1 == old(CountFree(Fat(fs)))
      ensures forall d {:trigger d in dirs} :: d in dirs ==> Tab(V(), d) == old(Tab(V(), d))
      ensures old(Regular(V(), Contents())) ==> Regular(V(), c)
      ensures dcl == 0 && old(fs.Clean()) ==> fs.Clean()
    {
      hide *;
      Start();
      ghost var v, ws := V(), fs.winsect;
      pend, c := Pending(), Contents();
      FreeIs();
      dcl := StartChain(fs);
      FreeIs();
      BasedNow();
      if dcl != 0 {
        NewArea(v, V(), dcl);
        InRangeIs(fs.geo, dcl);
        WindowNear(fs.geo, fs.chains, dcl, ws, fs.winsect);
        LooseDone(v, ws, {}, pend, c, dcl);
        assert {} + {dcl} == {dcl};
        BetweenIs({dcl}, pend, c);
      } else {
        WindowNear(fs.geo, fs.chains, 1, ws, fs.winsect);
        NothingDone(v, ws, pend, c);
      }
    }

    /** Only the window moved. */
    lemma NothingDone(v: Vol, ws: nat, pend: set<Slot>, c: map<Slot, seq<byte>>)
      requires VolumeOk(fs) && Apart() && Sound(v, {}, pend) && Others(NOBODY, v, ws, pend, c) && pend == Pending()
               && NOBODY !in files
      requires V().g == v.g && V().img == v.img && V().chains == v.chains && V().dirs == v.dirs && V().starts == v.starts
      requires ContentsFor(v, files.Keys, c) && WindowGoes(fs.geo, fs.chains, 1, ws, fs.winsect)
      ensures Valid() && Contents() == c && V() == v
    {
      hide *;
      BasedNow();
      SameVol(V(), v);
      SameArea(v, 1);
      SoundParts(v, {}, pend);
      NoHeadOne(v);
      LooseDone(v, ws, {}, pend, c, 1);
      assert {} - {1} == {};
      Whole(NOBODY, pend, c);
    }

    /** f_mkdir's first sectors of the new directory. */
    method InitCluster(dcl: nat, parent: nat, tm: nat, ghost v: Vol, ghost pend: set<Slot>, ghost c: map<Slot, seq<byte>>)
      requires Between(v, {dcl}, pend, c) && InRange(fs.geo, dcl) && dcl in fs.chains && fs.chains[dcl] == [dcl]
      requires parent < 0x1_0000_0000 && (fs.geo.fsType != Fat32 ==> parent < 0x1_0000)
      modifies fs`winsect, fs`wflag, fs.disk, fs.win
      ensures fs.Valid() && Between(V(), {dcl}, pend, c) && NamesOf(V()) == NamesOf(v) && NewDir(V(), dcl)
              && Fat(fs) == old(Fat(fs)) && DotsLead(fs.geo, Tab(V(), dcl), dcl, parent)
      ensures (forall d {:trigger d in v.dirs} :: d in v.dirs ==> Tab(V(), d) == Tab(v, d)) && (Regular(v, c) ==> Regular(V(), c))
    {
      hide *;
      BetweenMeans(v, {dcl}, pend, c);
      ghost var ws := fs.winsect;
      SoundParts(v, {dcl}, pend);
      LooseNotRoot(v, {dcl}, pend, dcl);
      HeadFits(v, dcl, {dcl}, pend);
      InitDir(fs, dcl, DotSector(dcl, parent, tm));
      BasedNow();
      OwnCluster(fs.geo, fs.chains, dcl, fs.winsect, ws);
      ClusterArea(v, V(), dcl);
      LooseDone(v, ws, {dcl}, pend, c, dcl);
      assert {dcl} + {dcl} == {dcl};
      BetweenIs({dcl}, pend, c);
      NewDirIs(V(), dcl, parent, tm);
    }

    /** f_mkdir's registration of the name, while the new directory has no owner. */
    method RegisterDir(dj: Dir, name: Name, ghost dcl: nat, ghost v: Vol, ghost pend: set<Slot>, ghost c: map<Slot, seq<byte>>)
      returns (res: FResult, ghost slot: Slot, ghost c': map<Slot, seq<byte>>)
      requires Between(v, {dcl}, pend, c) && NewDir(v, dcl) && dj.fs == fs && dj.Known() && dj.sclust in dirs && SegmentOk(name)
      requires name !in NameMap(Tab(v, dj.sclust))
      modifies dj`index, dj`clust, dj`sect, this`starts
      modifies fs`winsect, fs`wflag, fs`lastClust, fs`freeClust, fs`fsiFlag, fs`chains, fs.disk, fs.win
      ensures fs.Valid() && Between(V(), {dcl}, pend, c') && dj.sclust in NamesOf(v)
      ensures slot == Slot(dj.sclust, dj.index)
      ensures res != FrOk ==> V() == v && c' == c && NoRoom(Tab(v, dj.sclust), dj.Head(), res, CountFree(Fat(fs)))
      ensures res == FrOk ==> c' == c[slot := []] && slot !in files && slot in starts && starts[slot] == 0 && slot !in c
      ensures res == FrOk ==> InWindow(fs, slot) && EntryOf(V(), slot) == NewEntry(name) && NewDir(V(), dcl)
                              && Tab(V(), dcl) == Tab(v, dcl)
      ensures res == FrOk ==> NamesOf(V()) == WithName(NamesOf(v), dj.sclust, name, slot.index)
      ensures Regular(v, c) ==> Regular(V(), c')
    {
      hide *;
      BetweenMeans(v, {dcl}, pend, c);
      ghost var ws := fs.winsect;
      c' := c;
      DirInNames(v, dj.sclust);
      res := RegisterAt(dj, name, v, {dcl}, pend);
      KnownVolume(dj);
      slot := Slot(dj.sclust, dj.index);
      if res == FrOk {
        starts := starts[slot := 0];
        BasedNow();
        WithSlotIs(fs, v, slot);
        SameVol(V(), WithSlot(fs, v, slot));
        RegisteredBetween(dj.sclust, dj.index, v, ws, dcl, pend, c, name);
        CursorInWindow(dj);
        c' := c[slot := []];
      } else {
        OnVolumeMeans(fs, v);
        StillBetween(v, ws, {dcl}, pend, c, dj.sclust);
      }
    }

    lemma RegisteredBetween(d: nat, i: nat, v: Vol, ws: nat, dcl: nat, pend: set<Slot>, c: map<Slot, seq<byte>>, name: Name)
      requires VolumeOk(fs) && Sound(v, {dcl}, pend) && Others(NOBODY, v, ws, pend, c) && ContentsFor(v, files.Keys, c)
               && NewDir(v, dcl)
      requires Apart() && pend == Pending() && NOBODY !in files && pend <= files.Keys && files.Keys <= v.starts.Keys
      requires forall s {:trigger files[s]} :: s in files ==> files[s].buf != fs.win
      requires d in v.dirs && Registered(v, V(), d, i, name) && SegmentOk(name)
      requires MovedIn(v.g, ws, fs.winsect, DirSecs(v.g, fs.chains, d))
      ensures Between(V(), {dcl}, pend, c[Slot(d, i) := []]) && NewDir(V(), dcl) && Slot(d, i) !in files && Slot(d, i) !in c
              && Tab(V(), dcl) == Tab(v, dcl)
      ensures EntryOf(V(), Slot(d, i)) == NewEntry(name) && d in NamesOf(v) && NamesOf(V()) == WithName(NamesOf(v), d, name, i)
      ensures Regular(v, c) ==> Regular(V(), c[Slot(d, i) := []])
    {
      hide *;
      RegisteredMeans(v, V(), d, i, name);
      BasedNow();
      CreateStep(d, i, v, ws, {dcl}, pend, c, name);
      NewDirKept(v, V(), d, dcl, pend);
      NotInContents(v, files.Keys, c, Slot(d, i));
      BetweenIs({dcl}, pend, c[Slot(d, i) := []]);
    }

    /** A look into a directory keeps what holds between the steps. */
    lemma StillBetween(v: Vol, ws: nat, loose: set<nat>, pend: set<Slot>, c: map<Slot, seq<byte>>, d: nat)
      requires VolumeOk(fs) && Sound(v, loose, pend) && Others(NOBODY, v, ws, pend, c) && ContentsFor(v, files.Keys, c)
      requires starts == v.starts && dirs == v.dirs && fs.chains == v.chains && fs.geo == v.g && fs.Img() == v.img
      requires Apart() && pend == Pending() && NOBODY !in files && pend <= files.Keys && files.Keys <= starts.Keys
      requires forall s {:trigger files[s]} :: s in files ==> files[s].buf != fs.win
      requires d in v.dirs && MovedIn(v.g, ws, fs.winsect, DirSecs(v.g, v.chains, d))
      ensures Between(V(), loose, pend, c) && V() == v
    {
      hide *;
      BasedNow();
      SameVol(V(), v);
      SameArea(v, DirHead(v.g, d));
      WindowLooked(v.g, v.chains, d, ws, fs.winsect);
      PlacesSame(v, v);
      OthersBySlot(NOBODY, v, ws, loose, pend, c, c, d);
      BetweenIs(loose, pend, c);
    }

    /** f_mkdir's last stores: the entry becomes the new directory's. */
    method LinkDir(ghost slot: Slot, ofs: nat, dcl: nat, tm: nat, ghost v: Vol, ghost pend: set<Slot>,
                   ghost c: map<Slot, seq<byte>>)
      requires Between(v, {dcl}, pend, c) && NewDir(v, dcl) && InWindow(fs, slot) && ofs == SlotOffset(slot.index)
      requires slot in starts && starts[slot] == 0 && slot !in files && !IsDir(EntryOf(v, slot)) && slot in c
      modifies this`starts, this`dirs, fs`wflag, fs.win
      ensures Valid() && Contents() == c - {slot} && dirs == old(dirs) + {dcl} && dcl !in old(dirs)
      ensures NamesOf(V()) - {dcl} == NamesOf(v) && dcl in NamesOf(V()) && OnlyDots(NamesOf(V())[dcl])
              && Tab(V(), dcl) == Tab(v, dcl)
      ensures Regular(v, c) ==> Regular(V(), Contents())
    {
      hide *;
      BetweenMeans(v, {dcl}, pend, c);
      ghost var ws := fs.winsect;
      WindowPlace(slot, v);
      StoreDir(fs, slot, ofs, dcl, tm);
      starts := starts[slot := dcl];
      dirs := dirs + {dcl};
      LinkDone(slot, dcl, tm, v, ws, pend, c);
    }

    lemma LinkDone(slot: Slot, dcl: nat, tm: nat, v: Vol, ws: nat, pend: set<Slot>, c: map<Slot, seq<byte>>)
      requires InWindow(fs, slot) && Sound(v, {dcl}, pend) && Others(NOBODY, v, ws, pend, c) && ContentsFor(v, files.Keys, c)
      requires Apart() && pend == Pending() && NOBODY !in files && pend <= v.starts.Keys && slot !in pend && NewDir(v, dcl)
      requires slot in v.starts && v.starts[slot] == 0 && slot !in files && !IsDir(EntryOf(v, slot)) && slot in c
      requires starts == v.starts[slot := dcl] && dirs == v.dirs + {dcl} && fs.chains == v.chains && fs.geo == v.g
               && |fs.Img()| == |v.img|
      requires fs.winsect == ws && slot.index < |Tab(v, slot.dir)| && EntryOf(v, slot) == Tab(v, slot.dir)[slot.index]
      requires TableOf(fs, slot) == Tab(v, slot.dir)[slot.index := MadeDir(EntryOf(v, slot), dcl, tm)]
      requires OnlySecs(fs.geo, v.img, fs.Img(), DirSecs(fs.geo, fs.chains, slot.dir))
      ensures Valid() && Contents() == c - {slot} && dcl !in v.dirs && NamesOf(V()) - {dcl} == NamesOf(v)
      ensures dcl in NamesOf(V()) && OnlyDots(NamesOf(V())[dcl]) && (Regular(v, c) ==> Regular(V(), c - {slot}))
              && Tab(V(), dcl) == Tab(v, dcl)
    {
      hide *;
      var e' := MadeDir(EntryOf(v, slot), dcl, tm);
      InWindowMeans(fs, slot);
      BasedNow();
      SoundParts(v, {dcl}, pend);
      LooseNotRoot(v, {dcl}, pend, dcl);
      HeadFits(v, dcl, {dcl}, pend);
      TabInWindow(slot);
      MadeDirFields(v.g, EntryOf(v, slot), dcl, tm);
      OneStart(v.starts, slot, dcl);
      var u := V().(dirs := v.dirs);
      SameTabs(V(), u, slot.dir);
      BasedSame(V(), u);
      EntryChanged(v, u, slot, e', {dcl}, pend);
      DirlessChange(v, u, V(), slot);
      SameArea2(v, u, V(), DirHead(v.g, slot.dir));
      NewDirKept(v, V(), slot.dir, dcl, pend);
      NewDirMeans(V(), dcl);
      DirLinked(v, V(), slot, dcl, {dcl}, pend);
      assert {dcl} - {dcl} == {} && pend - {slot} == pend;
      PlacesSame(v, V());
      WindowStill(v.g, fs.chains, DirHead(v.g, slot.dir), ws);
      OthersSwap(NOBODY, slot, v, ws, pend, c);
      OthersBySlot(slot, v, ws, {dcl}, pend, c, c - {slot}, slot.dir);
      OthersSwap(slot, NOBODY, V(), fs.winsect, pend, c - {slot});
      ContentsLinked(v, V(), slot, files.Keys, c);
      ContentsHave(v, files.Keys, c);
      KindPlain(EntryOf(v, slot), e');
      PlainStore(v, V(), slot.dir, slot.index, e');
      RegularBySlot(v, V(), slot, slot.dir, {dcl}, pend, files.Keys, c, c - {slot});
      Whole(NOBODY, pend, c - {slot});
      NamesLinked(v, u, V(), dcl);
      NewDirNames(V(), dcl);
    }

    lemma FreeIs()
      requires fs.Valid()
      ensures CountFree(Fat(fs)) == FreeOf(V())
    {
      hide FatFs.Valid, FatFs.Img, FatOf, FatLayout, DataLayout, FreeBelow;
    }

    /** f_mkdir once the new directory's cluster is written: it gets a name, or its cluster is freed again. */
    method RegisterAndLink(dj: Dir, name: Name, dcl: nat, tm: nat, ghost v: Vol, ghost pend: set<Slot>,
                           ghost c: map<Slot, seq<byte>>)
      returns (res: FResult, ghost slot: Slot)
      requires Between(v, {dcl}, pend, c) && NewDir(v, dcl) && dcl != 0 && dcl in v.chains && v.chains[dcl] == [dcl]
      requires dj.fs == fs && dj.Known() && dj.sclust in dirs && SegmentOk(name) && name !in NameMap(Tab(v, dj.sclust))
      modifies dj`index, dj`clust, dj`sect, this`starts, this`dirs
      modifies fs`winsect, fs`wflag, fs`lastClust, fs`freeClust, fs`fsiFlag, fs`chains, fs.disk, fs.win
      ensures Valid() && Contents() == c && dj.sclust in NamesOf(v)
      ensures res == FrOk ==>
                && OnDisk(fs) && dirs == old(dirs) + {dcl} && dcl !in old(dirs) && slot.dir == dj.sclust && dcl in NamesOf(V())
                && OnlyDots(NamesOf(V())[dcl]) && NamesOf(V()) - {dcl} == WithName(NamesOf(v), dj.sclust, name, slot.index)
                && Tab(V(), dcl) == Tab(v, dcl)
      ensures res != FrOk ==> dirs == old(dirs) && NamesOf(V()) == NamesOf(v) && NoRoom(Tab(v, dj.sclust), dj.Head(), res, FreeOf(v))
      ensures Regular(v, c) ==> Regular(V(), c)
      ensures res != FrOk ==> fs.wflag
    {
      hide *;
      ghost var c';
      res, slot, c' := RegisterDir(dj, name, dcl, v, pend, c);
      if res == FrOk {
        NewEntryFields(fs.geo, name);
        LinkDir(slot, SlotOffset(dj.index), dcl, tm, V(), pend, c');
        assert c[slot := []] - {slot} == c;
        SyncVolume();
      } else {
        FreeIs();
        BetweenMeans(v, {dcl}, pend, c);
        DropOwnerless(dcl, pend, c);
      }
    }

    /** f_mkdir once the new directory's cluster is allocated. */
    method MakeWith(dj: Dir, name: Name, dcl: nat, tm: nat, ghost v0: Vol, ghost pend: set<Slot>, ghost c: map<Slot, seq<byte>>)
      returns (res: FResult, ghost slot: Slot)
      requires Between(v0, {dcl}, pend, c) && InRange(fs.geo, dcl) && dcl in fs.chains && fs.chains[dcl] == [dcl]
      requires dj.fs == fs && dj.sclust in dirs && SegmentOk(name) && name !in NameMap(Tab(v0, dj.sclust))
      modifies dj`index, dj`clust, dj`sect, this`starts, this`dirs
      modifies fs`winsect, fs`wflag, fs`lastClust, fs`freeClust, fs`fsiFlag, fs`chains, fs.disk, fs.win
      ensures Valid() && Contents() == c && dj.sclust in NamesOf(v0)
      ensures res == FrOk ==>
                && OnDisk(fs) && dirs == old(dirs) + {dcl} && dcl !in old(dirs) && slot.dir == dj.sclust && dcl in NamesOf(V())
                && OnlyDots(NamesOf(V())[dcl]) && NamesOf(V()) - {dcl} == WithName(NamesOf(v0), dj.sclust, name, slot.index)
                && DotsLead(fs.geo, Tab(V(), dcl), dcl, dj.sclust)
      ensures res != FrOk ==> dirs == old(dirs) && NamesOf(V()) == NamesOf(v0) && NoRoom(Tab(v0, dj.sclust), dj.Head(), res, FreeOf(v0))
      ensures Regular(v0, c) ==> Regular(V(), c)
      ensures res != FrOk ==> fs.wflag
    {
      hide *;
      BetweenMeans(v0, {dcl}, pend, c);
      InRangeIs(fs.geo, dcl);
      FreeIs();
      var pcl := dj.sclust;
      DirFits(v0, {dcl}, pend, dj.sclust);
      if fs.geo.fsType == Fat32 && pcl == fs.geo.dirbase { pcl := 0; }
      InitCluster(dcl, pcl, tm, v0, pend, c);
      ghost var v := V();
      BetweenMeans(v, {dcl}, pend, c);
      FreeIs();
      DirKnownHere(dj, v, {dcl}, pend);
      res, slot := RegisterAndLink(dj, name, dcl, tm, v, pend, c);
    }

    /** f_mkdir below the directory that the path leads to. */
    method MakeIn(dj: Dir, name: Name, tm: nat) returns (res: FResult, ghost dcl: nat, ghost slot: Slot)
      requires Valid() && dj.fs == fs && dj.sclust in dirs && SegmentOk(name) && name !in NameMap(Tab(V(), dj.sclust))
      modifies dj`index, dj`clust, dj`sect, this`starts, this`dirs
      modifies fs`winsect, fs`wflag, fs`lastClust, fs`freeClust, fs`fsiFlag, fs`chains, fs.disk, fs.win
      ensures Valid() && Contents() == old(Contents()) && dj.sclust in old(NamesOf(V()))
      ensures res == FrOk ==>
                && OnDisk(fs) && dirs == old(dirs) + {dcl} && dcl !in old(dirs) && slot.dir == dj.sclust && dcl in NamesOf(V())
                && OnlyDots(NamesOf(V())[dcl]) && NamesOf(V()) - {dcl} == WithName(old(NamesOf(V())), dj.sclust, name, slot.index)
                && DotsLead(fs.geo, Tab(V(), dcl), dcl, dj.sclust)
      ensures res != FrOk ==> dirs == old(dirs) && NamesOf(V()) == old(NamesOf(V()))
      ensures res != FrOk ==>
                if old(CountFree(Fat(fs))) == 0 then res == FrDenied
                else NoRoom(old(Tab(V(), dj.sclust)), dj.Head(), res, old(CountFree(Fat(fs))) - 1)
      ensures old(Regular(V(), Contents())) ==> Regular(V(), Contents())
      ensures old(CountFree(Fat(fs))) == 0 && old(fs.Clean()) ==> fs.Clean()
      ensures res != FrOk && old(CountFree(Fat(fs))) > 0 ==> fs.wflag
    {
      hide *;
      Start();
      FreeIs();
      DirInNames(V(), dj.sclust);
      ghost var v0 := V();
      ghost var pend, c;
      var cl;
      cl, pend, c := NewCluster();
      slot := Slot(dj.sclust, 0);
      dcl := cl;
      res := FrOk;
      if cl == 0 { res := FrDenied; }
      if res == FrOk {
        NarrowEnough(fs);
        LinksFit(fs.geo, 0);
        InRangeIs(fs.geo, cl);
        if cl == 1 || cl == NO_CLUSTER { assert false; }
        FreeIs();
        ghost var v := V();
        BetweenMeans(v, {cl}, pend, c);
        res, slot := MakeWith(dj, name, cl, tm, v, pend, c);
      }
    }

    /** f_mkdir: a new, empty directory under the path's last name; no file changes. */
    method MkDir(path: seq<Name>, tm: nat) returns (res: FResult, ghost dcl: nat, ghost slot: Slot)
      requires Valid() && PathOk(path)
      modifies this`starts, this`dirs, fs`winsect, fs`wflag, fs`lastClust, fs`freeClust, fs`fsiFlag, fs`chains, fs.disk, fs.win
      ensures Valid() && Contents() == old(Contents())
      ensures match old(Resolve(V(), 0, path))
              case AtStart => res == FrExist
              case AtEntry(_) => res == FrExist
              case NoWay => res == FrNoPath
              case Missing(d) =>
                res != FrOk ==>
                  if old(CountFree(Fat(fs))) == 0 then res == FrDenied
                  else NoRoom(old(Tab(V(), d)), DirHead(fs.geo, d), res, old(CountFree(Fat(fs))) - 1)
      ensures res == FrOk ==>
                && old(Resolve(V(), 0, path)).Missing? && path != [] && slot.dir == old(Resolve(V(), 0, path)).dir && OnDisk(fs)
                && dirs == old(dirs) + {dcl} && dcl !in old(dirs) && dcl in NamesOf(V()) && OnlyDots(NamesOf(V())[dcl])
                && slot.dir in old(NamesOf(V())) && NamesOf(V()) - {dcl} == WithName(old(NamesOf(V())), slot.dir, path[|path| - 1], slot.index)
                && DotsLead(fs.geo, Tab(V(), dcl), dcl, slot.dir)
      ensures res != FrOk ==> dirs == old(dirs) && NamesOf(V()) == old(NamesOf(V()))
      ensures old(Regular(V(), Contents())) ==> Regular(V(), Contents())
      ensures old(OnDisk(fs)) ==> (OnDisk(fs) <==> res == FrOk || !old(Resolve(V(), 0, path)).Missing? || old(CountFree(Fat(fs))) == 0)
      ensures (res == FrOk || !old(Resolve(V(), 0, path)).Missing? || old(CountFree(Fat(fs))) == 0) && old(Saved()) ==> Saved()
    {
      hide *;
      Start();
      SavedIs();
      FreeIs();
      RootHere();
      ResolveMeans(V(), {}, Pending(), 0, path);
      var dj := new Dir(fs, 0);
      res := Follow(dj, path);
      FreeIs();
      slot, dcl := Slot(dj.sclust, 0), 0;
      if res == FrOk { res := FrExist; }
      if res == FrNoFile {
        BasedNow();
        LastSegment(path);
        HeadIs(dj);
        res, dcl, slot := MakeIn(dj, path[|path| - 1], tm);
      }
      SavedIs();
      DirtyWindow(fs);
    }

    /** What a file holds fits its chain. */
    lemma ContentsFit()
      requires Valid()
      ensures forall s {:trigger Contents()[s]} :: s in Contents() && s in starts ==> |Contents()[s]| <= Capacity(V(), starts[s])
    {
      hide VolumeOk, Sound, FilOk, EntryOf, SlotPlace, IsDir, SizeOf, Flat, Fits, FilView, Secs;
    }

    /** The free clusters of a volume are what the bytes of its files and its directories leave. */
    lemma FreeClusters(slots: seq<Slot>, ds: seq<nat>)
      requires Valid() && Regular(V(), Contents()) && Lists(slots, Contents().Keys) && Lists(ds, dirs)
      ensures fs.geo.csize > 0 && AllIn(slots, Contents().Keys)
      ensures CountFree(Fat(fs)) + FilesNeed(fs.geo, Contents(), slots) + DirsTake(V(), ds) == fs.geo.nFatent - 2
    {
      hide *;
      Start();
      FreeIs();
      ContentsFit();
      FreeSpace(V(), Pending(), files.Keys, Contents(), slots, ds);
      VolumeNumbers(V());
      FreeOfIs(V());
    }

    lemma SlotContents(slot: Slot)
      requires Valid() && slot in files
      ensures slot in Contents() && Contents()[slot] == files[slot].Content() && files[slot].fptr <= |Contents()[slot]|
    {
      hide Sound, VolumeOk, FilOk, FilBytes, FilView, EntryOf, SlotPlace, IsDir, SizeOf, Fil.Valid, Fil.Content;
      FileIs(slot);
      FileBounds(files[slot]);
    }
  }
}
