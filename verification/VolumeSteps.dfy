/** Single steps on a whole volume, as values: what an operation's change of one entry, one chain or one directory means for
    names, contents and order. */
module VolumeSteps {
  import opened Bytes
  import opened Geometry
  import opened Window
  import opened FatAccess
  import opened Chains
  import opened Allocation
  import opened FileData
  import opened FileObject
  import opened DirTable
  import opened Directory
  import opened VolumeState
  import opened OpenFiles
  import opened EntryFields
  import opened EntryStore
  import opened Paths
  import opened DotDirs

  /** Where an entry lies on the disk. */
  ghost predicate SlotPlace(v: Vol, s: Slot, sect: nat, ofs: nat) {
    var secs := DirSecs(v.g, v.chains, s.dir);
    s.index < Reach(|secs|) && SlotSector(s.index) < |secs| && sect == secs[SlotSector(s.index)] && ofs == SlotOffset(s.index)
  }

  /** An open file, its entry and its place on the volume fit together. */
  ghost predicate OpenOk(fs: FatFs, f: Fil, s: Slot, v: Vol, ws: nat)
    reads f, f.buf
  {
    && f.fs == fs && f.isOpen && !f.faError && f.buf != fs.win && FilOk(f, v, ws)
    && s in v.starts && v.starts[s] == f.sclust && !IsDir(EntryOf(v, s)) && SlotPlace(v, s, f.dirSect, f.dirOfs)
    && (f.faDirty ==> f.faWritten) && (!f.faWritten ==> SizeOf(EntryOf(v, s)) == f.fsize)
  }

  /** f_open's mode flags. */
  datatype Mode = Mode(read: bool, write: bool, createNew: bool, createAlways: bool, openAlways: bool)

  predicate Creating(m: Mode) {
    m.createAlways || m.openAlways || m.createNew
  }

  /** What f_open says of an entry that the path names. */
  function FoundResult(e: Entry, m: Mode): FResult {
    if Creating(m) then
      if IsReadOnly(e) || IsDir(e) then FrDenied else if m.createNew then FrExist else FrOk
    else if IsDir(e) then FrNoFile
    else if m.write && IsReadOnly(e) then FrDenied
    else FrOk
  }

  lemma FoundIs(e: Entry, m: Mode, res: FResult)
    requires Creating(m) ==> res == if IsReadOnly(e) || IsDir(e) then FrDenied else if m.createNew then FrExist else FrOk
    requires !Creating(m) ==> res == if IsDir(e) then FrNoFile else if m.write && IsReadOnly(e) then FrDenied else FrOk
    ensures res == FoundResult(e, m) && (res == FrOk ==> !IsDir(e)) && (!Creating(m) ==> !m.createAlways)
  {
    hide IsDir, IsReadOnly;
  }

  /** The file object stands at its start, with the access that was asked for. */
  ghost predicate OpenedAs(f: Fil, m: Mode, written: bool)
    reads f
  {
    f.faRead == m.read && f.faWrite == m.write && f.faWritten == written && f.fptr == 0
  }

  lemma OpenedIs(f: Fil, m: Mode, written: bool)
    requires f.faRead == m.read && f.faWrite == m.write && f.faWritten == written && f.fptr == 0
    ensures OpenedAs(f, m, written)
  {
  }

  lemma LastSegment(path: seq<Name>)
    requires PathOk(path) && path != []
    ensures SegmentOk(path[|path| - 1])
  {
  }

  lemma HeadIs(dj: Dir)
    ensures dj.Head() == DirHead(dj.fs.geo, dj.sclust)
  {
  }

  /** A slot that no directory has. */
  const NOBODY := Slot(0, 65536)

  lemma OpenIs(fs: FatFs, f: Fil, s: Slot, v: Vol, ws: nat)
    requires f.fs == fs && f.isOpen && !f.faError && f.buf != fs.win && FilOk(f, v, ws)
    requires s in v.starts && v.starts[s] == f.sclust && !IsDir(EntryOf(v, s)) && SlotPlace(v, s, f.dirSect, f.dirOfs)
    requires (f.faDirty ==> f.faWritten) && (!f.faWritten ==> SizeOf(EntryOf(v, s)) == f.fsize)
    ensures OpenOk(fs, f, s, v, ws)
  {
  }

  /** `c` holds the contents of every file that is not open. */
  ghost predicate ContentsFor(v: Vol, open: set<Slot>, c: map<Slot, seq<byte>>) {
    && (forall s {:trigger s in c} {:trigger s in v.starts} :: s in c <==> s in v.starts && !IsDir(EntryOf(v, s)))
    && (forall s {:trigger c[s]} :: s in c && s !in open ==> c[s] == FileOf(v, s))
  }

  lemma ContentsHave(v: Vol, open: set<Slot>, c: map<Slot, seq<byte>>)
    requires ContentsFor(v, open, c)
    ensures forall s {:trigger s in c} :: s in c ==> s in v.starts && !IsDir(EntryOf(v, s))
  {
    hide FileOf, IsDir, EntryOf;
  }

  /** No directory's sectors moved; some may have got more. */
  ghost predicate PlacesKept(v: Vol, v': Vol) {
    forall d {:trigger d in v.dirs} :: d in v.dirs ==> DirSecs(v.g, v.chains, d) <= DirSecs(v'.g, v'.chains, d)
  }

  lemma PlaceStays(v: Vol, v': Vol, s: Slot, sect: nat, ofs: nat)
    requires PlacesKept(v, v') && s.dir in v.dirs && SlotPlace(v, s, sect, ofs)
    ensures SlotPlace(v', s, sect, ofs)
  {
    hide DirSecs, SlotSector, SlotOffset;
    var a, b := DirSecs(v.g, v.chains, s.dir), DirSecs(v'.g, v'.chains, s.dir);
    assert a <= b;
  }

  lemma SameBut(a: set<Slot>, b: set<Slot>, s: Slot)
    requires a - {s} == b - {s}
    ensures s in b ==> b == a + {s}
    ensures s !in b ==> b == (a + {s}) - {s}
  {
    assert forall t :: t != s ==> (t in a <==> t in a - {s}) && (t in b <==> t in b - {s});
  }

  lemma NoHeadZero(v: Vol)
    requires Based(v)
    ensures 0 !in v.chains
  {
    hide Based;
    if 0 in v.chains { HeadRange(v, 0); }
  }

  lemma WindowNear(g: Geometry, chains: map<nat, seq<nat>>, h: nat, ws: nat, ws': nat)
    requires ws' == ws || InFat(g, ws')
    ensures WindowGoes(g, chains, h, ws, ws')
  {
  }

  lemma PlacesKeptNoDir(v: Vol, v': Vol, h: nat)
    requires Based(v) && Based(v') && OnlyArea(v, v', h) && NoDir(v, h)
    ensures PlacesKept(v, v')
  {
    hide Based, OnlyArea, HeadSecs, DirSecs, DirHead;
    SameGeometry(v, v', h);
    forall d | d in v.dirs ensures DirSecs(v.g, v.chains, d) <= DirSecs(v'.g, v'.chains, d) {
      AreaKept(v, v', h, DirHead(v.g, d));
      DirSecsAre(v.g, v.chains, d);
      DirSecsAre(v.g, v'.chains, d);
    }
  }

  /** The contents after one file's changed. */
  lemma ContentsMoved(v: Vol, v': Vol, slot: Slot, open: set<Slot>, c: map<Slot, seq<byte>>, b: seq<byte>)
    requires ContentsFor(v, open, c) && slot in v.starts && slot in open && v'.starts.Keys == v.starts.Keys
             && !IsDir(EntryOf(v, slot))
    requires forall s {:trigger s in v.starts} :: s in v.starts ==> EntryOf(v', s) == EntryOf(v, s)
    requires forall s {:trigger s in v.starts} :: s in v.starts && s != slot ==> FileOf(v', s) == FileOf(v, s)
    ensures ContentsFor(v', open, c[slot := b])
  {
    hide EntryOf, FileOf, IsDir;
    forall s ensures s in v'.starts <==> s in v.starts { }
  }

  lemma FileBounds(f: Fil)
    requires f.Valid()
    ensures f.fptr <= f.fsize == |f.Content()|
  {
    hide *;
    f.FileSizes();
  }

  lemma Revalid(f: Fil)
    requires f.Core() && f.fptr <= f.fsize && ClustOk(f.fs.geo, f.Chain(), f.fptr, f.clust)
    ensures f.Valid()
  {
  }

  lemma FileSizesOf(f: Fil)
    requires f.Valid()
    ensures f.fptr <= f.fsize <= 0xFFFF_FFFF
  {
    hide *;
    f.FileSizes();
  }

  lemma DirtyWindow(fs: FatFs)
    ensures fs.wflag ==> !fs.Clean()
  {
  }

  /** Brings a sector into the window. */
  method Fetch(fs: FatFs, sect: nat)
    requires VolumeOk(fs) && 0 < sect < fs.disk.Length && !InMirror(fs.geo, sect)
    modifies fs`winsect, fs`wflag, fs.disk, fs.win
    ensures VolumeOk(fs) && fs.Img() == old(fs.Img()) && fs.winsect == sect
  {
    hide FatFs.Valid, FatFs.Img, FatOf, FatLayout, DataLayout, FreeBelow, ChainsOk, InMirror;
    var res := fs.MoveWindow(sect);
  }

  lemma PlaceSector(v: Vol, s: Slot, sect: nat, ofs: nat, loose: set<nat>, pend: set<Slot>)
    requires Sound(v, loose, pend) && s in v.starts && SlotPlace(v, s, sect, ofs)
    ensures 0 < sect < |v.img| && !InMirror(v.g, sect) && !InFat(v.g, sect)
    ensures DirSecsOk(v.g, |v.img|, DirSecs(v.g, v.chains, s.dir)) && SectorsOk(v.img, DirSecs(v.g, v.chains, s.dir))
    ensures s.index < |Tab(v, s.dir)| && EntryOf(v, s) == Tab(v, s.dir)[s.index]
  {
    hide Based, SlotsOk, HeadsOk, AgreeOk, SubdirsOk, DirSecs, DirSecsOk, TableOk, Tab, InMirror, InFat, SlotSector,
         DirKnown, SectorsOk;
    SoundMeans(v, loose, pend);
    SoundParts(v, loose, pend);
    assert DirOk(v, s.dir);
    DirSector(v.g, |v.img|, DirSecs(v.g, v.chains, s.dir), SlotSector(s.index));
    DirSecsMean(v.g, v.img, DirSecs(v.g, v.chains, s.dir));
    SlotIndexed(v, s, loose, pend);
  }

  lemma SlotIndexed(v: Vol, s: Slot, loose: set<nat>, pend: set<Slot>)
    requires Sound(v, loose, pend) && s in v.starts
    ensures s.index < |Tab(v, s.dir)| && EntryOf(v, s) == Tab(v, s.dir)[s.index]
  {
    hide Based, DirsOk, HeadsOk, AgreeOk, SubdirsOk, Tab, Owns;
    SoundMeans(v, loose, pend);
    assert IsOwner(v, s);
  }

  lemma StartFits(v: Vol, s: Slot, loose: set<nat>, pend: set<Slot>)
    requires Sound(v, loose, pend) && s in v.starts
    ensures v.starts[s] < 0x1_0000_0000 && (v.g.fsType != Fat32 ==> v.starts[s] < 0x1_0000)
  {
    hide FatLayout, DataLayout, FatOf, ChainsOk, DirsOk, SlotsOk, AgreeOk, SubdirsOk;
    SoundMeans(v, loose, pend);
    if v.starts[s] != 0 {
      ChainGood(v.g, FatOf(v.g, v.img), v.chains, v.starts[s]);
      ChainStep(FatOf(v.g, v.img), v.chains, v.starts[s], 0);
      ClusterFits(v.g, |v.img|, v.starts[s]);
    }
  }

  lemma OwnerNoLabel(v: Vol, s: Slot, loose: set<nat>, pend: set<Slot>)
    requires Sound(v, loose, pend) && s in v.starts
    ensures !IsLabel(EntryOf(v, s))
  {
    hide Based, DirsOk, HeadsOk, AgreeOk, SubdirsOk, Tab, EntryOf, IsLabel;
    SoundMeans(v, loose, pend);
    assert IsOwner(v, s);
  }

  lemma SameStarts(a: map<Slot, nat>, slot: Slot)
    ensures StartsBut(a, a, slot)
  {
  }

  lemma NothingFreed(v: Vol, v': Vol, slot: Slot)
    requires slot in v.starts && slot in v'.starts && v'.starts[slot] == v.starts[slot]
    ensures FreedBy(v, v', slot) == {} && {} + FreedBy(v, v', slot) == {}
  {
  }

  /** A file's chain is not the chain of a directory. */
  lemma FileNotDir(v: Vol, loose: set<nat>, pend: set<Slot>, s: Slot, d: nat)
    requires Sound(v, loose, pend) && s in v.starts && !IsDir(EntryOf(v, s)) && d in v.dirs
    ensures v.starts[s] == 0 || v.starts[s] != DirHead(v.g, d)
  {
    hide Sound, EntryOf, IsDir, DirHead;
    if v.starts[s] != 0 { FileNoDir(v, loose, pend, s); }
  }

  lemma WindowInDir(g: Geometry, chains: map<nat, seq<nat>>, d: nat, ws: nat, ws': nat)
    requires ws' in DirSecs(g, chains, d)
    ensures WindowGoes(g, chains, DirHead(g, d), ws, ws')
  {
    hide DirSecs, HeadSecs, DirHead, InFat;
    DirSecsAre(g, chains, d);
  }

  lemma PlacesSame(v: Vol, v': Vol)
    requires v'.g == v.g && v'.chains == v.chains
    ensures PlacesKept(v, v')
  {
    hide DirSecs;
  }

  /** The contents of closed files after a change of another slot that keeps the kinds of all entries. */
  lemma ContentsBySlot(v: Vol, v': Vol, slot: Slot, open: set<Slot>, c: map<Slot, seq<byte>>)
    requires ContentsFor(v, open, c) && slot in v.starts && slot in v'.starts && slot in open
    requires !IsDir(EntryOf(v, slot)) && !IsDir(EntryOf(v', slot))
    requires forall s {:trigger s in v.starts} :: s in v.starts && s != slot ==> s in v'.starts && EntryOf(v', s) == EntryOf(v, s)
    requires forall s {:trigger s in v.starts} :: s in v.starts && s != slot && !IsDir(EntryOf(v, s)) ==>
             FileOf(v', s) == FileOf(v, s)
    requires forall s {:trigger s in v'.starts} :: s in v'.starts && s != slot ==> s in v.starts
    ensures ContentsFor(v', open, c)
  {
    hide EntryOf, FileOf, IsDir;
  }

  lemma TooFar(v: Vol, loose: set<nat>, pend: set<Slot>)
    requires Sound(v, loose, pend)
    ensures NOBODY !in v.starts
  {
    hide Based, DirsOk, HeadsOk, AgreeOk, SubdirsOk, DirSecs, Owns, EntryOf, SectorsOk;
    SoundMeans(v, loose, pend);
    assert NOBODY in v.starts <==> IsOwner(v, NOBODY);
  }

  lemma FreeCountFits(fs: FatFs)
    requires VolumeOk(fs)
    ensures fs.freeClust < 0x1_0000_0000
  {
    hide FatFs.Valid, FatFs.Img, FatOf, FatLayout, DataLayout, ChainsOk, FreeBelow;
    NarrowEnough(fs);
    FreeBelowBound(Fat(fs), |Fat(fs)|);
  }

  /** A change of the FSInfo sector changes no area. */
  lemma InfoArea(v: Vol, v': Vol, s: nat)
    requires v'.g == v.g && v'.chains == v.chains && s == v.g.fsiSector
    requires v'.img == v.img || (v.g.fsType == Fat32 && s < |v'.img| && s < |v.img| && v'.img == v.img[s := v'.img[s]])
    ensures OnlyArea(v, v', 1)
  {
    hide HeadSecs, InFat;
  }

  lemma NoHeadOne(v: Vol)
    requires Based(v)
    ensures 1 !in v.chains
  {
    hide Based;
    if 1 in v.chains { HeadRange(v, 1); }
  }

  lemma WindowDropped(g: Geometry, chains: map<nat, seq<nat>>, h: nat, ws: nat, ws': nat)
    requires ws' == ws || ws' == 0
    ensures WindowGoes(g, chains, h, ws, ws')
  {
  }

  /** All names stay when no directory's area changes. */
  lemma TabsAndNames(v: Vol, v': Vol, h: nat, loose: set<nat>, pend: set<Slot>)
    requires Sound(v, loose, pend) && Based(v') && OnlyArea(v, v', h) && v'.dirs == v.dirs && NoDir(v, h)
    ensures NamesOf(v') == NamesOf(v) && forall d {:trigger d in v.dirs} :: d in v.dirs ==> Tab(v', d) == Tab(v, d)
  {
    hide Sound, Based, OnlyArea, DirHead, Tab, NamesOf, DirOk;
    OtherTabsKept(v, v', h, loose, pend);
    forall d | d in v.dirs ensures Tab(v', d) == Tab(v, d) { assert SameTab(v, v', d); }
    NamesKept(v, v');
  }

  lemma ContentsStay(v: Vol, v': Vol, open: set<Slot>, c: map<Slot, seq<byte>>)
    requires ContentsFor(v, open, c) && v'.starts == v.starts
    requires forall s {:trigger s in v.starts} :: s in v.starts ==> EntryOf(v', s) == EntryOf(v, s) && FileOf(v', s) == FileOf(v, s)
    ensures ContentsFor(v', open, c)
  {
    hide EntryOf, FileOf, IsDir;
  }

  lemma KnownVolume(dj: Dir)
    requires dj.Known()
    ensures VolumeOk(dj.fs)
  {
  }

  lemma SameVol(a: Vol, b: Vol)
    requires a.g == b.g && a.img == b.img && a.chains == b.chains && a.dirs == b.dirs && a.starts == b.starts
    ensures a == b
  {
  }

  lemma SameArea(v: Vol, h: nat)
    ensures OnlyArea(v, v, h)
  {
    hide HeadSecs;
  }

  lemma WindowLooked(g: Geometry, chains: map<nat, seq<nat>>, d: nat, ws: nat, ws': nat)
    requires MovedIn(g, ws, ws', DirSecs(g, chains, d))
    ensures WindowGoes(g, chains, DirHead(g, d), ws, ws')
  {
    hide DirSecs, HeadSecs, DirHead, InFat;
    DirSecsAre(g, chains, d);
  }

  /** A table with fewer names than entries has a blank one. */
  lemma BlankLeft(t: seq<Entry>)
    requires TableOk(t) && |NameMap(t)| < |t| && forall i {:trigger t[i]} :: 0 <= i < |t| ==> PlainEntry(t[i])
    ensures FirstBlank(t, 0) < |t|
  {
    hide IsLabel, IsReadOnly, EndMarked;
    if FirstBlank(t, 0) == |t| {
      NoBlankBefore(t, 0);
      AllNamed(t);
      assert false;
    }
  }

  lemma {:induction false} AllNamed(t: seq<Entry>)
    requires NamesUnique(t) && forall i {:trigger t[i]} :: 0 <= i < |t| ==> Live(t[i])
    ensures |NameMap(t)| == |t|
  {
    hide Live;
    if t != [] {
      var front, e := t[..|t| - 1], t[|t| - 1];
      assert forall i :: 0 <= i < |front| ==> front[i] == t[i];
      AllNamed(front);
      NameMapBinds(front, e[..11]);
      assert e[..11] !in NameMap(front);
    }
  }

  /** Why a name could not be registered: no entry is blank, and the directory cannot grow. */
  ghost predicate NoRoom(t: seq<Entry>, head: nat, res: FResult, free: nat) {
    FirstBlank(t, 0) == |t| && if head == 0 || |t| == 65536 then res == FrNoFile else res == FrDenied && free == 0
  }

  lemma NoRoomIs(t: seq<Entry>, head: nat, res: FResult, free: nat)
    requires FirstBlank(t, 0) >= |t|
    requires if head == 0 || |t| == 65536 then res == FrNoFile else res == FrDenied && free == 0
    ensures NoRoom(t, head, res, free)
  {
    hide FirstBlank;
  }

  lemma DirInNames(v: Vol, d: nat)
    requires d in v.dirs
    ensures d in NamesOf(v) && NamesOf(v)[d] == NameMap(Tab(v, d))
  {
    hide Tab, NameMap;
  }

  lemma DirTableOk(v: Vol, d: nat, loose: set<nat>, pend: set<Slot>)
    requires Sound(v, loose, pend) && d in v.dirs
    ensures TableOk(Tab(v, d)) && DirSecsOk(v.g, |v.img|, DirSecs(v.g, v.chains, d)) && DirKnown(v.g, v.chains, d)
  {
    hide Based, SlotsOk, HeadsOk, AgreeOk, SubdirsOk, Tab, TableOk, DirSecsOk, DirSecs, DirKnown;
    SoundMeans(v, loose, pend);
    assert DirOk(v, d);
  }

  lemma SegmentName(n: Name)
    requires SegmentOk(n)
    ensures NameOk(n)
  {
  }

  /** Directory `d` may have grown, and no other chain changed. */
  ghost predicate Grown(v: Vol, v': Vol, d: nat) {
    var h := DirHead(v.g, d);
    && v'.g == v.g && v'.dirs == v.dirs
    && (h in v.chains ==> h in v'.chains && v.chains[h] <= v'.chains[h])
    && v'.chains == if h in v.chains && h in v'.chains then v.chains[h := v'.chains[h]] else v.chains
  }

  lemma GrownArea(v: Vol, v': Vol, d: nat)
    requires Grown(v, v', d) && |v'.img| == |v.img| && OnlySecs(v.g, v.img, v'.img, DirSecs(v.g, v'.chains, d))
    ensures OnlyArea(v, v', DirHead(v.g, d))
  {
    hide DirSecs, HeadSecs, DirHead, InFat;
    DirSecsAre(v.g, v'.chains, d);
  }

  /** No directory's sectors move when one grows. */
  lemma GrownPlaces(v: Vol, v': Vol, d: nat, loose: set<nat>, pend: set<Slot>)
    requires Sound(v, loose, pend) && Based(v') && Grown(v, v', d) && OnlyArea(v, v', DirHead(v.g, d)) && d in v.dirs
    ensures PlacesKept(v, v')
  {
    hide Sound, Based, OnlyArea, DirHead, DirSecs, Secs, RootSecs, RootSectors;
    SoundParts(v, loose, pend);
    forall k | k in v.dirs ensures DirSecs(v.g, v.chains, k) <= DirSecs(v'.g, v'.chains, k) {
      DirSecsAre(v.g, v.chains, k);
      DirSecsAre(v.g, v'.chains, k);
      var h := DirHead(v.g, k);
      if k != d {
        DirHeadsDiffer(v, loose, pend, k, d);
        AreaKept(v, v', DirHead(v.g, d), h);
      } else if h != 0 && h in v.chains {
        SecsPrefix(v.g, v.chains[h], v'.chains[h]);
      } else if h != 0 {
        NoSectors(v.g);
      }
    }
  }

  /** The first blank entry belongs to nobody. */
  lemma NewSlot(v: Vol, slot: Slot, loose: set<nat>, pend: set<Slot>)
    requires Sound(v, loose, pend) && slot.index == FirstBlank(Tab(v, slot.dir), 0)
    ensures slot !in v.starts && (slot.index < |Tab(v, slot.dir)| ==> Blank(EntryOf(v, slot)))
  {
    hide Based, DirsOk, HeadsOk, AgreeOk, SubdirsOk, Tab, FirstBlank, IsLabel;
    SoundMeans(v, loose, pend);
    NoBlankBefore(Tab(v, slot.dir), 0);
    assert slot in v.starts <==> IsOwner(v, slot);
  }

  lemma NewEntryFields(g: Geometry, n: Name)
    requires SegmentOk(n)
    ensures !IsDir(NewEntry(n)) && Owns(NewEntry(n)) && PlainEntry(NewEntry(n)) && StartOf(g, NewEntry(n)) == 0
            && SizeOf(NewEntry(n)) == 0
  {
    var e := NewEntry(n);
    assert e[0] == n[0] && e[11] == 0;
    assert e[26] == 0 && e[27] == 0 && e[20] == 0 && e[21] == 0;
    assert e[28] == 0 && e[29] == 0 && e[30] == 0 && e[31] == 0;
  }

  lemma NewSlotChange(v: Vol, v': Vol, slot: Slot)
    requires slot.dir in v.dirs && Based(v') && OnlyArea(v, v', DirHead(v.g, slot.dir)) && DirOk(v', slot.dir)
    requires KeptBut(Tab(v, slot.dir), Tab(v', slot.dir), slot.index) && slot.index < |Tab(v', slot.dir)|
    requires slot.index < |Tab(v, slot.dir)| ==> Blank(EntryOf(v, slot))
    requires v'.starts == v.starts[slot := 0] && Owns(EntryOf(v', slot))
    ensures SlotChange(v, v', slot)
  {
    hide Based, OnlyArea, DirOk, Tab, KeptBut, EntryOf, Owns, Blank, DirHead;
  }

  lemma NoneFreed(v: Vol, v': Vol, slot: Slot, loose: set<nat>)
    requires slot !in v.starts
    ensures FreedBy(v, v', slot) == {} && loose + FreedBy(v, v', slot) == loose
  {
  }

  lemma NewContents(v: Vol, v': Vol, slot: Slot, open: set<Slot>, c: map<Slot, seq<byte>>)
    requires ContentsFor(v, open, c) && slot !in v.starts && slot in v'.starts && open <= v.starts.Keys && v'.starts[slot] == 0
    requires !IsDir(EntryOf(v', slot)) && SizeOf(EntryOf(v', slot)) == 0
    requires forall s {:trigger s in v.starts} :: s in v.starts && s != slot ==> s in v'.starts && EntryOf(v', s) == EntryOf(v, s)
    requires forall s {:trigger s in v.starts} :: s in v.starts && s != slot && !IsDir(EntryOf(v, s)) ==>
             FileOf(v', s) == FileOf(v, s)
    requires forall s {:trigger s in v'.starts} :: s in v'.starts && s != slot ==> s in v.starts
    ensures ContentsFor(v', open, c[slot := []])
  {
    hide EntryOf, FileOf, IsDir, SizeOf;
    EmptyFile(v', slot);
  }

  lemma NotInContents(v: Vol, open: set<Slot>, c: map<Slot, seq<byte>>, slot: Slot)
    requires ContentsFor(v, open, c) && slot !in v.starts
    ensures slot !in c
  {
    hide EntryOf, FileOf, IsDir;
  }

  /** Directory `d` got at most one cluster, and only while it could use it. */
  ghost predicate GrownOnce(v: Vol, v': Vol, d: nat) {
    var h := DirHead(v.g, d);
    v'.chains == v.chains
    || (|Tab(v, d)| < 65536 && h in v.chains && h in v'.chains && |v'.chains[h]| == |v.chains[h]| + 1)
  }

  /** What dir_register leaves: a fresh entry for the name at the first blank slot, in a directory that may have grown. */
  ghost predicate Registered(v: Vol, v': Vol, d: nat, i: nat, name: Name) {
    && Grown(v, v', d) && |v'.img| == |v.img| && OnlySecs(v.g, v.img, v'.img, DirSecs(v.g, v'.chains, d)) && DirOk(v', d)
    && KeptBut(Tab(v, d), Tab(v', d), i) && i < |Tab(v', d)| && Tab(v', d)[i] == NewEntry(name) && i == FirstBlank(Tab(v, d), 0)
    && NameMap(Tab(v', d)) == NameMap(Tab(v, d))[name := i] && v'.starts == v.starts[Slot(d, i) := 0] && GrownOnce(v, v', d)
  }

  lemma RegisteredMeans(v: Vol, v': Vol, d: nat, i: nat, name: Name)
    requires Registered(v, v', d, i, name)
    ensures Grown(v, v', d) && |v'.img| == |v.img| && OnlySecs(v.g, v.img, v'.img, DirSecs(v.g, v'.chains, d)) && DirOk(v', d)
    ensures KeptBut(Tab(v, d), Tab(v', d), i) && i < |Tab(v', d)| && Tab(v', d)[i] == NewEntry(name)
            && i == FirstBlank(Tab(v, d), 0)
    ensures NameMap(Tab(v', d)) == NameMap(Tab(v, d))[name := i] && v'.starts == v.starts[Slot(d, i) := 0]
    ensures v'.g == v.g && v'.dirs == v.dirs && GrownOnce(v, v', d)
  {
    hide GrownOnce, OnlySecs, DirOk, KeptBut, Tab, NameMap, FirstBlank, DirSecs;
  }

  /** The mounted volume's state, with a new slot. */
  ghost function WithSlot(fs: FatFs, v: Vol, slot: Slot): Vol
    requires fs.Valid()
    reads fs`winsect, fs`wflag, fs`chains, fs.disk, fs.win
  {
    Vol(fs.geo, fs.Img(), fs.chains, v.dirs, v.starts[slot := 0])
  }

  /** dir_register on a volume in order. */
  method RegisterAt(dj: Dir, name: Name, ghost v: Vol, ghost loose: set<nat>, ghost pend: set<Slot>) returns (res: FResult)
    requires dj.Known() && OnVolume(dj.fs, v) && Sound(v, loose, pend) && dj.sclust in v.dirs
    requires SegmentOk(name) && name !in NameMap(Tab(v, dj.sclust))
    modifies dj`index, dj`clust, dj`sect
    modifies dj.fs`winsect, dj.fs`wflag, dj.fs`lastClust, dj.fs`freeClust, dj.fs`fsiFlag, dj.fs`chains, dj.fs.disk, dj.fs.win
    ensures dj.Known() && v.g == dj.fs.geo
    ensures res == FrOk ==> dj.Stands(dj.index) && dj.fs.winsect == dj.sect
    ensures res == FrOk ==> Registered(v, WithSlot(dj.fs, v, Slot(dj.sclust, dj.index)), dj.sclust, dj.index, name)
    ensures res != FrOk ==> OnVolume(dj.fs, v) && NoRoom(Tab(v, dj.sclust), dj.Head(), res, CountFree(Fat(dj.fs)))
    ensures MovedIn(v.g, old(dj.fs.winsect), dj.fs.winsect, DirSecs(v.g, dj.fs.chains, dj.sclust))
    ensures res != FrOk && old(dj.fs.Clean()) ==> dj.fs.Clean()
  {
    hide *;
    OnVolumeMeans(dj.fs, v);
    EntriesTab(dj, v);
    DirTableOk(v, dj.sclust, loose, pend);
    SegmentName(name);
    res := dj.Register(name);
    KnownVolume(dj);
    ghost var v' := WithSlot(dj.fs, v, Slot(dj.sclust, dj.index));
    WithSlotIs(dj.fs, v, Slot(dj.sclust, dj.index));
    OnVolumeIs(dj.fs, v');
    EntriesTab(dj, v');
    if res == FrOk {
      RegisteredIs(dj, v, v', name);
    } else {
      OnVolumeIs(dj.fs, v);
      EntriesTab(dj, v);
      NoRoomIs(Tab(v, dj.sclust), dj.Head(), res, CountFree(Fat(dj.fs)));
    }
  }

  lemma WithSlotIs(fs: FatFs, v: Vol, slot: Slot)
    requires fs.Valid()
    ensures var v' := WithSlot(fs, v, slot);
            v'.g == fs.geo && v'.img == fs.Img() && v'.chains == fs.chains && v'.dirs == v.dirs
                && v'.starts == v.starts[slot := 0]
  {
  }

  lemma RegisteredIs(dj: Dir, v: Vol, v': Vol, name: Name)
    requires dj.Known() && OnVolume(dj.fs, v') && TableOk(Tab(v', dj.sclust)) && v'.g == v.g && v'.dirs == v.dirs
             && |v'.img| == |v.img|
    requires dj.Head() in v.chains ==> dj.Head() in v'.chains && v.chains[dj.Head()] <= v'.chains[dj.Head()]
    requires v'.chains == if dj.Head() in v.chains && dj.Head() in v'.chains
             then v.chains[dj.Head() := v'.chains[dj.Head()]] else v.chains
    requires OnlySecs(v.g, v.img, v'.img, DirSecs(v.g, v'.chains, dj.sclust))
             && KeptBut(Tab(v, dj.sclust), Tab(v', dj.sclust), dj.index)
    requires dj.index < |Tab(v', dj.sclust)| && Tab(v', dj.sclust)[dj.index] == NewEntry(name)
    requires dj.index == FirstBlank(Tab(v, dj.sclust), 0) && v'.starts == v.starts[Slot(dj.sclust, dj.index) := 0]
    requires NameMap(Tab(v', dj.sclust)) == NameMap(Tab(v, dj.sclust))[name := dj.index]
    requires v'.chains == v.chains || (|Tab(v, dj.sclust)| < 65536 && dj.Head() in v.chains && dj.Head() in v'.chains
                                       && |v'.chains[dj.Head()]| == |v.chains[dj.Head()]| + 1)
    ensures Registered(v, v', dj.sclust, dj.index, name)
  {
    hide VolumeOk, DirSecs, DirSecsOk, TableOk, Tab, DirKnown, OnlySecs, KeptBut, NameMap, FirstBlank;
  }

  lemma EmptyFile(v: Vol, s: Slot)
    requires s in v.starts && SizeOf(EntryOf(v, s)) == 0
    ensures FileOf(v, s) == []
  {
    hide EntryOf, Flat, Fits, Secs, SizeOf;
  }

  lemma NewNames(v: Vol, v': Vol, d: nat, name: Name, i: nat, loose: set<nat>, pend: set<Slot>)
    requires Sound(v, loose, pend) && Based(v') && OnlyArea(v, v', DirHead(v.g, d)) && d in v.dirs && v'.dirs == v.dirs
    requires NameMap(Tab(v', d)) == NameMap(Tab(v, d))[name := i]
    ensures d in NamesOf(v) && NamesOf(v') == WithName(NamesOf(v), d, name, i)
  {
    hide Sound, Based, OnlyArea, DirHead, Tab, NameMap, DirOk;
    OtherTabsKept(v, v', DirHead(v.g, d), loose, pend);
    forall k | k in v.dirs && k != d ensures Tab(v', k) == Tab(v, k) {
      DirHeadsDiffer(v, loose, pend, k, d);
      assert SameTab(v, v', k);
    }
  }

  lemma InWindowMeans(fs: FatFs, s: Slot)
    requires InWindow(fs, s)
    ensures VolumeOk(fs)
  {
  }

  lemma EntryAgrees(v: Vol, s: Slot, loose: set<nat>, pend: set<Slot>)
    requires Sound(v, loose, pend) && s in v.starts && s !in pend
    ensures StartOf(v.g, EntryOf(v, s)) == v.starts[s] && (IsDir(EntryOf(v, s)) || SizeOf(EntryOf(v, s)) <= Capacity(v, v.starts[s]))
  {
    hide Based, DirsOk, SlotsOk, HeadsOk, SubdirsOk, EntryOf, IsDir, StartOf, SizeOf, Capacity;
    SoundMeans(v, loose, pend);
    assert Agrees(v, s);
  }

  lemma OneStart(a: map<Slot, nat>, slot: Slot, x: nat)
    ensures StartsBut(a, a[slot := x], slot)
  {
  }

  lemma ToZeroFreed(v: Vol, v': Vol, slot: Slot)
    requires slot in v.starts && slot in v'.starts && v'.starts[slot] == 0
    ensures {} + FreedBy(v, v', slot) == if v.starts[slot] == 0 then {} else {v.starts[slot]}
  {
  }

  lemma EmptyAgrees(v: Vol, slot: Slot, loose: set<nat>, pend: set<Slot>)
    requires Sound(v, loose, pend + {slot}) && slot in v.starts && v.starts[slot] == 0 && slot !in pend
    requires StartOf(v.g, EntryOf(v, slot)) == 0 && SizeOf(EntryOf(v, slot)) == 0
    ensures Sound(v, loose, pend)
  {
    hide Sound, EntryOf, StartOf, SizeOf, IsDir, Capacity;
    Settled(v, slot, loose, pend + {slot});
    assert (pend + {slot}) - {slot} == pend;
  }

  lemma WindowStill(g: Geometry, chains: map<nat, seq<nat>>, h: nat, ws: nat)
    ensures WindowGoes(g, chains, h, ws, ws)
  {
  }

  lemma ContentsEmptied(v: Vol, v': Vol, slot: Slot, open: set<Slot>, c: map<Slot, seq<byte>>)
    requires ContentsFor(v, open, c) && slot in v.starts && slot in v'.starts && slot !in open
    requires !IsDir(EntryOf(v, slot)) && !IsDir(EntryOf(v', slot)) && SizeOf(EntryOf(v', slot)) == 0
    requires forall s {:trigger s in v.starts} :: s in v.starts && s != slot ==> s in v'.starts && EntryOf(v', s) == EntryOf(v, s)
    requires forall s {:trigger s in v.starts} :: s in v.starts && s != slot && !IsDir(EntryOf(v, s)) ==>
             FileOf(v', s) == FileOf(v, s)
    requires forall s {:trigger s in v'.starts} :: s in v'.starts && s != slot ==> s in v.starts
    ensures ContentsFor(v', open, c[slot := []])
  {
    hide EntryOf, FileOf, IsDir, SizeOf;
    EmptyFile(v', slot);
  }

  lemma FreedArea(v: Vol, v': Vol, h: nat)
    requires v'.g == v.g && v'.chains == v.chains - {h} && SameOutsideFat(v.g, v.img, v'.img)
    ensures OnlyArea(v, v', h)
  {
    hide HeadSecs, InFat;
  }

  lemma LooseStarts(v: Vol, loose: set<nat>, pend: set<Slot>, h: nat)
    requires Sound(v, loose, pend) && (h in loose || (h != 0 && h !in v.chains))
    ensures forall s {:trigger s in v.starts} :: s in v.starts ==> v.starts[s] != h
  {
    hide Based, DirsOk, SlotsOk, AgreeOk, SubdirsOk;
    SoundMeans(v, loose, pend);
    forall s | s in v.starts ensures v.starts[s] != h { assert v.starts[s] != 0 ==> v.starts[s] !in loose && v.starts[s] in v.chains; }
  }

  lemma LooseHere(v: Vol, h: nat, pend: set<Slot>)
    requires Sound(v, {h}, pend)
    ensures h in v.chains
  {
    hide Based, DirsOk, SlotsOk, AgreeOk, SubdirsOk;
    SoundMeans(v, {h}, pend);
    assert h in {h};
  }

  lemma PlaceMoved(v: Vol, s: Slot, sect: nat, ofs: nat, ws: nat)
    requires SlotPlace(v, s, sect, ofs)
    ensures MovedIn(v.g, ws, sect, DirSecs(v.g, v.chains, s.dir))
  {
    hide DirSecs, InFat, SlotSector, SlotOffset;
  }

  /** A new file object for an entry that says what is. */
  lemma NewFil(f: Fil, v: Vol, slot: Slot, ws: nat, pend: set<Slot>)
    requires Sound(v, {}, pend) && slot in v.starts && !IsDir(EntryOf(v, slot)) && ws in DirSecs(v.g, v.chains, slot.dir)
    requires f.buf.Length == 512 && !f.faDirty && f.fptr == 0 && f.dsect == 0 && f.sclust == v.starts[slot]
    requires f.fsize == SizeOf(EntryOf(v, slot)) <= Capacity(v, v.starts[slot])
    ensures FilOk(f, v, ws) && FilBytes(f, v) == FileOf(v, slot)
  {
    hide FatLayout, DataLayout, FatOf, ChainsOk, DirsOk, SlotsOk, AgreeOk, SubdirsOk, EntryOf, IsDir, Secs, Fits,
         FileShape, Flat, DirSecs, HeadSecs, DirHead, Sound;
    SoundParts(v, {}, pend);
    DataFacts(v.g, |v.img|);
    var ch := ChainAt(v.chains, f.sclust);
    DirSecsAre(v.g, v.chains, slot.dir);
    FileNotDir(v, {}, pend, slot, slot.dir);
    NoSectors(v.g);
    if f.sclust != 0 {
      ChainGood(v.g, FatOf(v.g, v.img), v.chains, f.sclust);
      AreasApart(v, DirHead(v.g, slot.dir), f.sclust, ws);
      HeadSecsIs(v.g, v.chains, f.sclust);
    }
    FileFits(v.g, |v.img|, ch);
    FreshShape(v.g, ch, ws);
    FreshClust(v.g, ch, f.clust);
  }

  lemma FreshShape(g: Geometry, ch: seq<nat>, ws: nat)
    requires AllClusters(g, ch) && Distinct(ch) && ws !in Secs(g, ch)
    ensures FileShape(g, ch, 0, 0, false, ws)
  {
    hide AllClusters, Distinct, Secs;
  }

  lemma FreshClust(g: Geometry, ch: seq<nat>, clust: nat)
    ensures ClustOk(g, ch, 0, clust)
  {
  }

  /** More entries may lag behind than do. */
  lemma SoundMore(v: Vol, loose: set<nat>, pend: set<Slot>, pend': set<Slot>)
    requires Sound(v, loose, pend) && pend <= pend'
    requires forall s {:trigger s in pend'} :: s in pend' && s !in pend ==> s in v.starts && !IsDir(EntryOf(v, s))
    ensures Sound(v, loose, pend')
  {
    hide Based, DirsOk, SlotsOk, HeadsOk, SubdirsOk, EntryOf, IsDir, Agrees;
    SoundMeans(v, loose, pend);
    SoundIs(v, loose, pend');
  }

  lemma ContentsWith(v: Vol, open: set<Slot>, open': set<Slot>, slot: Slot, c: map<Slot, seq<byte>>)
    requires ContentsFor(v, open, c) && open <= open' && slot in v.starts && !IsDir(EntryOf(v, slot)) && slot !in open
    ensures ContentsFor(v, open', c) && slot in c && c[slot] == FileOf(v, slot)
  {
    hide EntryOf, FileOf, IsDir;
  }

  ghost predicate IsDirEntry(v: Vol, s: Slot) {
    IsDir(EntryOf(v, s))
  }

  lemma FirstSector()
    ensures SlotSector(2) == SlotSector(0)
  {
  }

  lemma DotsHere(v: Vol, d: nat, loose: set<nat>, pend: set<Slot>)
    requires Sound(v, loose, pend) && d in v.dirs && d != 0
    ensures DotsOk(v, d)
  {
    hide Based, DirsOk, SlotsOk, HeadsOk, AgreeOk, DotsOk;
    SoundMeans(v, loose, pend);
  }

  lemma OwnerLive(v: Vol, s: Slot, loose: set<nat>, pend: set<Slot>)
    requires Sound(v, loose, pend) && s in v.starts
    ensures Live(EntryOf(v, s)) && EntryOf(v, s)[0] != 0x2E
  {
    hide Based, DirsOk, HeadsOk, AgreeOk, SubdirsOk, Tab, EntryOf, Live;
    SoundMeans(v, loose, pend);
    assert IsOwner(v, s);
  }

  lemma DirOkHere(dj: Dir, v: Vol)
    requires dj.Known() && OnVolume(dj.fs, v) && TableOk(Tab(v, dj.sclust))
    ensures DirOk(v, dj.sclust)
  {
    hide VolumeOk, DirSecs, DirSecsOk, TableOk, Tab, DirKnown;
  }

  lemma DeletedOwns(e: Entry)
    ensures !Owns(Patch(e, 0, [DDE]))
  {
  }

  lemma LessStart(a: map<Slot, nat>, slot: Slot)
    ensures StartsBut(a, a - {slot}, slot)
  {
  }

  lemma SlotChanged(v: Vol, v': Vol, slot: Slot)
    requires slot.dir in v.dirs && Based(v') && OnlyArea(v, v', DirHead(v.g, slot.dir)) && DirOk(v', slot.dir) && slot in v.starts
    requires KeptBut(Tab(v, slot.dir), Tab(v', slot.dir), slot.index) && slot.index < |Tab(v', slot.dir)|
    requires StartsBut(v.starts, v'.starts, slot) && (slot in v'.starts <==> Owns(EntryOf(v', slot)))
    ensures SlotChange(v, v', slot)
  {
    hide Based, OnlyArea, DirOk, Tab, KeptBut, EntryOf, Owns, Blank, DirHead, StartsBut;
  }

  lemma SubdirOf(v: Vol, s: Slot, loose: set<nat>, pend: set<Slot>)
    requires Sound(v, loose, pend) && s in v.starts && IsDir(EntryOf(v, s))
    ensures v.starts[s] != 0 && v.starts[s] in v.dirs
  {
    hide Based, DirsOk, SlotsOk, HeadsOk, AgreeOk, IsDir, EntryOf, DotsOk;
    SoundMeans(v, loose, pend);
  }

  /** No owned entry lies in a directory without owned entries. */
  lemma EmptyDir(v: Vol, d: nat, loose: set<nat>, pend: set<Slot>)
    requires Sound(v, loose, pend) && NoneOwned(v, d)
    ensures forall s {:trigger s in v.starts} :: s in v.starts ==> s.dir != d
  {
    hide Based, DirsOk, HeadsOk, AgreeOk, SubdirsOk, Tab, EntryOf, Owns;
    SoundMeans(v, loose, pend);
    forall s | s in v.starts ensures s.dir != d {
      assert IsOwner(v, s);
      assert s == Slot(s.dir, s.index);
    }
  }

  lemma GoneFreed(v: Vol, v': Vol, slot: Slot)
    requires slot in v.starts && slot !in v'.starts
    ensures {} + FreedBy(v, v', slot) == if v.starts[slot] == 0 then {} else {v.starts[slot]}
  {
  }

  lemma ContentsRemoved(v: Vol, v': Vol, slot: Slot, open: set<Slot>, c: map<Slot, seq<byte>>)
    requires ContentsFor(v, open, c) && slot in v.starts && slot !in v'.starts && slot !in open
    requires forall s {:trigger s in v.starts} :: s in v.starts && s != slot ==> s in v'.starts && EntryOf(v', s) == EntryOf(v, s)
    requires forall s {:trigger s in v.starts} :: s in v.starts && s != slot && !IsDir(EntryOf(v, s)) ==>
             FileOf(v', s) == FileOf(v, s)
    requires forall s {:trigger s in v'.starts} :: s in v'.starts && s != slot ==> s in v.starts
    ensures ContentsFor(v', open, c - {slot})
  {
    hide EntryOf, FileOf, IsDir;
  }

  lemma LessName(v: Vol, v': Vol, slot: Slot, n: Name, loose: set<nat>, pend: set<Slot>, gone: set<nat>)
    requires Sound(v, loose, pend) && Based(v') && OnlyArea(v, v', DirHead(v.g, slot.dir)) && slot.dir in v.dirs
    requires v'.dirs == v.dirs - gone && slot.dir !in gone && NameMap(Tab(v', slot.dir)) == NameMap(Tab(v, slot.dir)) - {n}
    ensures slot.dir in NamesOf(v) && NamesOf(v') == WithoutName(NamesOf(v), slot.dir, n) - gone
    ensures gone == {} ==> NamesOf(v') == WithoutName(NamesOf(v), slot.dir, n)
  {
    hide Sound, Based, OnlyArea, DirHead, Tab, NameMap, DirOk;
    OtherTabsKept(v, v', DirHead(v.g, slot.dir), loose, pend);
    forall k | k in v'.dirs && k != slot.dir ensures Tab(v', k) == Tab(v, k) {
      DirHeadsDiffer(v, loose, pend, k, slot.dir);
      assert SameTab(v, v', k);
    }
  }

  /** The names after an entry is unlinked; a directory takes its own, empty list with it. */
  ghost function NamesLess(v: Vol, s: Slot): map<nat, map<Name, nat>>
    requires s.dir in v.dirs && s in v.starts
  {
    var ns := WithoutName(NamesOf(v), s.dir, EntryOf(v, s)[..11]);
    if IsDir(EntryOf(v, s)) then ns - {v.starts[s]} else ns
  }

  lemma NamesLessIs(v: Vol, s: Slot)
    requires s.dir in v.dirs && s in v.starts
    ensures s.dir in NamesOf(v)
    ensures NamesLess(v, s) == if IsDir(EntryOf(v, s)) then WithoutName(NamesOf(v), s.dir, EntryOf(v, s)[..11]) - {v.starts[s]}
                               else WithoutName(NamesOf(v), s.dir, EntryOf(v, s)[..11])
  {
    hide EntryOf, IsDir, Tab, NameMap;
  }

  lemma IsDirMeans(v: Vol, s: Slot)
    ensures IsDirEntry(v, s) <==> IsDir(EntryOf(v, s))
  {
    hide EntryOf, IsDir;
  }

  /** The mounted volume's image and chains, with the directories and starts of `v`. */
  ghost function StateOf(fs: FatFs, v: Vol): Vol
    requires fs.Valid()
    reads fs`winsect, fs`wflag, fs`chains, fs.disk, fs.win
  {
    Vol(fs.geo, fs.Img(), fs.chains, v.dirs, v.starts)
  }

  /** What dir_remove leaves: the slot's entry is marked deleted, and nothing else outside the FAT changed. */
  ghost predicate Removed(v: Vol, v': Vol, slot: Slot) {
    && v'.g == v.g && v'.chains == v.chains && |v'.img| == |v.img| && DirOk(v', slot.dir)
    && slot.index < |Tab(v, slot.dir)| && EntryOf(v, slot) == Tab(v, slot.dir)[slot.index]
    && Tab(v', slot.dir) == Tab(v, slot.dir)[slot.index := Patch(EntryOf(v, slot), 0, [DDE])]
    && NameMap(Tab(v', slot.dir)) == NameMap(Tab(v, slot.dir)) - {EntryOf(v, slot)[..11]}
    && OnlySecs(v.g, v.img, v'.img, DirSecs(v.g, v.chains, slot.dir))
  }

  lemma RemovedMeans(v: Vol, fs: FatFs, slot: Slot)
    requires fs.Valid() && Removed(v, StateOf(fs, v), slot)
    ensures fs.geo == v.g && fs.chains == v.chains && |fs.Img()| == |v.img| && DirOk(StateOf(fs, v), slot.dir)
    ensures slot.index < |Tab(v, slot.dir)| && EntryOf(v, slot) == Tab(v, slot.dir)[slot.index]
    ensures Tab(StateOf(fs, v), slot.dir) == Tab(v, slot.dir)[slot.index := Patch(EntryOf(v, slot), 0, [DDE])]
    ensures NameMap(Tab(StateOf(fs, v), slot.dir)) == NameMap(Tab(v, slot.dir)) - {EntryOf(v, slot)[..11]}
    ensures OnlySecs(v.g, v.img, fs.Img(), DirSecs(v.g, v.chains, slot.dir))
    ensures StateOf(fs, v).g == fs.geo && StateOf(fs, v).img == fs.Img() && StateOf(fs, v).chains == fs.chains
  {
    hide OnlySecs, DirOk, Tab, NameMap, DirSecs, EntryOf, FatFs.Valid, FatFs.Img, Patch;
  }

  lemma SameTabs(a: Vol, b: Vol, d: nat)
    requires a.g == b.g && a.img == b.img && a.chains == b.chains
    ensures Tab(a, d) == Tab(b, d) && (DirOk(a, d) <==> DirOk(b, d))
  {
    hide DirSecs, TableOk, DirSecsOk, DirKnown, Table, SectorsOk;
  }

  /** dir_remove on a volume in order. */
  method RemoveAt(dj: Dir, ghost slot: Slot, ghost v: Vol, ghost pend: set<Slot>)
    requires dj.Known() && dj.Stands(dj.index) && OnVolume(dj.fs, v) && Sound(v, {}, pend)
    requires slot == Slot(dj.sclust, dj.index) && slot in v.starts && slot.dir in v.dirs
    modifies dj`index, dj`clust, dj`sect, dj.fs`winsect, dj.fs`wflag, dj.fs.disk, dj.fs.win
    ensures dj.Known() && Removed(v, StateOf(dj.fs, v), slot)
    ensures MovedIn(v.g, old(dj.fs.winsect), dj.fs.winsect, DirSecs(v.g, v.chains, slot.dir))
  {
    hide *;
    OnVolumeMeans(dj.fs, v);
    EntriesTab(dj, v);
    dj.EntryHere(dj.index);
    EntryAtSlot(v, slot);
    DirTableOk(v, slot.dir, {}, pend);
    OwnerLive(v, slot, {}, pend);
    var r := dj.Remove();
    KnownVolume(dj);
    ghost var v' := StateOf(dj.fs, v);
    StateIsOf(dj.fs, v);
    OnVolumeIs(dj.fs, v');
    EntriesTab(dj, v');
    DirOkHere(dj, v');
    ImgLength(dj.fs);
    RemovedIs(v, v', slot);
  }

  lemma ImgLength(fs: FatFs)
    requires fs.Valid()
    ensures |fs.Img()| == fs.disk.Length
  {
    hide FatFs.Valid, FatFs.Img;
  }

  lemma StateIsOf(fs: FatFs, v: Vol)
    requires fs.Valid()
    ensures var v' := StateOf(fs, v); v'.g == fs.geo && v'.img == fs.Img() && v'.chains == fs.chains && v'.dirs == v.dirs && v'.starts == v.starts
  {
  }

  lemma RemovedIs(v: Vol, v': Vol, slot: Slot)
    requires v'.g == v.g && v'.chains == v.chains && |v'.img| == |v.img| && DirOk(v', slot.dir)
    requires slot.index < |Tab(v, slot.dir)| && EntryOf(v, slot) == Tab(v, slot.dir)[slot.index]
    requires Tab(v', slot.dir) == Tab(v, slot.dir)[slot.index := Patch(EntryOf(v, slot), 0, [DDE])]
    requires NameMap(Tab(v', slot.dir)) == NameMap(Tab(v, slot.dir)) - {EntryOf(v, slot)[..11]}
    requires OnlySecs(v.g, v.img, v'.img, DirSecs(v.g, v.chains, slot.dir))
    ensures Removed(v, v', slot)
  {
    hide OnlySecs, DirOk, Tab, NameMap, DirSecs, EntryOf, Patch;
  }

  /** What f_unlink may remove: no read-only entry, and no directory that holds a file or a directory. */
  ghost predicate Removable(v: Vol, s: Slot) {
    && !IsReadOnly(EntryOf(v, s))
    && (IsDir(EntryOf(v, s)) ==>
          var t := Tab(v, StartOf(v.g, EntryOf(v, s)));
          2 <= |t| && forall j {:trigger t[j]} :: 2 <= j < |t| ==> PassedOver(t[j]))
  }

  lemma RemovableIs(v: Vol, s: Slot, res: FResult)
    requires IsReadOnly(EntryOf(v, s)) ==> res == FrDenied
    requires !IsReadOnly(EntryOf(v, s)) && !IsDir(EntryOf(v, s)) ==> res == FrOk
    requires !IsReadOnly(EntryOf(v, s)) && IsDir(EntryOf(v, s)) ==>
               var t := Tab(v, StartOf(v.g, EntryOf(v, s)));
               2 <= |t| && TableOk(t) && res == if ItemScan(t, 2) < |t| then FrDenied else FrOk
    ensures res == if Removable(v, s) then FrOk else FrDenied
  {
    hide EntryOf, IsDir, IsReadOnly, Tab, ItemScan, StartOf, EndMarked, PassedOver, NamesUnique;
    var t := Tab(v, StartOf(v.g, EntryOf(v, s)));
    if IsDir(EntryOf(v, s)) && !IsReadOnly(EntryOf(v, s)) { NothingFoundIff(t, 2); }
  }

  lemma NotOne(v: Vol, s: Slot, loose: set<nat>, pend: set<Slot>)
    requires Sound(v, loose, pend) && s in v.starts && v.starts[s] != 0
    ensures v.starts[s] >= 2
  {
    hide Based, DirsOk, SlotsOk, AgreeOk, SubdirsOk;
    SoundMeans(v, loose, pend);
    HeadRange(v, v.starts[s]);
  }

  /** A directory in which dir_read finds nothing owns nothing. */
  lemma NoneFound(v: Vol, d: nat, loose: set<nat>, pend: set<Slot>)
    requires Sound(v, loose, pend) && d in v.dirs && d != 0 && 2 <= |Tab(v, d)| && ItemScan(Tab(v, d), 2) == |Tab(v, d)|
    ensures NoneOwned(v, d)
  {
    hide Sound, Tab, Live, ItemScan;
    DotsHere(v, d, loose, pend);
    DirTableOk(v, d, loose, pend);
    NoItems(Tab(v, d), 2);
    forall i: nat | i < |Tab(v, d)| ensures !Owns(EntryOf(v, Slot(d, i))) {
      assert EntryOf(v, Slot(d, i)) == Tab(v, d)[i];
    }
  }

  lemma NewArea(v: Vol, v': Vol, c: nat)
    requires v'.g == v.g && c !in v.chains && v'.chains == v.chains[c := [c]] && SameOutsideFat(v.g, v.img, v'.img)
    ensures OnlyArea(v, v', c)
  {
    hide HeadSecs, InFat;
  }

  lemma InRangeIs(g: Geometry, c: nat)
    requires InRange(g, c)
    ensures 2 <= c < g.nFatent
  {
  }

  /** A directory that is in order, starts with its dot entries and owns nothing. */
  ghost predicate NewDir(v: Vol, c: nat) {
    c != 0 && DirOk(v, c) && DotsOk(v, c) && NoneOwned(v, c) && DirPlain(v, c) && |NameMap(Tab(v, c))| <= 2
  }

  lemma LooseNotRoot(v: Vol, loose: set<nat>, pend: set<Slot>, h: nat)
    requires Sound(v, loose, pend) && h in loose
    ensures h != 0 && DirHead(v.g, h) == h && h !in v.dirs
  {
    hide Based, DirsOk, SlotsOk, AgreeOk, SubdirsOk;
    SoundMeans(v, loose, pend);
    LooseNoDir(v, loose, pend, h);
  }

  lemma SingleSecs(g: Geometry, chains: map<nat, seq<nat>>, c: nat)
    requires c != 0 && c in chains && chains[c] == [c]
    ensures HeadSecs(g, chains, c) == ClusterSecs(g, c)
  {
    hide ClusterSecs;
    NoSectors(g);
    SecsAppend(g, [], c);
    assert [] + [c] == [c];
  }

  lemma OwnCluster(g: Geometry, chains: map<nat, seq<nat>>, c: nat, ws': nat, ws: nat)
    requires c != 0 && c in chains && chains[c] == [c] && Clust2Sect(g, c) <= ws' < Clust2Sect(g, c) + g.csize
    ensures WindowGoes(g, chains, c, ws, ws')
  {
    hide HeadSecs, Clust2Sect, InFat, ClusterSecs;
    SingleSecs(g, chains, c);
    ClusterMembers(g, c);
  }

  lemma ClusterArea(v: Vol, v': Vol, c: nat)
    requires v'.g == v.g && v'.chains == v.chains && c != 0 && c in v.chains && v.chains[c] == [c]
    requires SameOutside(v.img, v'.img, Clust2Sect(v.g, c), v.g.csize)
    ensures OnlyArea(v, v', c)
  {
    hide HeadSecs, Clust2Sect, InFat, ClusterSecs;
    SingleSecs(v.g, v.chains, c);
    ClusterMembers(v.g, c);
  }

  /** What f_mkdir writes is a directory in order that owns nothing. */
  lemma NewDirIs(v: Vol, c: nat, parent: nat, tm: nat)
    requires Based(v) && c != 0 && c in v.chains && v.chains[c] == [c] && DirHead(v.g, c) == c
    requires DotsOn(v.img, Clust2Sect(v.g, c), v.g.csize, DotSector(c, parent, tm))
    requires c < 0x1_0000_0000 && (v.g.fsType != Fat32 ==> c < 0x1_0000)
    requires parent < 0x1_0000_0000 && (v.g.fsType != Fat32 ==> parent < 0x1_0000)
    ensures NewDir(v, c) && DotsLead(v.g, Tab(v, c), c, parent)
  {
    hide FatLayout, DataLayout, FatOf, ChainsOk, HeadSecs, Clust2Sect, ClusterSecs, Table, SectorsOk, DotEntry,
         DotDotEntry, TableOk, DirSecsOk, Owns, AllZero, DotsOn, Secs, DotsLead;
    DataFacts(v.g, |v.img|);
    SingleSecs(v.g, v.chains, c);
    DirSecsAre(v.g, v.chains, c);
    ChainGood(v.g, FatOf(v.g, v.img), v.chains, c);
    ChainSecsInOrder(v.g, |v.img|, [c]);
    HeadSecsIs(v.g, v.chains, c);
    DirSecsMean(v.g, v.img, ClusterSecs(v.g, c));
    TabIs(v, c);
    NewDirTable(v.g, v.img, c, c, parent, tm);
    DotsDecode(v.g, c, parent, tm, Tab(v, c));
    DotNames(c, parent, tm);
    DotTableOk(Tab(v, c));
    forall i: nat | i < |Tab(v, c)| ensures !Owns(EntryOf(v, Slot(c, i))) {
      EntryAtSlot(v, Slot(c, i));
      if i >= 2 { ZeroOwns(Tab(v, c)[i]); } else { DotOwns(Tab(v, c)[i]); }
    }
    TwoNames(Tab(v, c));
    forall i | 0 <= i < |Tab(v, c)| ensures PlainEntry(Tab(v, c)[i]) {
      if i >= 2 { ZeroPlain(Tab(v, c)[i]); } else { DotsPlain(c, parent, tm); }
    }
  }

  lemma {:induction false} TwoNames(t: seq<Entry>)
    requires forall j {:trigger t[j]} :: 2 <= j < |t| ==> AllZero(t[j])
    ensures |NameMap(t)| <= 2 && |NameMap(t)| <= |t|
  {
    hide AllZero, IsLabel;
    if t != [] {
      if |t| > 2 { ZeroNotLive(t[|t| - 1]); }
      TwoNames(t[..|t| - 1]);
    }
  }

  lemma ZeroPlain(e: Entry)
    requires AllZero(e)
    ensures PlainEntry(e)
  {
  }

  lemma DotsPlain(c: nat, parent: nat, tm: nat)
    ensures PlainEntry(DotEntry(c, tm)) && PlainEntry(DotDotEntry(DotEntry(c, tm), parent))
  {
    hide DotEntry, DotDotEntry;
    DotNames(c, parent, tm);
  }

  lemma ZeroOwns(e: Entry)
    requires AllZero(e)
    ensures !Owns(e)
  {
    ZeroNotLive(e);
  }

  lemma DotOwns(e: Entry)
    requires e[0] == 0x2E
    ensures !Owns(e)
  {
  }

  /** A new directory stays as it is while another directory changes. */
  lemma NewDirKept(v: Vol, v': Vol, d: nat, c: nat, pend: set<Slot>)
    requires Sound(v, {c}, pend) && Based(v') && OnlyArea(v, v', DirHead(v.g, d)) && d in v.dirs && NewDir(v, c)
    ensures NewDir(v', c) && Tab(v', c) == Tab(v, c)
  {
    hide Sound, Based, OnlyArea, DirHead, Tab, DirOk, DotsOk, Owns;
    SoundParts(v, {c}, pend);
    LooseNotRoot(v, {c}, pend, c);
    LooseNoDir(v, {c}, pend, c);
    assert DirHead(v.g, d) != c;
    TabKept(v, v', DirHead(v.g, d), c);
    SameGeometry(v, v', DirHead(v.g, d));
    DotsSame(v, v', c);
    forall i: nat | i < |Tab(v', c)| ensures !Owns(EntryOf(v', Slot(c, i))) {
      assert EntryOf(v', Slot(c, i)) == EntryOf(v, Slot(c, i));
    }
  }

  /** A directory's number fits an entry's fields, and is not that of the root's cluster. */
  lemma DirFits(v: Vol, loose: set<nat>, pend: set<Slot>, d: nat)
    requires Sound(v, loose, pend) && d in v.dirs
    ensures d < 0x1_0000_0000 && (v.g.fsType != Fat32 ==> d < 0x1_0000) && (v.g.fsType == Fat32 ==> d == 0 || d != v.g.dirbase)
  {
    hide Based, DirOk, SlotsOk, HeadsOk, AgreeOk, DotsOk, EntryOf, IsDir;
    if d != 0 {
      SoundMeans(v, loose, pend);
      DirHeadsDiffer(v, loose, pend, 0, d);
      var s :| DirLink(v, d, s);
      assert v.starts[s] == d;
      StartFits(v, s, loose, pend);
    }
  }

  lemma NewDirMeans(v: Vol, c: nat)
    requires NewDir(v, c)
    ensures c != 0 && DirOk(v, c) && DotsOk(v, c) && NoneOwned(v, c) && DirPlain(v, c)
    ensures |NameMap(Tab(v, c))| <= 2
  {
    hide DirOk, DotsOk, NoneOwned, DirPlain, NameMap, Tab;
  }

  lemma HeadFits(v: Vol, h: nat, loose: set<nat>, pend: set<Slot>)
    requires Sound(v, loose, pend) && h in loose
    ensures h < 0x1_0000_0000 && (v.g.fsType != Fat32 ==> h < 0x1_0000)
  {
    hide FatLayout, DataLayout, FatOf, ChainsOk, DirsOk, SlotsOk, AgreeOk, SubdirsOk;
    SoundMeans(v, loose, pend);
    ChainGood(v.g, FatOf(v.g, v.img), v.chains, h);
    ChainStep(FatOf(v.g, v.img), v.chains, h, 0);
    ClusterFits(v.g, |v.img|, h);
  }

  lemma BasedSame(a: Vol, b: Vol)
    requires a.g == b.g && a.img == b.img && a.chains == b.chains && Based(a)
    ensures Based(b)
  {
    hide FatLayout, DataLayout, FatOf, ChainsOk;
  }

  lemma SameArea2(v: Vol, a: Vol, b: Vol, h: nat)
    requires OnlyArea(v, a, h) && a.g == b.g && a.img == b.img && a.chains == b.chains
    ensures OnlyArea(v, b, h)
  {
    hide HeadSecs, InFat;
  }

  lemma ContentsLinked(v: Vol, v': Vol, slot: Slot, open: set<Slot>, c: map<Slot, seq<byte>>)
    requires ContentsFor(v, open, c) && slot in v.starts && slot in v'.starts && slot !in open && IsDir(EntryOf(v', slot))
    requires forall s {:trigger s in v.starts} :: s in v.starts && s != slot ==> s in v'.starts && EntryOf(v', s) == EntryOf(v, s)
    requires forall s {:trigger s in v.starts} :: s in v.starts && s != slot && !IsDir(EntryOf(v, s)) ==>
             FileOf(v', s) == FileOf(v, s)
    requires forall s {:trigger s in v'.starts} :: s in v'.starts && s != slot ==> s in v.starts
    ensures ContentsFor(v', open, c - {slot})
  {
    hide EntryOf, FileOf, IsDir;
  }

  lemma NamesLinked(v: Vol, u: Vol, v': Vol, c: nat)
    requires NamesOf(u) == NamesOf(v) && u == v'.(dirs := v.dirs) && v'.dirs == v.dirs + {c} && c !in v.dirs
    ensures NamesOf(v') - {c} == NamesOf(v)
  {
    hide DirSecs, NameMap, Table, SectorsOk;
    forall d | d in v.dirs ensures Tab(v', d) == Tab(u, d) { }
  }

  /** Number of free clusters of a volume. */
  ghost function FreeOf(v: Vol): nat {
    if FatLayout(v.g, |v.img|) then CountFree(FatOf(v.g, v.img)) else 0
  }

  lemma FreeOfIs(v: Vol)
    requires Based(v)
    ensures FatLayout(v.g, |v.img|) && FreeOf(v) == CountFree(FatOf(v.g, v.img))
  {
    hide FatLayout, DataLayout, FatOf, ChainsOk, FreeBelow;
  }

  /** The names of an empty directory: its dot entries only. */
  ghost predicate OnlyDots(names: map<Name, nat>) {
    |names| <= 2 && forall n {:trigger n in names} :: n in names ==> n[0] == 0x2E
  }

  lemma NewDirNames(v: Vol, c: nat)
    requires c in v.dirs && DirOk(v, c) && NoneOwned(v, c) && |NameMap(Tab(v, c))| <= 2
    ensures c in NamesOf(v) && OnlyDots(NamesOf(v)[c])
  {
    hide Tab, DirSecsOk, DirKnown, Live, NameMap, EntryOf, TableOk;
    var t := Tab(v, c);
    TableUnique(t);
    forall n | n in NameMap(t) ensures n[0] == 0x2E {
      NameMapBinds(t, n);
      var i := NameMap(t)[n];
      EntryAtSlot(v, Slot(c, i));
      assert !Owns(EntryOf(v, Slot(c, i)));
      assert t[i][0] == t[i][..11][0] == n[0];
    }
  }
}
