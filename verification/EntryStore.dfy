/** Storing the fields of a directory entry through the window (src/ff.cpp: parts of f_open, f_sync, f_mkdir). */
module EntryStore {
  import opened Bytes
  import opened Geometry
  import opened Window
  import opened FatAccess
  import opened Allocation
  import opened DirTable
  import opened Directory
  import opened VolumeState
  import opened EntryFields

  /** The table of the directory that holds a slot. */
  ghost function TableOf(fs: FatFs, s: Slot): seq<Entry>
    requires fs.Valid() && SectorsOk(fs.Img(), DirSecs(fs.geo, fs.chains, s.dir))
    reads fs`winsect, fs`wflag, fs`chains, fs.disk, fs.win
  {
    Table(fs.Img(), DirSecs(fs.geo, fs.chains, s.dir))
  }

  /** The slot's entry is in the window. */
  ghost predicate InWindow(fs: FatFs, s: Slot)
    reads fs`winsect, fs`wflag, fs`freeClust, fs`fsiFlag, fs`chains, fs.disk, fs.win
    ensures InWindow(fs, s) ==> VolumeOk(fs) && SectorsOk(fs.Img(), DirSecs(fs.geo, fs.chains, s.dir)) && s.index < |TableOf(fs, s)|
    ensures InWindow(fs, s) ==> fs.winsect in DirSecs(fs.geo, fs.chains, s.dir)
  {
    && VolumeOk(fs) && AtSlot(fs, s.dir, s.index)
    && (DirSecsMean(fs.geo, fs.Img(), DirSecs(fs.geo, fs.chains, s.dir)); true)
  }

  lemma EntryShown(fs: FatFs, s: Slot)
    requires InWindow(fs, s)
    ensures fs.win.Length == 512 && fs.win[SlotOffset(s.index)..SlotOffset(s.index) + 32] == TableOf(fs, s)[s.index]
  {
    hide DirSecs, FatLayout, DataLayout, FatOf, Table, SectorsOk, MirrorAgrees, Reach, SlotOffset, SlotSector, EntryAt;
    var secs := DirSecs(fs.geo, fs.chains, s.dir);
    AtSlotSector(fs, s.dir, s.index);
    NotMirror(fs, s);
    TableAt(fs.Img(), secs, s.index);
    WindowShowsImage(fs.geo, fs.disk[..], fs.winsect, fs.win[..]);
    EntryAtIs(fs.Img(), secs, s.index);
  }

  lemma EntryAtIs(img: seq<Sector>, secs: seq<nat>, i: nat)
    requires SlotSector(i) < |secs| && secs[SlotSector(i)] < |img|
    ensures EntryAt(img, secs, i) == img[secs[SlotSector(i)]][SlotOffset(i)..SlotOffset(i) + 32]
  {
  }

  lemma NotMirror(fs: FatFs, s: Slot)
    requires InWindow(fs, s)
    ensures !InMirror(fs.geo, fs.winsect)
  {
    hide FatLayout, DataLayout, MirrorAgrees, DirSecs, AtSlot;
  }

  /** Stores bytes at offset `o` of the entry. */
  method Store(fs: FatFs, ghost s: Slot, at: nat, ghost o: nat, b: seq<byte>)
    requires InWindow(fs, s) && at == SlotOffset(s.index) + o && o + |b| <= 32
    modifies fs`wflag, fs.win
    ensures InWindow(fs, s) && Fat(fs) == old(Fat(fs))
    ensures s.index < |old(TableOf(fs, s))| && TableOf(fs, s) == old(TableOf(fs, s))[s.index := Patch(old(TableOf(fs, s))[s.index], o, b)]
    ensures OnlySecs(fs.geo, old(fs.Img()), fs.Img(), DirSecs(fs.geo, fs.chains, s.dir))
  {
    hide VolumeOk, FatFs.Img, FatOf, Patch, Table, SectorsOk, OnlySecs, DirSecs, SlotOffset, AtSlot;
    PutSlot(fs, s.dir, s.index, at, o, b);
  }

  /** Like Store, for a run of stores that has brought the table from `t` to one with entry `e` at the slot. */
  method StoreOn(fs: FatFs, ghost s: Slot, at: nat, ghost o: nat, b: seq<byte>, ghost t: seq<Entry>, ghost e: Entry,
                 ghost img: seq<Sector>)
    requires InWindow(fs, s) && at == SlotOffset(s.index) + o && o + |b| <= 32
    requires s.index < |t| && TableOf(fs, s) == t[s.index := e]
             && OnlySecs(fs.geo, img, fs.Img(), DirSecs(fs.geo, fs.chains, s.dir))
    modifies fs`wflag, fs.win
    ensures InWindow(fs, s) && Fat(fs) == old(Fat(fs)) && TableOf(fs, s) == t[s.index := Patch(e, o, b)]
    ensures OnlySecs(fs.geo, img, fs.Img(), DirSecs(fs.geo, fs.chains, s.dir))
  {
    hide *;
    ghost var img1, secs := fs.Img(), DirSecs(fs.geo, fs.chains, s.dir);
    Store(fs, s, at, o, b);
    OnlySecsTwice(fs.geo, img, img1, fs.Img(), secs, secs);
    assert t[s.index := e][s.index := Patch(e, o, b)] == t[s.index := Patch(e, o, b)];
  }

  /** f_sync's stores. */
  method StoreSynced(fs: FatFs, ghost s: Slot, ofs: nat, size: nat, start: nat, tm: nat)
    requires InWindow(fs, s) && ofs == SlotOffset(s.index)
    modifies fs`wflag, fs.win
    ensures InWindow(fs, s) && Fat(fs) == old(Fat(fs))
    ensures s.index < |old(TableOf(fs, s))|
    ensures TableOf(fs, s) == old(TableOf(fs, s))[s.index := Synced(old(TableOf(fs, s))[s.index], size, start, tm)]
    ensures OnlySecs(fs.geo, old(fs.Img()), fs.Img(), DirSecs(fs.geo, fs.chains, s.dir))
  {
    hide *;
    ghost var t, img := TableOf(fs, s), fs.Img();
    ghost var e := t[s.index];
    EntryShown(fs, s);
    Begins(fs, s, t, e);
    assert fs.win[ofs + 11] == fs.win[ofs..ofs + 32][11];
    var a := SetArchive(fs.win[ofs + 11]);
    StoreOn(fs, s, ofs + 11, 11, [a], t, e, img);
    ghost var e1: Entry := Patch(e, 11, [a]);
    StoreOn(fs, s, ofs + 28, 28, DwordBytes(size), t, e1, img);
    ghost var e2: Entry := Patch(e1, 28, DwordBytes(size));
    StoreOn(fs, s, ofs + 26, 26, LowHalf(start), t, e2, img);
    ghost var e3: Entry := Patch(e2, 26, LowHalf(start));
    StoreOn(fs, s, ofs + 20, 20, HighHalf(start), t, e3, img);
    ghost var e4: Entry := Patch(e3, 20, HighHalf(start));
    StoreOn(fs, s, ofs + 22, 22, DwordBytes(tm), t, e4, img);
    ghost var e5: Entry := Patch(e4, 22, DwordBytes(tm));
    StoreOn(fs, s, ofs + 18, 18, WordBytes(0), t, e5, img);
    SyncedIs(e, size, start, tm);
  }

  lemma SyncedIs(e: Entry, size: nat, start: nat, tm: nat)
    ensures var e1: Entry := Patch(e, 11, [SetArchive(e[11])]);
            var e2: Entry := Patch(e1, 28, DwordBytes(size));
            var e3: Entry := Patch(e2, 26, LowHalf(start));
            var e4: Entry := Patch(e3, 20, HighHalf(start));
            var e5: Entry := Patch(e4, 22, DwordBytes(tm));
            Synced(e, size, start, tm) == Patch(e5, 18, WordBytes(0))
  {
    hide Patch, DwordBytes, WordBytes, SetArchive;
  }

  lemma Begins(fs: FatFs, s: Slot, t: seq<Entry>, e: Entry)
    requires InWindow(fs, s) && t == TableOf(fs, s) && s.index < |t| && e == t[s.index]
    ensures t == t[s.index := e] && OnlySecs(fs.geo, fs.Img(), fs.Img(), DirSecs(fs.geo, fs.chains, s.dir))
  {
    hide *;
    NothingTouched(fs.geo, fs.Img(), DirSecs(fs.geo, fs.chains, s.dir));
  }

  /** f_open's stores when it empties a file. */
  method StoreEmptied(fs: FatFs, ghost s: Slot, ofs: nat, tm: nat) returns (cl: nat)
    requires InWindow(fs, s) && ofs == SlotOffset(s.index)
    modifies fs`wflag, fs.win
    ensures InWindow(fs, s) && Fat(fs) == old(Fat(fs))
    ensures s.index < |old(TableOf(fs, s))| && cl == StartOf(fs.geo, old(TableOf(fs, s))[s.index])
    ensures TableOf(fs, s) == old(TableOf(fs, s))[s.index := Emptied(old(TableOf(fs, s))[s.index], tm)]
    ensures OnlySecs(fs.geo, old(fs.Img()), fs.Img(), DirSecs(fs.geo, fs.chains, s.dir))
  {
    hide *;
    ghost var t, img := TableOf(fs, s), fs.Img();
    ghost var e := t[s.index];
    Begins(fs, s, t, e);
    StoreOn(fs, s, ofs + 14, 14, DwordBytes(tm), t, e, img);
    ghost var e1: Entry := Patch(e, 14, DwordBytes(tm));
    StoreOn(fs, s, ofs + 11, 11, [0], t, e1, img);
    ghost var e2: Entry := Patch(e1, 11, [0]);
    StoreOn(fs, s, ofs + 28, 28, DwordBytes(0), t, e2, img);
    ghost var e3: Entry := Patch(e2, 28, DwordBytes(0));
    EntryShown(fs, s);
    cl := StartOf(fs.geo, fs.win[ofs..ofs + 32]);
    StartUntouched(fs.geo, e, tm);
    StoreOn(fs, s, ofs + 26, 26, LowHalf(0), t, e3, img);
    ghost var e4: Entry := Patch(e3, 26, LowHalf(0));
    StoreOn(fs, s, ofs + 20, 20, HighHalf(0), t, e4, img);
    EmptiedIs(e, tm);
  }

  lemma EmptiedIs(e: Entry, tm: nat)
    ensures var e1: Entry := Patch(e, 14, DwordBytes(tm));
            var e2: Entry := Patch(e1, 11, [0]);
            var e3: Entry := Patch(e2, 28, DwordBytes(0));
            var e4: Entry := Patch(e3, 26, LowHalf(0));
            Emptied(e, tm) == Patch(e4, 20, HighHalf(0))
  {
    hide Patch, DwordBytes, WordBytes;
  }

  /** f_mkdir's stores for the new directory's entry. */
  method StoreDir(fs: FatFs, ghost s: Slot, ofs: nat, start: nat, tm: nat)
    requires InWindow(fs, s) && ofs == SlotOffset(s.index)
    modifies fs`wflag, fs.win
    ensures InWindow(fs, s) && Fat(fs) == old(Fat(fs)) && s.index < |old(TableOf(fs, s))|
    ensures TableOf(fs, s) == old(TableOf(fs, s))[s.index := MadeDir(old(TableOf(fs, s))[s.index], start, tm)]
    ensures OnlySecs(fs.geo, old(fs.Img()), fs.Img(), DirSecs(fs.geo, fs.chains, s.dir))
  {
    hide *;
    ghost var t, img := TableOf(fs, s), fs.Img();
    ghost var e := t[s.index];
    Begins(fs, s, t, e);
    StoreOn(fs, s, ofs + 11, 11, [0x10], t, e, img);
    ghost var e1: Entry := Patch(e, 11, [0x10]);
    StoreOn(fs, s, ofs + 22, 22, DwordBytes(tm), t, e1, img);
    ghost var e2: Entry := Patch(e1, 22, DwordBytes(tm));
    StoreOn(fs, s, ofs + 26, 26, LowHalf(start), t, e2, img);
    ghost var e3: Entry := Patch(e2, 26, LowHalf(start));
    StoreOn(fs, s, ofs + 20, 20, HighHalf(start), t, e3, img);
    MadeDirIs(e, start, tm);
  }

  lemma MadeDirIs(e: Entry, start: nat, tm: nat)
    ensures var e1: Entry := Patch(e, 11, [0x10]);
            var e2: Entry := Patch(e1, 22, DwordBytes(tm));
            var e3: Entry := Patch(e2, 26, LowHalf(start));
            MadeDir(e, start, tm) == Patch(e3, 20, HighHalf(start))
  {
    hide Patch, DwordBytes, WordBytes;
  }
}
