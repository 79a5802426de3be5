/** The first cluster of a new directory (src/ff.cpp: f_mkdir): dot entries, then nothing. */
module DotDirs {
  import opened Bytes
  import opened Geometry
  import opened Window
  import opened InfoSector
  import opened FatAccess
  import opened Chains
  import opened Allocation
  import opened FileData
  import opened DirTable
  import opened Directory
  import opened EntryFields
  import opened VolumeState

  /** The entry "." of a directory at `start`. */
  function DotEntry(start: nat, tm: nat): Entry {
    var blank: Entry := seq(32, _ => 0);
    var e1: Entry := Patch(blank, 0, seq(11, _ => 0x20));
    var e2: Entry := Patch(e1, 0, [0x2E]);
    var e3: Entry := Patch(e2, 11, [0x10]);
    var e4: Entry := Patch(e3, 22, DwordBytes(tm));
    var e5: Entry := Patch(e4, 26, LowHalf(start));
    Patch(e5, 20, HighHalf(start))
  }

  /** The entry ".." made of the entry ".". */
  function DotDotEntry(dot: Entry, parent: nat): Entry {
    var e1: Entry := Patch(dot, 1, [0x2E]);
    var e2: Entry := Patch(e1, 26, LowHalf(parent));
    Patch(e2, 20, HighHalf(parent))
  }

  function DotSector(start: nat, parent: nat, tm: nat): Sector {
    var dot := DotEntry(start, tm);
    dot + DotDotEntry(dot, parent) + seq(448, _ => 0)
  }

  lemma DotNames(start: nat, parent: nat, tm: nat)
    ensures var dot := DotEntry(start, tm);
            dot[0] == 0x2E && DotDotEntry(dot, parent)[0] == 0x2E && dot[1] == 0x20 && DotDotEntry(dot, parent)[1] == 0x2E
    ensures DotEntry(start, tm)[11] == 0x10 && DotDotEntry(DotEntry(start, tm), parent)[11] == 0x10
  {
    hide DwordBytes, WordBytes;
    var dot := DotEntry(start, tm);
    DotFront(start, tm);
    var e1: Entry := Patch(dot, 1, [0x2E]);
    var e2: Entry := Patch(e1, 26, LowHalf(parent));
    FrontKept(e1, 26, LowHalf(parent));
    FrontKept(e2, 20, HighHalf(parent));
    assert e1[0] == dot[0] && e1[1] == 0x2E && e1[11] == dot[11];
    NameBytes(DotDotEntry(dot, parent), e1);
  }

  lemma DotFront(start: nat, tm: nat)
    ensures DotEntry(start, tm)[0] == 0x2E && DotEntry(start, tm)[1] == 0x20 && DotEntry(start, tm)[11] == 0x10
  {
    hide DwordBytes, WordBytes;
    var blank: Entry := seq(32, _ => 0);
    var e1: Entry := Patch(blank, 0, seq(11, _ => 0x20));
    var e2: Entry := Patch(e1, 0, [0x2E]);
    var e3: Entry := Patch(e2, 11, [0x10]);
    var e4: Entry := Patch(e3, 22, DwordBytes(tm));
    var e5: Entry := Patch(e4, 26, LowHalf(start));
    assert e2[0] == 0x2E && e2[1] == 0x20;
    FrontKept(e2, 11, [0x10]);
    FrontKept(e3, 22, DwordBytes(tm));
    FrontKept(e4, 26, LowHalf(start));
    FrontKept(e5, 20, HighHalf(start));
    NameBytes(DotEntry(start, tm), e2);
  }

  /** A table that starts with the entries "." of the directory at `c` and ".." of the directory at `parent`. */
  predicate DotsLead(g: Geometry, t: seq<Entry>, c: nat, parent: nat) {
    && |t| >= 2 && IsDir(t[0]) && IsDir(t[1])
    && t[0][..11] == [0x2E] + seq(10, _ => 0x20) && StartOf(g, t[0]) == c
    && t[1][..11] == [0x2E, 0x2E] + seq(9, _ => 0x20) && StartOf(g, t[1]) == parent
  }

  /** The dot entries decode to the directory itself and to its parent. */
  lemma DotsDecode(g: Geometry, start: nat, parent: nat, tm: nat, t: seq<Entry>)
    requires start < 0x1_0000_0000 && (g.fsType != Fat32 ==> start < 0x1_0000)
    requires parent < 0x1_0000_0000 && (g.fsType != Fat32 ==> parent < 0x1_0000)
    requires |t| >= 2 && t[0] == DotEntry(start, tm) && t[1] == DotDotEntry(t[0], parent)
    ensures DotsLead(g, t, start, parent)
  {
    hide DwordBytes, WordBytes, Patch, StartOf;
    DotNames(start, parent, tm);
    DotSpelled(start, tm);
    var blank: Entry := seq(32, _ => 0);
    var e1: Entry := Patch(blank, 0, seq(11, _ => 0x20));
    var e2: Entry := Patch(e1, 0, [0x2E]);
    var e3: Entry := Patch(e2, 11, [0x10]);
    var e4: Entry := Patch(e3, 22, DwordBytes(tm));
    StartStored(e4, start);
    StartRead(g, t[0], start);
    var d1: Entry := Patch(t[0], 1, [0x2E]);
    var d2: Entry := Patch(d1, 26, LowHalf(parent));
    DotAdded(t[0]);
    FrontKept(d1, 26, LowHalf(parent));
    FrontKept(d2, 20, HighHalf(parent));
    StartStored(d1, parent);
    StartRead(g, t[1], parent);
  }

  lemma DotSpelled(start: nat, tm: nat)
    ensures DotEntry(start, tm)[..11] == [0x2E] + seq(10, _ => 0x20)
  {
    hide DwordBytes, WordBytes;
    var blank: Entry := seq(32, _ => 0);
    var e1: Entry := Patch(blank, 0, seq(11, _ => 0x20));
    var e2: Entry := Patch(e1, 0, [0x2E]);
    var e3: Entry := Patch(e2, 11, [0x10]);
    var e4: Entry := Patch(e3, 22, DwordBytes(tm));
    var e5: Entry := Patch(e4, 26, LowHalf(start));
    assert e2[..11] == [0x2E] + seq(10, _ => 0x20);
    FrontKept(e2, 11, [0x10]);
    FrontKept(e3, 22, DwordBytes(tm));
    FrontKept(e4, 26, LowHalf(start));
    FrontKept(e5, 20, HighHalf(start));
  }

  lemma DotAdded(e: Entry)
    requires e[..11] == [0x2E] + seq(10, _ => 0x20)
    ensures var e': Entry := Patch(e, 1, [0x2E]); e'[..11] == [0x2E, 0x2E] + seq(9, _ => 0x20)
  {
    forall i | 2 <= i < 11 ensures e[i] == 0x20 { assert e[i] == e[..11][i]; }
    assert e[0] == e[..11][0];
  }

  lemma NameBytes(a: Entry, b: Entry)
    requires a[..11] == b[..11]
    ensures a[0] == b[0] && a[1] == b[1]
  {
    assert a[0] == a[..11][0] && b[0] == b[..11][0] && a[1] == a[..11][1] && b[1] == b[..11][1];
  }

  /** Puts `w` into the window, over sector `s`, and writes it back. */
  method StampWindow(fs: FatFs, s: nat, w: Sector)
    requires fs.Valid() && !fs.wflag && s != 0 && s < fs.disk.Length && !InMirror(fs.geo, s)
    modifies fs`winsect, fs`wflag, fs.disk, fs.win
    ensures fs.Valid() && !fs.wflag && fs.winsect == s
    ensures fs.Img() == old(fs.Img())[s := w]
  {
    hide DataLayout, FatBytesNeeded, MirrorAgrees, Image, InMirror;
    ghost var d := fs.disk[..];
    CleanMirror2(fs.geo, d, fs.winsect, s);
    Replanted(fs.geo, d, fs.winsect, fs.win[..], s, w);
    forall i | 0 <= i < 512 {
      fs.win[i] := w[i];
    }
    assert fs.win[..] == w && fs.disk[..] == d;
    fs.winsect := s;
    fs.wflag := true;
    var res := fs.SyncWindow();
  }

  /** The sectors of a new directory: the dot entries, then zeros. */
  ghost predicate DotsOn(a: seq<Sector>, at: nat, n: nat, w: Sector) {
    at + n <= |a| && forall s {:trigger a[s]} :: at <= s < at + n ==> a[s] == if s == at then w else ZeroSector()
  }

  /** Fills a cluster with the sectors of a new directory. */
  method InitDir(fs: FatFs, c: nat, w: Sector)
    requires VolumeOk(fs) && InRange(fs.geo, c)
    modifies fs`winsect, fs`wflag, fs.disk, fs.win
    ensures VolumeOk(fs) && Fat(fs) == old(Fat(fs))
    ensures Clust2Sect(fs.geo, c) <= fs.winsect < Clust2Sect(fs.geo, c) + fs.geo.csize
    ensures SameOutside(old(fs.Img()), fs.Img(), Clust2Sect(fs.geo, c), fs.geo.csize)
    ensures DotsOn(fs.Img(), Clust2Sect(fs.geo, c), fs.geo.csize, w)
  {
    hide FatFs.Valid, FatFs.Img, FatOf, FatLayout, DataLayout, FreeBelow, ChainsOk, Clust2Sect, InRange, InfoFresh;
    var base := Clust2Sect(fs.geo, c);
    ghost var img := fs.Img();
    DataFacts(fs.geo, fs.disk.Length);
    ClusterSector(fs.geo, fs.disk.Length, c, fs.geo.csize - 1);
    ClusterSector(fs.geo, fs.disk.Length, c, 0);
    var res := fs.SyncWindow();
    var dir: Sector := w;
    StampWindow(fs, base, dir);
    dir := ZeroSector();
    var k := 1;
    while k < fs.geo.csize
      invariant 1 <= k <= fs.geo.csize && fs.Valid() && !fs.wflag && fs.winsect == base + k - 1 && dir == ZeroSector()
      invariant SameOutside(img, fs.Img(), base, k) && DotsOn(fs.Img(), base, k, w)
    {
      ClusterSector(fs.geo, fs.disk.Length, c, k);
      StampWindow(fs, base + k, dir);
      k := k + 1;
    }
    ClusterFree(fs.geo, fs.disk.Length, c, img, fs.Img());
    ClusterKeepsInfo(fs, c, img, fs.Img());
  }

  /** The table of a new directory: two dot entries, and empty ones. */
  lemma NewDirTable(g: Geometry, img: seq<Sector>, c: nat, start: nat, parent: nat, tm: nat)
    requires 0 < g.csize <= 128 && SectorsOk(img, ClusterSecs(g, c))
             && DotsOn(img, Clust2Sect(g, c), g.csize, DotSector(start, parent, tm))
    ensures var t := Table(img, ClusterSecs(g, c));
            |t| >= 16 && t[0] == DotEntry(start, tm) && t[1] == DotDotEntry(t[0], parent)
            && forall j {:trigger t[j]} :: 2 <= j < |t| ==> AllZero(t[j])
  {
    hide SlotSector, SlotOffset, DotEntry, DotDotEntry, Clust2Sect;
    var secs := ClusterSecs(g, c);
    var t, w := Table(img, secs), DotSector(start, parent, tm);
    FirstSlots();
    TableLong(|secs|);
    TableAt(img, secs, 0);
    TableAt(img, secs, 1);
    ClusterMembers(g, c);
    assert img[secs[0]] == w;
    DotSlices(start, parent, tm);
    forall j | 2 <= j < |t| ensures AllZero(t[j]) {
      TableAt(img, secs, j);
      var s, o := secs[SlotSector(j)], SlotOffset(j);
      SlotFar(j);
      if SlotSector(j) == 0 {
        ZeroTail(start, parent, tm, o);
      } else {
        assert img[s] == ZeroSector();
      }
    }
  }

  lemma TableLong(n: nat)
    requires n > 0
    ensures Reach(n) >= 16
  {
  }

  lemma FirstSlots()
    ensures SlotSector(0) == 0 && SlotSector(1) == 0 && SlotOffset(0) == 0 && SlotOffset(1) == 32
  {
  }

  lemma SlotFar(j: nat)
    requires j >= 2
    ensures SlotSector(j) == 0 ==> SlotOffset(j) >= 64
  {
  }

  lemma DotSlices(start: nat, parent: nat, tm: nat)
    ensures DotSector(start, parent, tm)[0..32] == DotEntry(start, tm)
    ensures DotSector(start, parent, tm)[32..64] == DotDotEntry(DotEntry(start, tm), parent)
  {
    hide DotEntry, DotDotEntry;
  }

  lemma ZeroTail(start: nat, parent: nat, tm: nat, o: nat)
    requires 64 <= o && o + 32 <= 512
    ensures AllZero(DotSector(start, parent, tm)[o..o + 32])
  {
    hide DotEntry, DotDotEntry;
  }

  /** A new directory's table is in order and names nothing but itself and its parent. */
  lemma DotTableOk(t: seq<Entry>)
    requires |t| >= 2 && t[0][0] == 0x2E && t[1][0] == 0x2E && t[0][1] != t[1][1]
    requires forall j {:trigger t[j]} :: 2 <= j < |t| ==> AllZero(t[j])
    ensures TableOk(t)
  {
    hide Live;
    forall j | 2 <= j < |t| ensures !Live(t[j]) && t[j][0] == 0 { ZeroNotLive(t[j]); }
    assert t[0][..11][1] != t[1][..11][1];
  }
}
