/** Directories on the volume (src/ff.cpp: dir_sdi, dir_next, dir_find, dir_alloc, dir_register, dir_remove): a cursor over a
    fixed root or over a chain that is stretched cluster by cluster. */
module Directory {
  import opened Arith
  import opened Sealed
  import opened Bytes
  import opened Geometry
  import opened Window
  import opened InfoSector
  import opened FatAccess
  import opened Chains
  import opened Allocation
  import opened FileData
  import opened DirTable

  /** Cluster 0 stands for the root directory, which on FAT32 is a chain like any other. */
  function DirHead(g: Geometry, sclust: nat): nat {
    if sclust == 0 && g.fsType == Fat32 then g.dirbase else sclust
  }

  ghost predicate DirKnown(g: Geometry, chains: map<nat, seq<nat>>, sclust: nat) {
    DirHead(g, sclust) == 0 || DirHead(g, sclust) in chains
  }

  function RootSectors(g: Geometry): nat {
    g.nRootdir / 16
  }

  function RootSecs(g: Geometry, n: nat): (s: seq<nat>)
    ensures |s| == n
  {
    var base := g.dirbase;
    seq(n, i requires 0 <= i < n => base + i as nat)
  }

  /** The sectors of a directory, in order. */
  ghost function DirSecs(g: Geometry, chains: map<nat, seq<nat>>, sclust: nat): seq<nat> {
    var h := DirHead(g, sclust);
    if h == 0 then RootSecs(g, RootSectors(g)) else if h in chains then Secs(g, chains[h]) else []
  }

  /** A directory's sectors are different sectors of the volume outside the FAT. */
  ghost predicate DirSecsOk(g: Geometry, n: nat, secs: seq<nat>) {
    forall k: nat {:trigger Opened(k)} :: Opened(k) ==>
      && (forall i {:trigger secs[i]} :: 0 <= i < |secs| ==> 0 < secs[i] < n && g.fatbase <= secs[i] && !InFat(g, secs[i]) && !InMirror(g, secs[i]))
      && (forall i, j {:trigger secs[i], secs[j]} :: 0 <= i < j < |secs| ==> secs[i] != secs[j])
  }

  lemma DirSecsMean(g: Geometry, img: seq<Sector>, secs: seq<nat>)
    requires DirSecsOk(g, |img|, secs)
    ensures SectorsOk(img, secs)
  {
    assert Opened(0);
  }

  lemma DirSector(g: Geometry, n: nat, secs: seq<nat>, i: nat)
    requires DirSecsOk(g, n, secs) && i < |secs|
    ensures 0 < secs[i] < n && g.fatbase <= secs[i] && !InFat(g, secs[i]) && !InMirror(g, secs[i])
  {
    assert Opened(0);
  }

  lemma RootInOrder(g: Geometry, n: nat)
    requires FatLayout(g, n) && DataLayout(g, n) && g.fsType != Fat32
    ensures DirSecsOk(g, n, RootSecs(g, RootSectors(g))) && RootSectors(g) * 16 == g.nRootdir
  {
    hide FatBytesNeeded, MaxEntries, PowerOfTwo;
    MulNonNeg(g.nFatent - 2, g.csize);
  }

  lemma ChainSecsInOrder(g: Geometry, n: nat, ch: seq<nat>)
    requires FatLayout(g, n) && DataLayout(g, n) && AllClusters(g, ch) && Distinct(ch)
    ensures DirSecsOk(g, n, Secs(g, ch))
  {
    hide FatLayout, DataLayout, Secs, SectorCount, InFat, InMirror, AllClusters, Distinct;
    DataFacts(g, n);
    forall i | 0 <= i < |Secs(g, ch)| ensures 0 < Secs(g, ch)[i] < n && g.fatbase <= Secs(g, ch)[i]
           && !InFat(g, Secs(g, ch)[i]) && !InMirror(g, Secs(g, ch)[i]) {
      FileSector(g, n, ch, i);
    }
    forall i, j | 0 <= i < j < |Secs(g, ch)| ensures Secs(g, ch)[i] != Secs(g, ch)[j] {
      PositionsDiffer(g, ch, i, j);
    }
  }

  lemma HeadZero(g: Geometry, n: nat, sclust: nat)
    requires FatLayout(g, n) && DataLayout(g, n) && DirHead(g, sclust) == 0
    ensures g.fsType != Fat32 && sclust == 0
  {
    hide FatBytesNeeded, MaxEntries, PowerOfTwo;
  }

  /** Every known directory of a volume in order has its sectors in order. */
  lemma KnownInOrder(fs: FatFs, sclust: nat)
    requires VolumeOk(fs) && DirKnown(fs.geo, fs.chains, sclust)
    ensures DirSecsOk(fs.geo, fs.disk.Length, DirSecs(fs.geo, fs.chains, sclust))
  {
    hide FatFs.Valid, FatFs.Img, FatOf, FatLayout, DataLayout, FreeBelow, ChainsOk, Secs, DirSecsOk;
    var h := DirHead(fs.geo, sclust);
    if h == 0 {
      HeadZero(fs.geo, fs.disk.Length, sclust);
      RootInOrder(fs.geo, fs.disk.Length);
    } else {
      ChainGood(fs.geo, Fat(fs), fs.chains, h);
      ChainSecsInOrder(fs.geo, fs.disk.Length, fs.chains[h]);
    }
  }

  /** Fills a cluster with zeros, sector by sector through the window, and leaves the window on its first sector. */
  method ZeroCluster(fs: FatFs, c: nat)
    requires VolumeOk(fs) && InRange(fs.geo, c)
    modifies fs`winsect, fs`wflag, fs.disk, fs.win
    ensures VolumeOk(fs) && fs.winsect == Clust2Sect(fs.geo, c) && Fat(fs) == old(Fat(fs))
    ensures SameOutside(old(fs.Img()), fs.Img(), Clust2Sect(fs.geo, c), fs.geo.csize)
    ensures ZeroOn(fs.Img(), Clust2Sect(fs.geo, c), fs.geo.csize)
  {
    hide FatFs.Valid, FatFs.Img, FatOf, FatLayout, DataLayout, FreeBelow, ChainsOk, Clust2Sect, InRange, InfoFresh;
    var base := Clust2Sect(fs.geo, c);
    ghost var img := fs.Img();
    DataFacts(fs.geo, fs.disk.Length);
    ClusterSector(fs.geo, fs.disk.Length, c, fs.geo.csize - 1);
    ClusterSector(fs.geo, fs.disk.Length, c, 0);
    var res := fs.SyncWindow();
    ClearWindow(fs, base);
    var k := 1;
    while k < fs.geo.csize
      invariant 1 <= k <= fs.geo.csize && fs.Valid() && !fs.wflag && fs.winsect == base + k - 1 && AllBytesZero(fs.win[..])
      invariant SameOutside(img, fs.Img(), base, k) && ZeroOn(fs.Img(), base, k)
    {
      ClusterSector(fs.geo, fs.disk.Length, c, k);
      ReplantWindow(fs, base + k);
      k := k + 1;
    }
    Rewind(fs, base);
    ClusterFree(fs.geo, fs.disk.Length, c, img, fs.Img());
    ClusterKeepsInfo(fs, c, img, fs.Img());
  }

  predicate AllBytesZero(s: seq<byte>) {
    |s| == 512 && s == ZeroSector()
  }

  ghost predicate SameOutside(a: seq<Sector>, b: seq<Sector>, at: nat, n: nat) {
    |a| == |b| && forall s {:trigger b[s]} :: 0 <= s < |a| && !(at <= s < at + n) ==> b[s] == a[s]
  }

  ghost predicate ZeroOn(a: seq<Sector>, at: nat, n: nat) {
    at + n <= |a| && forall s {:trigger a[s]} :: at <= s < at + n ==> AllBytesZero(a[s])
  }

  /** Writes a zeroed window over sector `s`. */
  method ClearWindow(fs: FatFs, s: nat)
    requires fs.Valid() && !fs.wflag && s != 0 && s < fs.disk.Length && !InMirror(fs.geo, s)
    modifies fs`winsect, fs`wflag, fs.disk, fs.win
    ensures fs.Valid() && !fs.wflag && fs.winsect == s && AllBytesZero(fs.win[..])
    ensures fs.Img() == old(fs.Img())[s := ZeroSector()]
  {
    hide DataLayout, FatBytesNeeded, MirrorAgrees, Image, InMirror;
    ghost var d := fs.disk[..];
    CleanMirror2(fs.geo, d, fs.winsect, s);
    Replanted(fs.geo, d, fs.winsect, fs.win[..], s, ZeroSector());
    forall i | 0 <= i < 512 {
      fs.win[i] := 0;
    }
    assert fs.win[..] == ZeroSector() && fs.disk[..] == d;
    fs.winsect := s;
    fs.wflag := true;
    var res := fs.SyncWindow();
  }

  /** Writes the same window over another sector. */
  method ReplantWindow(fs: FatFs, s: nat)
    requires fs.Valid() && !fs.wflag && s != 0 && s < fs.disk.Length && !InMirror(fs.geo, s)
    modifies fs`winsect, fs`wflag, fs.disk
    ensures fs.Valid() && !fs.wflag && fs.winsect == s
    ensures fs.Img() == old(fs.Img())[s := fs.win[..]]
  {
    hide DataLayout, FatBytesNeeded, MirrorAgrees, Image, InMirror;
    ghost var d := fs.disk[..];
    CleanMirror2(fs.geo, d, fs.winsect, s);
    Replanted(fs.geo, d, fs.winsect, fs.win[..], s, fs.win[..]);
    fs.winsect := s;
    fs.wflag := true;
    var res := fs.SyncWindow();
  }

  lemma CleanMirror2(g: Geometry, d: seq<Sector>, ws: nat, s: nat)
    requires FatEnd(g) <= |d| && MirrorAgrees(g, d, false, ws)
    ensures MirrorAgrees(g, d, true, s)
  {
  }

  /** A dirty window over another sector shows in the image there, and only there, if it was clean before. */
  lemma Replanted(g: Geometry, d: seq<Sector>, ws: nat, w: Sector, s: nat, w': Sector)
    requires (ws != 0 && ws < |d| ==> w == d[ws]) && s != 0 && s < |d| && !InMirror(g, s)
    ensures Image(g, d, s, w') == Image(g, d, ws, w)[s := w']
  {
  }

  /** Moves the window back over a sector that holds the same bytes. */
  method Rewind(fs: FatFs, s: nat)
    requires fs.Valid() && !fs.wflag && s != 0 && s < fs.disk.Length && !InMirror(fs.geo, s) && fs.Img()[s] == fs.win[..]
    modifies fs`winsect
    ensures fs.Valid() && !fs.wflag && fs.winsect == s && fs.Img() == old(fs.Img())
  {
    hide DataLayout, FatBytesNeeded, MirrorAgrees, InMirror;
    CleanMirror(fs.geo, fs.disk[..], fs.winsect, s);
    fs.winsect := s;
  }

  /** What lies outside the FAT does not change it. */
  lemma ClusterFree(g: Geometry, n: nat, c: nat, a: seq<Sector>, b: seq<Sector>)
    requires FatLayout(g, n) && DataLayout(g, n) && InRange(g, c) && |a| == n && SameOutside(a, b, Clust2Sect(g, c), g.csize)
    ensures FatOf(g, b) == FatOf(g, a)
  {
    hide FatLayout, DataLayout, Clust2Sect, FatOf, InFat, InMirror;
    forall s: nat | InFat(g, s) ensures s < n && b[s] == a[s] {
      FatBelow(g, n, s);
      if Clust2Sect(g, c) <= s < Clust2Sect(g, c) + g.csize { ClusterSector(g, n, c, s - Clust2Sect(g, c)); assert false; }
    }
    FatUntouched(g, a, b);
  }

  lemma FatBelow(g: Geometry, n: nat, s: nat)
    requires FatLayout(g, n) && InFat(g, s)
    ensures s < n
  {
    hide FatBytesNeeded;
  }

  /** Where a cursor at entry `i` of a chained directory stands: the cluster that holds its sector. */
  ghost predicate ChainCursor(g: Geometry, ch: seq<nat>, i: nat, clust: nat) {
    exists q: nat, r: nat {:trigger At(g, SlotSector(i), q, r)} :: At(g, SlotSector(i), q, r) && q < |ch| && clust == ch[q]
  }

  /** The window did not move, or moved to the FAT or to one of the given sectors. */
  ghost predicate MovedIn(g: Geometry, ws: nat, ws': nat, secs: seq<nat>) {
    ws' == ws || InFat(g, ws') || ws' in secs
  }

  lemma MovedNot(g: Geometry, ws: nat, secs: seq<nat>)
    ensures MovedIn(g, ws, ws, secs)
  {
  }

  lemma MovedOn(g: Geometry, ws: nat, ws1: nat, ws2: nat, secs1: seq<nat>, secs2: seq<nat>)
    requires MovedIn(g, ws, ws1, secs1) && MovedIn(g, ws1, ws2, secs2)
             && forall s {:trigger s in secs1} :: s in secs1 ==> s in secs2
    ensures MovedIn(g, ws, ws2, secs2)
  {
  }

  /** The chain of `h` got one zeroed cluster more, and nothing else outside the FAT changed. */
  ghost predicate Stretched(g: Geometry, chains: map<nat, seq<nat>>, chains': map<nat, seq<nat>>, h: nat, img: seq<Sector>,
                            img': seq<Sector>) {
    && h in chains && h in chains' && |chains'[h]| == |chains[h]| + 1
    && chains' == chains[h := chains[h] + [Tail(chains'[h])]]
    && var base := Clust2Sect(g, Tail(chains'[h]));
       && |img'| == |img| && ZeroOn(img', base, g.csize)
       && forall s: nat {:trigger img'[s]} :: s < |img| && !InFat(g, s) && !(base <= s < base + g.csize) ==> img'[s] == img[s]
  }

  lemma StretchIs(g: Geometry, chains: map<nat, seq<nat>>, chains': map<nat, seq<nat>>, h: nat, c: nat,
                  img: seq<Sector>, img1: seq<Sector>, img': seq<Sector>)
    requires h in chains && chains' == chains[h := chains[h] + [c]] && SameOutsideFat(g, img, img1)
    requires SameOutside(img1, img', Clust2Sect(g, c), g.csize) && ZeroOn(img', Clust2Sect(g, c), g.csize)
    ensures Stretched(g, chains, chains', h, img, img')
  {
    hide Clust2Sect, InFat;
  }

  lemma ClusterOnDir(g: Geometry, n: nat, ch: seq<nat>, q: nat)
    requires q < |ch| && g.csize > 0
    ensures Clust2Sect(g, ch[q]) in Secs(g, ch)
  {
    hide Secs, Clust2Sect, SectorCount;
    StartOfCluster(g, q);
    SectorAt(g, ch, SectorCount(g, q), q, 0);
    assert Secs(g, ch)[SectorCount(g, q)] == Clust2Sect(g, ch[q]);
  }

  lemma ReachIs(i: nat, n: nat)
    ensures i < Reach(n) <==> i < 65536 && SlotSector(i) < n
  {
    SlotBelow(i, n);
  }

  lemma NextSlot(i: nat)
    ensures SlotSector(i + 1) == if (i + 1) % 16 == 0 then SlotSector(i) + 1 else SlotSector(i)
    ensures SlotSector(i + 1) == (i + 1) / 16
  {
  }

  lemma CursorStays(g: Geometry, ch: seq<nat>, i: nat, clust: nat)
    requires ChainCursor(g, ch, i, clust) && SlotSector(i + 1) == SlotSector(i)
    ensures ChainCursor(g, ch, i + 1, clust)
  {
    hide At, SlotSector;
    var q: nat, r: nat :| At(g, SlotSector(i), q, r) && q < |ch| && clust == ch[q];
    assert At(g, SlotSector(i + 1), q, r);
  }

  /** The next sector inside the same cluster. */
  lemma CursorStep(g: Geometry, ch: seq<nat>, i: nat, clust: nat)
    requires ChainCursor(g, ch, i, clust) && SlotSector(i + 1) == SlotSector(i) + 1 && g.csize > 0
             && SlotSector(i + 1) % g.csize != 0
    ensures ChainCursor(g, ch, i + 1, clust)
    ensures SlotSector(i + 1) < |Secs(g, ch)| && Secs(g, ch)[SlotSector(i + 1)] == Secs(g, ch)[SlotSector(i)] + 1
  {
    hide At, SlotSector, Secs, SectorCount, Clust2Sect;
    var j := SlotSector(i);
    var q: nat, r: nat :| At(g, j, q, r) && q < |ch| && clust == ch[q];
    var q', r' := Position(g, j + 1);
    AtBack(g, j + 1, q', r');
    AtUnique(g, j, q, r, q', r' - 1);
    SectorAt(g, ch, j, q, r);
    SectorAt(g, ch, j + 1, q', r');
  }

  lemma AtBack(g: Geometry, j: nat, q: nat, r: nat)
    requires At(g, j, q, r) && r > 0 && j > 0
    ensures At(g, j - 1, q, r - 1)
  {
  }

  /** The next sector starts the next cluster. */
  lemma CursorEdge(g: Geometry, ch: seq<nat>, i: nat, clust: nat) returns (q: nat)
    requires ChainCursor(g, ch, i, clust) && SlotSector(i + 1) == SlotSector(i) + 1 && g.csize > 0
             && SlotSector(i + 1) % g.csize == 0
    ensures q < |ch| && clust == ch[q] && SlotSector(i + 1) == SectorCount(g, q + 1)
    ensures SlotSector(i + 1) < |Secs(g, ch)| <==> q + 1 < |ch|
  {
    hide At, SlotSector, Secs, SectorCount, Clust2Sect;
    var j := SlotSector(i);
    var r: nat;
    q, r :| At(g, j, q, r) && q < |ch| && clust == ch[q];
    var q', r' := Position(g, j + 1);
    EdgeBack(g, j, q');
    AtUnique(g, j, q, r, q' - 1, g.csize - 1);
    SectorAt(g, ch, j + 1, q', 0);
    StartOfCluster(g, q');
    AtUnique(g, j + 1, q', 0, q', 0);
    EdgeIs(g, j + 1, q');
  }

  lemma EdgeBack(g: Geometry, j: nat, q: nat)
    requires At(g, j + 1, q, 0)
    ensures q > 0 && At(g, j, q - 1, g.csize - 1)
  {
  }

  lemma EdgeIs(g: Geometry, j: nat, q: nat)
    requires At(g, j, q, 0)
    ensures j == SectorCount(g, q)
  {
  }

  lemma CursorLands(g: Geometry, ch: seq<nat>, i: nat, q: nat)
    requires q < |ch| && SlotSector(i) == SectorCount(g, q) && g.csize > 0
    ensures ChainCursor(g, ch, i, ch[q]) && SlotSector(i) < |Secs(g, ch)| && Secs(g, ch)[SlotSector(i)] == Clust2Sect(g, ch[q])
  {
    hide SlotSector, Secs, SectorCount, Clust2Sect;
    StartOfCluster(g, q);
    SectorAt(g, ch, SectorCount(g, q), q, 0);
    assert At(g, SlotSector(i), q, 0);
  }

  /** Outside the FAT and the given sectors, nothing differs. */
  ghost predicate OnlySecs(g: Geometry, v: seq<Sector>, v': seq<Sector>, secs: seq<nat>) {
    |v| == |v'| && forall s: nat {:trigger v'[s]} :: s < |v| && !InFat(g, s) && s !in secs ==> v'[s] == v[s]
  }

  lemma OnlyThere(g: Geometry, v: seq<Sector>, s: nat, x: Sector, secs: seq<nat>)
    requires s < |v| && s in secs
    ensures OnlySecs(g, v, v[s := x], secs)
  {
  }

  lemma NothingTouched(g: Geometry, v: seq<Sector>, secs: seq<nat>)
    ensures OnlySecs(g, v, v, secs)
  {
  }

  lemma OnlySecsTwice(g: Geometry, v: seq<Sector>, v1: seq<Sector>, v2: seq<Sector>, a: seq<nat>, b: seq<nat>)
    requires OnlySecs(g, v, v1, a) && OnlySecs(g, v1, v2, b) && forall s {:trigger s in a} :: s in a ==> s in b
    ensures OnlySecs(g, v, v2, b)
  {
    hide InFat;
  }

  /** A change of a sector outside the FAT keeps the FAT. */
  lemma SectorKeepsFat(g: Geometry, img: seq<Sector>, s: nat, x: Sector)
    requires FatLayout(g, |img|) && s < |img| && !InFat(g, s)
    ensures FatOf(g, img[s := x]) == FatOf(g, img)
  {
    hide FatLayout, FatOf;
    forall t: nat | InFat(g, t) ensures t < |img| && img[s := x][t] == img[t] { FatBelow(g, |img|, t); }
    FatUntouched(g, img, img[s := x]);
  }

  /** A change of a sector that is not reserved keeps what FSInfo says. */
  lemma SectorKeepsInfo(fs: FatFs, img: seq<Sector>, s: nat, x: Sector)
    requires fs.Valid() && fs.geo.fatbase <= s < |img| && |img| == fs.disk.Length
             && InfoFresh(fs.geo, img, fs.freeClust, fs.fsiFlag)
    ensures InfoFresh(fs.geo, img[s := x], fs.freeClust, fs.fsiFlag)
  {
    hide FatFs.Valid, FatLayout, DataLayout, InfoFresh;
    InfoStays(fs.geo, fs.disk.Length, img, img[s := x], fs.freeClust, fs.fsiFlag, fs.freeClust, fs.fsiFlag);
  }

  /** So does a change of a cluster. */
  lemma ClusterKeepsInfo(fs: FatFs, c: nat, img: seq<Sector>, img': seq<Sector>)
    requires fs.Valid() && InRange(fs.geo, c) && |img| == fs.disk.Length && InfoFresh(fs.geo, img, fs.freeClust, fs.fsiFlag)
    requires SameOutside(img, img', Clust2Sect(fs.geo, c), fs.geo.csize)
    ensures InfoFresh(fs.geo, img', fs.freeClust, fs.fsiFlag)
  {
    hide FatFs.Valid, FatLayout, DataLayout, InfoFresh, Clust2Sect;
    DataFacts(fs.geo, fs.disk.Length);
    ClusterSector(fs.geo, fs.disk.Length, c, 0);
    InfoStays(fs.geo, fs.disk.Length, img, img', fs.freeClust, fs.fsiFlag, fs.freeClust, fs.fsiFlag);
  }

  /** Entry `i` of a directory lies in the window. */
  ghost predicate AtSlot(fs: FatFs, sclust: nat, i: nat)
    reads fs`winsect, fs`chains
  {
    var secs := DirSecs(fs.geo, fs.chains, sclust);
    i < Reach(|secs|) && SlotSector(i) < |secs| && fs.winsect == secs[SlotSector(i)] && DirSecsOk(fs.geo, fs.disk.Length, secs)
  }

  lemma AtSlotSector(fs: FatFs, sclust: nat, i: nat)
    requires AtSlot(fs, sclust, i)
    ensures var secs := DirSecs(fs.geo, fs.chains, sclust);
            fs.winsect in secs && 0 < fs.winsect < fs.disk.Length && fs.geo.fatbase <= fs.winsect && !InFat(fs.geo, fs.winsect)
  {
    hide DirSecs, DirSecsOk, SlotSector, InFat, InMirror;
    DirSector(fs.geo, fs.disk.Length, DirSecs(fs.geo, fs.chains, sclust), SlotSector(i));
  }

  /** Stores bytes into one entry of a directory. */
  method PutSlot(fs: FatFs, ghost sclust: nat, ghost i: nat, at: nat, ghost o: nat, b: seq<byte>)
    requires VolumeOk(fs) && AtSlot(fs, sclust, i) && at == SlotOffset(i) + o && o + |b| <= 32
    modifies fs`wflag, fs.win
    ensures VolumeOk(fs) && Fat(fs) == old(Fat(fs)) && AtSlot(fs, sclust, i)
    ensures SectorsOk(old(fs.Img()), DirSecs(fs.geo, fs.chains, sclust))
            && SectorsOk(fs.Img(), DirSecs(fs.geo, fs.chains, sclust))
    ensures Table(fs.Img(), DirSecs(fs.geo, fs.chains, sclust))
            == var t := old(Table(fs.Img(), DirSecs(fs.geo, fs.chains, sclust))); t[i := Patch(t[i], o, b)]
    ensures OnlySecs(fs.geo, old(fs.Img()), fs.Img(), DirSecs(fs.geo, fs.chains, sclust))
  {
    hide FatFs.Valid, FatFs.Img, FatOf, FatLayout, DataLayout, FreeBelow, ChainsOk, DirSecs, DirSecsOk, Patch, Table,
         SectorsOk, InFat, OnlySecs, InfoFresh;
    ghost var secs, img := DirSecs(fs.geo, fs.chains, sclust), fs.Img();
    DirSecsMean(fs.geo, img, secs);
    AtSlotSector(fs, sclust, i);
    EntryPatched(img, secs, i, o, b);
    ghost var x := Patch(img[fs.winsect], at, b);
    SectorKeepsFat(fs.geo, img, fs.winsect, x);
    SectorKeepsInfo(fs, img, fs.winsect, x);
    OnlyThere(fs.geo, img, fs.winsect, x, secs);
    fs.StoreWin(at, b);
  }

  class Dir {
    const fs: FatFs
    var sclust: nat
    var index: nat
    var clust: nat
    var sect: nat

    constructor (fs: FatFs, sclust: nat)
      ensures this.fs == fs && this.sclust == sclust
    {
      this.fs, this.sclust := fs, sclust;
      index, clust, sect := 0, 0, 0;
    }

    ghost function MySecs(): seq<nat>
      reads this`sclust, fs`chains
    {
      DirSecs(fs.geo, fs.chains, sclust)
    }

    function Head(): nat
      reads this`sclust
    {
      DirHead(fs.geo, sclust)
    }

    /** The directory is one of the volume's. */
    ghost predicate Known()
      reads this`sclust
      reads fs`winsect, fs`wflag, fs`freeClust, fs`fsiFlag, fs`chains, fs.disk, fs.win
      ensures Known() ==> VolumeOk(fs) && DirSecsOk(fs.geo, fs.disk.Length, MySecs())
    {
      && VolumeOk(fs) && DirKnown(fs.geo, fs.chains, sclust)
      && DirSecsOk(fs.geo, fs.disk.Length, MySecs())
    }

    /** The directory as a table of entries. */
    ghost function Entries(): (t: seq<Entry>)
      reads this`sclust
      reads fs`winsect, fs`wflag, fs`freeClust, fs`fsiFlag, fs`chains, fs.disk, fs.win
      requires Known()
    {
      DirSecsMean(fs.geo, fs.Img(), MySecs());
      Table(fs.Img(), MySecs())
    }

    /** The cursor's sector and cluster are those of entry `i`. */
    ghost predicate Stands(i: nat)
      reads this`sclust, this`clust, this`sect, fs`chains
    {
      && SlotSector(i) < |MySecs()| && i < 65536 && sect == MySecs()[SlotSector(i)]
      && if Head() == 0 then clust == 0 else Head() in fs.chains && clust != 0 && ChainCursor(fs.geo, fs.chains[Head()], i, clust)
    }

    /** Positions the cursor on entry `idx`; it fails exactly behind the end of the table. */
    method Sdi(idx: nat) returns (res: FResult)
      requires Known() && idx < 65536
      modifies this`index, this`clust, this`sect, fs`winsect, fs`wflag, fs.disk, fs.win
      ensures Known() && fs.Img() == old(fs.Img())
      ensures res == if SlotSector(idx) < |MySecs()| then FrOk else FrIntErr
      ensures res == FrOk ==> Stands(index) && index == idx
      ensures MovedIn(fs.geo, old(fs.winsect), fs.winsect, [])
      ensures old(fs.Clean()) ==> fs.Clean()
    {
      hide FatFs.Valid, FatFs.Img, FatFs.Clean, FatOf, FatLayout, DataLayout, FreeBelow, ChainsOk, Secs, DirSecsOk,
           Clust2Sect, SlotSector;
      index := idx;
      var clst := sclust;
      KnownHead(fs, sclust);
      if clst == 1 || clst >= fs.geo.nFatent { assert false; }
      if clst == 0 && fs.geo.fsType == Fat32 { clst := fs.geo.dirbase; }
      if clst == 0 {
        clust := 0;
        RootLimit(fs.geo, fs.disk.Length, idx);
        if idx >= fs.geo.nRootdir { return FrIntErr; }
        sect := fs.geo.dirbase + SlotSector(idx);
        return FrOk;
      }
      res := WalkTo(clst, idx);
    }

    /** dir_sdi's walk along a chained directory. */
    method WalkTo(h: nat, idx: nat) returns (res: FResult)
      requires Known() && h == Head() && h in fs.chains && h != 0 && index == idx < 65536
      modifies this`clust, this`sect, fs`winsect, fs`wflag, fs.disk, fs.win
      ensures Known() && fs.Img() == old(fs.Img())
      ensures res == if SlotSector(idx) < |MySecs()| then FrOk else FrIntErr
      ensures res == FrOk ==> Stands(index)
      ensures MovedIn(fs.geo, old(fs.winsect), fs.winsect, [])
      ensures old(fs.Clean()) ==> fs.Clean()
    {
      hide FatFs.Valid, FatFs.Img, FatFs.Clean, FatOf, FatLayout, DataLayout, FreeBelow, ChainsOk, Secs, DirSecsOk,
           Clust2Sect, SlotSector, SlotOffset, SectorCount, At;
      ghost var g, ch, fat := fs.geo, fs.chains[h], Fat(fs);
      var ic := 16 * fs.geo.csize;
      var clst: nat, rem: nat := h, idx;
      ghost var i: nat := 0;
      DataFacts(fs.geo, fs.disk.Length);
      ChainGood(g, fat, fs.chains, h);
      ChainStep(fat, fs.chains, h, 0);
      StartCount(g);
      while rem >= ic
        invariant Known() && fs.Img() == old(fs.Img()) && Fat(fs) == fat && (old(fs.Clean()) ==> fs.Clean())
        invariant MovedIn(fs.geo, old(fs.winsect), fs.winsect, [])
        invariant i < |ch| && clst == ch[i] && idx == SectorCount(g, i) * 16 + rem
      {
        ChainStep(fat, fs.chains, h, i);
        clst := GetFat(fs, clst);
        if clst == NO_CLUSTER { assert false; }
        if clst < 2 || clst >= fs.geo.nFatent {
          PastEnd(g, ch, i, rem, idx);
          return FrIntErr;
        }
        CountStep(g, i);
        rem := rem - ic;
        i := i + 1;
      }
      SlotInCluster(g, ch, i, rem, idx);
      ChainStep(fat, fs.chains, h, i);
      clust := clst;
      sect := Clust2Sect(fs.geo, clst) + SlotSector(rem);
      return FrOk;
    }

    /** get_fat's value for a cluster of the directory. */
    method LinkOf(c: nat, ghost q: nat) returns (v: nat)
      requires Known() && Head() in fs.chains && q < |fs.chains[Head()]| && c == fs.chains[Head()][q]
      modifies fs`winsect, fs`wflag, fs.disk, fs.win
      ensures Known() && fs.Img() == old(fs.Img()) && v < NO_CLUSTER && fs.geo.csize > 0
      ensures MovedIn(fs.geo, old(fs.winsect), fs.winsect, [])
      ensures if q + 1 < |fs.chains[Head()]| then 2 <= v < fs.geo.nFatent && v == fs.chains[Head()][q + 1]
              else v >= fs.geo.nFatent
      ensures Head() != 0
      ensures old(fs.Clean()) ==> fs.Clean()
    {
      hide FatFs.Valid, FatFs.Img, FatFs.Clean, FatOf, FatLayout, DataLayout, FreeBelow, ChainsOk, Secs, DirSecsOk;
      DataFacts(fs.geo, fs.disk.Length);
      ChainStep(Fat(fs), fs.chains, Head(), 0);
      ChainStep(Fat(fs), fs.chains, Head(), q);
      v := GetFat(fs, c);
    }

    /** Appends a zeroed cluster to the directory; 0 means that every cluster is in use. */
    method Stretch(c: nat, ghost q: nat) returns (clst: nat)
      requires Known() && Head() in fs.chains && q + 1 == |fs.chains[Head()]| && c == fs.chains[Head()][q] && Head() != 0
      modifies fs`winsect, fs`wflag, fs`lastClust, fs`freeClust, fs`fsiFlag, fs`chains, fs.disk, fs.win
      ensures Known() && Head() in fs.chains && clst != 1 && clst < NO_CLUSTER
      ensures clst == 0 ==> fs.chains == old(fs.chains) && fs.Img() == old(fs.Img()) && CountFree(Fat(fs)) == 0
      ensures clst != 0 ==> q + 1 < |fs.chains[Head()]| && clst == fs.chains[Head()][q + 1]
      ensures clst != 0 ==> Stretched(fs.geo, old(fs.chains), fs.chains, Head(), old(fs.Img()), fs.Img())
      ensures MovedIn(fs.geo, old(fs.winsect), fs.winsect, MySecs())
      ensures fs.chains == old(fs.chains) && old(fs.Clean()) ==> fs.Clean()
    {
      hide FatFs.Valid, FatFs.Img, FatFs.Clean, FatOf, FatLayout, DataLayout, FreeBelow, ChainsOk, Secs, DirSecsOk,
           Clust2Sect, Tail, Stretched, SameOutside, ZeroOn;
      ghost var h, img, chains := Head(), fs.Img(), fs.chains;
      NarrowEnough(fs);
      LinksFit(fs.geo, 2);
      DataFacts(fs.geo, fs.disk.Length);
      clst := NextCluster(fs, c, h, q);
      if clst != 0 {
        ghost var img1 := fs.Img();
        ZeroCluster(fs, clst);
        StretchIs(fs.geo, chains, fs.chains, h, clst, img, img1, fs.Img());
        ClusterOnDir(fs.geo, fs.disk.Length, fs.chains[h], q + 1);
      }
      KnownInOrder(fs, sclust);
    }

    /** The cluster behind cluster `q` of the directory, stretching the directory by a zeroed cluster if asked to. */
    method FollowChain(stretch: bool, ghost q: nat) returns (res: FResult)
      requires Known() && Head() in fs.chains && q < |fs.chains[Head()]| && clust == fs.chains[Head()][q]
      modifies this`clust, this`sect
      modifies fs`winsect, fs`wflag, fs`lastClust, fs`freeClust, fs`fsiFlag, fs`chains, fs.disk, fs.win
      ensures Known() && Head() in fs.chains
      ensures res == FrOk ==> q + 1 < |fs.chains[Head()]| && clust == fs.chains[Head()][q + 1] && sect == Clust2Sect(fs.geo, clust)
      ensures res == FrOk ==> clust != 0
      ensures res == FrOk && q + 1 == |old(fs.chains)[Head()]| ==>
                Stretched(fs.geo, old(fs.chains), fs.chains, Head(), old(fs.Img()), fs.Img())
      ensures res != FrOk || q + 1 < |old(fs.chains)[Head()]| ==> fs.chains == old(fs.chains) && fs.Img() == old(fs.Img())
      ensures q + 1 < |old(fs.chains)[Head()]| ==> res == FrOk
      ensures q + 1 == |old(fs.chains)[Head()]| ==>
                if !stretch then res == FrNoFile else res == FrOk || (res == FrDenied && CountFree(Fat(fs)) == 0)
      ensures MovedIn(fs.geo, old(fs.winsect), fs.winsect, MySecs())
      ensures fs.chains == old(fs.chains) && old(fs.Clean()) ==> fs.Clean()
    {
      hide *;
      var clst := LinkOf(clust, q);
      ghost var ws := fs.winsect;
      MovedOn(fs.geo, old(fs.winsect), ws, ws, [], MySecs());
      if clst <= 1 || clst == NO_CLUSTER { assert false; }
      if clst >= fs.geo.nFatent {
        if !stretch { return FrNoFile; }
        clst := Stretch(clust, q);
        MovedOn(fs.geo, old(fs.winsect), ws, fs.winsect, [], MySecs());
        if clst == 0 { return FrDenied; }
        if clst == 1 || clst == NO_CLUSTER { assert false; }
      }
      clust := clst;
      sect := Clust2Sect(fs.geo, clst);
      return FrOk;
    }

    /** Moves the cursor to the sector behind the current one, where entry `i` starts. */
    method NextSector(stretch: bool, i: nat) returns (res: FResult)
      requires Known() && Stands(index) && i == index + 1 < 65536 && i % 16 == 0
      modifies this`clust, this`sect
      modifies fs`winsect, fs`wflag, fs`lastClust, fs`freeClust, fs`fsiFlag, fs`chains, fs.disk, fs.win
      ensures Known() && (res == FrOk ==> Stands(i))
      ensures i < Reach(|old(MySecs())|) ==> res == FrOk
      ensures i >= Reach(|old(MySecs())|) ==>
                if !stretch || Head() == 0 then res == FrNoFile
                else (res == FrOk && Stretched(fs.geo, old(fs.chains), fs.chains, Head(), old(fs.Img()), fs.Img()))
                     || (res == FrDenied && CountFree(Fat(fs)) == 0)
      ensures res != FrOk || i < Reach(|old(MySecs())|) ==> fs.chains == old(fs.chains) && fs.Img() == old(fs.Img())
      ensures MovedIn(fs.geo, old(fs.winsect), fs.winsect, MySecs())
      ensures fs.chains == old(fs.chains) && old(fs.Clean()) ==> fs.Clean()
    {
      hide FatFs.Valid, FatFs.Img, FatFs.Clean, FatOf, FatLayout, DataLayout, FreeBelow, ChainsOk, Secs, DirSecsOk,
           Clust2Sect, SlotSector, Reach, Stretched, ChainCursor, FreeCountOk, ReservedUsed, InFat, InMirror,
           SectorCount;
      KnownHead(fs, sclust);
      DataFacts(fs.geo, fs.disk.Length);
      ReachIs(i, |MySecs()|);
      NextSlot(index);
      sect := sect + 1;
      if clust == 0 {
        RootLimit(fs.geo, fs.disk.Length, i);
        if i >= fs.geo.nRootdir { return FrNoFile; }
      } else if i / 16 % fs.geo.csize == 0 {
        ghost var q := CursorEdge(fs.geo, fs.chains[Head()], index, clust);
        res := FollowChain(stretch, q);
        if res != FrOk { return; }
        CursorLands(fs.geo, fs.chains[Head()], i, q + 1);
      } else {
        CursorStep(fs.geo, fs.chains[Head()], index, clust);
      }
      return FrOk;
    }

    /** Inside a sector, the cursor moves on without looking. */
    lemma StaysInSector(i: nat)
      requires Stands(i) && i + 1 < 65536 && (i + 1) % 16 != 0
      ensures Stands(i + 1) && i + 1 < Reach(|MySecs()|)
    {
      hide Secs, Clust2Sect, SlotSector, Reach, ChainCursor, DirHead, RootSecs;
      NextSlot(i);
      ReachIs(i + 1, |MySecs()|);
      if Head() != 0 { CursorStays(fs.geo, fs.chains[Head()], i, clust); }
    }

    lemma SectorNotZero(i: nat)
      requires Known() && Stands(i)
      ensures sect != 0 && i < 65536
    {
      hide VolumeOk, DirSecs, DirSecsOk, ChainCursor;
      DirSector(fs.geo, fs.disk.Length, MySecs(), SlotSector(i));
    }

    lemma ReachBound(i: nat)
      ensures i < Reach(|MySecs()|) ==> i < 65536
    {
    }

    /** Moves the cursor to the next entry; it fails at the end of the table, or when a stretch finds no free cluster. */
    method Next(stretch: bool) returns (res: FResult)
      requires Known() && Stands(index)
      modifies this`index, this`clust, this`sect
      modifies fs`winsect, fs`wflag, fs`lastClust, fs`freeClust, fs`fsiFlag, fs`chains, fs.disk, fs.win
      ensures Known() && (res == FrOk ==> Stands(index) && index == old(index) + 1)
      ensures old(index) + 1 < Reach(|old(MySecs())|) ==> res == FrOk
      ensures old(index) + 1 >= Reach(|old(MySecs())|) ==>
                if !stretch || Head() == 0 || old(index) == 65535 then res == FrNoFile
                else (res == FrOk && Stretched(fs.geo, old(fs.chains), fs.chains, Head(), old(fs.Img()), fs.Img()))
                     || (res == FrDenied && CountFree(Fat(fs)) == 0)
      ensures res != FrOk || old(index) + 1 < Reach(|old(MySecs())|) ==> fs.chains == old(fs.chains) && fs.Img() == old(fs.Img())
      ensures MovedIn(fs.geo, old(fs.winsect), fs.winsect, MySecs())
      ensures fs.chains == old(fs.chains) && old(fs.Clean()) ==> fs.Clean()
    {
      hide *;
      SectorNotZero(index);
      ReachBound(index + 1);
      MovedNot(fs.geo, fs.winsect, MySecs());
      var i := (index + 1) % 65536;
      if i == 0 || sect == 0 { return FrNoFile; }
      if i % 16 == 0 {
        res := NextSector(stretch, i);
        if res != FrOk { return; }
      } else {
        StaysInSector(index);
      }
      index := i;
      return FrOk;
    }

    /** The entry at the cursor lies in a sector of the volume that can be brought into the window. */
    lemma SectorReachable(i: nat)
      requires Known() && Stands(i)
      ensures 0 < sect < fs.disk.Length && !InMirror(fs.geo, sect) && !InFat(fs.geo, sect) && sect in MySecs() && i < 65536
    {
      hide VolumeOk, DirSecs, DirSecsOk, ChainCursor, InFat, InMirror;
      DirSector(fs.geo, fs.disk.Length, MySecs(), SlotSector(i));
    }

    lemma MySecsAre()
      ensures MySecs() == DirSecs(fs.geo, fs.chains, sclust)
    {
    }

    lemma EntriesAre()
      requires Known()
      ensures SectorsOk(fs.Img(), MySecs()) && Entries() == Table(fs.Img(), MySecs())
      ensures |Entries()| == Reach(|MySecs()|) <= 65536
    {
      hide VolumeOk, FatFs.Valid, FatFs.Img, DirSecs, DirSecsOk, SectorsOk, Table;
      DirSecsMean(fs.geo, fs.Img(), MySecs());
    }

    /** The entry at the cursor, as the image shows it. */
    lemma EntryHere(i: nat)
      requires Known() && Stands(i)
      ensures i < |Entries()| && sect < |fs.Img()| && Entries()[i] == fs.Img()[sect][SlotOffset(i)..SlotOffset(i) + 32]
    {
      hide VolumeOk, FatFs.Valid, FatFs.Img, DirSecs, DirSecsOk, SectorsOk, Table, ChainCursor, Reach;
      EntriesAre();
      ReachIs(i, |MySecs()|);
      SectorReachable(i);
      TableAt(fs.Img(), MySecs(), i);
    }

    /** Brings the cursor's sector into the window. */
    method Look()
      requires Known() && Stands(index)
      modifies fs`winsect, fs`wflag, fs.disk, fs.win
      ensures Known() && fs.Img() == old(fs.Img()) && Entries() == old(Entries()) && Fat(fs) == old(Fat(fs))
      ensures fs.winsect == sect != 0 && fs.win.Length == 512 && index < |Entries()|
      ensures fs.win[SlotOffset(index)..SlotOffset(index) + 32] == Entries()[index]
      ensures MovedIn(fs.geo, old(fs.winsect), fs.winsect, MySecs())
      ensures old(fs.Clean()) ==> fs.Clean()
    {
      hide FatFs.Valid, FatFs.Img, FatFs.Clean, FatOf, FatLayout, DataLayout, FreeBelow, ChainsOk, Secs, DirSecsOk,
           Table, ChainCursor, SlotSector, SlotOffset, DirSecs, InMirror, InFat;
      SectorReachable(index);
      EntriesAre();
      var res := fs.MoveWindow(sect);
      EntriesAre();
      EntryHere(index);
    }

    /** Every directory has at least one sector. */
    lemma NotEmpty()
      requires Known()
      ensures SlotSector(0) < |MySecs()|
    {
      hide FatFs.Valid, FatFs.Img, FatOf, FatLayout, DataLayout, FreeBelow, ChainsOk, DirSecsOk;
      KnownHead(fs, sclust);
      DataFacts(fs.geo, fs.disk.Length);
      if Head() == 0 {
        RootLimit(fs.geo, fs.disk.Length, 0);
        RootNotEmpty(fs.geo, fs.disk.Length);
      } else {
        ChainGood(fs.geo, Fat(fs), fs.chains, Head());
        SectorCountStep(fs.geo, 0, |fs.chains[Head()]|);
      }
    }

    /** Looks a name up: the cursor ends on the first entry that matches, unless an end mark or the table's end comes first. */
    method Find(name: Name) returns (res: FResult)
      requires Known()
      modifies this`index, this`clust, this`sect
      modifies fs`winsect, fs`wflag, fs`lastClust, fs`freeClust, fs`fsiFlag, fs`chains, fs.disk, fs.win
      ensures Known() && fs.Img() == old(fs.Img()) && fs.chains == old(fs.chains) && Entries() == old(Entries())
      ensures res == if Scan(Entries(), name, 0) < |Entries()| then FrOk else FrNoFile
      ensures res == FrOk ==> Stands(index) && index == Scan(Entries(), name, 0) && fs.winsect == sect
      ensures MovedIn(fs.geo, old(fs.winsect), fs.winsect, MySecs())
      ensures old(fs.Clean()) ==> fs.Clean()
    {
      hide *;
      ghost var t, ws := Entries(), fs.winsect;
      NotEmpty();
      EntriesAre();
      res := Sdi(0);
      if res != FrOk { assert false; }
      MovedOn(fs.geo, ws, fs.winsect, fs.winsect, [], MySecs()) by { MovedNot(fs.geo, fs.winsect, MySecs()); }
      EntriesAre();
      EntryHere(index);
      while true
        invariant Known() && fs.Img() == old(fs.Img()) && fs.chains == old(fs.chains) && Entries() == t
                  && (old(fs.Clean()) ==> fs.Clean())
        invariant Stands(index) && index < |t| && Scan(t, name, 0) == Scan(t, name, index)
        invariant MovedIn(fs.geo, ws, fs.winsect, MySecs())
        decreases |t| - index
      {
        ghost var ws1 := fs.winsect;
        Look();
        MovedOn(fs.geo, ws, ws1, fs.winsect, MySecs(), MySecs());
        ScanStep(t, name, index);
        var o := SlotOffset(index);
        WindowEntry(fs.win[..], o, name);
        if fs.win[o] == 0 { return FrNoFile; }
        if fs.win[o + 11] / 8 % 2 == 0 && fs.win[o..o + 11] == name { return FrOk; }
        ghost var ws2 := fs.winsect;
        EntriesAre();
        res := Next(false);
        EntriesAre();
        MovedOn(fs.geo, ws, ws2, fs.winsect, MySecs(), MySecs());
        if res != FrOk { return; }
        EntryHere(index);
      }
    }

    /** dir_read: from the cursor on, the next file or directory. */
    method ReadItem() returns (res: FResult)
      requires Known() && Stands(index)
      modifies this`index, this`clust, this`sect
      modifies fs`winsect, fs`wflag, fs`lastClust, fs`freeClust, fs`fsiFlag, fs`chains, fs.disk, fs.win
      ensures Known() && fs.Img() == old(fs.Img()) && fs.chains == old(fs.chains) && Entries() == old(Entries())
      ensures old(index) < |Entries()| && res == if ItemScan(Entries(), old(index)) < |Entries()| then FrOk else FrNoFile
      ensures MovedIn(fs.geo, old(fs.winsect), fs.winsect, MySecs())
      ensures old(fs.Clean()) ==> fs.Clean()
    {
      hide *;
      ghost var t, ws, i0 := Entries(), fs.winsect, index;
      MovedNot(fs.geo, ws, MySecs());
      EntriesAre();
      EntryHere(index);
      SectorNotZero(index);
      res := FrNoFile;
      while sect != 0
        invariant Known() && fs.Img() == old(fs.Img()) && fs.chains == old(fs.chains) && Entries() == t
                  && (old(fs.Clean()) ==> fs.Clean())
        invariant Stands(index) && index < |t| && ItemScan(t, i0) == ItemScan(t, index) && sect != 0
        invariant MovedIn(fs.geo, ws, fs.winsect, MySecs())
        decreases |t| - index
      {
        ghost var ws1 := fs.winsect;
        Look();
        MovedOn(fs.geo, ws, ws1, fs.winsect, MySecs(), MySecs());
        ItemScanStep(t, index);
        var o := SlotOffset(index);
        WindowItem(fs.win[..], o);
        var c, a := fs.win[o], fs.win[o + 11] % 64;
        if c == 0 { res := FrNoFile; break; }
        if c != DDE && c != 0x2E && a != 0x0F && a != 0x08 { res := FrOk; break; }
        ghost var ws2 := fs.winsect;
        EntriesAre();
        res := Next(false);
        EntriesAre();
        MovedOn(fs.geo, ws, ws2, fs.winsect, MySecs(), MySecs());
        if res != FrOk { break; }
        EntryHere(index);
        SectorNotZero(index);
      }
      if res != FrOk { sect := 0; }
    }

    /** Stores bytes into the entry at the cursor, which must be in the window. */
    method Put(o: nat, b: seq<byte>)
      requires Known() && Stands(index) && fs.winsect == sect && o + |b| <= 32
      modifies fs`wflag, fs.win
      ensures Known() && index < |old(Entries())| && Entries() == old(Entries())[index := Patch(old(Entries())[index], o, b)]
      ensures OnlySecs(fs.geo, old(fs.Img()), fs.Img(), MySecs()) && Fat(fs) == old(Fat(fs))
    {
      hide FatFs.Valid, FatFs.Img, FatOf, FatLayout, DataLayout, FreeBelow, ChainsOk, DirSecs, DirSecsOk, Patch, Table,
           SectorsOk, InFat, OnlySecs, SlotOffset, SlotSector, Reach, ChainCursor;
      EntriesAre();
      EntryHere(index);
      ReachIs(index, |MySecs()|);
      PutSlot(fs, sclust, index, SlotOffset(index) + o, o, b);
      EntriesAre();
    }

    /** A stretch of this directory: new empty entries behind the old ones. */
    lemma StretchedEntries(t: seq<Entry>, chains: map<nat, seq<nat>>, img: seq<Sector>)
      requires Known() && Head() != 0 && Stretched(fs.geo, chains, fs.chains, Head(), img, fs.Img())
      requires var secs := DirSecs(fs.geo, chains, sclust); DirSecsOk(fs.geo, |img|, secs) && SectorsOk(img, secs) && t == Table(img, secs)
      requires |t| < 65536
      ensures |t| < |Entries()| && Entries()[..|t|] == t && forall j {:trigger Entries()[j]} ::
              |t| <= j < |Entries()| ==> AllZero(Entries()[j])
      ensures OnlySecs(fs.geo, img, fs.Img(), MySecs()) && AllZero(Entries()[|t|]) && Blank(Entries()[|t|])
      ensures forall s: nat {:trigger s in DirSecs(fs.geo, chains, sclust)} :: s in DirSecs(fs.geo, chains, sclust) ==>
              s in MySecs()
    {
      hide FatFs.Valid, FatFs.Img, FatOf, FatLayout, DataLayout, FreeBelow, ChainsOk, Table, SectorsOk, InFat, OnlySecs,
           SlotOffset, SlotSector, VolumeOk;
      EntriesAre();
      DataFacts(fs.geo, fs.disk.Length);
      StretchedTable(fs.geo, fs.disk.Length, fs.chains[Head()], Tail(fs.chains[Head()]), img, fs.Img(), chains[Head()]);
    }

    /** Finds a blank entry, stretching the directory when it is full. */
    method Alloc() returns (res: FResult)
      requires Known()
      modifies this`index, this`clust, this`sect
      modifies fs`winsect, fs`wflag, fs`lastClust, fs`freeClust, fs`fsiFlag, fs`chains, fs.disk, fs.win
      ensures Known() && (res == FrOk ==> Stands(index) && index == FirstBlank(old(Entries()), 0) && fs.winsect == sect)
      ensures FirstBlank(old(Entries()), 0) < |old(Entries())| ==> res == FrOk
      ensures FirstBlank(old(Entries()), 0) == |old(Entries())| ==>
                if Head() == 0 || |old(Entries())| == 65536 then res == FrNoFile
                else (res == FrOk && Stretched(fs.geo, old(fs.chains), fs.chains, Head(), old(fs.Img()), fs.Img()))
                     || (res == FrDenied && CountFree(Fat(fs)) == 0)
      ensures res != FrOk || FirstBlank(old(Entries()), 0) < |old(Entries())| ==>
                fs.chains == old(fs.chains) && fs.Img() == old(fs.Img())
      ensures MovedIn(fs.geo, old(fs.winsect), fs.winsect, MySecs())
      ensures res != FrOk && old(fs.Clean()) ==> fs.Clean()
    {
      hide *;
      ghost var t, ws, img, chains, secs := Entries(), fs.winsect, fs.Img(), fs.chains, MySecs();
      ghost var grown := false;
      MySecsAre();
      NotEmpty();
      EntriesAre();
      res := Sdi(0);
      if res != FrOk { assert false; }
      MovedOn(fs.geo, ws, fs.winsect, fs.winsect, [], MySecs()) by { MovedNot(fs.geo, fs.winsect, MySecs()); }
      EntriesAre();
      EntryHere(index);
      while true
        invariant Known() && Stands(index) && index <= |t|
        invariant !grown ==> fs.chains == chains && fs.Img() == img && Entries() == t && index < |t| && (old(fs.Clean()) ==> fs.Clean())
        invariant FirstBlank(t, 0) == FirstBlank(t, index)
        invariant grown ==> index == |t| && Stretched(fs.geo, chains, fs.chains, Head(), img, fs.Img())
        invariant grown ==> Head() != 0 && |t| != 65536 && index < |Entries()| && Blank(Entries()[index])
        invariant MovedIn(fs.geo, ws, fs.winsect, MySecs())
        decreases |t| - index
      {
        ghost var ws1 := fs.winsect;
        Look();
        MovedOn(fs.geo, ws, ws1, fs.winsect, MySecs(), MySecs());
        FirstBlankStep(t, index);
        var o := SlotOffset(index);
        WindowEntry(fs.win[..], o, fs.win[o..o + 11]);
        if fs.win[o] == DDE || fs.win[o] == 0 { return FrOk; }
        ghost var ws2 := fs.winsect;
        EntriesAre();
        res := Next(true);
        EntriesAre();
        if res != FrOk {
          MovedOn(fs.geo, ws, ws2, fs.winsect, MySecs(), MySecs());
          return;
        }
        if index == |t| {
          grown := true;
          SectorNotZero(index);
          StretchedEntries(t, chains, img);
        } else {
          EntryHere(index);
        }
        MovedOn(fs.geo, ws, ws2, fs.winsect, secs, MySecs());
      }
    }

    /** Makes the entry at the cursor a fresh one for `name`. */
    method Fill(name: Name)
      requires Known() && Stands(index) && NameOk(name)
      modifies fs`winsect, fs`wflag, fs.disk, fs.win
      ensures Known() && index < |old(Entries())| && Entries() == old(Entries())[index := NewEntry(name)] && fs.winsect == sect
      ensures OnlySecs(fs.geo, old(fs.Img()), fs.Img(), MySecs())
      ensures MovedIn(fs.geo, old(fs.winsect), fs.winsect, MySecs())
    {
      hide *;
      Look();
      ghost var t, img := Entries(), fs.Img();
      NewEntryLive(t[index], name);
      Put(0, seq(32, _ => 0));
      ghost var img1 := fs.Img();
      Put(0, name);
      assert Entries() == t[index := NewEntry(name)];
      OnlySecsTwice(fs.geo, img, img1, fs.Img(), MySecs(), MySecs());
    }

    /** Registers a name that the directory does not hold: the directory's map gains exactly that name.  It fails, and then
        changes nothing, exactly when no entry is blank and the directory cannot be stretched. */
    method Register(name: Name) returns (res: FResult)
      requires Known() && TableOk(Entries()) && NameOk(name) && name !in NameMap(Entries())
      modifies this`index, this`clust, this`sect
      modifies fs`winsect, fs`wflag, fs`lastClust, fs`freeClust, fs`fsiFlag, fs`chains, fs.disk, fs.win
      ensures Known() && TableOk(Entries())
      ensures res == FrOk ==> Stands(index) && index < |Entries()| && Entries()[index] == NewEntry(name) && fs.winsect == sect
      ensures res == FrOk ==> NameMap(Entries()) == old(NameMap(Entries()))[name := index] && KeptBut(old(Entries()), Entries(), index)
      ensures res == FrOk ==> OnlySecs(fs.geo, old(fs.Img()), fs.Img(), MySecs())
      ensures FirstBlank(old(Entries()), 0) < |old(Entries())| ==> res == FrOk && fs.chains == old(fs.chains)
      ensures FirstBlank(old(Entries()), 0) == |old(Entries())| ==>
                if Head() == 0 || |old(Entries())| == 65536 then res == FrNoFile
                else res == FrOk || (res == FrDenied && CountFree(Fat(fs)) == 0)
      ensures res == FrOk ==> index == FirstBlank(old(Entries()), 0)
      ensures Head() in old(fs.chains) ==> Head() in fs.chains && old(fs.chains)[Head()] <= fs.chains[Head()]
      ensures fs.chains == if Head() in old(fs.chains) && Head() in fs.chains
              then old(fs.chains)[Head() := fs.chains[Head()]] else old(fs.chains)
      ensures fs.chains == old(fs.chains)
              || (|old(Entries())| < 65536 && Head() in old(fs.chains) && Head() in fs.chains
                  && |fs.chains[Head()]| == |old(fs.chains)[Head()]| + 1)
      ensures res != FrOk ==> fs.chains == old(fs.chains) && fs.Img() == old(fs.Img())
      ensures MovedIn(fs.geo, old(fs.winsect), fs.winsect, MySecs())
      ensures res != FrOk && old(fs.Clean()) ==> fs.Clean()
    {
      hide *;
      ghost var t, ws, img, chains, secs := Entries(), fs.winsect, fs.Img(), fs.chains, MySecs();
      MySecsAre();
      EntriesAre();
      res := Alloc();
      EntriesAre();
      FirstBlankStep(t, 0);
      if res == FrOk {
        AllocatedEntries(t, chains, img);
        ghost var img1, t1, ws1 := fs.Img(), Entries(), fs.winsect;
        EntryHere(index);
        NewEntryLive(t1[index], name);
        RegisterAdds(t1, name, NewEntry(name));
        GrownKept(t, t1, index, NewEntry(name));
        Fill(name);
        MovedOn(fs.geo, ws, ws1, fs.winsect, MySecs(), MySecs());
        OnlySecsTwice(fs.geo, img, img1, fs.Img(), MySecs(), MySecs());
      }
    }

    /** What dir_alloc leaves: the old entries, perhaps with empty ones behind them. */
    lemma AllocatedEntries(t: seq<Entry>, chains: map<nat, seq<nat>>, img: seq<Sector>)
      requires Known() && var secs := DirSecs(fs.geo, chains, sclust); DirSecsOk(fs.geo, |img|, secs) && SectorsOk(img, secs) && t == Table(img, secs)
      requires TableOk(t)
      requires (fs.chains == chains && fs.Img() == img)
               || (Head() != 0 && |t| < 65536 && FirstBlank(t, 0) == |t| && Stretched(fs.geo, chains, fs.chains, Head(), img, fs.Img()))
      ensures TableOk(Entries()) && NameMap(Entries()) == NameMap(t) && FirstBlank(Entries(), 0) == FirstBlank(t, 0)
      ensures |t| <= |Entries()| && Entries()[..|t|] == t && forall j {:trigger Entries()[j]} ::
              |t| <= j < |Entries()| ==> AllZero(Entries()[j])
      ensures OnlySecs(fs.geo, img, fs.Img(), MySecs())
      ensures fs.chains == if Head() in chains && Head() in fs.chains then chains[Head() := fs.chains[Head()]] else chains
      ensures Head() in chains && Head() in fs.chains ==> chains[Head()] <= fs.chains[Head()]
      ensures fs.chains == chains
              || (|t| < 65536 && Head() in chains && Head() in fs.chains && |fs.chains[Head()]| == |chains[Head()]| + 1)
    {
      hide FatFs.Valid, FatFs.Img, FatOf, FatLayout, DataLayout, FreeBelow, ChainsOk, Table, SectorsOk, InFat, OnlySecs,
           SlotOffset, SlotSector, VolumeOk, TableOk, NameMap, FirstBlank, DirSecsOk, ZeroOn;
      EntriesAre();
      if fs.chains == chains && fs.Img() == img {
        NothingTouched(fs.geo, img, MySecs());
      } else {
        StretchedEntries(t, chains, img);
        GrowKeepsMap(t, Entries());
        BlankBehind(t, Entries(), 0);
      }
    }

    /** Deletes the entry at the cursor: the directory's map loses exactly that name. */
    method Remove() returns (res: FResult)
      requires Known() && Stands(index) && TableOk(Entries())
      requires index < |Entries()| && Live(Entries()[index])
      modifies this`index, this`clust, this`sect, fs`winsect, fs`wflag, fs.disk, fs.win
      ensures Known() && res == FrOk && TableOk(Entries()) && index == old(index)
      ensures NameMap(Entries()) == old(NameMap(Entries())) - {old(Entries()[index])[..11]}
      ensures Entries() == old(Entries())[index := Patch(old(Entries())[index], 0, [DDE])]
      ensures OnlySecs(fs.geo, old(fs.Img()), fs.Img(), MySecs())
      ensures MovedIn(fs.geo, old(fs.winsect), fs.winsect, MySecs())
    {
      hide *;
      ghost var t, ws := Entries(), fs.winsect;
      ghost var n: Name := t[index][..11];
      LiveBinds(t, index);
      RemoveDeletes(t, n);
      ReachHere(index);
      EntriesAre();
      res := Sdi(index);
      if res != FrOk { assert false; }
      EntriesAre();
      MovedOn(fs.geo, ws, fs.winsect, fs.winsect, [], MySecs()) by { MovedNot(fs.geo, fs.winsect, MySecs()); }
      ghost var ws1 := fs.winsect;
      Look();
      MovedOn(fs.geo, ws, ws1, fs.winsect, MySecs(), MySecs());
      Put(0, [DDE]);
    }

    lemma ReachHere(i: nat)
      requires Stands(i)
      ensures i < 65536 && SlotSector(i) < |MySecs()|
    {
    }
  }

  /** The table of a directory that got one zeroed cluster more. */
  lemma StretchedTable(g: Geometry, n: nat, ch': seq<nat>, c: nat, img: seq<Sector>, img': seq<Sector>, ch: seq<nat>)
    requires |img| == |img'| == n && ch' == ch + [c] && g.csize > 0
    requires DirSecsOk(g, n, Secs(g, ch)) && DirSecsOk(g, n, Secs(g, ch')) && ZeroOn(img', Clust2Sect(g, c), g.csize)
    requires forall s: nat {:trigger img'[s]} :: s < n && !InFat(g, s) && !(Clust2Sect(g, c) <= s < Clust2Sect(g, c) + g.csize) ==> img'[s] == img[s]
    requires |Secs(g, ch)| * 16 < 65536
    ensures SectorsOk(img, Secs(g, ch)) && SectorsOk(img', Secs(g, ch'))
    ensures var t, t' := Table(img, Secs(g, ch)), Table(img', Secs(g, ch'));
            && |t| < |t'| && t'[..|t|] == t
            && forall j {:trigger t'[j]} :: |t| <= j < |t'| ==> AllZero(t'[j])
    ensures OnlySecs(g, img, img', Secs(g, ch'))
    ensures forall s: nat {:trigger s in Secs(g, ch)} :: s in Secs(g, ch) ==> s in Secs(g, ch')
  {
    hide DirSecsOk, Secs, Clust2Sect, Table, InFat, InMirror, SectorCount, ClusterSecs;
    var a, b := Secs(g, ch), Secs(g, ch');
    SecsAppend(g, ch, c);
    var more := ClusterSecs(g, c);
    assert b == a + more;
    DirSecsMean(g, img, a);
    DirSecsMean(g, img', b);
    ClusterMembers(g, c);
    PartsApart(img', a, more);
    forall i | 0 <= i < |a| ensures img'[a[i]] == img[a[i]] {
      DirSector(g, n, a, i);
      assert a[i] in a && a[i] !in more;
    }
    TableKept(img, img', a);
    TableGrows(img', a, more);
    forall s: nat | s < n && !InFat(g, s) && s !in b ensures img'[s] == img[s] {
      assert s !in more;
    }
    OnlySecsIs(g, img, img', b);
    forall s: nat | s in a ensures s in b { }
  }

  lemma OnlySecsIs(g: Geometry, v: seq<Sector>, v': seq<Sector>, secs: seq<nat>)
    requires |v| == |v'| && forall s: nat {:trigger v'[s]} :: s < |v| && !InFat(g, s) && s !in secs ==> v'[s] == v[s]
    ensures OnlySecs(g, v, v', secs)
  {
  }

  lemma ClusterMembers(g: Geometry, c: nat)
    ensures forall r {:trigger ClusterSecs(g, c)[r]} :: 0 <= r < g.csize ==> ClusterSecs(g, c)[r] == Clust2Sect(g, c) + r
    ensures forall s: nat {:trigger s in ClusterSecs(g, c)} ::
            s in ClusterSecs(g, c) <==> Clust2Sect(g, c) <= s < Clust2Sect(g, c) + g.csize
  {
    hide Clust2Sect;
    var base := Clust2Sect(g, c);
    forall s: nat | base <= s < base + g.csize ensures s in ClusterSecs(g, c) {
      assert ClusterSecs(g, c)[s - base] == s;
    }
  }

  lemma PartsApart(img: seq<Sector>, a: seq<nat>, b: seq<nat>)
    requires SectorsOk(img, a + b)
    ensures forall s: nat {:trigger s in a} :: s in a ==> s !in b
  {
    forall i, k | 0 <= i < |a| && 0 <= k < |b| ensures a[i] != b[k] {
      assert (a + b)[i] == a[i] && (a + b)[|a| + k] == b[k];
    }
  }

  lemma WindowEntry(w: seq<byte>, o: nat, n: Name)
    requires o + 32 <= |w|
    ensures var e: Entry := w[o..o + 32];
            && e[0] == w[o] && (Blank(e) <==> w[o] == DDE || w[o] == 0)
            && (Matches(e, n) <==> w[o + 11] / 8 % 2 == 0 && w[o..o + 11] == n)
  {
  }

  lemma WindowItem(w: seq<byte>, o: nat)
    requires o + 32 <= |w|
    ensures var e: Entry := w[o..o + 32];
            && e[0] == w[o]
            && (IsItem(e) <==> w[o] != DDE && w[o] != 0x2E && w[o + 11] % 64 != 0x0F && w[o + 11] % 64 != 0x08)
  {
    var e: Entry := w[o..o + 32];
    assert e[0] == w[o] && e[11] == w[o + 11];
  }

  lemma RootNotEmpty(g: Geometry, n: nat)
    requires FatLayout(g, n) && DataLayout(g, n) && g.fsType != Fat32
    ensures g.nRootdir > 0
  {
    hide FatBytesNeeded, MaxEntries, PowerOfTwo;
  }

  /** A known directory starts at a real cluster, or at the fixed root. */
  lemma KnownHead(fs: FatFs, sclust: nat)
    requires VolumeOk(fs) && DirKnown(fs.geo, fs.chains, sclust)
    ensures sclust != 1 && sclust < fs.geo.nFatent
    ensures DirHead(fs.geo, sclust) == 0 ==> fs.geo.fsType != Fat32 && sclust == 0
    ensures DirHead(fs.geo, sclust) != 0 ==> DirHead(fs.geo, sclust) in fs.chains
  {
    hide FatFs.Valid, FatFs.Img, FatOf, FatLayout, FreeBelow, ChainsOk;
    var h := DirHead(fs.geo, sclust);
    if h == 0 {
      HeadZero(fs.geo, fs.disk.Length, sclust);
    } else {
      ChainStep(Fat(fs), fs.chains, h, 0) by { ChainGood(fs.geo, Fat(fs), fs.chains, h); }
    }
  }

  lemma RootLimit(g: Geometry, n: nat, idx: nat)
    requires FatLayout(g, n) && DataLayout(g, n) && g.fsType != Fat32
    ensures idx < g.nRootdir <==> SlotSector(idx) < RootSectors(g)
  {
    hide FatBytesNeeded, MaxEntries, PowerOfTwo;
    RootInOrder(g, n);
    SlotBelow(idx, RootSectors(g));
  }

  lemma StartCount(g: Geometry)
    ensures SectorCount(g, 0) == 0
  {
  }

  lemma CountStep(g: Geometry, i: nat)
    ensures SectorCount(g, i + 1) == SectorCount(g, i) + g.csize
  {
  }

  /** An index with more entries left than the last cluster holds lies behind the table. */
  lemma PastEnd(g: Geometry, ch: seq<nat>, i: nat, rem: nat, idx: nat)
    requires i + 1 == |ch| && rem >= 16 * g.csize && idx == SectorCount(g, i) * 16 + rem
    ensures SlotSector(idx) >= |Secs(g, ch)|
  {
    hide SectorCount, Secs;
    CountStep(g, i);
    SlotBelow(idx, |Secs(g, ch)|);
  }

  /** An index inside cluster `i` of the chain. */
  lemma SlotInCluster(g: Geometry, ch: seq<nat>, i: nat, rem: nat, idx: nat)
    requires i < |ch| && rem < 16 * g.csize && idx == SectorCount(g, i) * 16 + rem
    ensures SlotSector(idx) < |Secs(g, ch)| && Secs(g, ch)[SlotSector(idx)] == Clust2Sect(g, ch[i]) + SlotSector(rem)
    ensures ChainCursor(g, ch, idx, ch[i])
  {
    hide SectorCount, Secs, Clust2Sect;
    SlotBelow(rem, g.csize);
    var r := SlotSector(rem);
    SlotSplitRem(SectorCount(g, i), rem, idx);
    StartOfCluster(g, i);
    AtShift(g, SectorCount(g, i), i, 0, r);
    SectorAt(g, ch, SectorCount(g, i) + r, i, r);
    assert At(g, SlotSector(idx), i, r);
  }

  lemma SlotSplitRem(n: nat, rem: nat, idx: nat)
    requires idx == n * 16 + rem
    ensures SlotSector(idx) == n + SlotSector(rem)
  {
    ModAddMultiple(rem, 16, n);
  }
}
