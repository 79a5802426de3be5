/** Open files (src/ff.cpp: f_read, f_write, f_lseek): a one-sector buffer over a chain of clusters. */
module FileObject {
  import opened Arith
  import opened Sealed
  import opened Bytes
  import opened Geometry
  import opened RamDisk
  import opened Window
  import opened FatAccess
  import opened Chains
  import opened Allocation
  import opened FileData

  /** What holds of a file's numbers, given its chain and the window's sector. */
  ghost predicate FileShape(g: Geometry, ch: seq<nat>, fptr: nat, dsect: nat, dirty: bool, ws: nat) {
    forall k: nat {:trigger Opened(k)} :: Opened(k) ==>
      && AllClusters(g, ch) && Distinct(ch)
      && ws !in Secs(g, ch)
      && (dsect != 0 ==> dsect in Secs(g, ch)) && (dirty ==> dsect != 0)
      && PointerCached(g, ch, fptr, dsect)
  }

  /** Inside a sector, the buffer holds that sector. */
  ghost predicate PointerCached(g: Geometry, ch: seq<nat>, fptr: nat, dsect: nat) {
    OffsetOf(fptr) != 0 ==> SectorOf(fptr) < |Secs(g, ch)| && dsect == Secs(g, ch)[SectorOf(fptr)]
  }

  lemma ShapeFacts(g: Geometry, ch: seq<nat>, fptr: nat, dsect: nat, dirty: bool, ws: nat)
    requires FileShape(g, ch, fptr, dsect, dirty, ws)
    ensures AllClusters(g, ch) && Distinct(ch) && ws !in Secs(g, ch) && PointerCached(g, ch, fptr, dsect)
    ensures (dsect != 0 ==> dsect in Secs(g, ch)) && (dirty ==> dsect != 0)
  {
    hide AllClusters, Distinct, Secs, PointerCached;
    assert Opened(0);
  }

  /** Moving the window to a FAT sector keeps the shape. */
  lemma WindowMoved(g: Geometry, n: nat, ch: seq<nat>, fptr: nat, dsect: nat, dirty: bool, ws: nat, ws': nat)
    requires FileShape(g, ch, fptr, dsect, dirty, ws) && FatLayout(g, n) && DataLayout(g, n)
    requires ws' == ws || InFat(g, ws')
    ensures FileShape(g, ch, fptr, dsect, dirty, ws')
  {
    hide FatLayout, DataLayout, Secs, SectorCount, InFat, Distinct;
    assert Opened(0);
    DataFacts(g, n);
    if ws' != ws {
      WindowAway(g, n, ch, ws');
    }
  }

  /** A clean buffer keeps the shape; so does any other file sector while the pointer is at a sector boundary. */
  lemma BufferMoved(g: Geometry, ch: seq<nat>, fptr: nat, dsect: nat, dirty: bool, ws: nat, dsect': nat)
    requires FileShape(g, ch, fptr, dsect, dirty, ws)
    requires dsect' == dsect || (dsect' in Secs(g, ch) && OffsetOf(fptr) == 0)
    ensures FileShape(g, ch, fptr, dsect', false, ws)
  {
    hide Secs, SectorCount, AllClusters, Distinct;
    assert Opened(0);
  }

  lemma DirtyShape(g: Geometry, ch: seq<nat>, fptr: nat, dsect: nat, dirty: bool, ws: nat)
    requires FileShape(g, ch, fptr, dsect, dirty, ws) && dsect != 0
    ensures FileShape(g, ch, fptr, dsect, true, ws)
  {
    hide Secs, SectorCount, AllClusters, Distinct, PointerCached;
    assert Opened(0);
  }

  /** The pointer may move wherever its sector is cached. */
  lemma PointerMoved(g: Geometry, ch: seq<nat>, fptr: nat, dsect: nat, dirty: bool, ws: nat, fptr': nat)
    requires FileShape(g, ch, fptr, dsect, dirty, ws) && PointerCached(g, ch, fptr', dsect)
    ensures FileShape(g, ch, fptr', dsect, dirty, ws)
  {
    hide Secs, SectorCount, AllClusters, Distinct, PointerCached;
    assert Opened(0);
  }

  /** Growing the chain keeps the shape. */
  lemma ShapeGrown(g: Geometry, n: nat, ch: seq<nat>, c: nat, fptr: nat, dsect: nat, dirty: bool, ws: nat, ws': nat)
    requires FileShape(g, ch, fptr, dsect, dirty, ws) && FatLayout(g, n) && DataLayout(g, n)
    requires AllClusters(g, ch + [c]) && Distinct(ch + [c]) && OffsetOf(fptr) == 0 && InFat(g, ws')
    ensures FileShape(g, ch + [c], fptr, dsect, dirty, ws')
  {
    hide FatLayout, DataLayout, Secs, SectorCount, InFat, ClusterSecs;
    assert Opened(0);
    DataFacts(g, n);
    WindowAway(g, n, ch + [c], ws');
    SecsAppend(g, ch, c);
  }

  /** The bytes of a file whose chain grew, when nothing but the FAT changed. */
  lemma GrownBytes(g: Geometry, n: nat, v: seq<Sector>, v': seq<Sector>, ch: seq<nat>, c: nat)
    requires FatLayout(g, n) && DataLayout(g, n) && n == |v| && SameOutsideFat(g, v, v')
    requires AllClusters(g, ch + [c]) && Fits(g, n, ch) && Fits(g, n, ch + [c])
    ensures |Flat(g, v, ch)| <= |Flat(g, v', ch + [c])|
    ensures Flat(g, v', ch + [c])[..|Flat(g, v, ch)|] == Flat(g, v, ch)
  {
    hide FatLayout, DataLayout, Secs, SectorCount, InFat;
    AllButLast(g, ch, c);
    SameBytesOutsideFat(g, n, v, v', ch);
    FlatGrows(g, v', ch, c);
  }

  lemma AllButLast(g: Geometry, ch: seq<nat>, c: nat)
    requires AllClusters(g, ch + [c])
    ensures AllClusters(g, ch)
  {
    assert forall i :: 0 <= i < |ch| ==> ch[i] == (ch + [c])[i];
  }

  /** File bytes do not depend on the FAT. */
  lemma SameBytesOutsideFat(g: Geometry, n: nat, v: seq<Sector>, v': seq<Sector>, ch: seq<nat>)
    requires FatLayout(g, n) && DataLayout(g, n) && n == |v| && SameOutsideFat(g, v, v')
    requires AllClusters(g, ch) && Fits(g, n, ch)
    ensures Flat(g, v', ch) == Flat(g, v, ch)
  {
    hide FatLayout, DataLayout, Secs, SectorCount;
    forall s: nat | s < |v| && s in Secs(g, ch) ensures v'[s] == v[s] {
      var j :| 0 <= j < |Secs(g, ch)| && Secs(g, ch)[j] == s;
      FileSector(g, n, ch, j);
    }
    FlatSame(g, v, v', ch);
  }

  /** Besides the FAT and the sectors of the chain `ch`, nothing differs. */
  ghost predicate TouchesOnly(g: Geometry, v: seq<Sector>, v': seq<Sector>, ch: seq<nat>) {
    |v| == |v'| && forall s: nat {:trigger v'[s]} :: s < |v| && !InFat(g, s) && s !in Secs(g, ch) ==> v'[s] == v[s]
  }

  /** `b'` is `b` with `c` written at `p`, perhaps with more bytes at the end; up to `fsize` the rest is kept. */
  ghost predicate Written(b: seq<byte>, b': seq<byte>, p: nat, c: seq<byte>, fsize: nat) {
    && fsize <= |b| <= |b'| && p <= |b| && p + |c| <= |b'|
    && b'[..p] == b[..p] && b'[p..p + |c|] == c
    && (p + |c| < fsize ==> b'[p + |c|..fsize] == b[p + |c|..fsize])
  }

  /** A patch behind a possible extension is a write. */
  lemma PatchIsWrite(b: seq<byte>, b1: seq<byte>, p: nat, x: seq<byte>, c: seq<byte>, fsize: nat)
    requires fsize <= |b| <= |b1| && b1[..|b|] == b && p <= |b| && p + |x| <= |b1|
    requires c <= x && (c == x || p >= fsize)
    ensures Written(b, Patch(b1, p, x), p, c, fsize)
  {
    hide Patch;
    PatchBytes(b1, p, x);
    var b' := Patch(b1, p, x);
    assert b'[..p] == b[..p] by { forall k | 0 <= k < p ensures b'[k] == b[k] { assert b1[..|b|][k] == b1[k]; } }
    assert b'[p..p + |c|] == c;
    if p + |c| < fsize {
      forall k | p + |c| <= k < fsize ensures b'[k] == b[k] { assert b1[..|b|][k] == b1[k]; }
      assert b'[p + |c|..fsize] == b[p + |c|..fsize];
    }
  }

  /** A write after an extension. */
  lemma ExtendThenWrite(b: seq<byte>, b1: seq<byte>, b2: seq<byte>, p: nat, c: seq<byte>, fsize: nat)
    requires fsize <= |b| <= |b1| && b1[..|b|] == b && p <= |b| && Written(b1, b2, p, c, fsize)
    ensures Written(b, b2, p, c, fsize)
  {
    TakeOfTake(b1, |b|, p);
    if p + |c| < fsize {
      SliceOfSlice(b1, 0, |b|, p + |c|, fsize);
    }
  }

  /** An extension is an empty write. */
  lemma ExtendIsWrite(b: seq<byte>, b1: seq<byte>, p: nat, c: seq<byte>, fsize: nat)
    requires fsize <= |b| <= |b1| && b1[..|b|] == b && p <= |b| && c == []
    ensures Written(b, b1, p, c, fsize)
  {
    TakeOfTake(b1, |b|, p);
    if p < fsize {
      SliceOfSlice(b1, 0, |b|, p, fsize);
    }
  }

  lemma TakeOfTake(b: seq<byte>, n: nat, p: nat)
    requires p <= n <= |b|
    ensures b[..n][..p] == b[..p]
  {
  }

  lemma OverwriteTouches(g: Geometry, v: seq<Sector>, ch: seq<nat>, j: nat, chunk: seq<Sector>, sect: nat)
    requires g.csize > 0 && Run(g, ch, j, |chunk|, sect) && sect + |chunk| <= |v|
    ensures TouchesOnly(g, v, Overwrite(v, sect, chunk), ch)
  {
    hide Secs, SectorCount, InFat, Run;
    forall s: nat | s < |v| && s !in Secs(g, ch) ensures Overwrite(v, sect, chunk)[s] == v[s] {
      if sect <= s < sect + |chunk| { InRun(g, ch, j, |chunk|, sect, s); }
    }
  }

  /** Only the FAT changed, then only this file. */
  lemma TouchesJoin(g: Geometry, v: seq<Sector>, v1: seq<Sector>, v2: seq<Sector>, ch: seq<nat>)
    requires SameOutsideFat(g, v, v1) && TouchesOnly(g, v1, v2, ch)
    ensures TouchesOnly(g, v, v2, ch)
  {
    hide InFat;
  }

  lemma OnlyFatTouched(g: Geometry, v: seq<Sector>, v1: seq<Sector>, ch: seq<nat>)
    requires SameOutsideFat(g, v, v1)
    ensures TouchesOnly(g, v, v1, ch)
  {
    hide InFat;
  }

  /** Consecutive writes are one write. */
  lemma WritesJoin(b: seq<byte>, b1: seq<byte>, b2: seq<byte>, p: nat, c: seq<byte>, d: seq<byte>, fsize: nat)
    requires Written(b, b1, p, c, fsize) && Written(b1, b2, p + |c|, d, fsize)
    ensures Written(b, b2, p, c + d, fsize)
  {
    assert b2[..p] == b2[..p + |c|][..p];
    assert b1[..p] == b1[..p + |c|][..p];
    assert b2[p..p + |c|] == b2[..p + |c|][p..] == b1[..p + |c|][p..] == b1[p..p + |c|];
    SliceJoin(b2, p, p + |c|, p + |c| + |d|);
    var e := p + |c| + |d|;
    if e < fsize {
      assert b1[e..fsize] == b1[p + |c|..fsize][|d|..] == b[p + |c|..fsize][|d|..] == b[e..fsize];
    }
  }

  /** Any file sector may be transferred past the window. */
  lemma BufferSector(g: Geometry, n: nat, ch: seq<nat>, s: nat)
    requires FatLayout(g, n) && DataLayout(g, n) && AllClusters(g, ch) && g.csize > 0 && s in Secs(g, ch)
    ensures DataRange(g, n, s, 1) && s != 0 && s < n
  {
    hide FatLayout, DataLayout, Clust2Sect, Secs, SectorCount;
    DataFacts(g, n);
    var j :| 0 <= j < |Secs(g, ch)| && Secs(g, ch)[j] == s;
    FileSector(g, n, ch, j);
  }

  /** The window over a FAT sector is not over file data. */
  lemma WindowAway(g: Geometry, n: nat, ch: seq<nat>, ws: nat)
    requires FatLayout(g, n) && DataLayout(g, n) && AllClusters(g, ch) && g.csize > 0 && InFat(g, ws)
    ensures ws !in Secs(g, ch)
  {
    hide FatLayout, DataLayout, Clust2Sect, SectorCount, Secs, InFat, InMirror;
    if ws in Secs(g, ch) {
      var j :| 0 <= j < |Secs(g, ch)| && Secs(g, ch)[j] == ws;
      FileSector(g, n, ch, j);
      assert false;
    }
  }

  /** The sectors of a chain stay when clusters are appended. */
  lemma {:induction false} SecsPrefix(g: Geometry, a: seq<nat>, b: seq<nat>)
    requires |a| <= |b| && b[..|a|] == a
    ensures |Secs(g, a)| <= |Secs(g, b)| && Secs(g, b)[..|Secs(g, a)|] == Secs(g, a)
    decreases |b|
  {
    hide ClusterSecs;
    if |a| == |b| {
      assert a == b;
    } else {
      var front := b[..|b| - 1];
      assert front[..|a|] == a;
      SecsPrefix(g, a, front);
    }
  }

  /** Changes to a file that grows in between are changes to the grown file. */
  lemma TouchesTwice(g: Geometry, v: seq<Sector>, v1: seq<Sector>, v2: seq<Sector>, a: seq<nat>, b: seq<nat>)
    requires TouchesOnly(g, v, v1, a) && TouchesOnly(g, v1, v2, b) && |a| <= |b| && b[..|a|] == a
    ensures TouchesOnly(g, v, v2, b)
  {
    hide Secs, InFat, SectorCount;
    SecsPrefix(g, a, b);
    forall s: nat | s < |v| && !InFat(g, s) && s !in Secs(g, b) ensures v2[s] == v[s] {
      assert s !in Secs(g, b)[..|Secs(g, a)|];
      assert v1[s] == v[s];
    }
  }

  lemma PrefixTwice(a: seq<nat>, b: seq<nat>, c: seq<nat>)
    requires |a| <= |b| && b[..|a|] == a && |b| <= |c| && c[..|b|] == b
    ensures |a| <= |c| && c[..|a|] == a
  {
    assert c[..|a|] == c[..|b|][..|a|];
  }

  /** The 4 GB guard fires exactly when the size would leave 32 bits. */
  lemma SizeGuard(fsize: nat, n: nat)
    requires fsize <= 0xFFFF_FFFF && n <= 0xFFFF_FFFF
    ensures (fsize + n) % 0x1_0000_0000 < fsize <==> fsize + n > 0xFFFF_FFFF
  {
  }

  /** A write, cut at the new file size, splices the contents. */
  lemma WrittenContent(b: seq<byte>, b': seq<byte>, p: nat, c: seq<byte>, fsize: nat)
    requires Written(b, b', p, c, fsize) && p <= fsize
    ensures var n := if p + |c| > fsize then p + |c| else fsize;
            n <= |b'| && b'[..n] == Splice(b[..fsize], p, c)
  {
    TakeOfTake(b, fsize, p);
    SliceJoin(b', 0, p, p + |c|);
    if p + |c| < fsize {
      SliceJoin(b', 0, p + |c|, fsize);
      SliceOfSlice(b, 0, fsize, p + |c|, fsize);
    }
  }

  class Fil {
    const fs: FatFs
    const buf: array<byte>
    var isOpen: bool
    var faRead: bool
    var faWrite: bool
    var faError: bool
    var faWritten: bool
    var faDirty: bool
    var fptr: nat
    var fsize: nat
    var sclust: nat
    var clust: nat
    var dsect: nat
    const dirSect: nat   // sector of the directory entry, and the entry's offset in it
    const dirOfs: nat

    /** A file object as f_open leaves it. */
    constructor (fs: FatFs, dirSect: nat, dirOfs: nat, sclust: nat, fsize: nat, faRead: bool, faWrite: bool, faWritten: bool)
      ensures this.fs == fs && fresh(buf) && buf.Length == 512 && this.dirSect == dirSect && this.dirOfs == dirOfs
      ensures this.sclust == sclust && this.fsize == fsize && fptr == 0 && dsect == 0
      ensures isOpen && !faError && !faDirty
      ensures this.faRead == faRead && this.faWrite == faWrite && this.faWritten == faWritten
    {
      this.fs, this.dirSect, this.dirOfs := fs, dirSect, dirOfs;
      buf := new byte[512];
      isOpen, faError, faDirty := true, false, false;
      this.faRead, this.faWrite, this.faWritten := faRead, faWrite, faWritten;
      fptr, dsect, clust := 0, 0, 0;
      this.sclust, this.fsize := sclust, fsize;
    }

    /** The clusters of the file. */
    ghost function Chain(): seq<nat>
      reads this`sclust, fs`chains
    {
      if sclust in fs.chains then fs.chains[sclust] else []
    }

    /** What holds even while the buffer is being replaced. */
    ghost predicate Base()
      reads this`fptr, this`fsize, this`sclust, this`dsect, this`faDirty, buf
      reads fs`winsect, fs`wflag, fs`freeClust, fs`fsiFlag, fs`chains, fs.disk, fs.win
      ensures Base() ==> VolumeOk(fs) && fs.geo.csize > 0 && buf.Length == 512 && Fits(fs.geo, fs.disk.Length, Chain())
    {
      && VolumeOk(fs) && buf.Length == 512 && buf != fs.win
      && (sclust != 0 <==> sclust in fs.chains)
      && fs.geo.csize > 0 && Fits(fs.geo, fs.disk.Length, Chain())
      && fsize <= |Secs(fs.geo, Chain())| * 512 && fsize <= 0xFFFF_FFFF && fptr <= |Secs(fs.geo, Chain())| * 512
      && FileShape(fs.geo, Chain(), fptr, dsect, faDirty, fs.winsect)
    }

    ghost predicate Core()
      reads this`fptr, this`fsize, this`sclust, this`dsect, this`faDirty, buf
      reads fs`winsect, fs`wflag, fs`freeClust, fs`fsiFlag, fs`chains, fs.disk, fs.win
      ensures Core() ==> Base()
    {
      Base() && (dsect != 0 && !faDirty ==> dsect < fs.disk.Length && buf[..] == fs.Img()[dsect])
    }

    /** A file between two calls. */
    ghost predicate Valid()
      reads this`fptr, this`fsize, this`sclust, this`clust, this`dsect, this`faDirty, buf
      reads fs`winsect, fs`wflag, fs`freeClust, fs`fsiFlag, fs`chains, fs.disk, fs.win
      ensures Valid() ==> Core() && fptr <= fsize
    {
      Core() && fptr <= fsize && ClustOk(fs.geo, Chain(), fptr, clust)
    }

    /** The volume as this file sees it: with its buffered sector. */
    ghost function View(): (v: seq<Sector>)
      reads this`dsect, this`faDirty, buf
      reads fs`winsect, fs`wflag, fs.disk, fs.win
      requires fs.Valid() && buf.Length == 512
      ensures |v| == fs.disk.Length
    {
      if faDirty && dsect < fs.disk.Length then fs.Img()[dsect := buf[..]] else fs.Img()
    }

    /** All bytes on the file's sectors. */
    ghost function Bytes(): seq<byte>
      reads this`fptr, this`fsize, this`sclust, this`dsect, this`faDirty, buf
      reads fs`winsect, fs`wflag, fs`freeClust, fs`fsiFlag, fs`chains, fs.disk, fs.win
      requires Base()
      ensures |Bytes()| == |Secs(fs.geo, Chain())| * 512 && fsize <= |Bytes()|
    {
      Flat(fs.geo, View(), Chain())
    }

    /** The contents of the file. */
    ghost function Content(): (c: seq<byte>)
      reads this`fptr, this`fsize, this`sclust, this`dsect, this`faDirty, buf
      reads fs`winsect, fs`wflag, fs`freeClust, fs`fsiFlag, fs`chains, fs.disk, fs.win
      requires Base()
      ensures |c| == fsize
    {
      Bytes()[..fsize]
    }

    /** Writes a dirty buffer back. */
    method FlushBuffer() returns (res: DResult)
      requires Core()
      modifies this`faDirty, fs.disk
      ensures Core() && !faDirty && res == ResOk
      ensures View() == old(View()) && Bytes() == old(Bytes()) && Fat(fs) == old(Fat(fs))
    {
      hide FatFs.Valid, FatFs.Img, Fat, FatLayout, DataLayout, FreeBelow, ChainsOk, Secs, SectorCount, DataRange, Fits;
      ShapeFacts(fs.geo, Chain(), fptr, dsect, faDirty, fs.winsect);
      BufferMoved(fs.geo, Chain(), fptr, dsect, faDirty, fs.winsect, dsect);
      if faDirty {
        BufferSector(fs.geo, fs.disk.Length, Chain(), dsect);
        res := WriteSectors(fs, [buf[..]], dsect);
        faDirty := false;
      } else {
        res := ResOk;
      }
    }

    /** At a sector boundary inside the file, moves on to the cluster of the next byte. */
    method EnterRead() returns (csect: nat, ghost q: nat)
      requires Valid() && OffsetOf(fptr) == 0 && fptr < fsize
      modifies this`clust, fs`winsect, fs`wflag, fs.disk, fs.win
      ensures Core() && View() == old(View()) && Bytes() == old(Bytes())
      ensures csect < fs.geo.csize && At(fs.geo, SectorOf(fptr), q, csect) && q < |Chain()| && clust == Chain()[q]
      ensures fs.winsect == old(fs.winsect) || InFat(fs.geo, fs.winsect)
      ensures old(fs.Clean()) ==> fs.Clean()
    {
      hide FatFs.Valid, FatFs.Img, FatFs.Clean, Fat, FatLayout, DataLayout, FreeBelow, Secs, SectorCount, Fits, At,
           ChainsOk, FileShape;
      ghost var r;
      ShapeFacts(fs.geo, Chain(), fptr, dsect, faDirty, fs.winsect);
      q, r := Boundary(fs.geo, Chain(), fptr, clust);
      SectorAt(fs.geo, Chain(), SectorOf(fptr), q, r);
      csect := SectorOf(fptr) % fs.geo.csize;
      if csect == 0 {
        var clst;
        NarrowEnough(fs);
        LinksFit(fs.geo, 0);
        if fptr == 0 {
          clst := sclust;
          ChainStep(Fat(fs), fs.chains, sclust, 0);
        } else {
          ChainStep(Fat(fs), fs.chains, sclust, q - 1);
          ghost var ws := fs.winsect;
          clst := GetFat(fs, clust);
          WindowMoved(fs.geo, fs.disk.Length, Chain(), fptr, dsect, faDirty, ws, fs.winsect);
        }
        if clst < 2 || clst == NO_CLUSTER { assert false; }
        clust := clst;
      }
    }

    /** Reads whole sectors straight from the disk, and overlays the buffered one if it is newer. */
    method ReadDirect(sect: nat, cc: nat) returns (chunk: seq<Sector>)
      requires Core() && DataRange(fs.geo, fs.disk.Length, sect, cc) && !(sect <= fs.winsect < sect + cc)
      ensures sect + cc <= |View()| && chunk == View()[sect..sect + cc]
    {
      hide FatFs.Valid, FatFs.Img, FatLayout, DataLayout, FreeBelow, Secs, SectorCount, Fits, ChainsOk, FileShape,
           DataRange, VolumeOk;
      DataInside(fs.geo, fs.disk.Length, sect, cc);
      var r;
      r, chunk := fs.ReadData(sect, cc);
      if r != ResOk { assert false; }
      if faDirty && sect <= dsect < sect + cc {
        chunk := chunk[dsect - sect := buf[..]];
      }
    }

    /** Brings file sector `sect` into the buffer, writing the old one back first. */
    method LoadBuffer(sect: nat)
      requires Core() && OffsetOf(fptr) == 0 && sect in Secs(fs.geo, Chain())
      modifies this`dsect, this`faDirty, buf, fs.disk
      ensures Core() && dsect == sect
      ensures View() == old(View()) && Bytes() == old(Bytes()) && Fat(fs) == old(Fat(fs))
      ensures old(!faDirty) ==> !faDirty
    {
      hide FatFs.Valid, FatFs.Img, Fat, FatLayout, DataLayout, FreeBelow, Secs, SectorCount, Fits, ChainsOk, DataRange;
      if dsect != sect {
        var r := FlushBuffer();
        var data;
        ShapeFacts(fs.geo, Chain(), fptr, dsect, faDirty, fs.winsect);
        BufferMoved(fs.geo, Chain(), fptr, dsect, faDirty, fs.winsect, sect);
        BufferSector(fs.geo, fs.disk.Length, Chain(), sect);
        r, data := fs.ReadData(sect, 1);
        if r != ResOk { assert false; }
        forall i | 0 <= i < 512 {
          buf[i] := data[0][i];
        }
        assert buf[..] == data[0];
        dsect := sect;
      }
    }

    /** The pointer may move on to `p`. */
    ghost predicate CanMoveTo(p: nat)
      reads this`sclust, this`clust, this`dsect, fs`chains
      requires fs.geo.csize > 0
    {
      && p <= |Secs(fs.geo, Chain())| * 512 && ClustOk(fs.geo, Chain(), p, clust)
      && PointerCached(fs.geo, Chain(), p, dsect)
    }

    /** The sectors that one direct transfer covers: as many whole ones as the request and the cluster hold. */
    method DirectRun(n: nat, csect: nat, ghost q: nat) returns (sect: nat, cc: nat)
      requires Core() && OffsetOf(fptr) == 0 && SectorOf(n) > 0
      requires At(fs.geo, SectorOf(fptr), q, csect) && csect < fs.geo.csize && q < |Chain()| && clust == Chain()[q]
      ensures 0 < cc && 512 * cc <= n && fptr == SectorOf(fptr) * 512
      ensures Run(fs.geo, Chain(), SectorOf(fptr), cc, sect) && CanMoveTo(fptr + 512 * cc)
    {
      hide FatFs.Valid, FatFs.Img, FatLayout, DataLayout, FreeBelow, Secs, SectorCount, Fits, ChainsOk, VolumeOk,
           InRange, At, SectorOf, Clust2Sect;
      ghost var g, ch, j := fs.geo, Chain(), SectorOf(fptr);
      Split(fptr);
      Split(n);
      ShapeFacts(g, ch, fptr, dsect, faDirty, fs.winsect);
      ClusterSector(g, fs.disk.Length, clust, 0);
      sect := Clust2Sect(fs.geo, clust);
      if sect == 0 { assert false; }
      sect := sect + csect;
      cc := SectorOf(n);
      if csect + cc > fs.geo.csize { cc := fs.geo.csize - csect; }
      ClusterRun(g, ch, j, q, csect, cc);
      Unsplit(j + cc, 0);
      Advanced(g, ch, j, q, csect, cc - 1, fptr + 512 * cc);
    }

    /** The direct part of a read. */
    method ReadSectors(btr: nat, csect: nat, ghost q: nat) returns (rdata: seq<byte>)
      requires Core() && OffsetOf(fptr) == 0 && fptr + btr <= fsize && SectorOf(btr) > 0
      requires At(fs.geo, SectorOf(fptr), q, csect) && csect < fs.geo.csize && q < |Chain()| && clust == Chain()[q]
      ensures 0 < |rdata| <= btr && CanMoveTo(fptr + |rdata|)
      ensures fptr + |rdata| <= |Bytes()| && rdata == Bytes()[fptr..fptr + |rdata|]
    {
      hide FatFs.Valid, FatFs.Img, FatLayout, DataLayout, FreeBelow, Secs, SectorCount, Fits, ChainsOk, DataRange,
           VolumeOk, Run, At, SectorOf, OffsetOf, ClustOk;
      ghost var g, ch, j := fs.geo, Chain(), SectorOf(fptr);
      var sect, cc := DirectRun(btr, csect, q);
      ShapeFacts(g, ch, fptr, dsect, faDirty, fs.winsect);
      RunInData(g, fs.disk.Length, ch, j, cc, sect);
      if sect <= fs.winsect < sect + cc { InRun(g, ch, j, cc, sect, fs.winsect); }
      var chunk := ReadDirect(sect, cc);
      RunBytes(g, View(), ch, j, cc, sect);
      rdata := Flatten(chunk);
    }

    /** The buffer holds the sector of the file pointer, and the current cluster is that sector's. */
    ghost predicate Cached()
      reads this`sclust, this`clust, this`dsect, this`fptr, fs`chains
    {
      && SectorOf(fptr) < |Secs(fs.geo, Chain())| && dsect == Secs(fs.geo, Chain())[SectorOf(fptr)]
      && ClustOk(fs.geo, Chain(), fptr + 1, clust)
    }

    /** The buffered part of a read: the rest of the current sector. */
    method ReadPart(btr: nat) returns (rdata: seq<byte>)
      requires Core() && fptr + btr <= fsize && btr > 0 && Cached()
      ensures 0 < |rdata| <= btr && CanMoveTo(fptr + |rdata|)
      ensures fptr + |rdata| <= |Bytes()| && rdata == Bytes()[fptr..fptr + |rdata|]
    {
      hide FatFs.Valid, FatFs.Img, FatLayout, DataLayout, FreeBelow, Secs, SectorCount, Fits, ChainsOk, VolumeOk,
           SectorOf, FileShape, At;
      ghost var j := SectorOf(fptr);
      ShapeFacts(fs.geo, Chain(), fptr, dsect, faDirty, fs.winsect);
      BufferSector(fs.geo, fs.disk.Length, Chain(), dsect);
      Split(fptr);
      var o := OffsetOf(fptr);
      var rcnt := 512 - o;
      if rcnt > btr { rcnt := btr; }
      PartBytes(fs.geo, View(), Chain(), j, o, rcnt);
      rdata := buf[o..o + rcnt];
      SameSector(fs.geo, Chain(), j, o, rcnt, clust);
    }

    /** Fetches the sector at the file pointer into the buffer. */
    method CacheForRead(csect: nat, ghost q: nat)
      requires Core() && OffsetOf(fptr) == 0
      requires At(fs.geo, SectorOf(fptr), q, csect) && q < |Chain()| && clust == Chain()[q]
      modifies this`dsect, this`faDirty, buf, fs.disk
      ensures Core() && Cached()
      ensures View() == old(View()) && Bytes() == old(Bytes())
      ensures faDirty ==> old(faDirty)
    {
      hide FatFs.Valid, FatFs.Img, FatLayout, DataLayout, FreeBelow, Secs, SectorCount, Fits, ChainsOk, VolumeOk,
           SectorOf, OffsetOf, At, Fat, FileShape, InRange;
      ShapeFacts(fs.geo, Chain(), fptr, dsect, faDirty, fs.winsect);
      AtBound(fs.geo, SectorOf(fptr), q, csect);
      ClusterSector(fs.geo, fs.disk.Length, clust, 0);
      var sect := Clust2Sect(fs.geo, clust);
      if sect == 0 { assert false; }
      sect := sect + csect;
      SectorAt(fs.geo, Chain(), SectorOf(fptr), q, csect);
      ClustAtBoundary(fs.geo, Chain(), fptr, q, csect);
      LoadBuffer(sect);
    }

    /** Moves the file pointer. */
    method Advance(p: nat)
      requires Core() && CanMoveTo(p) && p <= fsize
      modifies this`fptr
      ensures Valid() && fptr == p && View() == old(View()) && Bytes() == old(Bytes())
    {
      hide FatFs.Valid, FatFs.Img, FatLayout, DataLayout, Secs, SectorCount, Fits, VolumeOk, SectorOf, OffsetOf, At, Flat;
      PointerMoved(fs.geo, Chain(), fptr, dsect, faDirty, fs.winsect, p);
      fptr := p;
    }

    lemma CachedInside()
      requires Valid() && OffsetOf(fptr) != 0
      ensures Cached()
    {
      hide FatFs.Valid, FatFs.Img, FatLayout, DataLayout, Secs, SectorCount, Fits, VolumeOk, SectorOf, OffsetOf, At;
      ShapeFacts(fs.geo, Chain(), fptr, dsect, faDirty, fs.winsect);
      ClustOfNext(fs.geo, Chain(), fptr, clust);
    }

    /** One turn of f_read's loop. */
    method ReadStep(btr: nat) returns (rdata: seq<byte>)
      requires Valid() && btr > 0 && fptr + btr <= fsize
      modifies this`fptr, this`clust, this`dsect, this`faDirty, buf, fs`winsect, fs`wflag, fs.disk, fs.win
      ensures Valid() && View() == old(View()) && Bytes() == old(Bytes())
      ensures 0 < |rdata| <= btr && fptr == old(fptr) + |rdata| <= |old(Bytes())|
      ensures rdata == old(Bytes())[old(fptr)..fptr]
      ensures fs.winsect == old(fs.winsect) || InFat(fs.geo, fs.winsect)
      ensures faDirty ==> old(faDirty)
      ensures old(fs.Clean()) ==> fs.Clean()
    {
      hide *;
      if OffsetOf(fptr) == 0 {
        var csect, q := EnterRead();
        if SectorOf(btr) > 0 {
          rdata := ReadSectors(btr, csect, q);
          Advance(fptr + |rdata|);
          return;
        }
        CacheForRead(csect, q);
      } else {
        CachedInside();
      }
      rdata := ReadPart(btr);
      Advance(fptr + |rdata|);
    }

    /** f_read's loop. */
    method ReadLoop(btr: nat) returns (data: seq<byte>)
      requires Valid() && fptr + btr <= fsize
      modifies this`fptr, this`clust, this`dsect, this`faDirty, buf, fs`winsect, fs`wflag, fs.disk, fs.win
      ensures Valid() && View() == old(View()) && Bytes() == old(Bytes())
      ensures fptr == old(fptr) + btr && data == old(Bytes())[old(fptr)..fptr]
      ensures fs.winsect == old(fs.winsect) || InFat(fs.geo, fs.winsect)
      ensures faDirty ==> old(faDirty)
      ensures old(fs.Clean()) ==> fs.Clean()
    {
      hide *;
      ghost var b, p := Bytes(), fptr;
      data := [];
      var left := btr;
      while left > 0
        invariant Valid() && View() == old(View()) && Bytes() == b
        invariant 0 <= left <= btr && fptr == p + (btr - left) <= |b| && p + btr <= fsize
        invariant data == b[p..fptr]
        invariant fs.winsect == old(fs.winsect) || InFat(fs.geo, fs.winsect)
        invariant faDirty ==> old(faDirty)
        invariant old(fs.Clean()) ==> fs.Clean()
      {
        ghost var q := fptr;
        var rdata := ReadStep(left);
        SliceJoin(b, p, q, fptr);
        data := data + rdata;
        left := left - |rdata|;
      }
    }

    lemma FileSizes()
      requires Valid()
      ensures fptr <= fsize <= 0xFFFF_FFFF && fsize <= |Bytes()| && Content() == Bytes()[..fsize]
    {
      hide FatFs.Valid, FatFs.Img, FatLayout, DataLayout, Secs, SectorCount, Fits, VolumeOk, FileShape, ClustOk;
    }

    /** f_read: the next `btr` bytes, or fewer at the end of the file.  The contents stay as they are. */
    method Read(btr: nat) returns (res: FResult, data: seq<byte>)
      requires isOpen ==> Valid()
      modifies this`fptr, this`clust, this`dsect, this`faDirty, buf, fs`winsect, fs`wflag, fs.disk, fs.win
      ensures res == if !isOpen then FrInvalidObject else if faError then FrIntErr else if !faRead then FrDenied else FrOk
      ensures isOpen ==> Valid() && View() == old(View()) && Content() == old(Content())
      ensures res == FrOk ==>
                && |data| == (if btr <= fsize - old(fptr) then btr else fsize - old(fptr))
                && fptr == old(fptr) + |data| && data == Content()[old(fptr)..fptr]
      ensures res != FrOk ==> data == [] && fptr == old(fptr)
      ensures fs.winsect == old(fs.winsect) || InFat(fs.geo, fs.winsect)
      ensures faDirty ==> old(faDirty)
      ensures old(fs.Clean()) ==> fs.Clean()
    {
      hide *;
      if isOpen { FileSizes(); }
      if !isOpen { return FrInvalidObject, []; }
      if faError { return FrIntErr, []; }
      if !faRead { return FrDenied, []; }
      var remain := fsize - fptr;
      var left := btr;
      if left > remain { left := remain; }
      data := ReadLoop(left);
      FileSizes();
      SliceOfSlice(Bytes(), 0, fsize, old(fptr), fptr);
      return FrOk, data;
    }

    /** A file inside f_write's loop, where the pointer may have passed the recorded size. */
    ghost predicate Ready()
      reads this`fptr, this`fsize, this`sclust, this`clust, this`dsect, this`faDirty, buf
      reads fs`winsect, fs`wflag, fs`freeClust, fs`fsiFlag, fs`chains, fs.disk, fs.win
      ensures Ready() ==> Core()
    {
      Core() && ClustOk(fs.geo, Chain(), fptr, clust)
    }

    /** The bytes of the file may have grown at the end. */
    ghost predicate Extends(b: seq<byte>)
      reads this`fptr, this`fsize, this`sclust, this`dsect, this`faDirty, buf
      reads fs`winsect, fs`wflag, fs`freeClust, fs`fsiFlag, fs`chains, fs.disk, fs.win
      requires Base()
    {
      |b| <= |Bytes()| && Bytes()[..|b|] == b
    }

    /** The first cluster of the file, allocated if there is none; 0 if every cluster is in use. */
    method FirstCluster() returns (clst: nat)
      requires Core() && fptr == 0
      modifies this`sclust, fs`winsect, fs`wflag, fs`lastClust, fs`freeClust, fs`fsiFlag, fs`chains, fs.disk, fs.win
      ensures Core() && clst == sclust && (old(sclust) != 0 ==> sclust == old(sclust))
      ensures clst == 0 ==> CountFree(Fat(fs)) == 0 && View() == old(View())
      ensures clst != 0 ==> |Chain()| > 0 && Chain()[0] == clst && InRange(fs.geo, clst)
      ensures OnlyChain(old(fs.chains), old(sclust)) && (clst == 0 ==> Chain() == [])
      ensures |Chain()| == |old(Chain())| || |Chain()| == 1
      ensures old(sclust) != 0 || clst == 0 ==> fs.chains == old(fs.chains)
      ensures |old(Chain())| <= |Chain()| && Chain()[..|old(Chain())|] == old(Chain())
      ensures SameOutsideFat(fs.geo, old(View()), View()) && Extends(old(Bytes()))
      ensures fs.winsect == old(fs.winsect) || InFat(fs.geo, fs.winsect)
      ensures |Chain()| == |old(Chain())| && old(fs.Clean()) ==> fs.Clean()
    {
      hide FatFs.Valid, FatFs.Img, FatFs.Clean, FatOf, FatLayout, DataLayout, FreeBelow, Secs, SectorCount, Fits, ChainsOk, At;
      clst := sclust;
      if clst == 0 {
        ghost var v, ws := View(), fs.winsect;
        assert Chain() == [];
        NoSectors(fs.geo);
        ShapeFacts(fs.geo, Chain(), fptr, dsect, faDirty, fs.winsect);
        clst := StartChain(fs);
        sclust := clst;
        if clst != 0 {
          ChainGood(fs.geo, Fat(fs), fs.chains, clst);
          assert [] + [clst] == [clst] == Chain();
          FileFits(fs.geo, fs.disk.Length, Chain());
          Unsplit(0, 0);
          ShapeGrown(fs.geo, fs.disk.Length, [], clst, fptr, dsect, faDirty, ws, fs.winsect);
          GrownBytes(fs.geo, fs.disk.Length, v, View(), [], clst);
        } else {
          WindowMoved(fs.geo, fs.disk.Length, Chain(), fptr, dsect, faDirty, ws, fs.winsect);
        }
      } else {
        ChainGood(fs.geo, Fat(fs), fs.chains, sclust);
        ChainStep(Fat(fs), fs.chains, sclust, 0);
      }
    }

    /** The cluster behind position `i` of the file, allocated if there is none; 0 if every cluster is in use. */
    method FollowingCluster(ghost i: nat) returns (clst: nat)
      requires Core() && OffsetOf(fptr) == 0 && i < |Chain()| && Chain()[i] == clust
      modifies fs`winsect, fs`wflag, fs`lastClust, fs`freeClust, fs`fsiFlag, fs`chains, fs.disk, fs.win
      ensures Core() && sclust != 0
      ensures clst == 0 ==> i + 1 == |Chain()| && CountFree(Fat(fs)) == 0 && View() == old(View()) && Chain() == old(Chain())
      ensures clst != 0 ==> i + 1 < |Chain()| && Chain()[i + 1] == clst && InRange(fs.geo, clst)
      ensures |Chain()| == |old(Chain())| || |Chain()| == i + 2
      ensures |old(Chain())| <= |Chain()| && Chain()[..|old(Chain())|] == old(Chain())
      ensures OnlyChain(old(fs.chains), old(sclust))
      ensures SameOutsideFat(fs.geo, old(View()), View()) && Extends(old(Bytes()))
      ensures fs.winsect == old(fs.winsect) || InFat(fs.geo, fs.winsect)
      ensures |Chain()| == |old(Chain())| && old(fs.Clean()) ==> fs.Clean()
    {
      hide FatFs.Valid, FatFs.Img, FatFs.Clean, FatOf, FatLayout, DataLayout, FreeBelow, Secs, SectorCount, Fits, ChainsOk, At;
      ghost var v, ws, ch, b := View(), fs.winsect, Chain(), Bytes();
      ShapeFacts(fs.geo, Chain(), fptr, dsect, faDirty, fs.winsect);
      if dsect != 0 { BufferSector(fs.geo, fs.disk.Length, ch, dsect); }
      assert dsect != 0 ==> !InFat(fs.geo, dsect);
      clst := NextCluster(fs, clust, sclust, i);
      if i + 1 == |ch| && clst != 0 {
        ChainGood(fs.geo, Fat(fs), fs.chains, sclust);
        FileFits(fs.geo, fs.disk.Length, Chain());
        ShapeGrown(fs.geo, fs.disk.Length, ch, clst, fptr, dsect, faDirty, ws, fs.winsect);
        GrownBytes(fs.geo, fs.disk.Length, v, View(), ch, clst);
        SecsAppend(fs.geo, ch, clst);
      } else {
        WindowMoved(fs.geo, fs.disk.Length, Chain(), fptr, dsect, faDirty, ws, fs.winsect);
        assert View() == v;
      }
    }

    /** Since the chains were `chains` and the file started at `s0`, no other chain changed; a file without clusters
        may have got a new chain. */
    ghost predicate OnlyChain(chains: map<nat, seq<nat>>, s0: nat)
      reads this`sclust, fs`chains
    {
      || (sclust == s0 && fs.chains == chains)
      || (sclust != 0 && (sclust == s0 || (s0 == 0 && sclust !in chains)) && fs.chains == chains[sclust := Chain()])
    }

    /** At a sector boundary, moves on to the cluster of the next byte, stretching the file at its end. */
    method EnterWrite() returns (full: bool, csect: nat, ghost q: nat)
      requires Ready() && OffsetOf(fptr) == 0
      modifies this`sclust, this`clust, fs`winsect, fs`wflag, fs`lastClust, fs`freeClust, fs`fsiFlag, fs`chains, fs.disk, fs.win
      ensures Core() && OnlyChain(old(fs.chains), old(sclust))
      ensures full ==> CountFree(Fat(fs)) == 0 && Ready() && |Chain()| == |old(Chain())|
      ensures !full ==> |Chain()| == |old(Chain())| || |Chain()| == q + 1
      ensures !full ==> csect < fs.geo.csize && At(fs.geo, SectorOf(fptr), q, csect) && q < |Chain()| && clust == Chain()[q]
      ensures SameOutsideFat(fs.geo, old(View()), View()) && Extends(old(Bytes()))
      ensures |old(Chain())| <= |Chain()| && Chain()[..|old(Chain())|] == old(Chain())
      ensures fs.winsect == old(fs.winsect) || InFat(fs.geo, fs.winsect)
    {
      hide FatFs.Valid, FatFs.Img, Fat, FatLayout, DataLayout, FreeBelow, Secs, SectorCount, Fits, ChainsOk, At, Core,
           View, Bytes, FileShape, SectorOf, OffsetOf;
      full := false;
      ghost var r;
      q, r := Boundary(fs.geo, Chain(), fptr, clust);
      AtBound(fs.geo, SectorOf(fptr), q, r);
      csect := SectorOf(fptr) % fs.geo.csize;
      if csect == 0 {
        var clst;
        if fptr == 0 {
          clst := FirstCluster();
        } else {
          clst := FollowingCluster(q - 1);
        }
        if clst == 0 {
          full := true;
          return;
        }
        NarrowEnough(fs);
        LinksFit(fs.geo, clst);
        if clst == 1 || clst == NO_CLUSTER { assert false; }
        clust := clst;
      } else {
        SameIsOutside(fs.geo, View());
      }
    }

    lemma SameIsOutside(g: Geometry, v: seq<Sector>)
      ensures SameOutsideFat(g, v, v)
    {
    }

    /** Writes whole sectors straight to the disk, and refills the buffer if they include its sector. */
    method WriteDirect(chunk: seq<Sector>, sect: nat, ghost j: nat)
      requires Core() && !faDirty && Run(fs.geo, Chain(), j, |chunk|, sect) && |chunk| > 0
      modifies this`faDirty, buf, fs.disk
      ensures Core() && sect + |chunk| <= |old(View())| && View() == Overwrite(old(View()), sect, chunk)
      ensures j * 512 + |chunk| * 512 <= |old(Bytes())| && Bytes() == Patch(old(Bytes()), j * 512, Flatten(chunk))
    {
      hide FatFs.Valid, FatFs.Img, FatOf, FatLayout, DataLayout, FreeBelow, Secs, SectorCount, Fits, ChainsOk,
           DataRange, Run, FileShape, Patch;
      ghost var g, ch := fs.geo, Chain();
      ShapeFacts(g, ch, fptr, dsect, faDirty, fs.winsect);
      RunInData(g, fs.disk.Length, ch, j, |chunk|, sect);
      DataInside(g, fs.disk.Length, sect, |chunk|);
      if sect <= fs.winsect < sect + |chunk| { InRun(g, ch, j, |chunk|, sect, fs.winsect); }
      FlatOverwrite(g, fs.disk.Length, View(), ch, j, sect, chunk);
      var r := WriteSectors(fs, chunk, sect);
      if r != ResOk { assert false; }
      if sect <= dsect < sect + |chunk| {
        var refill := chunk[dsect - sect];
        forall i | 0 <= i < 512 {
          buf[i] := refill[i];
        }
        assert buf[..] == refill;
        faDirty := false;
      }
    }

    /** Puts `chunk` into the buffer. */
    method StoreBuffer(o: nat, chunk: seq<byte>)
      requires Base() && dsect in Secs(fs.geo, Chain()) && o + |chunk| <= 512
      modifies this`faDirty, buf
      ensures Core() && dsect < |old(View())| && View() == old(View())[dsect := Patch(old(buf[..]), o, chunk)]
    {
      hide FatFs.Valid, FatFs.Img, FatOf, FatLayout, DataLayout, FreeBelow, Secs, SectorCount, Fits, ChainsOk, VolumeOk,
           DataRange, Patch;
      ShapeFacts(fs.geo, Chain(), fptr, dsect, faDirty, fs.winsect);
      BufferSector(fs.geo, fs.disk.Length, Chain(), dsect);
      DirtyShape(fs.geo, Chain(), fptr, dsect, faDirty, fs.winsect);
      PatchBytes(buf[..], o, chunk);
      forall i | 0 <= i < |chunk| {
        buf[o + i] := chunk[i];
      }
      assert buf[..] == Patch(old(buf[..]), o, chunk);
      faDirty := true;
    }

    /** Makes `sect` the buffered sector; beyond the end of the file the buffer keeps its old bytes. */
    method CacheForWrite(sect: nat)
      requires Core() && !faDirty && OffsetOf(fptr) == 0 && sect in Secs(fs.geo, Chain())
      modifies this`dsect, this`faDirty, buf, fs.disk
      ensures Base() && dsect == sect && View() == old(View()) && Bytes() == old(Bytes())
      ensures fptr < fsize ==> Core()
    {
      hide FatFs.Valid, FatFs.Img, FatOf, FatLayout, DataLayout, FreeBelow, Secs, SectorCount, Fits, ChainsOk, VolumeOk,
           FileShape;
      if dsect != sect && fptr < fsize {
        LoadBuffer(sect);
      }
      BufferMoved(fs.geo, Chain(), fptr, dsect, faDirty, fs.winsect, sect);
      dsect := sect;
    }

    /** The buffered part of a write: up to the end of the current sector. */
    method WritePart(wdata: seq<byte>) returns (wcnt: nat)
      requires Base() && |wdata| > 0 && Cached() && (Core() || (OffsetOf(fptr) == 0 && fptr >= fsize))
      modifies this`faDirty, buf
      ensures Core() && 0 < wcnt <= |wdata| && CanMoveTo(fptr + wcnt)
      ensures Written(old(Bytes()), Bytes(), fptr, wdata[..wcnt], fsize)
      ensures TouchesOnly(fs.geo, old(View()), View(), Chain())
    {
      hide FatFs.Valid, FatFs.Img, FatOf, FatLayout, DataLayout, FreeBelow, Secs, SectorCount, Fits, ChainsOk, VolumeOk,
           FileShape, SectorOf, Patch, At, Written, InFat, Distinct, AllClusters, DataRange, ClustOk;
      ghost var g, ch, j, v := fs.geo, Chain(), SectorOf(fptr), View();
      ShapeFacts(g, ch, fptr, dsect, faDirty, fs.winsect);
      BufferSector(g, fs.disk.Length, ch, dsect);
      Split(fptr);
      var o := OffsetOf(fptr);
      wcnt := 512 - o;
      if wcnt > |wdata| { wcnt := |wdata|; }
      ghost var x := Patch(buf[..], o, wdata[..wcnt]);
      if fptr >= fsize && o == 0 {
        FlatPatch(g, fs.disk.Length, v, ch, j, 0, x);
        PatchAll(v[dsect], x);
        PatchFront(buf[..], wdata[..wcnt]);
        PatchIsWrite(Bytes(), Bytes(), fptr, x, wdata[..wcnt], fsize);
      } else {
        FlatPatch(g, fs.disk.Length, v, ch, j, o, wdata[..wcnt]);
        PatchIsWrite(Bytes(), Bytes(), fptr, wdata[..wcnt], wdata[..wcnt], fsize);
      }
      SameSector(g, ch, j, o, wcnt, clust);
      StoreBuffer(o, wdata[..wcnt]);
    }

    /** The direct part of a write. */
    method WriteWhole(wdata: seq<byte>, csect: nat, ghost q: nat) returns (wcnt: nat)
      requires Core() && !faDirty && OffsetOf(fptr) == 0 && SectorOf(|wdata|) > 0
      requires csect < fs.geo.csize && At(fs.geo, SectorOf(fptr), q, csect) && q < |Chain()| && clust == Chain()[q]
      modifies this`faDirty, buf, fs.disk
      ensures Core() && 0 < wcnt <= |wdata| && CanMoveTo(fptr + wcnt)
      ensures Written(old(Bytes()), Bytes(), fptr, wdata[..wcnt], fsize)
      ensures TouchesOnly(fs.geo, old(View()), View(), Chain())
    {
      hide FatFs.Valid, FatFs.Img, FatOf, FatLayout, DataLayout, FreeBelow, Secs, SectorCount, Fits, ChainsOk, VolumeOk,
           FileShape, SectorOf, OffsetOf, Patch, At, Written, Run, Sectors, ClustOk, TouchesOnly, Bytes, View;
      ghost var j, v, b := SectorOf(fptr), View(), Bytes();
      var sect, cc := DirectRun(|wdata|, csect, q);
      wcnt := 512 * cc;
      ModAddMultiple(0, 512, cc);
      FlattenSectors(wdata[..wcnt]);
      WriteDirect(Sectors(wdata[..wcnt]), sect, j);
      PatchIsWrite(b, b, fptr, wdata[..wcnt], wdata[..wcnt], fsize);
      OverwriteTouches(fs.geo, v, Chain(), j, Sectors(wdata[..wcnt]), sect);
    }

    /** Makes the sector at the file pointer the buffered one. */
    method PrepareSector(csect: nat, ghost q: nat)
      requires Core() && !faDirty && OffsetOf(fptr) == 0
      requires csect < fs.geo.csize && At(fs.geo, SectorOf(fptr), q, csect) && q < |Chain()| && clust == Chain()[q]
      modifies this`dsect, this`faDirty, buf, fs.disk
      ensures Base() && Cached() && View() == old(View()) && Bytes() == old(Bytes())
      ensures fptr < fsize ==> Core()
    {
      hide FatFs.Valid, FatFs.Img, FatLayout, DataLayout, FreeBelow, Secs, SectorCount, Fits, ChainsOk, VolumeOk,
           SectorOf, OffsetOf, At, Fat, FileShape, InRange, ClustOk, View, Bytes;
      ShapeFacts(fs.geo, Chain(), fptr, dsect, faDirty, fs.winsect);
      ClusterSector(fs.geo, fs.disk.Length, clust, 0);
      var sect := Clust2Sect(fs.geo, clust);
      if sect == 0 { assert false; }
      sect := sect + csect;
      SectorAt(fs.geo, Chain(), SectorOf(fptr), q, csect);
      ClustAtBoundary(fs.geo, Chain(), fptr, q, csect);
      CacheForWrite(sect);
    }

    /** Moves the file pointer, perhaps past the recorded size. */
    method AdvanceWrite(p: nat)
      requires Core() && CanMoveTo(p)
      modifies this`fptr
      ensures Ready() && fptr == p && View() == old(View()) && Bytes() == old(Bytes())
    {
      hide FatFs.Valid, FatFs.Img, FatLayout, DataLayout, Secs, SectorCount, Fits, VolumeOk, SectorOf, OffsetOf, At,
           Flat, ClustOk;
      PointerMoved(fs.geo, Chain(), fptr, dsect, faDirty, fs.winsect, p);
      fptr := p;
    }

    lemma CachedForWrite()
      requires Ready() && OffsetOf(fptr) != 0
      ensures Cached()
    {
      hide FatFs.Valid, FatFs.Img, FatLayout, DataLayout, Secs, SectorCount, Fits, VolumeOk, SectorOf, OffsetOf, At, ClustOk;
      ShapeFacts(fs.geo, Chain(), fptr, dsect, faDirty, fs.winsect);
      ClustOfNext(fs.geo, Chain(), fptr, clust);
    }

    /** The transfer of one turn of f_write's loop, from the cluster at the file pointer. */
    method Transfer(wdata: seq<byte>, csect: nat, ghost q: nat) returns (wcnt: nat)
      requires Core() && OffsetOf(fptr) == 0 && |wdata| > 0
      requires csect < fs.geo.csize && At(fs.geo, SectorOf(fptr), q, csect) && q < |Chain()| && clust == Chain()[q]
      modifies this`dsect, this`faDirty, buf, fs.disk
      ensures Core() && 0 < wcnt <= |wdata| && CanMoveTo(fptr + wcnt)
      ensures Written(old(Bytes()), Bytes(), fptr, wdata[..wcnt], fsize)
      ensures TouchesOnly(fs.geo, old(View()), View(), Chain())
    {
      hide *;
      var r := FlushBuffer();
      if r != ResOk { assert false; }
      if SectorOf(|wdata|) > 0 {
        wcnt := WriteWhole(wdata, csect, q);
      } else {
        PrepareSector(csect, q);
        wcnt := WritePart(wdata);
      }
    }

    lemma PointerInside()
      requires Core()
      ensures fptr <= |Bytes()| && fsize <= |Bytes()|
    {
      hide FatFs.Valid, FatFs.Img, FatLayout, DataLayout, Secs, SectorCount, Fits, VolumeOk, FileShape;
    }

    lemma SameChains()
      ensures OnlyChain(fs.chains, sclust) && Chain()[..|Chain()|] == Chain()
    {
    }

    lemma Extended(b: seq<byte>)
      requires Base() && Extends(b)
      ensures |b| <= |Bytes()| && Bytes()[..|b|] == b
    {
    }

    /** Since the file had `n` clusters, it got only clusters that the bytes before the file pointer need. */
    ghost predicate Needed(n: nat)
      reads this`fptr, this`sclust, fs`chains
    {
      |Chain()| == n || Snug(fs.geo, |Chain()|, fptr)
    }

    lemma NeededMeans(n: nat)
      requires Needed(n)
      ensures |Chain()| == n || Snug(fs.geo, |Chain()|, fptr)
    {
    }

    lemma NeededIs(n: nat)
      requires |Chain()| == n || Snug(fs.geo, |Chain()|, fptr)
      ensures Needed(n)
    {
    }

    /** One turn of f_write's loop; `full` means that it ended the loop because no cluster is free. */
    method WriteStep(wdata: seq<byte>) returns (full: bool, wcnt: nat)
      requires Ready() && |wdata| > 0
      modifies this`fptr, this`sclust, this`clust, this`dsect, this`faDirty, buf
      modifies fs`winsect, fs`wflag, fs`lastClust, fs`freeClust, fs`fsiFlag, fs`chains, fs.disk, fs.win
      ensures Ready() && wcnt <= |wdata| && fptr == old(fptr) + wcnt
      ensures full ==> wcnt == 0 && CountFree(Fat(fs)) == 0
      ensures !full ==> wcnt > 0
      ensures Written(old(Bytes()), Bytes(), old(fptr), wdata[..wcnt], fsize)
      ensures TouchesOnly(fs.geo, old(View()), View(), Chain())
      ensures OnlyChain(old(fs.chains), old(sclust)) && Needed(|old(Chain())|)
      ensures |old(Chain())| <= |Chain()| && Chain()[..|old(Chain())|] == old(Chain())
      ensures fs.winsect == old(fs.winsect) || InFat(fs.geo, fs.winsect)
    {
      hide *;
      ghost var b, v, p, n := Bytes(), View(), fptr, |Chain()|;
      full, wcnt := false, 0;
      PointerInside();
      if OffsetOf(fptr) == 0 {
        var csect;
        ghost var q;
        full, csect, q := EnterWrite();
        Extended(b);
        if full {
          ExtendIsWrite(b, Bytes(), p, wdata[..0], fsize);
          OnlyFatTouched(fs.geo, v, View(), Chain());
          NeededIs(n);
          return;
        }
        ghost var b1, v1 := Bytes(), View();
        wcnt := Transfer(wdata, csect, q);
        ExtendThenWrite(b, b1, Bytes(), p, wdata[..wcnt], fsize);
        TouchesJoin(fs.geo, v, v1, View(), Chain());
        EnteredSnug(fs.geo, SectorOf(p), q, csect, p, p + wcnt);
      } else {
        SameChains();
        CachedForWrite();
        wcnt := WritePart(wdata);
      }
      AdvanceWrite(fptr + wcnt);
      NeededIs(n);
    }

    lemma StillOnlyChain(c0: map<nat, seq<nat>>, s0: nat, c1: map<nat, seq<nat>>, s1: nat)
      requires ChainMoved(c0, s0, c1, s1) && OnlyChain(c1, s1)
      ensures OnlyChain(c0, s0)
    {
    }

    /** OnlyChain of an earlier state. */
    static ghost predicate ChainMoved(c0: map<nat, seq<nat>>, s0: nat, c1: map<nat, seq<nat>>, s1: nat) {
      || (s1 == s0 && c1 == c0)
      || (s1 != 0 && (s1 == s0 || (s0 == 0 && s1 !in c0)) && s1 in c1 && c1 == c0[s1 := c1[s1]])
    }

    /** The progress of a write, against the state in which it began. */
    ghost predicate Progress(b: seq<byte>, v: seq<Sector>, chains: map<nat, seq<nat>>, s0: nat, ch: seq<nat>, p: nat,
                             c: seq<byte>)
      reads this`fptr, this`fsize, this`sclust, this`dsect, this`faDirty, buf
      reads fs`winsect, fs`wflag, fs`freeClust, fs`fsiFlag, fs`chains, fs.disk, fs.win
      requires Base()
    {
      && fptr == p + |c| && Written(b, Bytes(), p, c, fsize)
      && TouchesOnly(fs.geo, v, View(), Chain()) && OnlyChain(chains, s0)
      && |ch| <= |Chain()| && Chain()[..|ch|] == ch && Needed(|ch|)
    }

    lemma ProgressStarts()
      requires Core()
      ensures Progress(Bytes(), View(), fs.chains, sclust, Chain(), fptr, [])
    {
      hide FatFs.Valid, FatFs.Img, FatLayout, DataLayout, Secs, SectorCount, Fits, VolumeOk, FileShape, Base, Core,
           Bytes, View, TouchesOnly, SameOutsideFat, Written;
      PointerInside();
      assert Bytes()[..|Bytes()|] == Bytes();
      ExtendIsWrite(Bytes(), Bytes(), fptr, [], fsize);
      SameIsOutside(fs.geo, View());
      OnlyFatTouched(fs.geo, View(), View(), Chain());
      SameChains();
    }

    lemma ProgressMeans(b: seq<byte>, v: seq<Sector>, chains: map<nat, seq<nat>>, s0: nat, ch: seq<nat>, p: nat, c: seq<byte>)
      requires Base() && Progress(b, v, chains, s0, ch, p, c)
      ensures fptr == p + |c| && Written(b, Bytes(), p, c, fsize) && TouchesOnly(fs.geo, v, View(), Chain())
      ensures ChainMoved(chains, s0, fs.chains, sclust)
      ensures |ch| <= |Chain()| && Chain()[..|ch|] == ch && (|Chain()| == |ch| || Snug(fs.geo, |Chain()|, fptr))
    {
      hide FatFs.Valid, FatFs.Img, FatLayout, DataLayout, Secs, SectorCount, Fits, VolumeOk, FileShape, Base, Bytes,
           View, TouchesOnly, Written, Snug;
    }

    lemma Progresses(b: seq<byte>, v: seq<Sector>, chains: map<nat, seq<nat>>, s0: nat, ch: seq<nat>, p: nat, c: seq<byte>,
                     b1: seq<byte>, v1: seq<Sector>, chains1: map<nat, seq<nat>>, ch1: seq<nat>, s1: nat, d: seq<byte>)
      requires Base() && Written(b, b1, p, c, fsize) && TouchesOnly(fs.geo, v, v1, ch1)
      requires ChainMoved(chains, s0, chains1, s1)
      requires |ch| <= |ch1| && ch1[..|ch|] == ch && (|ch1| == |ch| || Snug(fs.geo, |ch1|, p + |c|)) && Needed(|ch1|)
      requires fptr == p + |c| + |d| && Written(b1, Bytes(), p + |c|, d, fsize) && TouchesOnly(fs.geo, v1, View(), Chain())
      requires OnlyChain(chains1, s1) && |ch1| <= |Chain()| && Chain()[..|ch1|] == ch1
      ensures Progress(b, v, chains, s0, ch, p, c + d)
    {
      hide FatFs.Valid, FatFs.Img, FatLayout, DataLayout, Secs, SectorCount, Fits, VolumeOk, FileShape, Base, Bytes,
           View, TouchesOnly, Written, OnlyChain, Chain, Needed, Snug;
      WritesJoin(b, b1, Bytes(), p, c, d, fsize);
      TouchesTwice(fs.geo, v, v1, View(), ch1, Chain());
      PrefixTwice(ch, ch1, Chain());
      StillOnlyChain(chains, s0, chains1, s1);
      NeededStill(|ch|, |ch1|, p + |c|);
    }

    lemma NeededStill(n: nat, n1: nat, p1: nat)
      requires (n1 == n || Snug(fs.geo, n1, p1)) && Needed(n1) && p1 <= fptr
      ensures Needed(n)
    {
      hide Snug;
      if n1 != n { SnugMore(fs.geo, n1, p1, fptr); }
    }

    method WriteTurn(wdata: seq<byte>, bw: nat, ghost b: seq<byte>, ghost v: seq<Sector>, ghost chains: map<nat, seq<nat>>,
                     ghost s0: nat, ghost ch: seq<nat>, ghost p: nat) returns (full: bool, bw': nat)
      requires Ready() && bw < |wdata| && Progress(b, v, chains, s0, ch, p, wdata[..bw])
      modifies this`fptr, this`sclust, this`clust, this`dsect, this`faDirty, buf
      modifies fs`winsect, fs`wflag, fs`lastClust, fs`freeClust, fs`fsiFlag, fs`chains, fs.disk, fs.win
      ensures Ready() && bw <= bw' <= |wdata| && Progress(b, v, chains, s0, ch, p, wdata[..bw'])
      ensures if full then CountFree(Fat(fs)) == 0 else bw < bw'
      ensures fs.winsect == old(fs.winsect) || InFat(fs.geo, fs.winsect)
    {
      hide *;
      ProgressMeans(b, v, chains, s0, ch, p, wdata[..bw]);
      ghost var b1, v1, chains1, ch1, s1 := Bytes(), View(), fs.chains, Chain(), sclust;
      var wcnt;
      full, wcnt := WriteStep(wdata[bw..]);
      bw' := bw + wcnt;
      Progresses(b, v, chains, s0, ch, p, wdata[..bw], b1, v1, chains1, ch1, s1, wdata[bw..][..wcnt]);
      SliceJoin(wdata, 0, bw, bw');
      assert wdata[bw..][..wcnt] == wdata[bw..bw'];
    }

    /** f_write's loop. */
    method WriteLoop(wdata: seq<byte>) returns (bw: nat)
      requires Ready()
      modifies this`fptr, this`sclust, this`clust, this`dsect, this`faDirty, buf
      modifies fs`winsect, fs`wflag, fs`lastClust, fs`freeClust, fs`fsiFlag, fs`chains, fs.disk, fs.win
      ensures Ready() && bw <= |wdata|
      ensures bw < |wdata| ==> CountFree(Fat(fs)) == 0
      ensures Progress(old(Bytes()), old(View()), old(fs.chains), old(sclust), old(Chain()), old(fptr), wdata[..bw])
      ensures fs.winsect == old(fs.winsect) || InFat(fs.geo, fs.winsect)
    {
      hide *;
      ghost var b, v, p := Bytes(), View(), fptr;
      ProgressStarts();
      bw := 0;
      var full := false;
      assert wdata[..0] == [];
      while bw < |wdata| && !full
        invariant Ready() && bw <= |wdata|
        invariant Progress(b, v, old(fs.chains), old(sclust), old(Chain()), p, wdata[..bw])
        invariant full ==> CountFree(Fat(fs)) == 0
        invariant fs.winsect == old(fs.winsect) || InFat(fs.geo, fs.winsect)
        decreases !full, |wdata| - bw
      {
        full, bw := WriteTurn(wdata, bw, b, v, old(fs.chains), old(sclust), old(Chain()), p);
      }
    }

    /** Records the new size. */
    method RecordSize()
      requires Ready() && fptr <= 0xFFFF_FFFF
      modifies this`fsize, this`faWritten
      ensures Valid() && faWritten && fsize == (if fptr > old(fsize) then fptr else old(fsize))
      ensures View() == old(View()) && Bytes() == old(Bytes()) && Content() == Bytes()[..fsize]
    {
      hide FatFs.Valid, FatFs.Img, FatLayout, DataLayout, Secs, SectorCount, Fits, VolumeOk, FileShape, ClustOk;
      if fptr > fsize { fsize := fptr; }
      faWritten := true;
    }

    /** f_write: the bytes from the file pointer on become `wdata`, as far as the disk has room; the file grows if needed. */
    method Write(wdata: seq<byte>) returns (res: FResult, bw: nat)
      requires isOpen ==> Valid()
      requires |wdata| <= 0xFFFF_FFFF
      modifies this`fptr, this`fsize, this`sclust, this`clust, this`dsect, this`faDirty, this`faWritten, buf
      modifies fs`winsect, fs`wflag, fs`lastClust, fs`freeClust, fs`fsiFlag, fs`chains, fs.disk, fs.win
      ensures res == if !isOpen then FrInvalidObject else if faError then FrIntErr else if !faWrite then FrDenied else FrOk
      ensures isOpen ==> Valid() && OnlyChain(old(fs.chains), old(sclust))
      ensures isOpen ==> TouchesOnly(fs.geo, old(View()), View(), Chain())
      ensures |Chain()| == |old(Chain())| || Snug(fs.geo, |Chain()|, fsize)
      ensures faWrite == old(faWrite) && faRead == old(faRead)
      ensures res == FrOk ==>
                && bw <= |wdata| && fptr == old(fptr) + bw && faWritten
                && Content() == Splice(old(Content()), old(fptr), wdata[..bw])
                && (bw < |wdata| ==> CountFree(Fat(fs)) == 0 || (bw == 0 && old(fsize) + |wdata| > 0xFFFF_FFFF))
      ensures res != FrOk ==> bw == 0 && fptr == old(fptr) && (isOpen ==> Content() == old(Content()))
      ensures res != FrOk ==> faDirty == old(faDirty) && sclust == old(sclust) && faWritten == old(faWritten)
      ensures fs.winsect == old(fs.winsect) || InFat(fs.geo, fs.winsect)
      ensures res != FrOk && old(fs.Clean()) ==> fs.Clean()
    {
      hide *;
      bw := 0;
      if isOpen { NothingWritten(); }
      if !isOpen { return FrInvalidObject, 0; }
      if faError { return FrIntErr, 0; }
      if !faWrite { return FrDenied, 0; }
      var data := wdata;
      if (fsize + |data|) % 0x1_0000_0000 < fsize { data := []; }
      FileSizes();
      SizeGuard(fsize, |wdata|);
      bw := WriteAndRecord(data);
      assert data[..bw] == wdata[..bw];
      return FrOk, bw;
    }

    /** f_write behind its checks. */
    method WriteAndRecord(data: seq<byte>) returns (bw: nat)
      requires Valid() && fsize + |data| <= 0xFFFF_FFFF
      modifies this`fptr, this`fsize, this`sclust, this`clust, this`dsect, this`faDirty, this`faWritten, buf
      modifies fs`winsect, fs`wflag, fs`lastClust, fs`freeClust, fs`fsiFlag, fs`chains, fs.disk, fs.win
      ensures Valid() && OnlyChain(old(fs.chains), old(sclust)) && TouchesOnly(fs.geo, old(View()), View(), Chain())
      ensures bw <= |data| && fptr == old(fptr) + bw && faWritten && old(fptr) <= |old(Content())|
      ensures Content() == Splice(old(Content()), old(fptr), data[..bw])
      ensures bw < |data| ==> CountFree(Fat(fs)) == 0
      ensures |Chain()| == |old(Chain())| || Snug(fs.geo, |Chain()|, fsize)
      ensures fs.winsect == old(fs.winsect) || InFat(fs.geo, fs.winsect)
    {
      hide *;
      ghost var b, p := Bytes(), fptr;
      FileSizes();
      NothingWritten();
      bw := WriteLoop(data);
      WriteMeans(b, old(View()), old(fs.chains), old(sclust), old(Chain()), p, data[..bw]);
      RecordSize();
      if |Chain()| != |old(Chain())| { SnugMore(fs.geo, |Chain()|, fptr, fsize); }
    }

    lemma NothingWritten()
      requires Valid()
      ensures OnlyChain(fs.chains, sclust) && TouchesOnly(fs.geo, View(), View(), Chain()) && Ready()
    {
      hide FatFs.Valid, FatFs.Img, FatLayout, DataLayout, Secs, SectorCount, Fits, VolumeOk, FileShape, ClustOk, Base,
           Core, View, SameOutsideFat, TouchesOnly;
      SameChains();
      SameIsOutside(fs.geo, View());
      OnlyFatTouched(fs.geo, View(), View(), Chain());
    }

    lemma WriteMeans(b: seq<byte>, v: seq<Sector>, chains: map<nat, seq<nat>>, s0: nat, ch: seq<nat>, p: nat, c: seq<byte>)
      requires Core() && p <= fsize && Progress(b, v, chains, s0, ch, p, c)
      ensures fptr == p + |c| && TouchesOnly(fs.geo, v, View(), Chain()) && OnlyChain(chains, s0)
      ensures |Chain()| == |ch| || Snug(fs.geo, |Chain()|, fptr)
      ensures var n := if fptr > fsize then fptr else fsize;
              n <= |Bytes()| && fsize <= |b| && Bytes()[..n] == Splice(b[..fsize], p, c)
    {
      hide FatFs.Valid, FatFs.Img, FatLayout, DataLayout, Secs, SectorCount, Fits, VolumeOk, FileShape, ClustOk, Base,
           Core, View, Bytes, TouchesOnly, OnlyChain, Splice, Snug;
      WrittenContent(b, Bytes(), p, c, fsize);
    }

    /** What a seek may have done so far: grown the chain, with nothing but the FAT changed. */
    ghost predicate Grown(b: seq<byte>, v: seq<Sector>, chains: map<nat, seq<nat>>, s0: nat)
      reads this`fptr, this`fsize, this`sclust, this`dsect, this`faDirty, buf
      reads fs`winsect, fs`wflag, fs`freeClust, fs`fsiFlag, fs`chains, fs.disk, fs.win
      requires Base()
    {
      Extends(b) && SameOutsideFat(fs.geo, v, View()) && OnlyChain(chains, s0)
    }

    lemma GrownStarts()
      requires Base()
      ensures Grown(Bytes(), View(), fs.chains, sclust)
    {
      hide FatFs.Valid, FatFs.Img, FatLayout, DataLayout, Secs, SectorCount, Fits, VolumeOk, FileShape, Base, Bytes,
           View, SameOutsideFat;
      assert Bytes()[..|Bytes()|] == Bytes();
      SameIsOutside(fs.geo, View());
    }

    lemma GrownMeans(b: seq<byte>, v: seq<Sector>, chains: map<nat, seq<nat>>, s0: nat)
      requires Base() && Grown(b, v, chains, s0)
      ensures |b| <= |Bytes()| && Bytes()[..|b|] == b && SameOutsideFat(fs.geo, v, View()) && OnlyChain(chains, s0)
      ensures ChainMoved(chains, s0, fs.chains, sclust)
    {
      hide FatFs.Valid, FatFs.Img, FatLayout, DataLayout, Secs, SectorCount, Fits, VolumeOk, FileShape, Base, Bytes,
           View, SameOutsideFat;
    }

    lemma GrowsMore(b: seq<byte>, v: seq<Sector>, chains: map<nat, seq<nat>>, s0: nat,
                    b1: seq<byte>, v1: seq<Sector>, chains1: map<nat, seq<nat>>, s1: nat)
      requires Base() && |b| <= |b1| && b1[..|b|] == b && SameOutsideFat(fs.geo, v, v1) && ChainMoved(chains, s0, chains1, s1)
      requires Extends(b1) && SameOutsideFat(fs.geo, v1, View()) && OnlyChain(chains1, s1)
      ensures Grown(b, v, chains, s0)
    {
      hide FatFs.Valid, FatFs.Img, FatLayout, DataLayout, Secs, SectorCount, Fits, VolumeOk, FileShape, Base, Bytes,
           View, InFat, OnlyChain;
      TakeOfTake(Bytes(), |b1|, |b|);
      StillOnlyChain(chains, s0, chains1, s1);
    }

    /** A seek stands at the start of the current cluster, `left` bytes before its goal. */
    ghost predicate Seeking(i: nat, left: nat, goal: nat)
      reads this`fptr, this`sclust, this`clust, fs`chains
    {
      && i < |Chain()| && clust == Chain()[i] && fptr == ClusterBytes(fs.geo, i)
      && left > 0 && fptr + left == goal && OffsetOf(fptr) == 0
    }

    /** Moves the file pointer to the start of cluster `i`. */
    method JumpTo(p: nat, ghost i: nat)
      requires Core() && i <= |Chain()| && p == ClusterBytes(fs.geo, i)
      modifies this`fptr
      ensures Core() && fptr == p && OffsetOf(p) == 0 && View() == old(View()) && Bytes() == old(Bytes())
    {
      hide FatFs.Valid, FatFs.Img, FatLayout, DataLayout, Secs, Fits, VolumeOk, ClustOk, OffsetOf, SectorCount;
      ClusterStartAligned(fs.geo, i);
      if i > 0 { ClusterBytesInside(fs.geo, Chain(), i - 1); ClusterBytesStep(fs.geo, i - 1); }
      else { NoClusterBytes(fs.geo); }
      PointerMoved(fs.geo, Chain(), fptr, dsect, faDirty, fs.winsect, p);
      fptr := p;
    }

    lemma HasCluster()
      requires Valid()
      ensures fsize > 0 ==> sclust != 0
    {
      hide FatFs.Valid, FatFs.Img, FatLayout, DataLayout, Fits, VolumeOk, ClustOk, FileShape;
    }

    lemma FitsChain()
      requires Base()
      ensures fsize <= ClusterBytes(fs.geo, |Chain()|)
    {
      hide FatFs.Valid, FatFs.Img, FatLayout, DataLayout, Secs, Fits, VolumeOk, FileShape, SectorCount;
      EndOfChainBytes(fs.geo, Chain());
    }

    lemma StartsFromNone(chains: map<nat, seq<nat>>, s0: nat)
      requires OnlyChain(chains, s0)
      ensures sclust != s0 ==> s0 == 0
    {
    }

    lemma GrownIs(b: seq<byte>, v: seq<Sector>, chains: map<nat, seq<nat>>, s0: nat)
      requires Base() && Extends(b) && SameOutsideFat(fs.geo, v, View()) && OnlyChain(chains, s0)
      ensures Grown(b, v, chains, s0)
    {
    }

    lemma ClusterOfChain(i: nat)
      requires Core() && i < |Chain()|
      ensures 2 <= Chain()[i] < fs.geo.nFatent && sclust != 0
    {
      hide FatFs.Valid, FatFs.Img, FatLayout, DataLayout, Secs, SectorCount, Fits, VolumeOk, FileShape;
      ShapeFacts(fs.geo, Chain(), fptr, dsect, faDirty, fs.winsect);
    }

    lemma ValidMeans()
      requires Valid()
      ensures ClustOk(fs.geo, Chain(), fptr, clust)
    {
    }

    lemma SeekingIs(i: nat, left: nat, goal: nat)
      requires i < |Chain()| && clust == Chain()[i] && fptr == ClusterBytes(fs.geo, i)
      requires left > 0 && fptr + left == goal && OffsetOf(fptr) == 0
      ensures Seeking(i, left, goal)
    {
    }

    /** f_lseek's choice: from the current cluster if the goal is in it or behind it, else from the first. */
    method SeekStart(ofs: nat) returns (clst: nat, left: nat, ghost i: nat)
      requires Valid() && 0 < ofs && (!faWrite ==> ofs <= fsize)
      modifies this`fptr, this`sclust, this`clust
      modifies fs`winsect, fs`wflag, fs`lastClust, fs`freeClust, fs`fsiFlag, fs`chains, fs.disk, fs.win
      ensures Core() && Grown(old(Bytes()), old(View()), old(fs.chains), old(sclust))
      ensures clst == 0 ==> fptr == 0 && Chain() == [] && CountFree(Fat(fs)) == 0
      ensures clst == 0 ==> sclust == old(sclust)
      ensures clst != 0 ==> clst == clust && Seeking(i, left, ofs)
      ensures |old(Chain())| <= |Chain()| && (|Chain()| == |old(Chain())| || |Chain()| == i + 1)
      ensures !faWrite ==> clst != 0 && fs.chains == old(fs.chains) && sclust == old(sclust)
      ensures fs.winsect == old(fs.winsect) || InFat(fs.geo, fs.winsect)
      ensures |Chain()| == |old(Chain())| && old(fs.Clean()) ==> fs.Clean()
    {
      hide *;
      var ifptr := fptr;
      var bcs := fs.geo.csize * 512;
      NoClusterBytes(fs.geo);
      i := 0;
      if ifptr > 0 && (ofs - 1) / bcs >= (ifptr - 1) / bcs {
        ValidMeans();
        i := CurrentCluster(fs.geo, Chain(), ifptr, clust);
        ClusterOfChain(i);
        StartsBefore(ofs, ifptr, bcs);
        var p := (ifptr - 1) / bcs * bcs;
        JumpTo(p, i);
        GrownStarts();
        left := ofs - p;
        clst := clust;
        SeekingIs(i, left, ofs);
      } else {
        HasCluster();
        JumpTo(0, 0);
        left := ofs;
        clst := FirstCluster();
        GrownIs(old(Bytes()), old(View()), old(fs.chains), old(sclust));
        clust := clst;
        if clst != 0 { SeekingIs(i, left, ofs); }
      }
    }

    /** One turn of f_lseek's cluster loop; `full` means that no cluster is free. */
    method SeekTurn(clst: nat, left: nat, ghost i: nat, ghost goal: nat) returns (full: bool, clst': nat)
      requires Core() && Seeking(i, left, goal) && clst == clust && left > fs.geo.csize * 512 && (!faWrite ==> goal <= fsize)
      modifies this`fptr, this`clust
      modifies fs`winsect, fs`wflag, fs`lastClust, fs`freeClust, fs`fsiFlag, fs`chains, fs.disk, fs.win
      ensures Core() && Extends(old(Bytes())) && SameOutsideFat(fs.geo, old(View()), View()) && OnlyChain(old(fs.chains), sclust)
      ensures full ==> Seeking(i, left, goal) && i + 1 == |Chain()| && CountFree(Fat(fs)) == 0 && clst == clust && faWrite
      ensures !full ==> clst' == clust && Seeking(i + 1, left - fs.geo.csize * 512, goal)
      ensures |Chain()| == |old(Chain())| || (!full && |Chain()| == i + 2)
      ensures |Chain()| >= |old(Chain())|
      ensures !faWrite ==> fs.chains == old(fs.chains)
      ensures fs.winsect == old(fs.winsect) || InFat(fs.geo, fs.winsect)
      ensures |Chain()| == |old(Chain())| && old(fs.Clean()) ==> fs.Clean()
    {
      hide *;
      SeekingMeans(i, left, goal);
      full := false;
      if faWrite {
        clst' := FollowingCluster(i);
        if clst' == 0 {
          full := true;
          SeekingIs(i, left, goal);
          return;
        }
      } else {
        clst' := NextForRead(i, left);
        SameIsOutside(fs.geo, View());
        SameChains();
        assert Bytes()[..|Bytes()|] == Bytes();
        ExtendsIs(old(Bytes()));
      }
      Extended(old(Bytes()));
      ClusterOfChain(i + 1);
      NarrowEnough(fs);
      LinksFit(fs.geo, clst');
      if clst' == NO_CLUSTER || clst' <= 1 || clst' >= fs.geo.nFatent { assert false; }
      clust := clst';
      ClusterBytesStep(fs.geo, i);
      JumpTo(fptr + fs.geo.csize * 512, i + 1);
      ExtendsIs(old(Bytes()));
      SeekingIs(i + 1, left - fs.geo.csize * 512, goal);
    }

    lemma ExtendsIs(b: seq<byte>)
      requires Base() && |b| <= |Bytes()| && Bytes()[..|b|] == b
      ensures Extends(b)
    {
    }

    lemma SeekingMeans(i: nat, left: nat, goal: nat)
      requires Seeking(i, left, goal)
      ensures i < |Chain()| && clust == Chain()[i] && fptr == ClusterBytes(fs.geo, i)
      ensures left > 0 && fptr + left == goal && OffsetOf(fptr) == 0
    {
    }

    /** Inside the file, the FAT has a following cluster. */
    method NextForRead(ghost i: nat, ghost left: nat) returns (clst: nat)
      requires Core() && i < |Chain()| && Chain()[i] == clust && fptr == ClusterBytes(fs.geo, i)
      requires left > fs.geo.csize * 512 && fptr + left <= fsize && OffsetOf(fptr) == 0
      modifies fs`winsect, fs`wflag, fs.disk, fs.win
      ensures Core() && View() == old(View()) && Bytes() == old(Bytes())
      ensures i + 1 < |Chain()| && Chain()[i + 1] == clst
      ensures fs.winsect == old(fs.winsect) || InFat(fs.geo, fs.winsect)
      ensures old(fs.Clean()) ==> fs.Clean()
    {
      hide FatFs.Valid, FatFs.Img, FatFs.Clean, Fat, FatLayout, DataLayout, FreeBelow, Secs, SectorCount, Fits,
           ChainsOk, At, FileShape;
      ghost var ws := fs.winsect;
      if i + 1 == |Chain()| { ClusterBytesStep(fs.geo, i); EndOfChainBytes(fs.geo, Chain()); assert false; }
      ChainStep(Fat(fs), fs.chains, sclust, i);
      clst := GetFat(fs, clust);
      WindowMoved(fs.geo, fs.disk.Length, Chain(), fptr, dsect, faDirty, ws, fs.winsect);
    }

    /** f_lseek's cluster loop. */
    method SeekLoop(clst: nat, left: nat, ghost i: nat, ghost ofs: nat) returns (full: bool, left': nat, ghost i': nat)
      requires Core() && Seeking(i, left, ofs) && clst == clust && (!faWrite ==> ofs <= fsize)
      modifies this`fptr, this`clust
      modifies fs`winsect, fs`wflag, fs`lastClust, fs`freeClust, fs`fsiFlag, fs`chains, fs.disk, fs.win
      ensures Core() && Grown(old(Bytes()), old(View()), old(fs.chains), sclust)
      ensures left' <= fs.geo.csize * 512
      ensures !full ==> Seeking(i', left', ofs)
      ensures full ==> Seeking(i', left', fptr + left') && fptr + left' < ofs && left' == fs.geo.csize * 512
      ensures full ==> i' + 1 == |Chain()| && CountFree(Fat(fs)) == 0 && faWrite
      ensures i <= i' && |old(Chain())| <= |Chain()| && (|Chain()| == |old(Chain())| || |Chain()| == i' + 1)
      ensures !faWrite ==> fs.chains == old(fs.chains)
      ensures fs.winsect == old(fs.winsect) || InFat(fs.geo, fs.winsect)
      ensures |Chain()| == |old(Chain())| && old(fs.Clean()) ==> fs.Clean()
    {
      hide *;
      var cl := clst;
      left', i', full := left, i, false;
      GrownStarts();
      while left' > fs.geo.csize * 512 && !full
        invariant Core() && Grown(old(Bytes()), old(View()), old(fs.chains), sclust)
        invariant Seeking(i', left', ofs) && cl == clust
        invariant full ==> i' + 1 == |Chain()| && CountFree(Fat(fs)) == 0 && faWrite && left' > fs.geo.csize * 512
        invariant !faWrite ==> fs.chains == old(fs.chains)
        invariant i <= i' && |old(Chain())| <= |Chain()| && (|Chain()| == |old(Chain())| || |Chain()| == i' + 1)
        invariant |Chain()| == |old(Chain())| && old(fs.Clean()) ==> fs.Clean()
        invariant fs.winsect == old(fs.winsect) || InFat(fs.geo, fs.winsect)
        decreases !full, left'
      {
        full, cl, left', i' := SeekTurnOn(cl, left', i', ofs, old(Bytes()), old(View()), old(fs.chains));
      }
      if full {
        SeekingMeans(i', left', ofs);
        left' := fs.geo.csize * 512;
        SeekingIs(i', left', fptr + left');
      }
    }

    method SeekTurnOn(clst: nat, left: nat, ghost i: nat, ghost goal: nat, ghost b: seq<byte>, ghost v: seq<Sector>,
                      ghost chains: map<nat, seq<nat>>) returns (full: bool, clst': nat, left': nat, ghost i': nat)
      requires Core() && Seeking(i, left, goal) && clst == clust && left > fs.geo.csize * 512 && (!faWrite ==> goal <= fsize)
      requires Grown(b, v, chains, sclust)
      modifies this`fptr, this`clust
      modifies fs`winsect, fs`wflag, fs`lastClust, fs`freeClust, fs`fsiFlag, fs`chains, fs.disk, fs.win
      ensures Core() && Grown(b, v, chains, sclust)
      ensures clst' == clust && Seeking(i', left', goal)
      ensures if full then i' + 1 == |Chain()| && CountFree(Fat(fs)) == 0 && faWrite && left' == left else left' < left
      ensures i <= i' < |Chain()| && (if full then i' == i && |Chain()| == |old(Chain())| else i' == i + 1)
      ensures |old(Chain())| <= |Chain()| && (|Chain()| == |old(Chain())| || |Chain()| == i' + 1)
      ensures !faWrite ==> fs.chains == old(fs.chains)
      ensures fs.winsect == old(fs.winsect) || InFat(fs.geo, fs.winsect)
      ensures |Chain()| == |old(Chain())| && old(fs.Clean()) ==> fs.Clean()
    {
      hide *;
      GrownMeans(b, v, chains, sclust);
      ghost var b1, v1, chains1 := Bytes(), View(), fs.chains;
      clst', left', i' := clst, left, i;
      var next;
      full, next := SeekTurn(clst, left, i, goal);
      if !full {
        clst', left', i' := next, left - fs.geo.csize * 512, i + 1;
      }
      SeekingMeans(i', left', goal);
      GrowsMore(b, v, chains, sclust, b1, v1, chains1, sclust);
    }

    /** The end of a seek: the sector at the goal is cached, unless the goal is a sector boundary. */
    method SeekFinish(left: nat, ghost i: nat)
      requires Core() && Seeking(i, left, fptr + left) && left <= fs.geo.csize * 512
      modifies this`fptr, this`dsect, this`faDirty, buf, fs.disk
      ensures Ready() && fptr == old(fptr) + left && View() == old(View()) && Bytes() == old(Bytes()) && Fat(fs) == old(Fat(fs))
      ensures faDirty ==> old(faDirty)
    {
      hide FatFs.Valid, FatFs.Img, Fat, FatLayout, DataLayout, FreeBelow, Secs, SectorCount, Fits, ChainsOk, Core, View,
           Bytes, FileShape, SectorOf, OffsetOf, ClusterBytes, Clust2Sect, ClustOk;
      InCluster(fs.geo, Chain(), i, left);
      if OffsetOf(left) != 0 {
        ClusterOfChain(i);
        ClusterSector(fs.geo, fs.disk.Length, clust, 0);
        var nsect := Clust2Sect(fs.geo, clust);
        if nsect == 0 { assert false; }
        nsect := nsect + SectorOf(left);
        LoadBuffer(nsect);
      }
      AdvanceWrite(fptr + left);
    }

    /** Records a size that a seek extended. */
    method RecordSeek()
      requires Ready() && fptr <= 0xFFFF_FFFF
      modifies this`fsize, this`faWritten
      ensures Valid() && fsize == (if fptr > old(fsize) then fptr else old(fsize))
      ensures View() == old(View()) && Bytes() == old(Bytes()) && Content() == Bytes()[..fsize]
      ensures faWritten == (old(faWritten) || fptr > old(fsize))
    {
      hide FatFs.Valid, FatFs.Img, FatLayout, DataLayout, Secs, SectorCount, Fits, VolumeOk, FileShape, ClustOk;
      if fptr > fsize {
        fsize := fptr;
        faWritten := true;
      }
    }

    /** f_lseek: moves the file pointer.  Without write access it stops at the end of the file; with it, the file grows to
        the goal, or to the end of its last cluster when no more can be had.  No byte of the old contents changes. */
    method Lseek(ofs: nat) returns (res: FResult)
      requires isOpen ==> Valid()
      requires ofs <= 0xFFFF_FFFF
      modifies this`fptr, this`fsize, this`sclust, this`clust, this`dsect, this`faDirty, this`faWritten, buf
      modifies fs`winsect, fs`wflag, fs`lastClust, fs`freeClust, fs`fsiFlag, fs`chains, fs.disk, fs.win
      ensures res == if !isOpen then FrInvalidObject else if faError then FrIntErr else FrOk
      ensures isOpen ==> Valid() && OnlyChain(old(fs.chains), old(sclust)) && SameOutsideFat(fs.geo, old(View()), View())
      ensures isOpen ==> fsize == (if fptr > old(fsize) then fptr else old(fsize)) && Content()[..old(fsize)] == old(Content())
      ensures res == FrOk && !faWrite ==> fptr == (if ofs > old(fsize) then old(fsize) else ofs) && fs.chains == old(fs.chains)
      ensures res == FrOk && faWrite ==>
                fptr == ofs || (fptr < ofs && CountFree(Fat(fs)) == 0 && fptr == ClusterBytes(fs.geo, |Chain()|))
      ensures res != FrOk ==> fptr == old(fptr)
      ensures faWritten == (old(faWritten) || fsize > old(fsize))
      ensures fs.winsect == old(fs.winsect) || InFat(fs.geo, fs.winsect)
      ensures faDirty ==> old(faDirty)
      ensures sclust != old(sclust) ==> faWritten
      ensures |Chain()| == |old(Chain())| || Snug(fs.geo, |Chain()|, fsize)
      ensures faWrite == old(faWrite) && faRead == old(faRead)
      ensures |Chain()| == |old(Chain())| && old(fs.Clean()) ==> fs.Clean()
      ensures |Chain()| != |old(Chain())| ==> fsize > old(fsize)
    {
      hide *;
      if isOpen { SeekNowhere(); }
      if !isOpen { return FrInvalidObject; }
      if faError { return FrIntErr; }
      var goal := ofs;
      if goal > fsize && !faWrite { goal := fsize; }
      SeekAndRecord(goal);
      return FrOk;
    }

    lemma SeekNowhere()
      requires Valid()
      ensures OnlyChain(fs.chains, sclust) && SameOutsideFat(fs.geo, View(), View()) && fptr <= fsize
              && Content()[..fsize] == Content()
    {
      hide *;
      FileSizes();
      SameIsOutside(fs.geo, View());
      SameChains();
    }

    /** f_lseek behind its checks. */
    method SeekAndRecord(goal: nat)
      requires Valid() && (!faWrite ==> goal <= fsize) && goal <= 0xFFFF_FFFF
      modifies this`fptr, this`fsize, this`sclust, this`clust, this`dsect, this`faDirty, this`faWritten, buf
      modifies fs`winsect, fs`wflag, fs`lastClust, fs`freeClust, fs`fsiFlag, fs`chains, fs.disk, fs.win
      ensures Valid() && OnlyChain(old(fs.chains), old(sclust)) && SameOutsideFat(fs.geo, old(View()), View())
      ensures fsize == (if fptr > old(fsize) then fptr else old(fsize)) && Content()[..old(fsize)] == old(Content())
      ensures fptr == goal ||
              (faWrite && fptr < goal && CountFree(Fat(fs)) == 0 && fptr == ClusterBytes(fs.geo, |Chain()|))
      ensures !faWrite ==> fs.chains == old(fs.chains)
      ensures faWritten == (old(faWritten) || fsize > old(fsize))
      ensures fs.winsect == old(fs.winsect) || InFat(fs.geo, fs.winsect)
      ensures faDirty ==> old(faDirty)
      ensures sclust != old(sclust) ==> faWritten
      ensures |Chain()| == |old(Chain())| || Snug(fs.geo, |Chain()|, fsize)
      ensures |Chain()| == |old(Chain())| && old(fs.Clean()) ==> fs.Clean()
      ensures |Chain()| != |old(Chain())| ==> fsize > old(fsize)
    {
      hide *;
      FileSizes();
      HasCluster();
      FitsChain();
      ghost var n, size := |Chain()|, fsize;
      SeekTo(goal);
      GrownMeans(old(Bytes()), old(View()), old(fs.chains), old(sclust));
      StartsFromNone(old(fs.chains), old(sclust));
      NeededMeans(|old(Chain())|);
      RecordSeek();
      if |Chain()| != n {
        SnugMore(fs.geo, |Chain()|, fptr, fsize);
        GrownPast(fs.geo, n, |Chain()|, size, fsize);
      }
      TakeOfTake(Bytes(), |old(Bytes())|, old(fsize));
      TakeOfTake(Bytes(), fsize, old(fsize));
    }

    /** f_lseek up to the recording of the size. */
    method SeekTo(goal: nat)
      requires Valid() && (!faWrite ==> goal <= fsize)
      modifies this`fptr, this`sclust, this`clust, this`dsect, this`faDirty, buf
      modifies fs`winsect, fs`wflag, fs`lastClust, fs`freeClust, fs`fsiFlag, fs`chains, fs.disk, fs.win
      ensures Ready() && Grown(old(Bytes()), old(View()), old(fs.chains), old(sclust))
      ensures fptr == goal ||
              (faWrite && fptr < goal && CountFree(Fat(fs)) == 0 && fptr == ClusterBytes(fs.geo, |Chain()|))
      ensures !faWrite ==> fs.chains == old(fs.chains)
      ensures fs.winsect == old(fs.winsect) || InFat(fs.geo, fs.winsect)
      ensures faDirty ==> old(faDirty)
      ensures sclust != old(sclust) ==> fptr > 0
      ensures |old(Chain())| <= |Chain()| && Needed(|old(Chain())|)
      ensures |Chain()| == |old(Chain())| && old(fs.Clean()) ==> fs.Clean()
    {
      hide *;
      NoClusterBytes(fs.geo);
      if goal == 0 {
        JumpTo(0, 0);
        GrownStarts();
        ReadyAtZero();
        NeededIs(|old(Chain())|);
        return;
      }
      ghost var i;
      var clst, left;
      clst, left, i := SeekStart(goal);
      if clst == 0 {
        ReadyAtZero();
        NeededIs(|old(Chain())|);
        return;
      }
      GrownMeans(old(Bytes()), old(View()), old(fs.chains), old(sclust));
      ghost var b1, v1, chains1 := Bytes(), View(), fs.chains;
      var full;
      full, left, i := SeekLoop(clst, left, i, goal);
      SeekingMeans(i, left, if full then fptr + left else goal);
      ClusterBytesStep(fs.geo, i);
      GrownMeans(b1, v1, chains1, sclust);
      SeekingMeans(i, left, fptr + left);
      SeekFinish(left, i);
      ReachedSnug(fs.geo, i, left, fptr);
      NeededIs(|old(Chain())|);
      ExtendsIs(b1);
      GrowsMore(old(Bytes()), old(View()), old(fs.chains), old(sclust), b1, v1, chains1, sclust);
    }

    lemma ReadyAtZero()
      requires Core() && fptr == 0
      ensures Ready()
    {
    }

    /** A valid file stands where a walk along the FAT from its first cluster would stand: so a seek's short cut through
        the current cluster ends in the same cluster, with the same sector cached, as a seek from the start. */
    lemma CursorIsWalk()
      requires Valid()
      ensures fptr > 0 ==> clust == Walk(Fat(fs), sclust, ClusterOf(fs.geo, fptr - 1))
      ensures OffsetOf(fptr) != 0 ==>
                dsect == Clust2Sect(fs.geo, Walk(Fat(fs), sclust, ClusterOf(fs.geo, fptr))) + SectorInCluster(fs.geo, fptr)
    {
      hide FatFs.Valid, FatFs.Img, Fat, FatLayout, DataLayout, FreeBelow, Secs, SectorCount, Fits, Clust2Sect, At,
           FileShape, Walk, SectorOf, ClustOk;
      var g, ch := fs.geo, Chain();
      if fptr > 0 {
        var q := CurrentCluster(g, ch, fptr, clust);
        WalkChain(q);
      }
      if OffsetOf(fptr) != 0 {
        ShapeFacts(g, ch, fptr, dsect, faDirty, fs.winsect);
        var q, r := Position(g, SectorOf(fptr));
        SectorAt(g, ch, SectorOf(fptr), q, r);
        WalkChain(q);
      }
    }

    lemma WalkChain(q: nat)
      requires Core() && q < |Chain()|
      ensures Walk(Fat(fs), sclust, q) == Chain()[q]
    {
      hide FatFs.Valid, FatFs.Img, FatOf, FatLayout, DataLayout, FreeBelow, Secs, SectorCount, Fits, ChainsOk, FileShape, Walk;
      ChainFormed(Fat(fs), fs.chains, sclust);
      ChainStep(Fat(fs), fs.chains, sclust, 0);
      ChainWalk(Fat(fs), Chain(), q);
    }
  }
}
