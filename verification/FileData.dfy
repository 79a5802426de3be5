/** Where the bytes of a file lie: its chain of clusters as one run of sectors. */
module FileData {
  import opened Arith
  import opened Bytes
  import opened Geometry
  import opened RamDisk
  import opened Window
  import Chains
  import Allocation

  /** The file sector and the offset in it of byte `p`. */
  function SectorOf(p: nat): nat {
    p / 512
  }

  function OffsetOf(p: nat): nat {
    p % 512
  }

  lemma Split(p: nat)
    ensures p == SectorOf(p) * 512 + OffsetOf(p) && OffsetOf(p) < 512
  {
  }

  lemma Unsplit(j: nat, o: nat)
    requires o < 512
    ensures SectorOf(j * 512 + o) == j && OffsetOf(j * 512 + o) == o
  {
    DivModUnique(j * 512 + o, 512, j, o);
  }

  ghost predicate AllClusters(g: Geometry, ch: seq<nat>) {
    forall i {:trigger ch[i]} :: 0 <= i < |ch| ==> InRange(g, ch[i])
  }

  ghost predicate Distinct(ch: seq<nat>) {
    forall i, j {:trigger ch[i], ch[j]} :: 0 <= i < j < |ch| ==> ch[i] != ch[j]
  }

  /** Number of sectors on a chain of `n` clusters. */
  function SectorCount(g: Geometry, n: nat): nat {
    if n == 0 then 0 else SectorCount(g, n - 1) + g.csize
  }

  lemma {:induction false} SectorCountIs(g: Geometry, n: nat)
    ensures SectorCount(g, n) == n * g.csize
  {
    if n > 0 {
      SectorCountIs(g, n - 1);
      assert n * g.csize == (n - 1) * g.csize + g.csize;
    }
  }

  lemma {:induction false} SectorCountStep(g: Geometry, a: nat, b: nat)
    requires a < b
    ensures SectorCount(g, a) + g.csize <= SectorCount(g, b)
  {
    if a + 1 < b {
      SectorCountStep(g, a, b - 1);
    }
  }

  /** The sectors of one cluster. */
  function ClusterSecs(g: Geometry, c: nat): (s: seq<nat>)
    ensures |s| == g.csize
  {
    var base := Clust2Sect(g, c);
    seq(g.csize, r requires 0 <= r < g.csize => base + r)
  }

  /** The sectors of a file, in order. */
  function Secs(g: Geometry, ch: seq<nat>): (s: seq<nat>)
    ensures |s| == SectorCount(g, |ch|)
  {
    if ch == [] then [] else Secs(g, ch[..|ch| - 1]) + ClusterSecs(g, ch[|ch| - 1])
  }

  lemma NoSectors(g: Geometry)
    ensures Secs(g, []) == []
  {
  }

  /** File sector `j` is sector `r` of cluster `q` of the chain. */
  predicate At(g: Geometry, j: nat, q: nat, r: nat) {
    r < g.csize && j == SectorCount(g, q) + r
  }

  lemma Position(g: Geometry, j: nat) returns (q: nat, r: nat)
    requires 0 < g.csize
    ensures At(g, j, q, r) && q == j / g.csize && r == j % g.csize
  {
    q, r := j / g.csize, j % g.csize;
    SectorCountIs(g, q);
  }

  lemma AtUnique(g: Geometry, j: nat, q: nat, r: nat, q': nat, r': nat)
    requires At(g, j, q, r) && At(g, j, q', r')
    ensures q == q' && r == r'
  {
    hide SectorCount;
    if q < q' {
      SectorCountStep(g, q, q');
    } else if q' < q {
      SectorCountStep(g, q', q);
    }
  }

  /** The sector at a position. */
  lemma {:induction false} SectorAt(g: Geometry, ch: seq<nat>, j: nat, q: nat, r: nat)
    requires At(g, j, q, r)
    ensures j < SectorCount(g, |ch|) <==> q < |ch|
    ensures q < |ch| ==> Secs(g, ch)[j] == Clust2Sect(g, ch[q]) + r
  {
    hide Clust2Sect;
    if |ch| <= q {
      if |ch| < q { SectorCountStep(g, |ch|, q); }
    } else {
      SectorCountStep(g, q, |ch|);
      var front := ch[..|ch| - 1];
      SectorAt(g, front, j, q, r);
      if q == |ch| - 1 {
        assert Secs(g, ch)[j] == ClusterSecs(g, ch[q])[r];
      }
    }
  }

  lemma DataFacts(g: Geometry, n: nat)
    requires FatLayout(g, n) && DataLayout(g, n)
    ensures 0 < g.csize <= 128 && 1 <= g.fatbase && 1 <= g.nFats <= 2 && FatEnd(g) <= g.database
  {
    hide FatBytesNeeded, MaxEntries, PowerOfTwo, DataEnd;
  }

  /** The sectors of a cluster lie in the data area: in no FAT copy, not the boot sector. */
  lemma ClusterSector(g: Geometry, n: nat, c: nat, r: nat)
    requires FatLayout(g, n) && DataLayout(g, n) && InRange(g, c) && r < g.csize
    ensures var s := Clust2Sect(g, c) + r; g.database <= s < n && s != 0 && !InFat(g, s) && !InMirror(g, s)
  {
    hide FatLayout, DataLayout, Clust2Sect;
    DataFacts(g, n);
    ClusterInData(g, n, c);
  }

  lemma AtBound(g: Geometry, j: nat, q: nat, r: nat)
    requires At(g, j, q, r)
    ensures r < g.csize
  {
  }

  /** Every file sector lies in the data area. */
  lemma FileSector(g: Geometry, n: nat, ch: seq<nat>, j: nat)
    requires FatLayout(g, n) && DataLayout(g, n) && AllClusters(g, ch) && g.csize > 0 && j < SectorCount(g, |ch|)
    ensures var s := Secs(g, ch)[j]; g.database <= s < n && s != 0 && !InFat(g, s) && !InMirror(g, s)
  {
    hide FatLayout, DataLayout, Clust2Sect, Secs, SectorCount, InFat, InMirror, At, InRange;
    var q, r := Position(g, j);
    SectorAt(g, ch, j, q, r);
    assert r < g.csize by { AtBound(g, j, q, r); }
    ClusterSector(g, n, ch[q], r);
  }

  /** Sectors of different clusters differ. */
  lemma SectorsDiffer(g: Geometry, c: nat, r: nat, d: nat, s: nat)
    requires InRange(g, c) && InRange(g, d) && r < g.csize && s < g.csize
    requires c != d || r != s
    ensures Clust2Sect(g, c) + r != Clust2Sect(g, d) + s
  {
    if c != d {
      ClustersDisjoint(g, c, d);
    }
  }

  lemma SamePosition(g: Geometry, i: nat, j: nat, q: nat, r: nat, s: nat)
    requires At(g, i, q, r) && At(g, j, q, s) && i != j
    ensures r != s
  {
  }

  /** Different positions in a file are different sectors. */
  lemma PositionsDiffer(g: Geometry, ch: seq<nat>, i: nat, j: nat)
    requires AllClusters(g, ch) && Distinct(ch) && g.csize > 0
    requires i != j && i < SectorCount(g, |ch|) && j < SectorCount(g, |ch|)
    ensures Secs(g, ch)[i] != Secs(g, ch)[j]
  {
    hide Clust2Sect, Secs, SectorCount, InRange, At;
    var q, r := Position(g, i);
    var p, s := Position(g, j);
    AtBound(g, i, q, r);
    AtBound(g, j, p, s);
    SectorAt(g, ch, i, q, r);
    SectorAt(g, ch, j, p, s);
    if q == p { SamePosition(g, i, j, q, r, s); }
    SectorsDiffer(g, ch[q], r, ch[p], s);
  }

  /** Files without a common cluster have no common sector. */
  lemma FilesApart(g: Geometry, a: seq<nat>, b: seq<nat>, i: nat, j: nat)
    requires AllClusters(g, a) && AllClusters(g, b) && g.csize > 0
    requires forall c :: c in a ==> c !in b
    requires i < SectorCount(g, |a|) && j < SectorCount(g, |b|)
    ensures Secs(g, a)[i] != Secs(g, b)[j]
  {
    hide Clust2Sect, Secs, SectorCount, InRange, At;
    var q, r := Position(g, i);
    var p, s := Position(g, j);
    AtBound(g, i, q, r);
    AtBound(g, j, p, s);
    SectorAt(g, a, i, q, r);
    SectorAt(g, b, j, p, s);
    assert a[q] in a && b[p] in b;
    SectorsDiffer(g, a[q], r, b[p], s);
  }

  ghost predicate Fits(g: Geometry, n: nat, ch: seq<nat>) {
    g.csize > 0 && forall j {:trigger Secs(g, ch)[j]} :: 0 <= j < |Secs(g, ch)| ==> Secs(g, ch)[j] < n
  }

  lemma FileFits(g: Geometry, n: nat, ch: seq<nat>)
    requires FatLayout(g, n) && DataLayout(g, n) && AllClusters(g, ch)
    ensures Fits(g, n, ch)
  {
    hide FatLayout, DataLayout, Clust2Sect, Secs, SectorCount, InFat, InMirror, At, InRange;
    DataFacts(g, n);
    forall j | 0 <= j < |Secs(g, ch)| ensures Secs(g, ch)[j] < n {
      FileSector(g, n, ch, j);
    }
  }

  /** The sectors of the file with clusters `ch`, as an image shows them. */
  ghost function Raw(g: Geometry, img: seq<Sector>, ch: seq<nat>): (r: seq<Sector>)
    requires Fits(g, |img|, ch)
    ensures |r| == |Secs(g, ch)|
    ensures forall j {:trigger r[j]} :: 0 <= j < |r| ==> r[j] == img[Secs(g, ch)[j]]
  {
    seq(|Secs(g, ch)|, j requires 0 <= j < |Secs(g, ch)| => img[Secs(g, ch)[j]])
  }

  /** The bytes on those sectors; a file's contents are a prefix of them. */
  ghost function Flat(g: Geometry, img: seq<Sector>, ch: seq<nat>): (b: seq<byte>)
    requires Fits(g, |img|, ch)
    ensures |b| == |Secs(g, ch)| * 512
  {
    Flatten(Raw(g, img, ch))
  }

  /** A run of consecutive disk sectors that are consecutive file sectors. */
  ghost predicate Run(g: Geometry, ch: seq<nat>, j: nat, cnt: nat, sect: nat)
    requires g.csize > 0
  {
    j + cnt <= |Secs(g, ch)| && forall i {:trigger Secs(g, ch)[i]} :: j <= i < j + cnt ==> Secs(g, ch)[i] == sect + (i - j)
  }

  /** From any position to the end of its cluster, file and disk run in step. */
  lemma ClusterRun(g: Geometry, ch: seq<nat>, j: nat, q: nat, r: nat, cnt: nat)
    requires At(g, j, q, r) && q < |ch| && r + cnt <= g.csize
    ensures Run(g, ch, j, cnt, Clust2Sect(g, ch[q]) + r)
  {
    hide Secs, SectorCount, Clust2Sect, At;
    forall i: nat | j <= i < j + cnt ensures i < |Secs(g, ch)| && Secs(g, ch)[i] == Clust2Sect(g, ch[q]) + r + (i - j) {
      AtShift(g, j, q, r, i - j);
      SectorAt(g, ch, i, q, r + (i - j));
    }
    if cnt == 0 {
      SectorAt(g, ch, j, q, r);
    } else {
      AtShift(g, j, q, r, cnt - 1);
      SectorAt(g, ch, j + (cnt - 1), q, r + (cnt - 1));
    }
  }

  lemma AtShift(g: Geometry, j: nat, q: nat, r: nat, d: nat)
    requires At(g, j, q, r) && r + d < g.csize
    ensures At(g, j + d, q, r + d)
  {
  }

  /** The bytes of a run. */
  lemma RunBytes(g: Geometry, img: seq<Sector>, ch: seq<nat>, j: nat, cnt: nat, sect: nat)
    requires Fits(g, |img|, ch) && Run(g, ch, j, cnt, sect) && sect + cnt <= |img|
    ensures (j + cnt) * 512 <= |Secs(g, ch)| * 512
    ensures Flatten(img[sect..sect + cnt]) == Flat(g, img, ch)[j * 512..(j + cnt) * 512]
  {
    hide Secs, SectorCount, Flatten;
    var raw := Raw(g, img, ch);
    assert raw[j..j + cnt] == img[sect..sect + cnt];
    FlattenSlice(raw, j, cnt);
  }

  /** The current cluster is the one that holds the byte before the file pointer. */
  ghost predicate ClustOk(g: Geometry, ch: seq<nat>, fptr: nat, clust: nat) {
    fptr > 0 ==> exists q: nat, r: nat {:trigger At(g, SectorOf(fptr - 1), q, r)} :: At(g, SectorOf(fptr - 1), q, r) && q < |ch| && clust == ch[q]
  }

  lemma PrevByte(fptr: nat)
    requires fptr > 0 && OffsetOf(fptr) == 0
    ensures SectorOf(fptr) > 0 && SectorOf(fptr - 1) == SectorOf(fptr) - 1
  {
    DivModUnique(fptr - 1, 512, fptr / 512 - 1, 511);
  }

  lemma PrevSector(m: nat, j: nat)
    requires m > 0 && j > 0
    ensures j % m != 0 ==> (j - 1) / m == j / m
    ensures j % m == 0 ==> j / m > 0 && (j - 1) / m == j / m - 1
  {
    var q, r := j / m, j % m;
    assert j == q * m + r;
    if r != 0 {
      DivModUnique(j - 1, m, q, r - 1);
    } else {
      assert (q - 1) * m == q * m - m;
      DivModUnique(j - 1, m, q - 1, m - 1);
    }
  }

  /** At a sector boundary, the current cluster is that of the next byte, unless a new cluster starts there. */
  lemma Boundary(g: Geometry, ch: seq<nat>, fptr: nat, clust: nat) returns (q: nat, r: nat)
    requires g.csize > 0 && ClustOk(g, ch, fptr, clust) && OffsetOf(fptr) == 0
    ensures At(g, SectorOf(fptr), q, r) && r == SectorOf(fptr) % g.csize
    ensures r != 0 ==> q < |ch| && clust == ch[q]
    ensures r == 0 && fptr > 0 ==> 0 < q <= |ch| && clust == ch[q - 1]
    ensures fptr == 0 ==> q == 0 && r == 0
  {
    hide At, SectorOf, OffsetOf;
    q, r := Position(g, SectorOf(fptr));
    if fptr == 0 {
      Unsplit(0, 0);
      DivModUnique(0, g.csize, 0, 0);
    } else {
      PrevByte(fptr);
      PrevSector(g.csize, SectorOf(fptr));
      var p: nat, s: nat :| At(g, SectorOf(fptr - 1), p, s) && p < |ch| && clust == ch[p];
      var p', s' := Position(g, SectorOf(fptr) - 1);
      AtUnique(g, SectorOf(fptr) - 1, p, s, p', s');
    }
  }

  /** After a transfer that ends in sector `j + d` of the same cluster. */
  lemma Advanced(g: Geometry, ch: seq<nat>, j: nat, q: nat, r: nat, d: nat, fptr: nat)
    requires g.csize > 0 && At(g, j, q, r) && q < |ch| && r + d < g.csize
    requires (j + d) * 512 < fptr <= (j + d + 1) * 512
    ensures ClustOk(g, ch, fptr, ch[q])
  {
    Unsplit(j + d, fptr - 1 - (j + d) * 512);
    AtShift(g, j, q, r, d);
    assert At(g, SectorOf(fptr - 1), q, r + d);
  }

  /** Part of one file sector. */
  lemma PartBytes(g: Geometry, img: seq<Sector>, ch: seq<nat>, j: nat, o: nat, cnt: nat)
    requires Fits(g, |img|, ch) && j < |Secs(g, ch)| && o + cnt <= 512
    ensures j * 512 + o + cnt <= |Secs(g, ch)| * 512
    ensures Flat(g, img, ch)[j * 512 + o..j * 512 + o + cnt] == img[Secs(g, ch)[j]][o..o + cnt]
  {
    hide Secs, SectorCount, Flatten;
    var raw := Raw(g, img, ch);
    FlattenSector(raw, j);
    SliceOfSlice(Flatten(raw), j * 512, j * 512 + 512, o, o + cnt);
  }

  lemma SliceOfSlice(b: seq<byte>, lo: nat, hi: nat, i: nat, j: nat)
    requires lo <= hi <= |b| && i <= j <= hi - lo
    ensures b[lo..hi][i..j] == b[lo + i..lo + j]
  {
    assert |b[lo..hi][i..j]| == |b[lo + i..lo + j]|;
    forall k | 0 <= k < j - i ensures b[lo..hi][i..j][k] == b[lo + i..lo + j][k] { }
  }

  /** A run lies in the data area. */
  lemma RunInData(g: Geometry, n: nat, ch: seq<nat>, j: nat, cnt: nat, sect: nat)
    requires FatLayout(g, n) && DataLayout(g, n) && AllClusters(g, ch) && g.csize > 0
    requires Run(g, ch, j, cnt, sect) && cnt > 0
    ensures DataRange(g, n, sect, cnt)
  {
    hide FatLayout, DataLayout, Clust2Sect, Secs, SectorCount, AllClusters;
    DataFacts(g, n);
    assert Secs(g, ch)[j] == sect && Secs(g, ch)[j + (cnt - 1)] == sect + (cnt - 1);
    FileSector(g, n, ch, j);
    FileSector(g, n, ch, j + (cnt - 1));
    forall s: nat | sect <= s < sect + cnt ensures !InFat(g, s) && !InMirror(g, s) {
      InRun(g, ch, j, cnt, sect, s);
      var i :| 0 <= i < |Secs(g, ch)| && Secs(g, ch)[i] == s;
      FileSector(g, n, ch, i);
    }
  }

  lemma InRun(g: Geometry, ch: seq<nat>, j: nat, cnt: nat, sect: nat, s: nat)
    requires g.csize > 0 && Run(g, ch, j, cnt, sect) && sect <= s < sect + cnt
    ensures s in Secs(g, ch)
  {
    hide Secs, SectorCount;
    assert Secs(g, ch)[j + (s - sect)] == s;
  }

  /** Within one sector, the current cluster stays. */
  lemma SameSector(g: Geometry, ch: seq<nat>, j: nat, o: nat, cnt: nat, clust: nat)
    requires g.csize > 0 && 0 < cnt && o + cnt <= 512
    requires ClustOk(g, ch, j * 512 + o + 1, clust)
    ensures ClustOk(g, ch, j * 512 + o + cnt, clust)
    ensures OffsetOf(j * 512 + o + cnt) != 0 ==> SectorOf(j * 512 + o + cnt) == j
  {
    hide SectorOf, OffsetOf, At;
    Unsplit(j, o);
    Unsplit(j, o + cnt - 1);
    assert SectorOf(j * 512 + o + cnt - 1) == SectorOf(j * 512 + (o + cnt - 1));
    var q: nat, r: nat :| At(g, SectorOf(j * 512 + o + 1 - 1), q, r) && q < |ch| && clust == ch[q];
    assert At(g, SectorOf(j * 512 + o + cnt - 1), q, r);
    if o + cnt == 512 {
      Unsplit(j + 1, 0);
    } else {
      Unsplit(j, o + cnt);
    }
  }

  /** Inside a sector, the byte before the pointer and the byte at the pointer share a cluster. */
  lemma ClustOfNext(g: Geometry, ch: seq<nat>, fptr: nat, clust: nat)
    requires OffsetOf(fptr) != 0 && ClustOk(g, ch, fptr, clust)
    ensures ClustOk(g, ch, fptr + 1, clust)
  {
    hide SectorOf, OffsetOf, At;
    Split(fptr);
    Unsplit(SectorOf(fptr), OffsetOf(fptr) - 1);
    assert fptr > 0;
    var q: nat, r: nat :| At(g, SectorOf(fptr - 1), q, r) && q < |ch| && clust == ch[q];
    assert At(g, SectorOf(fptr + 1 - 1), q, r);
  }

  lemma ClustAtBoundary(g: Geometry, ch: seq<nat>, fptr: nat, q: nat, r: nat)
    requires At(g, SectorOf(fptr), q, r) && q < |ch|
    ensures ClustOk(g, ch, fptr + 1, ch[q])
  {
    assert At(g, SectorOf(fptr + 1 - 1), q, r);
  }

  /** A cluster at the end of the chain adds its sectors at the end of the file. */
  lemma SecsAppend(g: Geometry, ch: seq<nat>, c: nat)
    ensures Secs(g, ch + [c]) == Secs(g, ch) + ClusterSecs(g, c)
  {
    hide ClusterSecs;
    assert (ch + [c])[..|ch|] == ch;
  }

  /** Equal sectors give equal bytes. */
  lemma FlatSame(g: Geometry, a: seq<Sector>, b: seq<Sector>, ch: seq<nat>)
    requires Fits(g, |a|, ch) && |a| == |b|
    requires forall s: nat :: s < |a| && s in Secs(g, ch) ==> b[s] == a[s]
    ensures Flat(g, b, ch) == Flat(g, a, ch)
  {
    hide Secs, Flatten;
    assert Raw(g, b, ch) == Raw(g, a, ch);
  }

  /** Growing the chain keeps the bytes of the file as a prefix. */
  lemma FlatGrows(g: Geometry, img: seq<Sector>, ch: seq<nat>, c: nat)
    requires Fits(g, |img|, ch) && Fits(g, |img|, ch + [c])
    ensures |Flat(g, img, ch)| <= |Flat(g, img, ch + [c])|
    ensures Flat(g, img, ch + [c])[..|Flat(g, img, ch)|] == Flat(g, img, ch)
  {
    hide Secs, Flatten, ClusterSecs;
    SecsAppend(g, ch, c);
    var raw, raw' := Raw(g, img, ch), Raw(g, img, ch + [c]);
    assert raw'[0..|raw|] == raw;
    FlattenSlice(raw', 0, |raw|);
  }

  /** Writing a run of file sectors writes the bytes at its position. */
  lemma FlatOverwrite(g: Geometry, n: nat, img: seq<Sector>, ch: seq<nat>, j: nat, sect: nat, b: seq<Sector>)
    requires FatLayout(g, n) && DataLayout(g, n) && AllClusters(g, ch) && Distinct(ch) && g.csize > 0
    requires n == |img| && Fits(g, |img|, ch) && Run(g, ch, j, |b|, sect) && sect + |b| <= |img|
    ensures j * 512 + |b| * 512 <= |Flat(g, img, ch)|
    ensures Flat(g, Overwrite(img, sect, b), ch) == Patch(Flat(g, img, ch), j * 512, Flatten(b))
  {
    hide FatLayout, DataLayout, Secs, SectorCount, Flatten, Patch;
    var raw, raw' := Raw(g, img, ch), Raw(g, Overwrite(img, sect, b), ch);
    forall i | 0 <= i < |raw| ensures raw'[i] == Overwrite(raw, j, b)[i] {
      if !(j <= i < j + |b|) && sect <= Secs(g, ch)[i] < sect + |b| {
        PositionsDiffer(g, ch, i, j + (Secs(g, ch)[i] - sect));
      }
    }
    assert raw' == Overwrite(raw, j, b);
    FlattenOverwrite(raw, j, b);
  }

  lemma FlattenOverwrite(secs: seq<Sector>, j: nat, b: seq<Sector>)
    requires j + |b| <= |secs|
    ensures j * 512 + |b| * 512 <= |secs| * 512
    ensures Flatten(Overwrite(secs, j, b)) == Patch(Flatten(secs), j * 512, Flatten(b))
  {
    hide Flatten, Patch, Overwrite;
    var l, r := Flatten(Overwrite(secs, j, b)), Patch(Flatten(secs), j * 512, Flatten(b));
    PatchBytes(Flatten(secs), j * 512, Flatten(b));
    forall k | 0 <= k < |secs| * 512 ensures l[k] == r[k] {
      FlattenOverwriteAt(secs, j, b, k);
    }
  }

  lemma FlattenOverwriteAt(secs: seq<Sector>, j: nat, b: seq<Sector>, k: nat)
    requires j + |b| <= |secs| && k < |secs| * 512
    ensures Flatten(Overwrite(secs, j, b))[k]
            == if j * 512 <= k < j * 512 + |b| * 512 then Flatten(b)[k - j * 512] else Flatten(secs)[k]
  {
    hide Flatten;
    var q, o := k / 512, k % 512;
    FlattenAt(Overwrite(secs, j, b), q, o);
    FlattenAt(secs, q, o);
    if j <= q < j + |b| {
      FlattenAt(b, q - j, o);
    }
  }

  /** Patching a file sector patches the bytes at its position. */
  lemma FlatPatch(g: Geometry, n: nat, img: seq<Sector>, ch: seq<nat>, j: nat, o: nat, b: seq<byte>)
    requires FatLayout(g, n) && DataLayout(g, n) && AllClusters(g, ch) && Distinct(ch) && g.csize > 0
    requires n == |img| && Fits(g, |img|, ch) && j < |Secs(g, ch)| && o + |b| <= 512
    ensures Secs(g, ch)[j] < n && j * 512 + o + |b| <= |Flat(g, img, ch)|
    ensures var s := Secs(g, ch)[j];
            Flat(g, img[s := Patch(img[s], o, b)], ch) == Patch(Flat(g, img, ch), j * 512 + o, b)
  {
    hide FatLayout, DataLayout, Secs, SectorCount, Flatten, Patch;
    var s := Secs(g, ch)[j];
    var raw, raw' := Raw(g, img, ch), Raw(g, img[s := Patch(img[s], o, b)], ch);
    forall i | 0 <= i < |raw| ensures raw'[i] == raw[j := Patch(raw[j], o, b)][i] {
      if i != j {
        PositionsDiffer(g, ch, i, j);
      }
    }
    assert raw' == raw[j := Patch(raw[j], o, b)];
    FlattenPatch(raw, j, o, b);
  }

  /** Which cluster of a file holds byte `p`, and which sector of that cluster. */
  function ClusterOf(g: Geometry, p: nat): nat
    requires g.csize > 0
  {
    SectorOf(p) / g.csize
  }

  function SectorInCluster(g: Geometry, p: nat): nat
    requires g.csize > 0
  {
    SectorOf(p) % g.csize
  }

  /** Number of bytes on a chain of `n` clusters. */
  function ClusterBytes(g: Geometry, n: nat): nat {
    SectorCount(g, n) * 512
  }

  /** Bytes per cluster. */
  function ClusterSize(g: Geometry): nat {
    g.csize * 512
  }

  /** A file of `size` bytes needs all of its `n` clusters. */
  ghost predicate Snug(g: Geometry, n: nat, size: nat) {
    ClusterBytes(g, n) < size + ClusterSize(g)
  }

  lemma SnugMore(g: Geometry, n: nat, size: nat, size': nat)
    requires Snug(g, n, size) && size <= size'
    ensures Snug(g, n, size')
  {
    hide SectorCount;
  }

  /** A cluster that a write enters at a sector boundary is needed by the bytes written there. */
  lemma EnteredSnug(g: Geometry, j: nat, q: nat, r: nat, p: nat, size: nat)
    requires At(g, j, q, r) && SectorOf(p) == j && p < size
    ensures Snug(g, q + 1, size)
  {
    hide SectorCount;
    Split(p);
    ClusterBytesStep(g, q);
  }

  /** So is the cluster in which a seek ends. */
  lemma ReachedSnug(g: Geometry, i: nat, left: nat, size: nat)
    requires 0 < left && size == ClusterBytes(g, i) + left
    ensures Snug(g, i + 1, size)
  {
    hide SectorCount;
    ClusterBytesStep(g, i);
  }

  lemma ClusterBytesStep(g: Geometry, n: nat)
    ensures ClusterBytes(g, n + 1) == ClusterBytes(g, n) + g.csize * 512
  {
  }

  lemma ClusterBytesIs(g: Geometry, n: nat)
    ensures ClusterBytes(g, n) == n * ClusterSize(g)
  {
    SectorCountIs(g, n);
  }

  /** The cluster position of the byte before the file pointer, and where that cluster starts. */
  lemma CurrentCluster(g: Geometry, ch: seq<nat>, fptr: nat, clust: nat) returns (q: nat)
    requires g.csize > 0 && fptr > 0 && ClustOk(g, ch, fptr, clust)
    ensures q < |ch| && clust == ch[q] && q == ClusterOf(g, fptr - 1)
    ensures (fptr - 1) / (g.csize * 512) * (g.csize * 512) == ClusterBytes(g, q)
  {
    hide At, SectorCount;
    var v := fptr - 1;
    TwoDigits(v, 512, g.csize);
    var r;
    q, r := Position(g, SectorOf(v));
    var p: nat, s: nat :| At(g, SectorOf(fptr - 1), p, s) && p < |ch| && clust == ch[p];
    AtUnique(g, SectorOf(v), p, s, q, r);
    ClusterBytesIs(g, q);
  }

  /** Where `ofs` bytes into cluster `i` of the chain is. */
  lemma InCluster(g: Geometry, ch: seq<nat>, i: nat, ofs: nat)
    requires g.csize > 0 && i < |ch| && 0 < ofs <= ClusterSize(g)
    ensures ClustOk(g, ch, ClusterBytes(g, i) + ofs, ch[i])
    ensures ClusterBytes(g, i) + ofs <= |Secs(g, ch)| * 512
    ensures OffsetOf(ClusterBytes(g, i) + ofs) == OffsetOf(ofs)
    ensures OffsetOf(ofs) != 0 ==> SectorOf(ofs) < g.csize
    ensures OffsetOf(ofs) != 0 ==>
              var j := SectorOf(ClusterBytes(g, i) + ofs);
              j < |Secs(g, ch)| && Secs(g, ch)[j] == Clust2Sect(g, ch[i]) + SectorOf(ofs)
  {
    hide At, SectorCount, Secs, SectorOf, OffsetOf, ClustOk, Clust2Sect;
    var j := SectorCount(g, i);
    StartOfCluster(g, i);
    Split(ofs - 1);
    Advanced(g, ch, j, i, 0, SectorOf(ofs - 1), ClusterBytes(g, i) + ofs);
    ClusterBytesInside(g, ch, i);
    Split(ofs);
    assert ClusterBytes(g, i) + ofs == (j + SectorOf(ofs)) * 512 + OffsetOf(ofs);
    Unsplit(j + SectorOf(ofs), OffsetOf(ofs));
    if OffsetOf(ofs) != 0 {
      AtShift(g, j, i, 0, SectorOf(ofs));
      SectorAt(g, ch, j + SectorOf(ofs), i, SectorOf(ofs));
    }
  }

  lemma StartOfCluster(g: Geometry, i: nat)
    requires g.csize > 0
    ensures At(g, SectorCount(g, i), i, 0)
  {
  }

  lemma ClusterBytesInside(g: Geometry, ch: seq<nat>, i: nat)
    requires i < |ch|
    ensures ClusterBytes(g, i) + ClusterSize(g) <= |Secs(g, ch)| * 512
  {
    hide SectorCount, Secs;
    SectorCountStep(g, i, |ch|);
  }

  lemma ClusterStartAligned(g: Geometry, i: nat)
    ensures OffsetOf(ClusterBytes(g, i)) == 0
  {
    hide SectorCount;
    Unsplit(SectorCount(g, i), 0);
  }

  lemma NoClusterBytes(g: Geometry)
    ensures ClusterBytes(g, 0) == 0
  {
  }

  /** A goal in or behind the cluster of byte `p - 1` lies behind that cluster's start. */
  lemma StartsBefore(ofs: nat, p: nat, m: nat)
    requires 0 < m && 0 < ofs && 0 < p && (ofs - 1) / m >= (p - 1) / m
    ensures 0 <= (p - 1) / m * m < ofs
  {
    var a, b := (ofs - 1) / m, (p - 1) / m;
    assert ofs - 1 == a * m + (ofs - 1) % m;
    if b < a { MultiplesApart(m, b, a); }
    MulNonNeg(b, m);
  }

  lemma EndOfChainBytes(g: Geometry, ch: seq<nat>)
    ensures ClusterBytes(g, |ch|) == |Secs(g, ch)| * 512
  {
  }

  /** A file that got a cluster which its bytes need is longer than all that it could hold before. */
  lemma GrownPast(g: Geometry, n: nat, n': nat, size: nat, size': nat)
    requires n < n' && size <= ClusterBytes(g, n) && Snug(g, n', size')
    ensures size < size'
  {
    hide SectorCount;
    SectorCountStep(g, n, n');
  }

  /** A chain of a well-formed volume has distinct clusters, all in range. */
  lemma ChainGood(g: Geometry, fat: seq<nat>, chains: map<nat, seq<nat>>, h: nat)
    requires Chains.ChainsOk(fat, chains) && h in chains && |fat| == g.nFatent
    ensures AllClusters(g, chains[h]) && Distinct(chains[h]) && chains[h] != []
  {
    var ch := chains[h];
    Allocation.ChainFormed(fat, chains, h);
    forall i, j | 0 <= i < j < |ch| ensures ch[i] != ch[j] {
      Chains.ChainDistinct(fat, ch, i, j);
    }
  }
}
