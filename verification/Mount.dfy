/** Mounting (src/ff.cpp: check_fs, chk_mounted), and the round trip with f_mkfs. */
module Mount {
  import opened Arith
  import opened Sealed
  import opened Bytes
  import opened Geometry
  import opened RamDisk
  import opened Window
  import opened InfoSector
  import opened Format
  import opened FatTable
  import opened FatAccess
  import opened Chains
  import opened Allocation

  datatype Mounted = NotMounted(res: FResult) | MountedAs(geo: Geometry)

  /** check_fs: 0 for a FAT boot record, 1 for another boot record, 2 for none, 3 for a disk error. */
  function CheckFs(d: seq<Sector>, s: nat): (r: nat)
    ensures r <= 3 && (r <= 2 ==> s < |d|)
  {
    if s >= |d| then 3
    else if !Signed(d[s]) then 2
    else if FatString(d[s], 54) || FatString(d[s], 82) then 0
    else 1
  }

  /** Where the volume starts: sector 0, or where the first partition entry says; and what check_fs says of it. */
  function FindVolume(d: seq<Sector>): (r: (nat, nat))
    ensures r.0 == 0 ==> r.1 < |d|
  {
    var fmt := CheckFs(d, 0);
    if fmt == 1 && d[0][450] != 0 then
      var at := LdDword(d[0], 454);
      (CheckFs(d, at), at)
    else (fmt, 0)
  }

  /** Whether a boot sector field counts sectors per cluster. */
  predicate UnitByte(b: nat) {
    b in {1, 2, 4, 8, 16, 32, 64, 128}
  }

  /** The fields of a boot sector that a mount reads. */
  datatype Bpb = Bpb(bytesPerSec: nat, fatSize: nat, nFats: nat, csize: nat, rootEntries: nat, total: nat,
                     reserved: nat, rootClus: nat, fsInfo: nat)

  function ReadBpb(s: Sector): Bpb {
    Bpb(LdWord(s, 11), if LdWord(s, 22) != 0 then LdWord(s, 22) else LdDword(s, 36), s[16], s[13], LdWord(s, 17),
        if LdWord(s, 19) != 0 then LdWord(s, 19) else LdDword(s, 32), LdWord(s, 14), LdDword(s, 44), LdWord(s, 48))
  }

  /** The geometry that chk_mounted derives, or its refusal. */
  function Derive(b: Bpb, bsect: nat): Mounted {
    if b.bytesPerSec != 512 then NotMounted(FrNoFilesystem)
    else if b.nFats != 1 && b.nFats != 2 then NotMounted(FrNoFilesystem)
    else if !UnitByte(b.csize) then NotMounted(FrNoFilesystem)
    else if b.rootEntries % 16 != 0 then NotMounted(FrNoFilesystem)
    else if b.reserved == 0 then NotMounted(FrNoFilesystem)
    else
      var fasize := W32(b.fatSize * b.nFats);
      var sysect := W32(b.reserved + fasize + b.rootEntries / 16);
      if b.total < sysect then NotMounted(FrNoFilesystem)
      else
        var nclst := Clusters(b.total - sysect, b.csize);
        if nclst == 0 then NotMounted(FrNoFilesystem)
        else
          var fmt := TypeFor(nclst);
          var n := W32(nclst + 2);
          var need := match fmt case Fat32 => W32(n * 4) case Fat16 => n * 2 case Fat12 => n * 3 / 2 + n % 2;
          if fmt == Fat32 && b.rootEntries != 0 then NotMounted(FrNoFilesystem)
          else if fmt != Fat32 && b.rootEntries == 0 then NotMounted(FrNoFilesystem)
          else if b.fatSize < W32(need + 511) / 512 then NotMounted(FrNoFilesystem)
          else
            MountedAs(Geometry(fmt, b.nFats, b.csize, b.rootEntries, n, b.fatSize, W32(bsect + b.reserved),
                               if fmt == Fat32 then b.rootClus else W32(W32(bsect + b.reserved) + fasize), W32(bsect + sysect),
                               if fmt == Fat32 then W32(bsect + b.fsInfo) else 0))
  }

  /** Sectors before the clusters, counted without wrap-around. */
  function SystemOf(b: Bpb): nat {
    b.reserved + b.fatSize * b.nFats + b.rootEntries / 16
  }

  /** What the mount does not check of a boot sector: that the areas lie on the disk, one behind the other, that FAT32 can
      number the clusters, and where its root and its FSInfo sector are. */
  predicate BootFits(b: Bpb, bsect: nat, n: nat)
    requires b.csize > 0
  {
    && SystemOf(b) <= b.total
    && var k := Clusters(b.total - SystemOf(b), b.csize);
    && bsect + SystemOf(b) + k * b.csize <= n && k < 0x0FFF_FFF0
    && (TypeFor(k) == Fat32 ==> 2 <= b.rootClus < k + 2 && 1 <= W32(bsect + b.fsInfo) < bsect + b.reserved)
  }

  /** The fields that ReadBpb can yield. */
  predicate BpbOk(b: Bpb) {
    && b.fatSize < 0x1_0000_0000 && b.nFats < 0x100 && b.csize < 0x100 && b.rootEntries < 0x1_0000 && b.total < 0x1_0000_0000
    && b.reserved < 0x1_0000 && b.rootClus < 0x1_0000_0000 && b.fsInfo < 0x1_0000
  }

  lemma ReadBpbOk(s: Sector)
    ensures BpbOk(ReadBpb(s))
  {
    hide LdWord, LdDword;
  }

  /** The mount's own sums: all FATs, all sectors before the clusters, and the clusters behind them. */
  function FatSum(b: Bpb): nat {
    W32(b.fatSize * b.nFats)
  }

  function SystemSum(b: Bpb): nat {
    W32(b.reserved + FatSum(b) + b.rootEntries / 16)
  }

  function ClusterCount(b: Bpb): nat
    requires b.csize > 0
  {
    if b.total < SystemSum(b) then 0 else Clusters(b.total - SystemSum(b), b.csize)
  }

  /** What an accepted boot sector has passed. */
  lemma DerivedMeans(b: Bpb, bsect: nat, g: Geometry)
    requires Derive(b, bsect) == MountedAs(g)
    ensures UnitByte(b.csize) && b.csize > 0 && b.rootEntries % 16 == 0 && b.reserved > 0 && SystemSum(b) <= b.total
    ensures (g.nFats == 1 || g.nFats == 2) && g.nFats == b.nFats && g.csize == b.csize && g.nRootdir == b.rootEntries
            && g.fsize == b.fatSize
    ensures ClusterCount(b) > 0 && g.fsType == TypeFor(ClusterCount(b)) && (g.fsType == Fat32 <==> b.rootEntries == 0)
    ensures g.nFatent == W32(ClusterCount(b) + 2) && g.fatbase == W32(bsect + b.reserved)
            && g.database == W32(bsect + SystemSum(b))
    ensures g.dirbase == if g.fsType == Fat32 then b.rootClus else W32(g.fatbase + FatSum(b))
    ensures g.fsType == Fat32 ==> g.fsiSector == W32(bsect + b.fsInfo)
    ensures ClusterCount(b) < 0x0FFF_FFF0 ==> FatBytesNeeded(g.fsType, ClusterCount(b) + 2) <= b.fatSize * 512
  {
    hide Clusters, W32;
    W32Small();
  }

  lemma W32Small()
    ensures forall n: nat {:trigger W32(n)} :: n < 0x1_0000_0000 ==> W32(n) == n
  {
  }

  lemma UnitPower(b: nat)
    requires UnitByte(b)
    ensures 1 <= b <= 128 && PowerOfTwo(b)
  {
    assert PowerOfTwo(2) && PowerOfTwo(4) && PowerOfTwo(8);
    assert PowerOfTwo(16) && PowerOfTwo(32) && PowerOfTwo(64);
  }

  lemma ClustersBelow(m: nat, c: nat)
    requires c > 0 && m < 0x1_0000_0000
    ensures Clusters(m, c) <= m && Clusters(m, c) * c <= m
  {
    ClustersMonotone(m, m, c);
    ClustersTimes(m, c);
  }

  /** If the areas fit, no sum of the mount wraps. */
  lemma FittingNumbers(b: Bpb, bsect: nat, n: nat)
    requires BpbOk(b) && b.csize > 0 && n <= 0xFFFF_FFFF && BootFits(b, bsect, n)
    ensures var k := Clusters(b.total - SystemOf(b), b.csize);
            && FatSum(b) == b.fatSize * b.nFats && SystemSum(b) == SystemOf(b) && ClusterCount(b) == k
            && W32(k + 2) == k + 2 && W32(bsect + b.reserved) == bsect + b.reserved
                 && W32(bsect + SystemOf(b)) == bsect + SystemOf(b)
            && W32(bsect + b.reserved + FatSum(b)) == bsect + b.reserved + FatSum(b)
            && bsect + SystemOf(b) + k * b.csize <= n && k < 0x0FFF_FFF0
            && (TypeFor(k) == Fat32 ==> 2 <= b.rootClus < k + 2 && 1 <= W32(bsect + b.fsInfo) < bsect + b.reserved)
  {
    hide Clusters, W32;
    W32Small();
    ClustersBelow(b.total - SystemOf(b), b.csize);
    MulNonNeg(b.fatSize, b.nFats);
    MulNonNeg(Clusters(b.total - SystemOf(b), b.csize), b.csize);
  }

  /** Then the geometry is in order. */
  lemma FittingIsSound(b: Bpb, bsect: nat, g: Geometry, n: nat)
    requires Derive(b, bsect) == MountedAs(g) && BpbOk(b) && b.csize > 0 && n <= 0xFFFF_FFFF && BootFits(b, bsect, n)
    ensures FatLayout(g, n) && DataLayout(g, n) && bsect < g.fatbase
  {
    hide Clusters, FatBytesNeeded, PowerOfTwo, UnitByte, W32, Derive, BootFits, FatSum, SystemSum, ClusterCount;
    DerivedMeans(b, bsect, g);
    FittingNumbers(b, bsect, n);
    UnitPower(b.csize);
    MulNonNeg(ClusterCount(b), b.csize);
    TwoFats(b);
  }

  lemma TwoFats(b: Bpb)
    requires b.nFats == 1 || b.nFats == 2
    ensures b.fatSize * b.nFats == if b.nFats == 2 then 2 * b.fatSize else b.fatSize
  {
  }

  /** Conversely, a geometry in order shows that nothing wrapped. */
  lemma SoundIsFitting(b: Bpb, bsect: nat, g: Geometry, n: nat)
    requires Derive(b, bsect) == MountedAs(g) && BpbOk(b) && b.csize > 0 && n <= 0xFFFF_FFFF && bsect < n
    requires FatLayout(g, n) && DataLayout(g, n) && bsect < g.fatbase
    ensures BootFits(b, bsect, n)
  {
    hide Clusters, FatBytesNeeded, PowerOfTwo, UnitByte, Derive, W32, SystemSum, FatSum, ClusterCount;
    DerivedMeans(b, bsect, g);
    MulNonNeg(g.nFatent - 2, g.csize);
    NoWrap(bsect, b.reserved);
    TwoFats(b);
    SoundNumbers(b, bsect, g, n);
    ClustersBelow(b.total - SystemOf(b), b.csize);
  }

  lemma SoundNumbers(b: Bpb, bsect: nat, g: Geometry, n: nat)
    requires BpbOk(b) && b.csize > 0 && n <= 0xFFFF_FFFF && g.nFats == b.nFats && g.fsize == b.fatSize
             && FatEnd(g) <= g.database <= n
    requires g.fatbase == bsect + b.reserved && g.database == W32(bsect + SystemSum(b)) && SystemSum(b) <= b.total
    requires b.fatSize * b.nFats == if b.nFats == 2 then 2 * b.fatSize else b.fatSize
    requires b.rootEntries == 0 || g.database == FatEnd(g) + b.rootEntries / 16
    requires g.nFatent == W32(ClusterCount(b) + 2) && ClusterCount(b) > 0 && g.nFatent >= 3
    ensures SystemSum(b) == SystemOf(b) && g.database == bsect + SystemOf(b)
    ensures g.nFatent == ClusterCount(b) + 2 && ClusterCount(b) == Clusters(b.total - SystemOf(b), b.csize)
  {
    hide Clusters;
    ClustersBelow(b.total - SystemSum(b), b.csize);
  }

  lemma NoWrap(a: nat, b: nat)
    requires a < 0x1_0000_0000 && b < 0x1_0000 && a < W32(a + b)
    ensures W32(a + b) == a + b < 0x1_0000_0000
  {
  }

  /** Which accepted disks yield a geometry that the file system can work with: exactly those whose boot sector fits. */
  lemma AcceptedIsSound(d: seq<Sector>, g: Geometry)
    requires MountOf(d) == MountedAs(g) && |d| <= 0xFFFF_FFFF
    ensures var at := FindVolume(d).1;
            at < |d| && ReadBpb(d[at]).csize > 0
            && (FatLayout(g, |d|) && DataLayout(g, |d|) && at < g.fatbase <==> BootFits(ReadBpb(d[at]), at, |d|))
  {
    hide FatLayout, DataLayout, BootFits, Derive, ReadBpb, BpbOk, Clusters, FatSum, SystemSum, ClusterCount;
    var at := FindVolume(d).1;
    var b := ReadBpb(d[at]);
    ReadBpbOk(d[at]);
    DerivedMeans(b, at, g);
    if BootFits(b, at, |d|) { FittingIsSound(b, at, g, |d|); }
    if FatLayout(g, |d|) && DataLayout(g, |d|) && at < g.fatbase { SoundIsFitting(b, at, g, |d|); }
  }

  /** What a mount makes of a disk. */
  function MountOf(d: seq<Sector>): Mounted {
    var (fmt, at) := FindVolume(d);
    if fmt == 3 then NotMounted(FrDiskErr)
    else if fmt != 0 then NotMounted(FrNoFilesystem)
    else Derive(ReadBpb(d[at]), at)
  }

  /** The geometry of a layout: what a mount has to find. */
  function GeoOf(l: Layout): Geometry {
    Geometry(l.fmt, 1, l.au, if l.fmt == Fat32 then 0 else 512, l.nClst + 2, l.nFat, BFat(l),
             if l.fmt == Fat32 then 2 else BDir(l), BDir(l) + l.nDir, if l.fmt == Fat32 then l.bVol + 1 else 0)
  }

  lemma BootRead(d: seq<Sector>, l: Layout)
    requires Formatted(d, l)
    ensures l.bVol < |d|
    ensures ReadBpb(d[l.bVol]) == Bpb(512, l.nFat, 1, l.au, if l.fmt == Fat32 then 0 else 512, l.nVol, l.nRsv,
                                      LdDword(d[l.bVol], 44), LdWord(d[l.bVol], 48))
    ensures l.fmt == Fat32 ==> LdDword(d[l.bVol], 44) == 2 && LdWord(d[l.bVol], 48) == 1
  {
    hide LdWord, LdDword, FatBytesNeeded, Clusters, MbrOk, FsInfoOk, FatStart;
  }

  lemma VolumeFound(d: seq<Sector>, l: Layout)
    requires Formatted(d, l)
    ensures FindVolume(d) == (0, l.bVol)
  {
    hide LdWord, FatBytesNeeded, Clusters, FsInfoOk, FatStart;
    if l.bVol != 0 {
      assert MbrOk(d[0], l);
    }
  }

  lemma UnitIsByte(au: nat)
    requires UnitSound(au)
    ensures UnitByte(au)
  {
    assert Opened(0);
    PowerUpTo128(au);
  }

  lemma PowerUpTo128(n: nat)
    requires PowerOfTwo(n) && n <= 128
    ensures UnitByte(n)
  {
    if n > 1 {
      PowerUpTo128(n / 2);
    }
  }

  lemma EnoughFat(l: Layout, total: nat)
    requires LayoutOk(l, total)
    ensures l.nFat >= (FatBytesNeeded(l.fmt, l.nClst + 2) + 511) / 512
  {
    assert Opened(0);
  }

  /** The boot sector of a layout yields its geometry. */
  lemma LayoutDerives(l: Layout, total: nat, rootClus: nat, fsInfo: nat)
    requires LayoutOk(l, total) && l.nClst >= 1 && (l.fmt == Fat32 ==> rootClus == 2 && fsInfo == 1)
    ensures Derive(Bpb(512, l.nFat, 1, l.au, if l.fmt == Fat32 then 0 else 512, l.nVol, l.nRsv, rootClus, fsInfo), l.bVol)
            == MountedAs(GeoOf(l))
  {
    hide Clusters, UnitSound, UnitByte, W32;
    UnitIsByte(l.au);
    EnoughFat(l, total);
  }

  /** A formatted disk mounts with the layout's FAT type, FAT and data start, cluster size and cluster count. */
  lemma FormattedMounts(d: seq<Sector>, l: Layout)
    requires Formatted(d, l)
    ensures MountOf(d) == MountedAs(GeoOf(l))
  {
    hide Derive, ReadBpb, BootOk, GeoOf, LayoutOk, FindVolume;
    VolumeFound(d, l);
    BootRead(d, l);
    LayoutDerives(l, |d|, LdDword(d[l.bVol], 44), LdWord(d[l.bVol], 48));
  }

  lemma ClustersTimes(n: nat, au: nat)
    requires au > 0
    ensures Clusters(n, au) * au <= n
  {
    assert n == n / au * au + n % au;
  }

  /** The derived geometry is one that the rest of the file system can work with. */
  lemma GeoFits(l: Layout, total: nat)
    requires LayoutOk(l, total)
    ensures FatLayout(GeoOf(l), total) && DataLayout(GeoOf(l), total)
  {
    assert Opened(0);
    hide Clusters, FatBytesNeeded, PowerOfTwo;
    ClustersTimes(l.nVol - SystemSectors(l), l.au);
    assert PowerOfTwo(l.au) by { UnitIsPower(l.au); }
  }

  lemma UnitIsPower(au: nat)
    requires UnitSound(au)
    ensures PowerOfTwo(au)
  {
    assert Opened(0);
  }

  /** Bytes of a new FAT: the start, then zeros. */
  lemma NewFatByte(d: seq<Sector>, l: Layout, k: nat)
    requires Formatted(d, l) && k < l.nFat * 512
    ensures BFat(l) + l.nFat <= |d| && |FatArea(GeoOf(l), d)| == l.nFat * 512
    ensures FatArea(GeoOf(l), d)[k] == if k < |FatStart(l)| then FatStart(l)[k] else 0
  {
    hide LayoutOk, BootOk, MbrOk, FsInfoOk, FatStart;
    RootInside(l, |d|);
    var g := GeoOf(l);
    var q, o := k / 512, k % 512;
    PositionInFat(g, k);
    ByteInFat(g, d, k, g.fatbase + q, o);
    if q == 0 {
      HasByte(d[BFat(l)], FatStart(l), o);
    } else {
      ZeroInside(d, BFat(l) + 1, RootEnd(l), g.fatbase + q, o);
    }
  }

  lemma HasByte(s: Sector, b: seq<byte>, o: nat)
    requires Has(s, 0, b) && ZeroFrom(s, |b|) && o < 512
    ensures s[o] == if o < |b| then b[o] else 0
  {
  }

  lemma ZeroInside(d: seq<Sector>, lo: nat, hi: nat, s: nat, o: nat)
    requires ZeroSectors(d, lo, hi) && lo <= s < hi && o < 512
    ensures d[s][o] == 0
  {
    assert AllZero(d[s]);
  }

  /** The entries of a new FAT: 0 and 1 reserved, the FAT32 root directory's own, the rest free. */
  lemma NewFatEntry(d: seq<Sector>, l: Layout, c: nat)
    requires Formatted(d, l) && FatLayout(GeoOf(l), |d|) && c < l.nClst + 2
    ensures var v := FatOf(GeoOf(l), d)[c];
            if c < 2 then v != 0 else if c == 2 && l.fmt == Fat32 then v == 0x0FFF_FFFF else v == 0
  {
    hide LayoutOk, BootOk, MbrOk, FsInfoOk, FatArea, FatBytesNeeded, Formatted, FatOf;
    var g := GeoOf(l);
    assert l.nClst >= 1 && RootEnd(l) <= |d| by { FormattedFacts(d, l); }
    EntryInFat(g, d, c);
    var at := EntryOffset(l.fmt, c);
    NewFatByte(d, l, at);
    NewFatByte(d, l, at + 1);
    if l.fmt == Fat32 {
      NewFatByte(d, l, at + 2);
      NewFatByte(d, l, at + 3);
    }
    MediaIs(d, l);
  }

  lemma FormattedFacts(d: seq<Sector>, l: Layout)
    requires Formatted(d, l)
    ensures l.nClst >= 1 && RootEnd(l) <= |d|
  {
  }

  lemma MediaIs(d: seq<Sector>, l: Layout)
    requires Formatted(d, l)
    ensures l.md == 0xF0 || l.md == 0xF8
  {
    hide BootOk, MbrOk, FsInfoOk, FatStart;
    MediaKnown(l, |d|);
  }

  /** The chains of a new volume: none, or the FAT32 root directory. */
  function NewChains(l: Layout): map<nat, seq<nat>> {
    if l.fmt == Fat32 then map[2 := [2]] else map[]
  }

  /** A FAT on which only the reserved entries, and perhaps cluster 2, are used. */
  ghost predicate NewFat(fat: seq<nat>, root: bool) {
    && |fat| >= 3 && fat[0] != 0 && fat[1] != 0 && (if root then fat[2] >= |fat| else fat[2] == 0)
    && forall c {:trigger fat[c]} :: 3 <= c < |fat| ==> fat[c] == 0
  }

  lemma NewChainsOk(fat: seq<nat>, l: Layout)
    requires NewFat(fat, l.fmt == Fat32)
    ensures ChainsOk(fat, NewChains(l)) && ReservedUsed(fat)
  {
    if l.fmt == Fat32 {
      SingleIsChain(fat, 2);
      assert 2 in NewChains(l) && 2 in NewChains(l)[2];
      assert Owned(NewChains(l), 2);
    }
  }

  lemma {:induction false} NewFreeCount(fat: seq<nat>, root: bool, k: nat)
    requires NewFat(fat, root) && 3 <= k <= |fat|
    ensures FreeBelow(fat, k) == if root then k - 3 else k - 2
  {
    if k > 3 {
      NewFreeCount(fat, root, k - 1);
    } else {
      assert FreeBelow(fat, 2) == 0;
    }
  }

  /** Directly after a format and a mount, the volume is in order: no cluster is used but the FAT32 root directory's, the
      cached free count is right, and the root directory is all zero. */
  lemma NewVolumeOk(fs: FatFs, l: Layout)
    requires Formatted(fs.disk[..], l) && fs.geo == GeoOf(l) && fs.win.Length == 512 && fs.winsect == 0 && !fs.wflag
    requires fs.freeClust == (if l.fmt == Fat32 then l.nClst - 1 else NO_CLUSTER) && fs.chains == NewChains(l)
    ensures VolumeOk(fs) && fs.Img() == fs.disk[..]
  {
    hide FatLayout, DataLayout, FatOf, Formatted, FreeBelow, ChainsOk, LayoutOk, InfoFresh, FsInfo;
    var d := fs.disk[..];
    assert LayoutOk(l, |d|) by { LayoutOf(d, l); }
    GeoFits(l, |d|);
    assert fs.Valid();
    assert fs.Img() == d;
    var fat := Fat(fs);
    forall c | 0 <= c < |fat| ensures if c < 2 then fat[c] != 0 else if c == 2 && l.fmt == Fat32
           then fat[c] == 0x0FFF_FFFF else fat[c] == 0 {
      NewFatEntry(d, l, c);
    }
    ClusterLimit(l, |d|);
    NewChainsOk(fat, l);
    NewFreeCount(fat, l.fmt == Fat32, |fat|);
    NewFsInfo(d, l);
    InfoFreshIs(fs.geo, d, fs.freeClust, fs.fsiFlag);
  }

  lemma LayoutOf(d: seq<Sector>, l: Layout)
    requires Formatted(d, l)
    ensures LayoutOk(l, |d|)
  {
  }

  lemma ClusterLimit(l: Layout, total: nat)
    requires LayoutOk(l, total)
    ensures 1 <= l.nClst < 0x0FFF_FFF0
  {
  }

  /** Neither the boot sector nor the FSInfo sector is the last that 32 bits can number. */
  ghost predicate NoLastSector(d: seq<Sector>) {
    FindVolume(d).1 < 0xFFFF_FFFF && (MountOf(d).MountedAs? ==> MountOf(d).geo.fsiSector < 0xFFFF_FFFF)
  }

  lemma FormattedInside(d: seq<Sector>, l: Layout)
    requires Formatted(d, l)
    ensures NoLastSector(d)
  {
    hide MountOf, FindVolume, LayoutOk, BootOk, MbrOk, FsInfoOk, FatStart;
    FormattedMounts(d, l);
    VolumeFound(d, l);
  }

  /** chk_mounted on an unmounted volume. */
  method ChkMounted(disk: array<Sector>) returns (res: FResult, fs: FatFs?)
    requires NoLastSector(disk[..])
    ensures match MountOf(disk[..])
            case NotMounted(r) => res == r && r != FrOk && fs == null
            case MountedAs(g) =>
              && res == FrOk && fs != null && fresh(fs) && fresh(fs.win) && fs.geo == g && fs.disk == disk && fs.win.Length == 512
              && fs.winsect == 0 && !fs.wflag && !fs.fsiFlag && fs.chains == map[]
              && (fs.lastClust, fs.freeClust) == FsInfo(disk[..], g)
  {
    hide LdWord, LdDword, Clusters, FatString, Signed, Derive, ReadBpb;
    ghost var d := disk[..];
    fs := null;
    var fmt, bsect := FindBootSector(disk);
    if fmt == 3 { return FrDiskErr, null; }
    if fmt != 0 { return FrNoFilesystem, null; }
    var win := disk[bsect];
    var m := Derive(ReadBpb(win), bsect);
    match m
    case NotMounted(r) =>
      DeriveRefuses(ReadBpb(win), bsect);
      return r, null;
    case MountedAs(g) =>
      var last, free := ReadFsInfo(disk, g);
      fs := new FatFs(g, disk, last, free);
      return FrOk, fs;
  }

  lemma DeriveRefuses(b: Bpb, bsect: nat)
    ensures Derive(b, bsect).NotMounted? ==> Derive(b, bsect).res == FrNoFilesystem
  {
    hide Clusters, W32;
  }

  method FindBootSector(disk: array<Sector>) returns (fmt: nat, bsect: nat)
    requires FindVolume(disk[..]).1 < 0xFFFF_FFFF
    ensures (fmt, bsect) == FindVolume(disk[..])
  {
    hide LdDword, FatString, Signed;
    bsect := 0;
    fmt := CheckSector(disk, bsect);
    if fmt == 1 {
      if disk[0][450] != 0 {
        bsect := LdDword(disk[0], 454);
        fmt := CheckSector(disk, bsect);
      }
    }
  }

  method CheckSector(disk: array<Sector>, s: nat) returns (r: nat)
    requires s < 0xFFFF_FFFF
    ensures r == CheckFs(disk[..], s)
  {
    var res, data := DiskRead(disk, s, 1);
    if res != ResOk { return 3; }
    if !Signed(data[0]) { return 2; }
    if FatString(data[0], 54) { return 0; }
    if FatString(data[0], 82) { return 0; }
    return 1;
  }

  method ReadFsInfo(disk: array<Sector>, g: Geometry) returns (last: nat, free: nat)
    requires g.fsiSector < 0xFFFF_FFFF
    ensures (last, free) == FsInfo(disk[..], g)
  {
    hide LdDword, Signed;
    last, free := 0, NO_CLUSTER;
    if g.fsType == Fat32 {
      var res, data := DiskRead(disk, g.fsiSector, 1);
      if res == ResOk && Signed(data[0]) && LdDword(data[0], 0) == 0x4161_5252 && LdDword(data[0], 484) == 0x6141_7272 {
        last := LdDword(data[0], 492);
        free := LdDword(data[0], 488);
      }
    }
  }

  lemma NewFsInfo(d: seq<Sector>, l: Layout)
    requires Formatted(d, l)
    ensures l.nClst >= 1 && FsInfo(d, GeoOf(l)) == if l.fmt == Fat32 then (2, l.nClst - 1) else (0, NO_CLUSTER)
  {
    hide LdDword, LdWord, BootOk, MbrOk, FatStart, Clusters, FatBytesNeeded;
  }

  /** Formatting and mounting, as ramdisk_init does: if the format succeeds, so does the mount, with the layout's geometry,
      and the volume is in order and empty. */
  method FormatAndMount(disk: array<Sector>, sfd: nat, unit: nat, serial: nat) returns (res: FResult, fs: FatFs?, l: Layout)
    requires disk.Length <= 0xFFFF_FFFF && (unit != 0 ==> Clusters(disk.Length, UnitSectors(unit)) < 0x0FFF_FFF0)
    modifies disk
    ensures res == FrOk ==>
              && fs != null && fresh(fs) && fresh(fs.win) && fs.disk == disk && Formatted(disk[..], l)
                   && fs.geo == GeoOf(l) && fs.chains == NewChains(l)
              && VolumeOk(fs) && fs.Img() == disk[..] && fs.Clean()
              && l.bVol == (if sfd == 1 then 0 else 63) && l.au > 0 && FatChosen(l) && l.au == UnitFor(l.nVol, unit)
    ensures res == FrOk || res == FrInvalidParameter || res == FrDiskErr || res == FrMkfsAborted
    ensures res == FrInvalidParameter <==> sfd > 1 || !UnitOk(unit)
    ensures res == FrDiskErr <==> sfd <= 1 && UnitOk(unit) && disk.Length < 128
    ensures res == FrMkfsAborted ==> 1 <= l.au && PlannedFor(l, disk.Length, sfd == 1, unit) && !HasRoom(l)
    ensures res != FrOk ==> disk[..] == old(disk[..])
  {
    hide *;
    fs := null;
    res, l := Mkfs(disk, sfd, unit, serial);
    if res != FrOk { return; }
    FormattedMounts(disk[..], l);
    NewFsInfo(disk[..], l);
    FormattedInside(disk[..], l);
    res, fs := ChkMounted(disk);
    if fs == null { assert false; }
    fs.chains := NewChains(l);
    NewVolumeOk(fs, l);
    NothingWaits(fs);
  }

  lemma NothingWaits(fs: FatFs)
    requires !fs.wflag && !fs.fsiFlag
    ensures fs.Clean()
  {
  }
}
