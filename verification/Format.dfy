/** Making and mounting a volume (src/ff.cpp: f_mkfs, chk_mounted). */
module Format {
  import opened Arith
  import opened Sealed
  import opened Bytes
  import opened Geometry
  import opened RamDisk
  import opened Window
  import opened InfoSector

  /** What f_mkfs decides before it writes. */
  datatype Layout = Layout(
    fmt: FatType,
    bVol: nat,     // first sector of the volume
    nVol: nat,     // its size in sectors
    nRsv: nat,     // reserved sectors
    nFat: nat,     // sectors of the FAT
    nDir: nat,     // sectors of the fixed root directory
    au: nat,       // sectors per cluster
    nClst: nat,    // clusters
    md: byte       // media descriptor
  )

  function SystemSectors(l: Layout): nat {
    l.nRsv + l.nFat + l.nDir
  }

  /** Whole clusters in `n` sectors. */
  function Clusters(n: nat, au: nat): nat
    requires au > 0
  {
    n / au
  }

  lemma ClustersIs(n: nat, au: nat)
    requires au > 0
    ensures Clusters(n, au) == n / au
  {
  }

  /** The FAT type that a mount reads off a cluster count. */
  function TypeFor(n: nat): FatType {
    if n >= 65526 then Fat32 else if n >= 4086 then Fat16 else Fat12
  }

  /** Sectors per cluster that the boot sector can hold. */
  ghost predicate UnitSound(au: nat)
    ensures UnitSound(au) ==> 1 <= au <= 128
  {
    1 <= au <= 128 && forall k: nat {:trigger Opened(k)} :: Opened(k) ==> PowerOfTwo(au)
  }

  lemma UnitSoundIs(au: nat)
    requires 1 <= au <= 128 && PowerOfTwo(au)
    ensures UnitSound(au)
  {
    assert Opened(0);
  }

  /** A layout that fits a disk of `total` sectors: everything has room, and the cluster count agrees with the FAT type. */
  ghost predicate LayoutOk(l: Layout, total: nat)
    ensures LayoutOk(l, total) ==> l.bVol + l.nVol == total <= 0xFFFF_FFFF && l.nVol >= 65 && 1 <= l.au <= 128
    ensures LayoutOk(l, total) ==> SystemSectors(l) <= l.nVol && 1 <= l.nFat && (l.bVol == 0 || l.bVol == 63)
    ensures LayoutOk(l, total) ==> l.nRsv == (if l.fmt == Fat32 then 32 else 1) && l.nDir == (if l.fmt == Fat32 then 0 else 32)
  {
    && l.bVol + l.nVol == total <= 0xFFFF_FFFF && (l.bVol == 0 || l.bVol == 63) && l.nVol >= 65
    && UnitSound(l.au)
    && l.nRsv == (if l.fmt == Fat32 then 32 else 1) && l.nDir == (if l.fmt == Fat32 then 0 else 32)
    && 1 <= l.nFat && (l.fmt != Fat32 ==> l.nFat < 0x1_0000)
    && (forall k: nat {:trigger Opened(k)} :: Opened(k) ==> FatBytesNeeded(l.fmt, l.nClst + 2) <= l.nFat * 512)
    && 1 <= l.nClst < 0x0FFF_FFF0 && TypeFor(l.nClst) == l.fmt
    && SystemSectors(l) <= l.nVol && l.nClst == Clusters(l.nVol - SystemSectors(l), l.au)
    && l.md == (if l.bVol == 0 then 0xF0 else 0xF8)
  }

  /** Bytes per cluster of the automatic choice, by the volume's size in sectors. */
  function AutoBytes(nVol: nat): nat {
    if nVol >= 2_048_000 then 32768
    else if nVol >= 1_024_000 then 16384
    else if nVol >= 512_000 then 8192
    else if nVol >= 256_000 then 4096
    else if nVol >= 128_000 then 2048
    else if nVol >= 64_000 then 16384
    else if nVol >= 32_000 then 8192
    else if nVol >= 16_000 then 4096
    else if nVol >= 8_000 then 2048
    else if nVol >= 4_000 then 1024
    else 512
  }

  /** Sectors per cluster: of the given allocation unit, or of the automatic choice. */
  function UnitFor(nVol: nat, unit: nat): nat {
    UnitSectors(if unit == 0 then AutoBytes(nVol) else unit)
  }

  lemma UnitForIs(nVol: nat, unit: nat)
    ensures UnitFor(nVol, unit) == if unit == 0 then UnitSectors(AutoBytes(nVol)) else UnitSectors(unit)
  {
    hide UnitSectors, AutoBytes;
  }

  lemma AutoBytesAre(nVol: nat)
    ensures AutoBytes(nVol) in {512, 1024, 2048, 4096, 8192, 16384, 32768}
    ensures nVol >= 0x0FFF_FFF0 ==> AutoBytes(nVol) == 32768
  {
  }

  /** The table lookup of the automatic choice. */
  method AutoUnit(nVol: nat) returns (au: nat)
    ensures au == AutoBytes(nVol)
  {
    var vst := [1024, 512, 256, 128, 64, 32, 16, 8, 4, 2, 0];
    var cst := [32768, 16384, 8192, 4096, 2048, 16384, 8192, 4096, 2048, 1024, 512];
    var vs, i := nVol / 2000, 0;
    while vs < vst[i]
      invariant 0 <= i < 11 && forall j {:trigger vst[j]} :: 0 <= j < i ==> vs < vst[j]
      decreases 11 - i
    {
      if i == 10 { assert false; }
      i := i + 1;
    }
    au := cst[i];
    assert i > 0 ==> vs < vst[i - 1];
  }

  /** An allocation unit is given as a power of two, or as 0 for an automatic choice. */
  predicate UnitOk(au: nat) {
    au == 0 || PowerOfTwo(au)
  }

  lemma {:induction false} HalvesArePowers(n: nat)
    requires PowerOfTwo(n)
    ensures PowerOfTwo(n / 2) || n == 1
  {
  }

  /** Sectors per cluster, clipped to what the boot sector can hold. */
  method ClusterUnit(bytes: nat) returns (au: nat)
    requires PowerOfTwo(bytes)
    ensures 1 <= au <= 128 && PowerOfTwo(au) && au == UnitSectors(bytes)
  {
    UnitPower(bytes, 9);
    au := bytes / 512;
    if au == 0 { au := 1; }
    if au > 128 { au := 128; }
    assert PowerOfTwo(2) && PowerOfTwo(4) && PowerOfTwo(8) && PowerOfTwo(16) && PowerOfTwo(32) && PowerOfTwo(64);
  }

  function Pow2(k: nat): (p: nat)
    ensures p > 0
  {
    if k == 0 then 1 else 2 * Pow2(k - 1)
  }

  lemma {:induction false} UnitPower(n: nat, k: nat)
    requires PowerOfTwo(n)
    ensures n / Pow2(k) == 0 || PowerOfTwo(n / Pow2(k))
    ensures k == 9 ==> Pow2(k) == 512
  {
    if k > 0 {
      UnitPower(n, k - 1);
      var q := n / Pow2(k - 1);
      TwoDigits(n, Pow2(k - 1), 2);
      assert n / Pow2(k) == q / 2;
      if q != 0 { HalvesArePowers(q); }
    }
    if k == 9 { assert Pow2(4) == 16 && Pow2(8) == 256; }
  }

  /** Sectors per cluster for a given allocation unit. */
  function UnitSectors(au: nat): (n: nat)
    ensures 1 <= n <= 128
  {
    if au < 512 then 1 else if au > 65536 then 128 else au / 512
  }

  /** Sectors of a FAT for `n` clusters, as f_mkfs computes it. */
  function FatSectors(t: FatType, n: nat): nat {
    var bytes := match t case Fat12 => (n * 3 + 1) / 2 + 3 case Fat16 => n * 2 + 4 case Fat32 => n * 4 + 8;
    (bytes + 511) / 512
  }

  /** A FAT sized for more clusters than the volume gets is large enough. */
  lemma FatLargeEnough(t: FatType, pre: nat, n: nat)
    requires n <= pre
    ensures FatBytesNeeded(t, n + 2) <= FatSectors(t, pre) * 512
    ensures 1 <= FatSectors(t, pre)
    ensures pre < 65526 && t != Fat32 ==> FatSectors(t, pre) < 0x1_0000
  {
    if t == Fat12 {
      Fat12Bytes(pre, n);
    }
  }

  lemma Fat12Bytes(pre: nat, n: nat)
    requires n <= pre
    ensures (n + 2) * 3 / 2 + (n + 2) % 2 <= (pre * 3 + 1) / 2 + 3
  {
    var h := n / 2;
    if n % 2 == 0 {
      DivModUnique((n + 2) * 3, 2, 3 * h + 3, 0);
      DivModUnique(n + 2, 2, h + 1, 0);
      assert (pre * 3 + 1) / 2 >= 3 * h;
    } else {
      DivModUnique((n + 2) * 3, 2, 3 * h + 4, 1);
      DivModUnique(n + 2, 2, h + 1, 1);
      assert (pre * 3 + 1) / 2 >= 3 * h + 2;
    }
  }

  /** A block size of 1 leaves the data start where it is. */
  function RoundUp(x: nat, block: nat): nat
    requires block > 0
  {
    (x + block - 1) / block * block
  }

  lemma NothingToRound(x: nat)
    ensures RoundUp(x, 1) == x
  {
  }

  lemma TypeShrinks(n: nat, pre: nat)
    requires n <= pre
    ensures TypeFor(pre) == Fat12 ==> TypeFor(n) == Fat12
    ensures TypeFor(pre) == Fat16 ==> (n < 4086 <==> TypeFor(n) != Fat16)
    ensures TypeFor(pre) == Fat32 ==> (n < 65526 <==> TypeFor(n) != Fat32)
  {
  }

  lemma FewerClusters(n: nat, sys: nat, au: nat)
    requires 0 < au && sys <= n
    ensures Clusters(n - sys, au) <= Clusters(n, au)
    ensures n >= sys + au ==> Clusters(n - sys, au) >= 1
  {
    ClustersMonotone(n - sys, n, au);
    if n >= sys + au {
      ClustersMonotone(au, n - sys, au);
      DivModUnique(au, au, 1, 0);
    }
  }

  lemma ClustersMonotone(m: nat, n: nat, au: nat)
    requires 0 < au && m <= n
    ensures Clusters(m, au) <= Clusters(n, au) <= n
  {
    if m / au > n / au { MultiplesApart(au, n / au, m / au); }
    MulNonNeg(n / au, au - 1);
  }

  /** What f_mkfs plans for a disk of `total` sectors, before it knows whether that fits. */
  predicate PlannedFor(l: Layout, total: nat, sfd: bool, unit: nat) {
    && l.au > 0 && l.au == UnitFor(l.nVol, unit)
    && l.bVol == (if sfd then 0 else 63) && l.bVol <= total && l.nVol == total - l.bVol && FatChosen(l)
    && l.nRsv == (if l.fmt == Fat32 then 32 else 1) && l.nDir == (if l.fmt == Fat32 then 0 else 32)
  }

  /** The plan leaves a cluster, and as many clusters as its FAT type has. */
  predicate HasRoom(l: Layout)
    requires l.au > 0
  {
    SystemSectors(l) + l.au <= l.nVol && TypeFor(Clusters(l.nVol - SystemSectors(l), l.au)) == l.fmt
  }

  /** The FAT type follows from the volume's size in clusters, and the FAT is the least that has entries for so many. */
  predicate FatChosen(l: Layout)
    requires l.au > 0
  {
    l.fmt == TypeFor(Clusters(l.nVol, l.au)) && LeastFat(l.fmt, Clusters(l.nVol, l.au), l.nFat)
  }

  predicate LeastFat(t: FatType, n: nat, sectors: nat) {
    (sectors - 1) * 512 < FatBytesNeeded(t, n + 2) <= sectors * 512
  }

  lemma FatSectorsLeast(t: FatType, n: nat)
    ensures LeastFat(t, n, FatSectors(t, n))
  {
    if t == Fat12 {
      Fat12Exact(n);
    }
  }

  lemma Fat12Exact(n: nat)
    ensures (n + 2) * 3 / 2 + (n + 2) % 2 == (n * 3 + 1) / 2 + 3
  {
    var h := n / 2;
    if n % 2 == 0 {
      DivModUnique((n + 2) * 3, 2, 3 * h + 3, 0);
      DivModUnique(n + 2, 2, h + 1, 0);
    } else {
      DivModUnique((n + 2) * 3, 2, 3 * h + 4, 1);
      DivModUnique(n + 2, 2, h + 1, 1);
    }
  }

  /** f_mkfs up to its first write, for a given cluster size: it gives up exactly when the volume cannot hold one cluster
      behind its system area, or when the clusters left over are too few for the FAT type it chose. */
  method PlanVolume(total: nat, sfd: bool, au: nat) returns (res: FResult, l: Layout)
    requires 128 <= total <= 0xFFFF_FFFF && UnitSound(au)
    requires Clusters(total - (if sfd then 0 else 63), au) < 0x0FFF_FFF0
    ensures res == FrOk || res == FrMkfsAborted
    ensures l.bVol == (if sfd then 0 else 63) && l.nVol == total - l.bVol && l.au == au && l.md == (if sfd then 0xF0 else 0xF8)
    ensures var pre := Clusters(l.nVol, au);
            l.fmt == TypeFor(pre) && l.nFat == FatSectors(l.fmt, pre)
            && (res == FrOk <==> SystemSectors(l) + au <= l.nVol && TypeFor(Clusters(l.nVol - SystemSectors(l), au)) == l.fmt)
    ensures l.nRsv == (if l.fmt == Fat32 then 32 else 1) && l.nDir == (if l.fmt == Fat32 then 0 else 32)
    ensures res == FrOk ==> LayoutOk(l, total)
  {
    hide *;
    var bVol := if sfd then 0 else 63;
    var nVol := total - bVol;
    var pre := Clusters(nVol, au);
    var fmt := TypeFor(pre);
    var nFat, nRsv, nDir := FatSectors(fmt, pre), if fmt == Fat32 then 32 else 1, if fmt == Fat32 then 0 else 512 * 32 / 512;
    var bData := bVol + nRsv + nFat + nDir;
    l := Layout(fmt, bVol, nVol, nRsv, nFat, nDir, au, 0, if sfd then 0xF0 else 0xF8);
    SystemIs(l);
    if nVol < bData + au - bVol { return FrMkfsAborted, l; }
    NothingToRound(bData);
    var n := RoundUp(bData, 1) - bData;
    if fmt == Fat32 { nRsv := nRsv + n; } else { nFat := nFat + n; }
    var nClst := Clusters(nVol - nRsv - nFat - nDir, au);
    FewerClusters(nVol, nRsv + nFat + nDir, au);
    TypeShrinks(nClst, pre);
    if (fmt == Fat16 && nClst < 4086) || (fmt == Fat32 && nClst < 65526) { return FrMkfsAborted, l; }
    l := l.(nClst := nClst);
    SystemIs(l);
    PlanIsOk(l, total, pre);
    return FrOk, l;
  }

  /** The cluster size that f_mkfs uses: the given one, or an automatic choice. */
  method ChooseUnit(nVol: nat, unit: nat) returns (au: nat)
    requires UnitOk(unit)
    ensures UnitSound(au) && au == UnitFor(nVol, unit)
    ensures unit == 0 && nVol <= 0xFFFF_FFFF ==> Clusters(nVol, au) < 0x0FFF_FFF0
  {
    hide PowerOfTwo, Clusters, UnitSound, AutoBytes;
    var bytes := unit;
    if bytes == 0 {
      bytes := AutoUnit(nVol);
      AutoBytesAre(nVol);
      PowersListed();
    }
    au := ClusterUnit(bytes);
    UnitSoundIs(au);
    if unit == 0 && nVol <= 0xFFFF_FFFF { AutoBound(nVol, au); }
  }

  lemma AutoBound(nVol: nat, au: nat)
    requires nVol <= 0xFFFF_FFFF && 1 <= au && (nVol >= 0x0FFF_FFF0 ==> au == 64)
    ensures Clusters(nVol, au) < 0x0FFF_FFF0
  {
    ClustersMonotone(nVol, nVol, au);
    ClustersIs(nVol, 64);
  }

  lemma PlanMade(l: Layout, total: nat, sfd: bool, unit: nat)
    requires l.au > 0 && l.au == UnitFor(l.nVol, unit) && total >= 128
    requires l.bVol == (if sfd then 0 else 63) && l.nVol == total - l.bVol
    requires l.fmt == TypeFor(Clusters(l.nVol, l.au)) && l.nFat == FatSectors(l.fmt, Clusters(l.nVol, l.au))
    requires l.nRsv == (if l.fmt == Fat32 then 32 else 1) && l.nDir == (if l.fmt == Fat32 then 0 else 32)
    ensures PlannedFor(l, total, sfd, unit) && FatChosen(l)
    ensures HasRoom(l) <==> SystemSectors(l) + l.au <= l.nVol && TypeFor(Clusters(l.nVol - SystemSectors(l), l.au)) == l.fmt
  {
    hide Clusters, FatSectors, UnitSectors, TypeFor, LeastFat;
    FatSectorsLeast(l.fmt, Clusters(l.nVol, l.au));
  }

  /** f_mkfs up to its first write. */
  method Plan(total: nat, sfd: bool, unit: nat) returns (res: FResult, l: Layout)
    requires total <= 0xFFFF_FFFF && (unit != 0 ==> Clusters(total, UnitSectors(unit)) < 0x0FFF_FFF0)
    ensures res == FrInvalidParameter <==> !UnitOk(unit)
    ensures res == FrDiskErr <==> UnitOk(unit) && total < 128
    ensures res == FrOk ==> LayoutOk(l, total) && l.bVol == (if sfd then 0 else 63) && l.au == UnitFor(l.nVol, unit)
    ensures res == FrOk ==> FatChosen(l)
    ensures res == FrOk || res == FrInvalidParameter || res == FrDiskErr || res == FrMkfsAborted
    ensures res == FrMkfsAborted ==> 1 <= l.au && PlannedFor(l, total, sfd, unit) && !HasRoom(l)
  {
    hide *;
    l := Layout(Fat12, 0, 0, 0, 0, 0, 1, 0, 0xF0);
    if !UnitOk(unit) { return FrInvalidParameter, l; }
    if total < 128 { return FrDiskErr, l; }
    var bVol := if sfd then 0 else 63;
    var au := ChooseUnit(total - bVol, unit);
    UnitForIs(total - bVol, unit);
    ClustersMonotone(total - bVol, total, au);
    res, l := PlanVolume(total, sfd, au);
    PlanMade(l, total, sfd, unit);
  }

  lemma SystemIs(l: Layout)
    ensures SystemSectors(l) == l.nRsv + l.nFat + l.nDir
  {
  }

  lemma PlanIsOk(l: Layout, total: nat, pre: nat)
    requires l.bVol + l.nVol == total <= 0xFFFF_FFFF && (l.bVol == 0 || l.bVol == 63) && total >= 128
    requires UnitSound(l.au) && l.fmt == TypeFor(pre) == TypeFor(l.nClst)
    requires l.nRsv == (if l.fmt == Fat32 then 32 else 1) && l.nDir == (if l.fmt == Fat32 then 0 else 32)
    requires l.nFat == FatSectors(l.fmt, pre) && 1 <= l.nClst <= pre < 0x0FFF_FFF0 && l.md == (if l.bVol == 0 then 0xF0 else 0xF8)
    requires SystemSectors(l) <= l.nVol && l.nClst == Clusters(l.nVol - SystemSectors(l), l.au)
    ensures LayoutOk(l, total)
  {
    FatLargeEnough(l.fmt, pre, l.nClst);
    hide Clusters, FatSectors, PowerOfTwo;
  }

  lemma PowersListed()
    ensures PowerOfTwo(512) && PowerOfTwo(1024) && PowerOfTwo(2048) && PowerOfTwo(4096)
    ensures PowerOfTwo(8192) && PowerOfTwo(16384) && PowerOfTwo(32768)
  {
    assert PowerOfTwo(2) && PowerOfTwo(4) && PowerOfTwo(8) && PowerOfTwo(16) && PowerOfTwo(32) && PowerOfTwo(64)
           && PowerOfTwo(128);
    assert PowerOfTwo(256);
    assert PowerOfTwo(512);
    assert PowerOfTwo(1024);
  }

  predicate FatString(s: Sector, at: nat)
    requires at + 3 <= 512
  {
    s[at] == 0x46 && s[at + 1] == 0x41 && s[at + 2] == 0x54
  }

  /** The boot sector describes the layout `l`. */
  predicate BootOk(s: Sector, l: Layout) {
    && Signed(s) && FatString(s, if l.fmt == Fat32 then 82 else 54)
    && LdWord(s, 11) == 512 && s[13] == l.au && LdWord(s, 14) == l.nRsv && s[16] == 1
    && LdWord(s, 17) == (if l.fmt == Fat32 then 0 else 512)
    && LdWord(s, 19) == (if l.nVol < 0x1_0000 then l.nVol else 0) && LdDword(s, 32) == (if l.nVol < 0x1_0000 then 0 else l.nVol)
    && LdWord(s, 22) == (if l.fmt == Fat32 then 0 else l.nFat)
    && s[21] == l.md && LdWord(s, 24) == 63 && LdWord(s, 26) == 255 && LdDword(s, 28) == l.bVol
    && (l.fmt == Fat32 ==> LdDword(s, 36) == l.nFat && LdDword(s, 44) == 2 && LdWord(s, 48) == 1 && LdWord(s, 50) == 6)
  }

  /** The words of a layout as they are stored in the boot sector. */
  lemma WordsFit(l: Layout, total: nat)
    requires LayoutOk(l, total)
    ensures LdWord(WordBytes(l.nRsv), 0) == l.nRsv && (l.nVol < 0x1_0000 ==> LdWord(WordBytes(l.nVol), 0) == l.nVol)
    ensures LdDword(DwordBytes(l.nVol), 0) == l.nVol && LdDword(DwordBytes(l.nFat), 0) == l.nFat
    ensures l.fmt != Fat32 ==> LdWord(WordBytes(l.nFat), 0) == l.nFat
    ensures LdWord(WordBytes(512), 0) == 512 && LdDword(DwordBytes(2), 0) == 2 && LdWord(WordBytes(1), 0) == 1
    ensures LdWord(WordBytes(6), 0) == 6 && LdWord(WordBytes(63), 0) == 63 && LdWord(WordBytes(255), 0) == 255
    ensures LdDword(DwordBytes(l.bVol), 0) == l.bVol
  {
    hide LdWord, WordBytes, LdDword, DwordBytes;
    WordRoundTrip(l.nRsv);
    WordRoundTrip(l.nVol);
    WordRoundTrip(l.nFat);
    WordRoundTrip(512);
    WordRoundTrip(1);
    WordRoundTrip(6);
    WordRoundTrip(63);
    WordRoundTrip(255);
    DwordRoundTrip(l.bVol);
    DwordRoundTrip(l.nVol);
    DwordRoundTrip(l.nFat);
    DwordRoundTrip(2);
  }

  /** Stores a word, or a double word, in a buffer. */
  method StWord(tbl: array<byte>, at: nat, v: nat)
    requires at + 2 <= tbl.Length
    modifies tbl
    ensures tbl[at] == WordBytes(v)[0] && tbl[at + 1] == WordBytes(v)[1]
    ensures forall k {:trigger tbl[k]} :: 0 <= k < tbl.Length && !(at <= k < at + 2) ==> tbl[k] == old(tbl[k])
  {
    var b := WordBytes(v);
    tbl[at], tbl[at + 1] := b[0], b[1];
  }

  method StDword(tbl: array<byte>, at: nat, v: nat)
    requires at + 4 <= tbl.Length
    modifies tbl
    ensures tbl[at] == DwordBytes(v)[0] && tbl[at + 1] == DwordBytes(v)[1] && tbl[at + 2] == DwordBytes(v)[2]
            && tbl[at + 3] == DwordBytes(v)[3]
    ensures forall k {:trigger tbl[k]} :: 0 <= k < tbl.Length && !(at <= k < at + 4) ==> tbl[k] == old(tbl[k])
  {
    var b := DwordBytes(v);
    tbl[at], tbl[at + 1], tbl[at + 2], tbl[at + 3] := b[0], b[1], b[2], b[3];
  }

  method Clear(tbl: array<byte>)
    modifies tbl
    ensures forall k {:trigger tbl[k]} :: 0 <= k < tbl.Length ==> tbl[k] == 0
  {
    forall i | 0 <= i < tbl.Length {
      tbl[i] := 0;
    }
  }

  method StString(tbl: array<byte>, at: nat, s: seq<byte>)
    requires at + |s| <= tbl.Length
    modifies tbl
    ensures forall k {:trigger tbl[k]} :: 0 <= k < tbl.Length ==> tbl[k] == if at <= k < at + |s| then s[k - at] else old(tbl[k])
  {
    forall i | 0 <= i < |s| {
      tbl[at + i] := s[i];
    }
  }

  predicate ZeroFrom(s: seq<byte>, at: nat) {
    forall k {:trigger s[k]} :: at <= k < |s| ==> s[k] == 0
  }

  /** A field of a sector: the bytes `b` at offset `at`. */
  predicate Has(s: seq<byte>, at: nat, b: seq<byte>) {
    at + |b| <= |s| && forall i {:trigger b[i]} :: 0 <= i < |b| ==> s[at + i] == b[i]
  }

  lemma HasWord(s: seq<byte>, at: nat, b: seq<byte>)
    requires Has(s, at, b)
    ensures |b| == 2 ==> LdWord(s, at) == LdWord(b, 0)
    ensures |b| == 4 ==> LdDword(s, at) == LdDword(b, 0)
    ensures |b| > 0 ==> s[at] == b[0]
    ensures |b| > 1 ==> s[at + 1] == b[1]
    ensures |b| > 2 ==> s[at + 2] == b[2]
  {
    if |b| == 4 { assert s[at + 3] == b[3]; }
  }

  /** Bytes 0 to 18 of a boot sector, the rest zero. */
  method FirstFields(tbl: array<byte>, l: Layout)
    requires tbl.Length == 512 && l.au <= 255
    modifies tbl
    ensures ZeroFrom(tbl[..], 19) && Has(tbl[..], 11, WordBytes(512)) && Has(tbl[..], 13, [l.au])
            && Has(tbl[..], 14, WordBytes(l.nRsv))
    ensures Has(tbl[..], 16, [1]) && Has(tbl[..], 17, WordBytes(if l.fmt == Fat32 then 0 else 512))
  {
    hide WordBytes;
    Clear(tbl);
    StString(tbl, 0, [0xEB, 0xFE, 0x90, 0x4D, 0x53, 0x44, 0x4F, 0x53, 0x35, 0x2E, 0x30]);
    StWord(tbl, 11, 512);
    tbl[13] := l.au;
    StWord(tbl, 14, l.nRsv);
    tbl[16] := 1;
    StWord(tbl, 17, if l.fmt == Fat32 then 0 else 512);
  }

  /** Bytes 19 to 35. */
  method SizeFields(tbl: array<byte>, l: Layout)
    requires tbl.Length == 512 && ZeroFrom(tbl[..], 19)
    modifies tbl
    ensures tbl[..19] == old(tbl[..19]) && ZeroFrom(tbl[..], 36)
    ensures Has(tbl[..], 19, if l.nVol < 0x1_0000 then WordBytes(l.nVol) else [0, 0])
    ensures Has(tbl[..], 32, if l.nVol < 0x1_0000 then [0, 0, 0, 0] else DwordBytes(l.nVol))
    ensures Has(tbl[..], 22, [0, 0]) && Has(tbl[..], 21, [l.md]) && Has(tbl[..], 24, WordBytes(63)) && Has(tbl[..], 26, WordBytes(255))
    ensures Has(tbl[..], 28, DwordBytes(l.bVol))
  {
    hide WordBytes, DwordBytes;
    assert forall k :: 19 <= k < 512 ==> tbl[..][k] == 0;
    if l.nVol < 0x1_0000 {
      StWord(tbl, 19, l.nVol);
    } else {
      StDword(tbl, 32, l.nVol);
    }
    tbl[21] := l.md;
    StWord(tbl, 24, 63);
    StWord(tbl, 26, 255);
    StDword(tbl, 28, l.bVol);
  }

  /** The fields from byte 36 on, for FAT32. */
  method Fat32Fields(tbl: array<byte>, nFat: nat, serial: nat)
    requires tbl.Length == 512
    modifies tbl
    ensures forall k {:trigger tbl[k]} :: 0 <= k < 36 ==> tbl[k] == old(tbl[k])
    ensures Has(tbl[..], 36, DwordBytes(nFat)) && Has(tbl[..], 44, DwordBytes(2)) && Has(tbl[..], 48, WordBytes(1))
    ensures Has(tbl[..], 50, WordBytes(6))
    ensures Has(tbl[..], 82, [0x46, 0x41, 0x54])
  {
    hide WordBytes, DwordBytes;
    StString(tbl, 71, NoName() + [0x46, 0x41, 0x54, 0x33, 0x32, 0x20, 0x20, 0x20]);
    StDword(tbl, 67, serial);
    StDword(tbl, 36, nFat);
    StDword(tbl, 44, 2);
    StWord(tbl, 48, 1);
    StWord(tbl, 50, 6);
    tbl[64], tbl[66] := 0x80, 0x29;
  }

  /** The fields from byte 36 on, and the FAT size further up, for FAT12/16. */
  method Fat16Fields(tbl: array<byte>, nFat: nat, serial: nat)
    requires tbl.Length == 512
    modifies tbl
    ensures forall k {:trigger tbl[k]} :: 0 <= k < 36 && !(22 <= k < 24) ==> tbl[k] == old(tbl[k])
    ensures Has(tbl[..], 22, WordBytes(nFat)) && Has(tbl[..], 54, [0x46, 0x41, 0x54])
  {
    hide WordBytes, DwordBytes;
    StDword(tbl, 39, serial);
    StWord(tbl, 22, nFat);
    tbl[36], tbl[38] := 0x80, 0x29;
    StString(tbl, 43, NoName() + [0x46, 0x41, 0x54, 0x20, 0x20, 0x20, 0x20, 0x20]);
  }

  method TypeFields(tbl: array<byte>, l: Layout, serial: nat)
    requires tbl.Length == 512 && Has(tbl[..], 22, [0, 0])
    modifies tbl
    ensures tbl[..22] == old(tbl[..22]) && tbl[24..36] == old(tbl[24..36])
    ensures Has(tbl[..], 22, if l.fmt == Fat32 then [0, 0] else WordBytes(l.nFat)) && Has(tbl[..], 510, [0x55, 0xAA])
    ensures Has(tbl[..], if l.fmt == Fat32 then 82 else 54, [0x46, 0x41, 0x54])
    ensures l.fmt == Fat32 ==> Has(tbl[..], 36, DwordBytes(l.nFat)) && Has(tbl[..], 44, DwordBytes(2)) && Has(tbl[..], 48, WordBytes(1))
    ensures l.fmt == Fat32 ==> Has(tbl[..], 50, WordBytes(6))
  {
    hide WordBytes, DwordBytes;
    HasWord(tbl[..], 22, [0, 0]);
    if l.fmt == Fat32 {
      Fat32Fields(tbl, l.nFat, serial);
    } else {
      Fat16Fields(tbl, l.nFat, serial);
    }
    tbl[510], tbl[511] := 0x55, 0xAA;
  }

  /** The volume label of a new volume. */
  function NoName(): (s: seq<byte>)
    ensures |s| == 11
  {
    [0x4E, 0x4F, 0x20, 0x4E, 0x41, 0x4D, 0x45, 0x20, 0x20, 0x20, 0x20]
  }

  /** Builds the boot sector of a volume. */
  method MakeBoot(tbl: array<byte>, l: Layout, serial: nat, ghost total: nat)
    requires tbl.Length == 512 && LayoutOk(l, total)
    modifies tbl
    ensures BootOk(tbl[..], l)
  {
    hide WordBytes, DwordBytes, LdWord, LdDword, LayoutOk;
    FirstFields(tbl, l);
    ghost var s1 := tbl[..];
    SizeFields(tbl, l);
    ghost var s2 := tbl[..];
    TypeFields(tbl, l, serial);
    WordsFit(l, total);
    BootIs(s1, s2, tbl[..], l, total);
  }

  lemma Kept(s: seq<byte>, s': seq<byte>, lo: nat, hi: nat, at: nat, b: seq<byte>)
    requires lo <= at && at + |b| <= hi <= |s| && |s'| == |s| && s'[lo..hi] == s[lo..hi] && Has(s, at, b)
    ensures Has(s', at, b)
  {
    forall i | 0 <= i < |b| ensures s'[at + i] == b[i] {
      assert s'[at + i] == s'[lo..hi][at + i - lo] == s[lo..hi][at + i - lo] == s[at + i];
    }
  }

  lemma BootIs(s1: Sector, s2: Sector, s: Sector, l: Layout, total: nat)
    requires LayoutOk(l, total)
    requires Has(s1, 11, WordBytes(512)) && l.au <= 255 && Has(s1, 13, [l.au as byte]) && Has(s1, 14, WordBytes(l.nRsv))
    requires Has(s1, 16, [1]) && Has(s1, 17, WordBytes(if l.fmt == Fat32 then 0 else 512))
    requires s2[..19] == s1[..19]
    requires Has(s2, 19, if l.nVol < 0x1_0000 then WordBytes(l.nVol) else [0, 0])
    requires Has(s2, 32, if l.nVol < 0x1_0000 then [0, 0, 0, 0] else DwordBytes(l.nVol))
    requires s[..22] == s2[..22] && s[24..36] == s2[24..36]
    requires Has(s, 22, if l.fmt == Fat32 then [0, 0] else WordBytes(l.nFat)) && Has(s, 510, [0x55, 0xAA])
    requires Has(s, if l.fmt == Fat32 then 82 else 54, [0x46, 0x41, 0x54])
    requires l.fmt == Fat32 ==> Has(s, 36, DwordBytes(l.nFat)) && Has(s, 44, DwordBytes(2)) && Has(s, 48, WordBytes(1))
    requires Has(s2, 21, [l.md]) && Has(s2, 24, WordBytes(63)) && Has(s2, 26, WordBytes(255)) && Has(s2, 28, DwordBytes(l.bVol))
    requires l.fmt == Fat32 ==> Has(s, 50, WordBytes(6))
    ensures BootOk(s, l)
  {
    ZeroWords();
    hide WordBytes, DwordBytes, LayoutOk, Has, LdWord, LdDword;
    WordsFit(l, total);
    WordRoundTrip(0);
    FieldKept(s1, s2, s, 11, WordBytes(512));
    FieldKept(s1, s2, s, 13, [l.au as byte]);
    FieldKept(s1, s2, s, 14, WordBytes(l.nRsv));
    FieldKept(s1, s2, s, 16, [1]);
    FieldKept(s1, s2, s, 17, WordBytes(if l.fmt == Fat32 then 0 else 512));
    var t16, t32 := if l.nVol < 0x1_0000 then WordBytes(l.nVol) else [0, 0], if l.nVol < 0x1_0000 then [0, 0, 0, 0]
        else DwordBytes(l.nVol);
    Kept(s2, s, 0, 22, 19, t16);
    Kept(s2, s, 24, 36, 32, t32);
    HasWord(s, 19, t16);
    HasWord(s, 32, t32);
    Kept(s2, s, 0, 22, 21, [l.md]);
    HasWord(s, 21, [l.md]);
    FieldMoved(s2, s, 24, WordBytes(63));
    FieldMoved(s2, s, 26, WordBytes(255));
    FieldMoved(s2, s, 28, DwordBytes(l.bVol));
    HasWord(s, 22, if l.fmt == Fat32 then [0, 0] else WordBytes(l.nFat));
    HasWord(s, 510, [0x55, 0xAA]);
    HasWord(s, if l.fmt == Fat32 then 82 else 54, [0x46, 0x41, 0x54]);
    if l.fmt == Fat32 {
      HasWord(s, 36, DwordBytes(l.nFat));
      HasWord(s, 44, DwordBytes(2));
      HasWord(s, 48, WordBytes(1));
      HasWord(s, 50, WordBytes(6));
    }
  }

  lemma FieldMoved(s: seq<byte>, s': seq<byte>, at: nat, b: seq<byte>)
    requires |s| == |s'| == 512 && s'[24..36] == s[24..36] && 24 <= at && at + |b| <= 36 && Has(s, at, b)
    ensures |b| == 2 ==> LdWord(s', at) == LdWord(b, 0)
    ensures |b| == 4 ==> LdDword(s', at) == LdDword(b, 0)
  {
    Kept(s, s', 24, 36, at, b);
    HasWord(s', at, b);
  }

  lemma ZeroWords()
    ensures LdWord([0, 0], 0) == 0 && LdDword([0, 0, 0, 0], 0) == 0
  {
  }

  lemma FieldKept(s1: seq<byte>, s2: seq<byte>, s: seq<byte>, at: nat, b: seq<byte>)
    requires |s1| == |s2| == |s| == 512 && s2[..19] == s1[..19] && s[..22] == s2[..22]
    requires at + |b| <= 19 && Has(s1, at, b)
    ensures |b| == 2 ==> LdWord(s, at) == LdWord(b, 0)
    ensures |b| == 1 ==> s[at] == b[0]
  {
    Kept(s1, s2, 0, 19, at, b);
    Kept(s2, s, 0, 22, at, b);
    HasWord(s, at, b);
  }

  function BFat(l: Layout): nat {
    l.bVol + l.nRsv
  }

  function BDir(l: Layout): nat {
    BFat(l) + l.nFat
  }

  /** The sector behind the root directory: the fixed one, or the first cluster of a FAT32 volume. */
  function RootEnd(l: Layout): nat {
    BDir(l) + if l.fmt == Fat32 then l.au else l.nDir
  }

  /** The first bytes of a new FAT: the reserved entries, and on FAT32 the end mark of the root directory. */
  function FatStart(l: Layout): (b: seq<byte>)
    ensures |b| == if l.fmt == Fat32 then 12 else 4
  {
    match l.fmt
    case Fat12 => [l.md, 0xFF, 0xFF, 0]
    case Fat16 => [l.md, 0xFF, 0xFF, 0xFF]
    case Fat32 => [l.md, 0xFF, 0xFF, 0xFF, 0xFF, 0xFF, 0xFF, 0xFF, 0xFF, 0xFF, 0xFF, 0x0F]
  }

  /** The partition table has one partition: the volume, of the layout's type, place and size. */
  predicate MbrOk(s: Sector, l: Layout) {
    && Signed(s) && !FatString(s, 54) && !FatString(s, 82)
    && s[450] == PartType(l) && LdDword(s, 454) == 63 && LdDword(s, 458) == l.nVol
    && forall i {:trigger s[i]} :: 462 <= i < 510 ==> s[i] == 0
  }

  function PartType(l: Layout): byte {
    match l.fmt
    case Fat12 => 0x01
    case Fat16 => if l.nVol < 0x1_0000 then 0x04 else 0x06
    case Fat32 => 0x0C
  }

  predicate FsInfoOk(s: Sector, l: Layout)
    requires l.nClst >= 1
  {
    InfoIs(s, 2, l.nClst - 1)
  }

  /** The sectors that a format leaves zero. */
  predicate AllZero(s: Sector) {
    ZeroFrom(s, 0)
  }

  ghost predicate ZeroSectors(d: seq<Sector>, lo: nat, hi: nat) {
    hi <= |d| && forall s {:trigger d[s]} :: lo <= s < hi ==> AllZero(d[s])
  }

  /** What f_mkfs leaves on the disk. */
  ghost predicate Formatted(d: seq<Sector>, l: Layout) {
    && LayoutOk(l, |d|) && l.nClst >= 1 && RootEnd(l) <= |d|
    && BootOk(d[l.bVol], l) && (l.bVol != 0 ==> MbrOk(d[0], l))
    && Has(d[BFat(l)], 0, FatStart(l)) && ZeroFrom(d[BFat(l)], |FatStart(l)|)
    && ZeroSectors(d, BFat(l) + 1, RootEnd(l))
    && (l.fmt == Fat32 ==> FsInfoOk(d[l.bVol + 1], l) && d[l.bVol + 6] == d[l.bVol] && d[l.bVol + 7] == d[l.bVol + 1])
  }

  /** The root directory ends inside the volume. */
  lemma RootInside(l: Layout, total: nat)
    requires LayoutOk(l, total)
    ensures RootEnd(l) <= total && l.nClst >= 1 && l.bVol + l.nRsv < total && (l.fmt == Fat32 ==> l.nRsv == 32)
  {
    hide Clusters, FatBytesNeeded;
    OneCluster(l.nVol - SystemSectors(l), l.au);
  }

  lemma OneCluster(n: nat, au: nat)
    requires au > 0 && Clusters(n, au) >= 1
    ensures n >= au
  {
  }

  method WriteSector(disk: array<Sector>, tbl: array<byte>, s: nat)
    requires tbl.Length == 512 && s < disk.Length <= 0xFFFF_FFFF
    modifies disk
    ensures disk[..] == old(disk[..])[s := tbl[..]]
  {
    var r := DiskWrite(disk, [tbl[..]], s);
    if r != ResOk { assert false; }
  }

  /** Writes zero sectors `from` to `to`. */
  method WriteZeros(disk: array<Sector>, tbl: array<byte>, from: nat, to: nat)
    requires tbl.Length == 512 && from <= to <= disk.Length <= 0xFFFF_FFFF && AllZero(tbl[..])
    modifies disk
    ensures ZeroSectors(disk[..], from, to)
    ensures forall s: nat {:trigger disk[s]} :: s < disk.Length && !(from <= s < to) ==> disk[s] == old(disk[s])
  {
    var s := from;
    while s < to
      invariant from <= s <= to && ZeroSectors(disk[..], from, s)
      invariant forall t: nat {:trigger disk[t]} :: t < disk.Length && !(from <= t < s) ==> disk[t] == old(disk[t])
    {
      WriteSector(disk, tbl, s);
      s := s + 1;
    }
  }

  /** End sector and cylinder of a partition table entry. */
  function EndCylinder(sectors: nat): (byte, byte) {
    var n := sectors / 63 / 255;
    (n / 0x100 % 4 * 0x40 + 63, n % 0x100)
  }

  /** The partition table of a drive with one partition. */
  method MakeMbr(tbl: array<byte>, l: Layout)
    requires tbl.Length == 512 && l.nVol < 0x1_0000_0000
    modifies tbl
    ensures MbrOk(tbl[..], l)
  {
    hide WordBytes, DwordBytes, LdDword, EndCylinder, MbrOk;
    Clear(tbl);
    var chs := EndCylinder(l.bVol + l.nVol);
    var sys := if l.fmt == Fat12 then 0x01 else if l.fmt == Fat32 then 0x0C else if l.nVol < 0x1_0000 then 0x04 else 0x06;
    StString(tbl, 447, [1, 1, 0, sys, 254, chs.0, chs.1]);
    assert tbl[450] == PartType(l) && tbl[54] == tbl[82] == 0;
    StDword(tbl, 454, 63);
    StDword(tbl, 458, l.nVol);
    tbl[510], tbl[511] := 0x55, 0xAA;
    MbrIs(tbl[..], l);
  }

  lemma MbrIs(s: Sector, l: Layout)
    requires Signed(s) && s[54] == s[82] == 0 && s[450] == PartType(l) && l.nVol < 0x1_0000_0000
    requires Has(s, 454, DwordBytes(63)) && Has(s, 458, DwordBytes(l.nVol)) && forall i {:trigger s[i]} :: 462 <= i < 510 ==> s[i] == 0
    ensures MbrOk(s, l)
  {
    hide DwordBytes, LdDword, Has;
    DwordRoundTrip(63);
    HasWord(s, 454, DwordBytes(63));
    DwordRoundTrip(l.nVol);
    HasWord(s, 458, DwordBytes(l.nVol));
  }

  /** Builds the FSInfo sector in the window's memory. */
  method MakeInfo(win: array<byte>, last: nat, free: nat)
    requires win.Length == 512 && free < 0x1_0000_0000
    modifies win
    ensures InfoIs(win[..], last % 0x1_0000_0000, free)
  {
    hide WordBytes, DwordBytes, LdDword, InfoIs, Has;
    Clear(win);
    win[510], win[511] := 0x55, 0xAA;
    StDword(win, 0, 0x4161_5252);
    StDword(win, 484, 0x6141_7272);
    StDword(win, 488, free);
    StDword(win, 492, last);
    HasDword(win[..], 0, DwordBytes(0x4161_5252));
    HasDword(win[..], 484, DwordBytes(0x6141_7272));
    HasDword(win[..], 488, DwordBytes(free));
    HasDword(win[..], 492, DwordBytes(last));
    InfoMeans(win[..], last, free);
  }

  lemma HasDword(s: seq<byte>, at: nat, b: seq<byte>)
    requires |b| == 4 && at + 4 <= |s| && s[at] == b[0] && s[at + 1] == b[1] && s[at + 2] == b[2] && s[at + 3] == b[3]
    ensures Has(s, at, b)
  {
  }

  lemma InfoMeans(s: Sector, last: nat, free: nat)
    requires free < 0x1_0000_0000
    requires Signed(s) && Has(s, 0, DwordBytes(0x4161_5252)) && Has(s, 484, DwordBytes(0x6141_7272))
    requires Has(s, 488, DwordBytes(free)) && Has(s, 492, DwordBytes(last))
    ensures InfoIs(s, last % 0x1_0000_0000, free)
  {
    hide DwordBytes, LdDword, Has;
    DwordRoundTrip(0x4161_5252);
    DwordRoundTrip(0x6141_7272);
    DwordRoundTrip(free);
    DwordRoundTrip(last);
    HasWord(s, 0, DwordBytes(0x4161_5252));
    HasWord(s, 484, DwordBytes(0x6141_7272));
    HasWord(s, 488, DwordBytes(free));
    HasWord(s, 492, DwordBytes(last));
  }

  /** The FSInfo sector of a new FAT32 volume. */
  method MakeFsInfo(tbl: array<byte>, l: Layout, ghost total: nat)
    requires tbl.Length == 512 && LayoutOk(l, total) && l.nClst >= 1
    modifies tbl
    ensures FsInfoOk(tbl[..], l)
  {
    hide InfoIs, LayoutOk;
    ClusterCount(l, total);
    MakeInfo(tbl, 2, l.nClst - 1);
  }

  lemma ClusterCount(l: Layout, total: nat)
    requires LayoutOk(l, total) && l.nClst >= 1
    ensures l.nClst - 1 < 0x1_0000_0000
  {
    hide Clusters;
  }

  lemma FatStartWords(md: byte)
    requires md == 0xF0 || md == 0xF8
    ensures DwordBytes(0x00FF_FF00 + md) == [md, 0xFF, 0xFF, 0] && DwordBytes(0xFFFF_FF00 + md) == [md, 0xFF, 0xFF, 0xFF]
    ensures DwordBytes(0xFFFF_FFFF) == [0xFF, 0xFF, 0xFF, 0xFF] && DwordBytes(0x0FFF_FFFF) == [0xFF, 0xFF, 0xFF, 0x0F]
  {
    if md == 0xF0 {
      assert DwordBytes(0x00FF_FFF0) == [0xF0, 0xFF, 0xFF, 0] && DwordBytes(0xFFFF_FFF0) == [0xF0, 0xFF, 0xFF, 0xFF];
    } else {
      assert DwordBytes(0x00FF_FFF8) == [0xF8, 0xFF, 0xFF, 0] && DwordBytes(0xFFFF_FFF8) == [0xF8, 0xFF, 0xFF, 0xFF];
    }
  }

  /** The first sector of the FAT. */
  method MakeFatStart(tbl: array<byte>, l: Layout)
    requires tbl.Length == 512 && (l.md == 0xF0 || l.md == 0xF8)
    modifies tbl
    ensures Has(tbl[..], 0, FatStart(l)) && ZeroFrom(tbl[..], |FatStart(l)|)
  {
    hide DwordBytes;
    FatStartWords(l.md);
    Clear(tbl);
    if l.fmt != Fat32 {
      StDword(tbl, 0, (if l.fmt == Fat12 then 0x00FF_FF00 else 0xFFFF_FF00) + l.md as int);
    } else {
      StDword(tbl, 0, 0xFFFF_FF00 + l.md as int);
      StDword(tbl, 4, 0xFFFF_FFFF);
      StDword(tbl, 8, 0x0FFF_FFFF);
    }
  }

  /** The FAT and the root directory of a new volume. */
  method WriteFat(disk: array<Sector>, tbl: array<byte>, l: Layout)
    requires tbl.Length == 512 && LayoutOk(l, disk.Length) && RootEnd(l) <= disk.Length
    modifies tbl, disk
    ensures Has(disk[BFat(l)], 0, FatStart(l)) && ZeroFrom(disk[BFat(l)], |FatStart(l)|)
    ensures ZeroSectors(disk[..], BFat(l) + 1, RootEnd(l)) && AllZero(tbl[..])
    ensures forall s {:trigger disk[s]} :: 0 <= s < disk.Length && !(BFat(l) <= s < RootEnd(l)) ==> disk[s] == old(disk[s])
  {
    hide LayoutOk, Has, ZeroFrom, SystemSectors, FatStart;
    MediaKnown(l, disk.Length);
    MakeFatStart(tbl, l);
    ghost var first := tbl[..];
    WriteSector(disk, tbl, BFat(l));
    assert disk[BFat(l)] == first;
    ClearIsZero(tbl);
    WriteZeros(disk, tbl, BFat(l) + 1, BDir(l));
    ghost var d := disk[..];
    WriteZeros(disk, tbl, BDir(l), RootEnd(l));
    ZerosJoin(d, disk[..], BFat(l) + 1, BDir(l), RootEnd(l));
  }

  lemma MediaKnown(l: Layout, total: nat)
    requires LayoutOk(l, total)
    ensures l.md == 0xF0 || l.md == 0xF8
  {
  }

  method ClearIsZero(tbl: array<byte>)
    requires tbl.Length == 512
    modifies tbl
    ensures AllZero(tbl[..]) && forall k {:trigger tbl[k]} :: 0 <= k < 512 ==> tbl[k] == 0
  {
    Clear(tbl);
  }

  lemma ZerosJoin(d: seq<Sector>, d': seq<Sector>, a: nat, b: nat, c: nat)
    requires a <= b <= c <= |d| && |d'| == |d| && ZeroSectors(d, a, b) && ZeroSectors(d', b, c)
    requires forall s {:trigger d'[s]} :: a <= s < b ==> d'[s] == d[s]
    ensures ZeroSectors(d', a, c)
  {
    hide AllZero;
    forall s | a <= s < c ensures AllZero(d'[s]) {
      if s < b { assert d'[s] == d[s]; }
    }
  }

  /** f_mkfs: a successful call leaves a formatted volume; any other leaves the disk alone. */
  method Mkfs(disk: array<Sector>, sfd: nat, unit: nat, serial: nat) returns (res: FResult, l: Layout)
    requires disk.Length <= 0xFFFF_FFFF && (unit != 0 ==> Clusters(disk.Length, UnitSectors(unit)) < 0x0FFF_FFF0)
    modifies disk
    ensures res == FrInvalidParameter <==> sfd > 1 || !UnitOk(unit)
    ensures res == FrDiskErr <==> sfd <= 1 && UnitOk(unit) && disk.Length < 128
    ensures res == FrOk ==>
              Formatted(disk[..], l) && l.bVol == (if sfd == 1 then 0 else 63) && l.au == UnitFor(l.nVol, unit)
    ensures res == FrOk ==> l.au > 0 && FatChosen(l)
    ensures res == FrOk || res == FrInvalidParameter || res == FrDiskErr || res == FrMkfsAborted
    ensures res == FrMkfsAborted ==> 1 <= l.au && PlannedFor(l, disk.Length, sfd == 1, unit) && !HasRoom(l)
    ensures res != FrOk ==> disk[..] == old(disk[..])
  {
    hide *;
    l := Layout(Fat12, 0, 0, 0, 0, 0, 1, 0, 0xF0);
    if sfd > 1 { return FrInvalidParameter, l; }
    res, l := Plan(disk.Length, sfd == 1, unit);
    if res != FrOk { return; }
    var tbl := new byte[512](_ => 0);
    if sfd != 1 {
      MakeMbr(tbl, l);
      WriteSector(disk, tbl, 0);
    }
    WriteVolume(disk, tbl, l, serial);
  }

  /** f_mkfs behind the partition table. */
  method WriteVolume(disk: array<Sector>, tbl: array<byte>, l: Layout, serial: nat)
    requires tbl.Length == 512 && LayoutOk(l, disk.Length) && (l.bVol != 0 ==> MbrOk(disk[0], l))
    modifies tbl, disk
    ensures Formatted(disk[..], l)
  {
    hide LayoutOk, BootOk, MbrOk, Has, ZeroFrom, FatStart, ZeroSectors, AllZero, FsInfoOk, SystemSectors;
    RootInside(l, disk.Length);
    MakeBoot(tbl, l, serial, disk.Length);
    ghost var boot := tbl[..];
    WriteSector(disk, tbl, l.bVol);
    if l.fmt == Fat32 {
      WriteSector(disk, tbl, l.bVol + 6);
    }
    assert disk[l.bVol] == boot;
    WriteFat(disk, tbl, l);
    ghost var d := disk[..];
    if l.fmt == Fat32 {
      ZeroBytes(tbl[..]);
      MakeFsInfo(tbl, l, disk.Length);
      ghost var info := tbl[..];
      WriteSector(disk, tbl, l.bVol + 1);
      WriteSector(disk, tbl, l.bVol + 7);
      assert disk[l.bVol + 1] == info;
    }
    ZerosKept(d, disk[..], BFat(l) + 1, RootEnd(l));
  }

  lemma ZeroBytes(s: seq<byte>)
    requires |s| == 512 && AllZero(s)
    ensures forall k {:trigger s[k]} :: 0 <= k < 512 ==> s[k] == 0
  {
  }

  lemma ZerosKept(d: seq<Sector>, d': seq<Sector>, a: nat, b: nat)
    requires ZeroSectors(d, a, b) && |d'| == |d| && forall s {:trigger d'[s]} :: a <= s < b ==> d'[s] == d[s]
    ensures ZeroSectors(d', a, b)
  {
  }
}
