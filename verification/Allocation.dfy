/** Cluster allocation (src/ff.cpp: create_chain, remove_chain, f_getfree). */
module Allocation {
  import opened Arith
  import opened Sealed
  import opened Bytes
  import opened Geometry
  import opened FatTable
  import opened Window
  import opened InfoSector
  import opened FatAccess
  import opened Chains
  import opened RamDisk

  /** What get_fat says of cluster `c`. */
  function Status(fat: seq<nat>, c: nat): nat {
    if 2 <= c < |fat| then fat[c] else 1
  }

  /** The end mark as it reads back from a FAT of type `t`. */
  function Eoc(t: FatType): nat {
    Width(t, END_OF_CHAIN)
  }

  /** No FAT type confuses its end mark with a cluster, nor truncates a cluster number. */
  lemma LinksFit(g: Geometry, c: nat)
    requires g.nFatent <= MaxEntries(g.fsType) && c < g.nFatent
    ensures Eoc(g.fsType) >= g.nFatent && Width(g.fsType, c) == c && g.nFatent <= END_OF_CHAIN < NO_CLUSTER
  {
    match g.fsType
    case Fat12 =>
      assert END_OF_CHAIN % 0x1000 == 0xFFF;
    case Fat16 =>
      assert END_OF_CHAIN % 0x1_0000 == 0xFFFF;
    case Fat32 =>
      assert END_OF_CHAIN % 0x1000_0000 == END_OF_CHAIN;
  }

  /** The cached free count, if there is one, is the true one. */
  ghost predicate FreeCountOk(fs: FatFs)
    requires fs.Valid()
    reads fs`winsect, fs`wflag, fs`freeClust, fs.disk, fs.win
  {
    fs.freeClust == NO_CLUSTER || fs.freeClust == CountFree(Fat(fs))
  }

  /** A FAT32 volume's FSInfo sector holds the cached free count, unless it is due to be written. */
  ghost predicate InfoOk(fs: FatFs)
    requires fs.Valid()
    reads fs`winsect, fs`wflag, fs`freeClust, fs`fsiFlag, fs.disk, fs.win
  {
    InfoFresh(fs.geo, fs.Img(), fs.freeClust, fs.fsiFlag)
  }

  /** A change of the FAT alone, with every change of the free count marked, keeps this so. */
  lemma InfoAfter(fs: FatFs, img: seq<Sector>, free: nat, due: bool)
    requires fs.Valid() && InfoFresh(fs.geo, img, free, due) && SameOutsideFat(fs.geo, img, fs.Img())
    requires fs.fsiFlag || (fs.freeClust == free && fs.fsiFlag == due)
    ensures InfoOk(fs)
  {
    hide FatFs.Valid, FatFs.Img, FatLayout, DataLayout;
    InfoStays(fs.geo, fs.disk.Length, img, fs.Img(), free, due, fs.freeClust, fs.fsiFlag);
  }

  /** The search from `scl` passes `c` before it reaches `ncl`. */
  predicate PassedBefore(scl: nat, ncl: nat, c: nat) {
    if ncl > scl then scl < c < ncl else c > scl || c < ncl
  }

  /** Searches cyclically from behind `scl`: the first free cluster, 0 if every cluster is in use, or 1 on a link to
      cluster 1. */
  method FindFree(fs: FatFs, scl: nat) returns (r: nat)
    requires fs.Valid() && 1 <= scl < fs.geo.nFatent
    modifies fs`winsect, fs`wflag, fs.disk, fs.win
    ensures fs.Valid() && fs.Img() == old(fs.Img()) && Fat(fs) == old(Fat(fs))
    ensures fs.winsect == old(fs.winsect) || InFat(fs.geo, fs.winsect)
    ensures old(fs.Clean()) ==> fs.Clean()
    ensures r == 0 ==> forall c {:trigger Fat(fs)[c]} :: 2 <= c < fs.geo.nFatent ==> Fat(fs)[c] != 0
    ensures r == 1 ==> exists c {:trigger Fat(fs)[c]} :: 2 <= c < fs.geo.nFatent && Fat(fs)[c] == 1
    ensures r > 1 ==> InRange(fs.geo, r) && Fat(fs)[r] == 0
    ensures r > 1 ==> forall c {:trigger Fat(fs)[c]} :: 2 <= c < fs.geo.nFatent && PassedBefore(scl, r, c) ==> Fat(fs)[c] != 0
  {
    hide FatFs.Valid, FatFs.Img, FatFs.Clean, Fat, DataLayout, FatLayout;
    ghost var fat := Fat(fs);
    ghost var wrapped := false;
    var ncl := scl;
    while true
      invariant fs.Valid() && fs.Img() == old(fs.Img()) && Fat(fs) == fat && (old(fs.Clean()) ==> fs.Clean())
      invariant fs.winsect == old(fs.winsect) || InFat(fs.geo, fs.winsect)
      invariant if wrapped then 2 <= ncl < scl else scl <= ncl < fs.geo.nFatent
      invariant forall c {:trigger fat[c]} :: 2 <= c < fs.geo.nFatent && c > scl && (wrapped || c <= ncl) ==> fat[c] != 0
      invariant wrapped ==> forall c {:trigger fat[c]} :: 2 <= c <= ncl ==> fat[c] != 0
      decreases !wrapped, fs.geo.nFatent - ncl
    {
      ncl := ncl + 1;
      if ncl >= fs.geo.nFatent {
        ncl := 2;
        wrapped := true;
        if ncl > scl {
          assert forall c :: 2 <= c < fs.geo.nFatent ==> fat[c] != 0;
          return 0;
        }
      }
      var cs := GetFat(fs, ncl);
      if cs == 0 { return ncl; }
      if cs == NO_CLUSTER || cs == 1 {
        assert fat[ncl] == 1;
        return cs;
      }
      if ncl == scl { return 0; }
    }
  }

  /** Whether create_chain has to search: a new chain, or a cluster that ends its chain. */
  predicate Searches(fat: seq<nat>, clst: nat) {
    clst == 0 || Status(fat, clst) >= |fat|
  }

  /** The FAT after `ncl` became the new tail behind `clst` (0: of a new chain). */
  function Linked(t: FatType, fat: seq<nat>, clst: nat, ncl: nat): seq<nat>
    requires ncl < |fat| && clst < |fat|
  {
    if clst == 0 then fat[ncl := Eoc(t)] else fat[ncl := Eoc(t)][clst := ncl]
  }

  lemma NarrowEnough(fs: FatFs)
    requires fs.Valid()
    ensures fs.geo.nFatent <= MaxEntries(fs.geo.fsType)
  {
    hide FatFs.Valid, FatLayout;
  }

  /** Marks `ncl` as a tail and links it behind `clst`. */
  method LinkNew(fs: FatFs, clst: nat, ncl: nat) returns (res: FResult)
    requires fs.Valid() && InRange(fs.geo, ncl) && (clst == 0 || InRange(fs.geo, clst))
    modifies fs`winsect, fs`wflag, fs.disk, fs.win
    ensures fs.Valid() && res == FrOk
    ensures Fat(fs) == Linked(fs.geo.fsType, old(Fat(fs)), clst, ncl)
    ensures SameOutsideFat(fs.geo, old(fs.Img()), fs.Img()) && InFat(fs.geo, fs.winsect)
  {
    hide FatFs.Valid, FatFs.Img, Fat, FatLayout, DataLayout, Width;
    NarrowEnough(fs);
    LinksFit(fs.geo, ncl);
    res := PutFat(fs, ncl, END_OF_CHAIN);
    if res == FrOk && clst != 0 {
      res := PutFat(fs, clst, ncl);
    }
  }

  /** A 32-bit decrement. */
  function Dec32(v: nat): nat {
    if v == 0 then NO_CLUSTER else v - 1
  }

  /** Follows the chain from `clst`, or stretches it by a free cluster, or starts a new chain if `clst` is 0. */
  method CreateChain(fs: FatFs, clst: nat) returns (ncl: nat)
    requires fs.Valid()
    modifies fs`winsect, fs`wflag, fs`lastClust, fs`freeClust, fs`fsiFlag, fs.disk, fs.win
    ensures fs.Valid() && SameOutsideFat(fs.geo, old(fs.Img()), fs.Img())
    ensures fs.winsect == old(fs.winsect) || InFat(fs.geo, fs.winsect)
    ensures Searches(old(Fat(fs)), clst) && ncl > 1 ==> InFat(fs.geo, fs.winsect)
    ensures !Searches(old(Fat(fs)), clst) ==> ncl == (var s := Status(old(Fat(fs)), clst); if s < 2 then 1 else s)
    ensures Searches(old(Fat(fs)), clst) ==>
              && (ncl == 0 ==> forall c {:trigger old(Fat(fs))[c]} :: 2 <= c < fs.geo.nFatent ==> old(Fat(fs))[c] != 0)
              && (ncl == 1 ==> exists c {:trigger old(Fat(fs))[c]} :: 2 <= c < fs.geo.nFatent && old(Fat(fs))[c] == 1)
              && (ncl > 1 ==> InRange(fs.geo, ncl) && old(Fat(fs))[ncl] == 0)
    ensures Searches(old(Fat(fs)), clst) && ncl > 1 ==>
              Fat(fs) == Linked(fs.geo.fsType, old(Fat(fs)), clst, ncl) && fs.lastClust == ncl
    ensures !(Searches(old(Fat(fs)), clst) && ncl > 1) ==> fs.Img() == old(fs.Img()) && fs.lastClust == old(fs.lastClust)
    ensures fs.freeClust == if Searches(old(Fat(fs)), clst) && ncl > 1 && old(fs.freeClust) != NO_CLUSTER
                            then Dec32(old(fs.freeClust)) else old(fs.freeClust)
    ensures !(Searches(old(Fat(fs)), clst) && ncl > 1) && old(fs.Clean()) ==> fs.Clean()
    ensures old(InfoOk(fs)) ==> InfoOk(fs)
  {
    hide FatFs.Valid, FatFs.Img, FatFs.Clean, Fat, FatLayout, DataLayout, Linked, InfoFresh;
    ghost var img, free, due := fs.Img(), fs.freeClust, fs.fsiFlag;
    var scl;
    if clst == 0 {
      scl := fs.lastClust;
      if scl == 0 || scl >= fs.geo.nFatent { scl := 1; }
    } else {
      var cs := GetFat(fs, clst);
      if cs < 2 { return 1; }
      if cs < fs.geo.nFatent { return cs; }
      scl := clst;
    }
    ncl := FindFree(fs, scl);
    if ncl <= 1 { return; }
    var res := LinkNew(fs, clst, ncl);
    if res != FrOk { assert false; }
    fs.lastClust := ncl;
    if fs.freeClust != NO_CLUSTER {
      fs.freeClust := Dec32(fs.freeClust);
      fs.fsiFlag := true;
    }
    if InfoFresh(fs.geo, img, free, due) { InfoAfter(fs, img, free, due); }
  }

  /** Frees the chain from `clst`.  It terminates on every FAT, a cyclic one included, because each turn frees a cluster. */
  method RemoveChain(fs: FatFs, clst: nat) returns (res: FResult)
    requires fs.Valid()
    modifies fs`winsect, fs`wflag, fs`freeClust, fs`fsiFlag, fs.disk, fs.win
    ensures fs.Valid() && SameOutsideFat(fs.geo, old(fs.Img()), fs.Img())
    ensures fs.winsect == old(fs.winsect) || InFat(fs.geo, fs.winsect)
    ensures !InRange(fs.geo, clst) ==> res == FrIntErr && Fat(fs) == old(Fat(fs))
    ensures InRange(fs.geo, clst) ==>
              Freed(old(Fat(fs)), clst) == FreeResult(Fat(fs), res == FrOk) && (res == FrOk || res == FrIntErr)
    ensures old(FreeCountOk(fs)) ==> FreeCountOk(fs)
    ensures old(InfoOk(fs)) ==> InfoOk(fs)
    ensures InRange(fs.geo, clst) && old(Fat(fs))[clst] >= fs.geo.nFatent ==> fs.wflag
  {
    hide FatFs.Valid, FatFs.Img, Fat, FatLayout, DataLayout, FreeBelow, InfoFresh;
    if clst < 2 || clst >= fs.geo.nFatent {
      return FrIntErr;
    }
    var c := clst;
    while c < fs.geo.nFatent
      invariant fs.Valid() && SameOutsideFat(fs.geo, old(fs.Img()), fs.Img())
      invariant fs.winsect == old(fs.winsect) || InFat(fs.geo, fs.winsect)
      invariant c >= 2 && Freed(old(Fat(fs)), clst) == Freed(Fat(fs), c)
      invariant old(FreeCountOk(fs)) ==> FreeCountOk(fs)
      invariant old(InfoOk(fs)) ==> InfoOk(fs)
      invariant (c == clst && Fat(fs) == old(Fat(fs))) || (old(Fat(fs))[clst] >= fs.geo.nFatent ==> c >= fs.geo.nFatent && fs.wflag)
      decreases fs.geo.nFatent - CountFree(Fat(fs))
    {
      ghost var fat, img, free, due := Fat(fs), fs.Img(), fs.freeClust, fs.fsiFlag;
      var nxt := GetFat(fs, c);
      if nxt == 0 { break; }
      if nxt == 1 { return FrIntErr; }
      if nxt == NO_CLUSTER { assert false; }
      res := PutFat(fs, c, 0);
      if res != FrOk { assert false; }
      FreeOne(fat, c, fs.geo.fsType);
      if fs.freeClust != NO_CLUSTER {
        fs.freeClust := fs.freeClust + 1;
        fs.fsiFlag := true;
      }
      if InfoFresh(fs.geo, img, free, due) { InfoAfter(fs, img, free, due); }
      c := nxt;
    }
    return FrOk;
  }

  lemma FreeOne(fat: seq<nat>, c: nat, t: FatType)
    requires 2 <= c < |fat| && fat[c] != 0
    ensures Width(t, 0) == 0
    ensures CountFree(fat[c := 0]) == CountFree(fat) + 1 <= |fat| - 2
  {
    FreeBelowUpdate(fat, c, 0, |fat|);
    FreeBelowBound(fat[c := 0], |fat|);
  }

  /** The reserved entries 0 and 1 are in use, as f_mkfs leaves them. */
  predicate ReservedUsed(fat: seq<nat>) {
    |fat| > 2 && fat[0] != 0 && fat[1] != 0
  }

  /** Reserved entries that are zero: a sweep of whole FAT sectors counts them too. */
  function ReservedZeros(fat: seq<nat>): nat
    requires |fat| > 2
  {
    (if fat[0] == 0 then 1 else 0) + (if fat[1] == 0 then 1 else 0)
  }

  /** The first cluster from `c` on whose entry is 1, or the end of the table. */
  function FirstOne(fat: seq<nat>, c: nat): (r: nat)
    requires c <= |fat|
    ensures c <= r <= |fat| && (r < |fat| <==> exists k :: c <= k < |fat| && fat[k] == 1)
    decreases |fat| - c
  {
    if c == |fat| || fat[c] == 1 then c else FirstOne(fat, c + 1)
  }

  /** Counts free FAT12 clusters entry by entry, up to an entry that is 1. */
  method CountFree12(fs: FatFs) returns (res: FResult, n: nat)
    requires fs.Valid()
    modifies fs`winsect, fs`wflag, fs.disk, fs.win
    ensures fs.Valid() && fs.Img() == old(fs.Img()) && Fat(fs) == old(Fat(fs)) && |Fat(fs)| == fs.geo.nFatent
    ensures var e := FirstOne(Fat(fs), 2); n == FreeBelow(Fat(fs), e) && res == if e < |Fat(fs)| then FrIntErr else FrOk
  {
    hide FatFs.Valid, FatFs.Img, Fat, FatLayout, DataLayout;
    ghost var fat := Fat(fs);
    TableLength(fs);
    n := 0;
    var clst := 2;
    while clst < fs.geo.nFatent
      invariant fs.Valid() && fs.Img() == old(fs.Img()) && Fat(fs) == fat
      invariant 2 <= clst <= fs.geo.nFatent && n == FreeBelow(fat, clst) && FirstOne(fat, clst) == FirstOne(fat, 2)
    {
      var stat := GetFat(fs, clst);
      if stat == NO_CLUSTER { assert false; }
      if stat == 1 { return FrIntErr, n; }
      if stat == 0 { n := n + 1; }
      clst := clst + 1;
    }
    return FrOk, n;
  }

  lemma TableLength(fs: FatFs)
    requires fs.Valid()
    ensures |Fat(fs)| == fs.geo.nFatent >= 3
  {
    hide FatLayout, DataLayout;
  }

  /** The sweep stands `i` bytes before the end of sector `sect - 1`, at FAT byte `k`. */
  predicate SweepAt(g: Geometry, k: nat, step: nat, sect: nat, i: nat) {
    (step == 2 || step == 4) && g.fatbase <= sect && i <= 512 && i % step == 0 && k + i == (sect - g.fatbase) * 512
  }

  lemma SweepStart(g: Geometry, step: nat)
    requires step == 2 || step == 4
    ensures SweepAt(g, 0 * step, step, g.fatbase, 0)
  {
  }

  lemma SweepNextSector(g: Geometry, n: nat, e: nat, step: nat, sect: nat)
    requires FatLayout(g, n) && e < g.nFatent && step == EntryBytes(g.fsType) && g.fsType != Fat12
    requires SweepAt(g, e * step, step, sect, 0)
    ensures sect != 0 && sect < n && !InMirror(g, sect)
    ensures SweepAt(g, e * step, step, sect + 1, 512)
  {
    hide FatBytesNeeded;
    EntryFits(g.fsType, g.nFatent, e, g.fsize * 512);
    assert InFat(g, sect);
  }

  lemma SweepEntry(g: Geometry, img: seq<Sector>, e: nat, step: nat, sect: nat, i: nat)
    requires FatLayout(g, |img|) && e < g.nFatent && step == EntryBytes(g.fsType) && g.fsType != Fat12
    requires SweepAt(g, e * step, step, sect, i) && i > 0
    ensures step <= i <= 512 && sect > 0 && sect - 1 < |img|
    ensures FatOf(g, img)[e] == if step == 2 then LdWord(img[sect - 1], 512 - i)
            else LdDword(img[sect - 1], 512 - i) % 0x1000_0000
  {
    hide FatBytesNeeded, LdWord, LdDword, FatArea, FatOf;
    EntryInFat(g, img, e);
    assert FatPosition(g, e * step, sect - 1, 512 - i);
    WordsInFat(g, img, e * step, sect - 1, 512 - i);
  }

  lemma SweepStep(g: Geometry, e: nat, step: nat, sect: nat, i: nat)
    requires SweepAt(g, e * step, step, sect, i) && i >= step
    ensures SweepAt(g, (e + 1) * step, step, sect, i - step)
  {
    ModAddMultiple(i - step, step, 1);
  }

  /** Counts free FAT16/32 clusters by sweeping the FAT sectors, entries 0 and 1 included. */
  method CountFreeWide(fs: FatFs) returns (n: nat)
    requires fs.Valid() && fs.geo.fsType != Fat12
    modifies fs`winsect, fs`wflag, fs.disk, fs.win
    ensures fs.Valid() && fs.Img() == old(fs.Img()) && |Fat(fs)| == fs.geo.nFatent
            && n == CountFree(Fat(fs)) + ReservedZeros(Fat(fs))
  {
    hide FatFs.Valid, FatFs.Img, FatOf, FatLayout, DataLayout, SweepAt, InMirror, LdWord, LdDword;
    ghost var fat := Fat(fs);
    ghost var done: nat := 0;
    ghost var step: nat := if fs.geo.fsType == Fat16 then 2 else 4;
    var clst: nat, sect: nat, i: nat := fs.geo.nFatent, fs.geo.fatbase, 0;
    n := 0;
    TableLength(fs);
    SweepStart(fs.geo, step);
    while clst > 0
      invariant fs.Valid() && fs.Img() == old(fs.Img()) && Fat(fs) == fat
      invariant done + clst == fs.geo.nFatent && n == ZerosBelow(fat, done)
      invariant SweepAt(fs.geo, done * step, step, sect, i)
      invariant i > 0 ==> fs.winsect == sect - 1 && fs.winsect < |fs.Img()| && fs.win[..] == fs.Img()[fs.winsect]
    {
      if i == 0 {
        SweepNextSector(fs.geo, fs.disk.Length, done, step, sect);
        var res := fs.MoveWindow(sect);
        if res != FrOk { assert false; }
        sect := sect + 1;
        i := 512;
      }
      SweepEntry(fs.geo, fs.Img(), done, step, sect, i);
      SweepStep(fs.geo, done, step, sect, i);
      if fs.geo.fsType == Fat16 {
        if LdWord(fs.win[..], 512 - i) == 0 { n := n + 1; }
        i := i - 2;
      } else {
        if LdDword(fs.win[..], 512 - i) % 0x1000_0000 == 0 { n := n + 1; }
        i := i - 4;
      }
      clst := clst - 1;
      done := done + 1;
    }
    ZerosAre(fat, fs.geo.nFatent);
  }

  /** Zero entries below `k`, the reserved ones included. */
  function ZerosBelow(fat: seq<nat>, k: nat): nat
    requires k <= |fat|
  {
    if k == 0 then 0 else ZerosBelow(fat, k - 1) + (if fat[k - 1] == 0 then 1 else 0)
  }

  lemma {:induction false} ZerosAre(fat: seq<nat>, k: nat)
    requires 2 < |fat| && 2 <= k <= |fat|
    ensures ZerosBelow(fat, k) == FreeBelow(fat, k) + ReservedZeros(fat)
  {
    if k == 2 {
      assert ZerosBelow(fat, 1) == if fat[0] == 0 then 1 else 0;
    } else {
      ZerosAre(fat, k - 1);
    }
  }

  /** f_getfree: the cached count if it is plausible, else a full scan, which is then cached. A scan of a FAT12 volume ends
      at an entry of 1; one of FAT16 and FAT32 counts the reserved entries too, if they are zero. */
  method GetFree(fs: FatFs) returns (res: FResult, nclst: nat)
    requires fs.Valid()
    modifies fs`winsect, fs`wflag, fs`freeClust, fs`fsiFlag, fs.disk, fs.win
    ensures fs.Valid() && fs.Img() == old(fs.Img()) && |Fat(fs)| == fs.geo.nFatent >= 3
    ensures nclst == fs.freeClust && (res == FrOk || res == FrIntErr)
    ensures old(fs.freeClust) <= fs.geo.nFatent - 2 ==> res == FrOk && nclst == old(fs.freeClust) && fs.fsiFlag == old(fs.fsiFlag)
    ensures old(fs.freeClust) > fs.geo.nFatent - 2 ==>
              && (res == FrIntErr <==> fs.geo.fsType == Fat12 && exists c :: 2 <= c < |Fat(fs)| && Fat(fs)[c] == 1)
              && nclst == (if fs.geo.fsType == Fat12 then FreeBelow(Fat(fs), FirstOne(Fat(fs), 2)) else CountFree(Fat(fs)) + ReservedZeros(Fat(fs)))
              && fs.fsiFlag == (old(fs.fsiFlag) || fs.geo.fsType == Fat32)
    ensures old(InfoOk(fs)) ==> InfoOk(fs)
  {
    hide FatFs.Valid, FatFs.Img, Fat, FatLayout, DataLayout, FreeBelow, ReservedZeros, InfoFresh;
    ghost var free, due := fs.freeClust, fs.fsiFlag;
    TableLength(fs);
    if fs.freeClust <= fs.geo.nFatent - 2 {
      return FrOk, fs.freeClust;
    }
    var n;
    res := FrOk;
    if fs.geo.fsType == Fat12 {
      res, n := CountFree12(fs);
    } else {
      n := CountFreeWide(fs);
    }
    SameFat(fs, old(fs.Img()));
    fs.freeClust := n;
    if fs.geo.fsType == Fat32 { fs.fsiFlag := true; }
    InfoCounted(fs, free, due);
    return res, n;
  }

  lemma InfoCounted(fs: FatFs, free: nat, due: bool)
    requires fs.Valid() && fs.fsiFlag == (due || fs.geo.fsType == Fat32)
    ensures InfoFresh(fs.geo, fs.Img(), free, due) ==> InfoOk(fs)
  {
    hide FatFs.Valid, FatFs.Img, FsInfo;
  }

  lemma SameFat(fs: FatFs, img: seq<Sector>)
    requires fs.Valid() && img == fs.Img()
    ensures Fat(fs) == FatOf(fs.geo, img)
  {
  }

  /** When the answer is right: on a plausible cached count, if that is; on a scan, exactly if no entry of a FAT12 volume is
      1 before its last free cluster, and the reserved entries of the others are in use. */
  lemma FreeIsRight(fat: seq<nat>, fsType: FatType)
    requires |fat| > 2
    ensures fsType != Fat12 ==> (CountFree(fat) + ReservedZeros(fat) == CountFree(fat) <==> ReservedUsed(fat))
    ensures FreeBelow(fat, FirstOne(fat, 2)) == CountFree(fat) <==> forall c :: FirstOne(fat, 2) <= c < |fat| ==> fat[c] != 0
  {
    NoneFreeBehind(fat, FirstOne(fat, 2), |fat|);
  }

  lemma {:induction false} NoneFreeBehind(fat: seq<nat>, a: nat, b: nat)
    requires 2 <= a <= b <= |fat|
    ensures FreeBelow(fat, a) <= FreeBelow(fat, b)
    ensures FreeBelow(fat, a) == FreeBelow(fat, b) <==> forall c :: a <= c < b ==> fat[c] != 0
    decreases b - a
  {
    if a < b {
      NoneFreeBehind(fat, a, b - 1);
      assert (forall c :: a <= c < b ==> fat[c] != 0) <==> (forall c :: a <= c < b - 1 ==> fat[c] != 0) && fat[b - 1] != 0;
    }
  }

  /** A volume on which no cluster is cross-linked or lost, and whose free count is right, in memory and in FSInfo. */
  ghost predicate VolumeOk(fs: FatFs)
    reads fs`winsect, fs`wflag, fs`freeClust, fs`fsiFlag, fs`chains, fs.disk, fs.win
    ensures VolumeOk(fs) ==> fs.Valid()
  {
    && fs.Valid() && FreeCountOk(fs) && InfoOk(fs)
    && ReservedUsed(Fat(fs)) && ChainsOk(Fat(fs), fs.chains)
  }

  /** Starts a new chain; 0 means that every cluster is in use. */
  method StartChain(fs: FatFs) returns (ncl: nat)
    requires VolumeOk(fs)
    modifies fs`winsect, fs`wflag, fs`lastClust, fs`freeClust, fs`fsiFlag, fs`chains, fs.disk, fs.win
    ensures VolumeOk(fs) && SameOutsideFat(fs.geo, old(fs.Img()), fs.Img())
    ensures fs.winsect == old(fs.winsect) || InFat(fs.geo, fs.winsect)
    ensures ncl != 0 ==> InFat(fs.geo, fs.winsect)
    ensures ncl == 0 ==> CountFree(Fat(fs)) == 0 && fs.chains == old(fs.chains) && fs.Img() == old(fs.Img())
    ensures ncl == 0 && old(fs.Clean()) ==> fs.Clean()
    ensures ncl != 0 ==> InRange(fs.geo, ncl) && ncl !in old(fs.chains) && fs.chains == old(fs.chains)[ncl := [ncl]]
    ensures ncl != 0 ==> CountFree(Fat(fs)) + 1 == old(CountFree(Fat(fs)))
  {
    hide FatFs.Valid, FatFs.Img, FatOf, FatLayout, DataLayout, FreeBelow, ChainsOk, InfoFresh, FatFs.Clean;
    ghost var fat := Fat(fs);
    ncl := CreateChain(fs, 0);
    FreeBelowBound(fat, |fat|);
    if ncl == 1 {
      ghost var c :| 2 <= c < fs.geo.nFatent && fat[c] == 1;
      OwnedIffUsed(fat, fs.chains, c);
      assert false;
    }
    if ncl != 0 {
      NarrowEnough(fs);
      LinksFit(fs.geo, ncl);
      NewChain(fat, fs.chains, ncl, Eoc(fs.geo.fsType));
      FreeBelowUpdate(fat, ncl, Eoc(fs.geo.fsType), |fat|);
      fs.chains := fs.chains[ncl := [ncl]];
    }
  }

  /** The cluster behind position `i` of chain `h`, stretching the chain at its end; 0 means that every cluster is in use. */
  method NextCluster(fs: FatFs, clst: nat, ghost h: nat, ghost i: nat) returns (ncl: nat)
    requires VolumeOk(fs) && h in fs.chains && i < |fs.chains[h]| && fs.chains[h][i] == clst
    modifies fs`winsect, fs`wflag, fs`lastClust, fs`freeClust, fs`fsiFlag, fs`chains, fs.disk, fs.win
    ensures VolumeOk(fs) && SameOutsideFat(fs.geo, old(fs.Img()), fs.Img())
    ensures fs.winsect == old(fs.winsect) || InFat(fs.geo, fs.winsect)
    ensures fs.chains != old(fs.chains) ==> InFat(fs.geo, fs.winsect)
    ensures h in fs.chains && fs.chains == old(fs.chains)[h := fs.chains[h]]
    ensures ncl == 0 ==> i + 1 == |fs.chains[h]| && CountFree(Fat(fs)) == 0
    ensures ncl == 0 || i + 1 < |old(fs.chains)[h]| ==> fs.chains == old(fs.chains) && fs.Img() == old(fs.Img())
    ensures fs.chains == old(fs.chains) && old(fs.Clean()) ==> fs.Clean()
    ensures ncl != 0 ==> InRange(fs.geo, ncl) && i + 1 < |fs.chains[h]| && fs.chains[h][i + 1] == ncl
    ensures ncl != 0 && i + 1 == |old(fs.chains)[h]| ==>
              fs.chains[h] == old(fs.chains)[h] + [ncl] && old(Fat(fs))[ncl] == 0
  {
    hide FatFs.Valid, FatFs.Img, FatOf, FatLayout, DataLayout, FreeBelow, ChainsOk, InfoFresh, FatFs.Clean;
    ghost var fat, ch := Fat(fs), fs.chains[h];
    ChainStep(fat, fs.chains, h, i);
    ncl := CreateChain(fs, clst);
    FreeBelowBound(fat, |fat|);
    if i + 1 == |ch| {
      if ncl == 1 {
        var c :| 2 <= c < fs.geo.nFatent && fat[c] == 1;
        OwnedIffUsed(fat, fs.chains, c);
        assert false;
      } else if ncl != 0 {
        NarrowEnough(fs);
        LinksFit(fs.geo, ncl);
        ExtendChain(fat, fs.chains, h, ncl, Eoc(fs.geo.fsType));
        FreeBelowUpdate(fat, ncl, Eoc(fs.geo.fsType), |fat|);
        FreeBelowUpdate(fat[ncl := Eoc(fs.geo.fsType)], clst, ncl, |fat|);
        fs.chains := fs.chains[h := ch + [ncl]];
      }
    }
  }

  /** The link of a chain's cluster: the next cluster, or past the end. */
  lemma ChainStep(fat: seq<nat>, chains: map<nat, seq<nat>>, h: nat, i: nat)
    requires ChainsOk(fat, chains) && h in chains && i < |chains[h]|
    ensures 2 <= chains[h][i] < |fat| && chains[h][0] == h
    ensures if i + 1 < |chains[h]| then fat[chains[h][i]] == chains[h][i + 1] && 2 <= chains[h][i + 1] < |fat|
            else fat[chains[h][i]] >= |fat| && chains[h][i] == Tail(chains[h])
  {
    assert Opened(0);
    var ch := chains[h];
    assert IsChain(fat, ch);
    if i + 1 < |ch| {
      assert fat[ch[i]] == ch[i + 1];
    }
  }

  /** Frees the whole chain `h`: its clusters become free, all others stay as they are. */
  method DropChain(fs: FatFs, h: nat) returns (res: FResult)
    requires VolumeOk(fs) && h in fs.chains
    modifies fs`winsect, fs`wflag, fs`freeClust, fs`fsiFlag, fs`chains, fs.disk, fs.win
    ensures VolumeOk(fs) && res == FrOk && SameOutsideFat(fs.geo, old(fs.Img()), fs.Img())
    ensures fs.winsect == old(fs.winsect) || InFat(fs.geo, fs.winsect)
    ensures fs.chains == old(fs.chains) - {h} && (|old(fs.chains)[h]| == 1 ==> fs.wflag)
    ensures Fat(fs) == ZeroedOn(old(Fat(fs)), old(fs.chains)[h])
  {
    hide FatFs.Valid, FatFs.Img, FatOf, FatLayout, DataLayout, FreeBelow, ChainsOk, InfoFresh, ZeroedOn;
    ghost var fat, ch := Fat(fs), fs.chains[h];
    ChainFormed(fat, fs.chains, h);
    ChainStep(fat, fs.chains, h, 0);
    FreedChain(fat, ch, 0);
    assert ch[..0] == [];
    ZeroedNone(fat);
    RemoveChainOk(fat, fs.chains, h);
    res := RemoveChain(fs, h);
    ZeroedReserved(fat, ch);
    fs.chains := fs.chains - {h};
  }

  lemma ChainFormed(fat: seq<nat>, chains: map<nat, seq<nat>>, h: nat)
    requires ChainsOk(fat, chains) && h in chains
    ensures IsChain(fat, chains[h])
  {
    assert Opened(0);
  }

  lemma ZeroedNone(fat: seq<nat>)
    ensures ZeroedOn(fat, []) == fat
  {
  }

  lemma ZeroedReserved(fat: seq<nat>, ch: seq<nat>)
    requires IsChain(fat, ch) && ReservedUsed(fat)
    ensures ReservedUsed(ZeroedOn(fat, ch))
  {
  }

  /** The FAT depends on the FAT sectors only. */
  lemma FatUntouched(g: Geometry, a: seq<Sector>, b: seq<Sector>)
    requires FatLayout(g, |a|) && |a| == |b|
    requires forall s: nat {:trigger InFat(g, s)} :: InFat(g, s) ==> b[s] == a[s]
    ensures FatOf(g, b) == FatOf(g, a)
  {
    hide FatBytesNeeded, Entries, Flatten;
    forall s: nat | g.fatbase <= s < g.fatbase + g.fsize ensures b[s] == a[s] { assert InFat(g, s); }
    assert a[g.fatbase..g.fatbase + g.fsize] == b[g.fatbase..g.fatbase + g.fsize];
  }

  lemma DataWriteKeepsFat(g: Geometry, img: seq<Sector>, at: nat, b: seq<Sector>)
    requires FatLayout(g, |img|) && DataRange(g, |img|, at, |b|)
    ensures FatOf(g, Overwrite(img, at, b)) == FatOf(g, img)
  {
    hide FatBytesNeeded, FatOf;
    var img' := Overwrite(img, at, b);
    forall s: nat | InFat(g, s) ensures img'[s] == img[s] { }
    FatUntouched(g, img, img');
  }

  lemma DataWriteKeepsInfo(fs: FatFs, img: seq<Sector>, at: nat, b: seq<Sector>)
    requires fs.Valid() && DataRange(fs.geo, fs.disk.Length, at, |b|) && |img| == fs.disk.Length
    requires InfoFresh(fs.geo, img, fs.freeClust, fs.fsiFlag)
    ensures InfoFresh(fs.geo, Overwrite(img, at, b), fs.freeClust, fs.fsiFlag)
  {
    hide FatFs.Valid, FatLayout, DataLayout, InfoFresh, InFat, InMirror;
    InfoStays(fs.geo, fs.disk.Length, img, Overwrite(img, at, b), fs.freeClust, fs.fsiFlag, fs.freeClust, fs.fsiFlag);
  }

  /** Writes file data straight to the disk. */
  method WriteSectors(fs: FatFs, buff: seq<Sector>, sect: nat) returns (res: DResult)
    requires VolumeOk(fs) && DataRange(fs.geo, fs.disk.Length, sect, |buff|) && !(sect <= fs.winsect < sect + |buff|)
    modifies fs.disk
    ensures VolumeOk(fs) && res == ResOk
    ensures sect + |buff| <= fs.disk.Length && fs.Img() == Overwrite(old(fs.Img()), sect, buff)
    ensures Fat(fs) == old(Fat(fs))
  {
    hide FatFs.Valid, FatFs.Img, FatOf, FatLayout, DataLayout, FreeBelow, ChainsOk, InfoFresh, Overwrite, DataRange;
    DataInside(fs.geo, fs.disk.Length, sect, |buff|);
    DataWriteKeepsFat(fs.geo, fs.Img(), sect, buff);
    DataWriteKeepsInfo(fs, fs.Img(), sect, buff);
    res := fs.WriteData(buff, sect);
  }
}
