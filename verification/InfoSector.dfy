/** The FSInfo sector of a FAT32 volume (src/ff.cpp: chk_mounted, sync_fs): the free count and the search hint on the disk. */
module InfoSector {
  import opened Sealed
  import opened Bytes
  import opened Geometry

  predicate Signed(s: Sector) {
    s[510] == 0x55 && s[511] == 0xAA
  }

  /** The free count and the search hint of an FSInfo sector, if there is one. */
  function FsInfo(d: seq<Sector>, g: Geometry): (nat, nat) {
    if g.fsType == Fat32 && g.fsiSector < |d| && Signed(d[g.fsiSector])
       && LdDword(d[g.fsiSector], 0) == 0x4161_5252 && LdDword(d[g.fsiSector], 484) == 0x6141_7272
    then (LdDword(d[g.fsiSector], 492), LdDword(d[g.fsiSector], 488))
    else (0, NO_CLUSTER)
  }

  /** An FSInfo sector with the given search hint and free count. */
  predicate InfoIs(s: Sector, last: nat, free: nat) {
    Signed(s) && LdDword(s, 0) == 0x4161_5252 && LdDword(s, 484) == 0x6141_7272 && LdDword(s, 488) == free
        && LdDword(s, 492) == last
  }

  /** The FSInfo sector, which only a sync writes. */
  predicate IsInfo(g: Geometry, s: nat) {
    g.fsType == Fat32 && s == g.fsiSector
  }

  lemma InfoBelow(g: Geometry, n: nat)
    requires DataLayout(g, n)
    ensures g.fsType == Fat32 ==> g.fsiSector < g.fatbase
  {
    hide MaxEntries, PowerOfTwo, DataEnd, FatEnd;
  }

  /** Unless it is `due` to be written, the FSInfo sector of a FAT32 volume holds the cached free count. */
  ghost predicate InfoFresh(g: Geometry, img: seq<Sector>, free: nat, due: bool) {
    forall k: nat {:trigger Opened(k)} :: Opened(k) ==> (g.fsType == Fat32 && !due ==> FsInfo(img, g).1 == free)
  }

  lemma InfoFreshIs(g: Geometry, img: seq<Sector>, free: nat, due: bool)
    requires g.fsType == Fat32 && !due ==> FsInfo(img, g).1 == free
    ensures InfoFresh(g, img, free, due)
  {
    hide FsInfo;
  }

  lemma InfoFreshMeans(g: Geometry, img: seq<Sector>, free: nat, due: bool)
    requires InfoFresh(g, img, free, due) && g.fsType == Fat32 && !due
    ensures FsInfo(img, g).1 == free
  {
    hide FsInfo;
    assert Opened(0);
  }

  /** A step that leaves the reserved sectors alone, and marks a change of the free count, keeps this so. */
  lemma InfoStays(g: Geometry, n: nat, img: seq<Sector>, img': seq<Sector>, free: nat, due: bool, free': nat, due': bool)
    requires InfoFresh(g, img, free, due) && DataLayout(g, n) && |img| == |img'|
    requires forall s: nat {:trigger img'[s]} :: s < g.fatbase && s < |img| ==> img'[s] == img[s]
    requires due' || (free' == free && due' == due)
    ensures InfoFresh(g, img', free', due')
  {
    hide LdDword, Signed, DataLayout;
    InfoBelow(g, n);
    if g.fsType == Fat32 && !due' { InfoFreshMeans(g, img, free, due); }
  }
}
