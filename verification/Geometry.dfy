/** Where the parts of a FAT volume lie: what a mount leaves in the file system object. */
module Geometry {
  import opened Arith

  datatype FatType = Fat12 | Fat16 | Fat32

  /** The mount-time fields of FATFS.  Sector and cluster numbers are the source's own. */
  datatype Geometry = Geometry(
    fsType: FatType,
    nFats: nat,
    csize: nat,       // sectors per cluster
    nRootdir: nat,    // entries in the fixed root (FAT12/16)
    nFatent: nat,     // number of clusters + 2
    fsize: nat,       // sectors per FAT
    fatbase: nat,
    dirbase: nat,     // root start sector (FAT12/16) or root start cluster (FAT32)
    database: nat,    // first data sector
    fsiSector: nat    // FSInfo sector (FAT32)
  )

  const NO_CLUSTER: nat := 0xFFFF_FFFF   // free_clust before a count is known; also get_fat's disk error
  const END_OF_CHAIN: nat := 0x0FFF_FFFF // the value create_chain stores in a new tail

  /** Bytes a FAT of type `t` needs for `n` entries. */
  function FatBytesNeeded(t: FatType, n: nat): nat {
    match t
    case Fat12 => n * 3 / 2 + n % 2
    case Fat16 => n * 2
    case Fat32 => n * 4
  }

  /** The largest number of FAT entries at which `t` is still the type that a mount selects. */
  function MaxEntries(t: FatType): nat {
    match t
    case Fat12 => 4087
    case Fat16 => 65527
    case Fat32 => 0x0FFF_FFF1
  }

  predicate PowerOfTwo(n: nat) {
    n == 1 || (n > 1 && n % 2 == 0 && PowerOfTwo(n / 2))
  }

  /** The FAT copies lie inside a disk of `n` sectors and are large enough for all entries. */
  predicate FatLayout(g: Geometry, n: nat) {
    && 1 <= g.nFats <= 2
    && 1 <= g.fatbase
    && FatEnd(g) <= n
    && FatBytesNeeded(g.fsType, g.nFatent) <= g.fsize * 512
  }

  /** The root directory and the clusters follow the FATs, inside the disk. */
  predicate DataLayout(g: Geometry, n: nat) {
    && 1 <= g.csize <= 128 && PowerOfTwo(g.csize)
    && 3 <= g.nFatent <= MaxEntries(g.fsType)
    && FatEnd(g) <= g.database
    && (g.fsType != Fat32 ==>
          g.nRootdir > 0 && g.nRootdir % 16 == 0 && g.nRootdir <= 0xFFFF
          && g.dirbase == FatEnd(g) && g.database == g.dirbase + g.nRootdir / 16)
    && (g.fsType == Fat32 ==>
          g.nRootdir == 0 && 2 <= g.dirbase < g.nFatent && 1 <= g.fsiSector < g.fatbase)
    && DataEnd(g) <= n <= 0xFFFF_FFFF
  }

  /** The sector after the last FAT copy. */
  function FatEnd(g: Geometry): nat {
    g.fatbase + (if g.nFats == 2 then 2 * g.fsize else g.fsize)
  }

  /** The sector after the last cluster. */
  function DataEnd(g: Geometry): int {
    g.database + (g.nFatent - 2) * g.csize
  }

  predicate InRange(g: Geometry, c: nat) {
    2 <= c < g.nFatent
  }

  /** First sector of a cluster; 0 stands for an invalid cluster number. */
  function Clust2Sect(g: Geometry, c: nat): nat {
    if InRange(g, c) then (c - 2) * g.csize + g.database else 0
  }

  /** Clusters occupy pairwise disjoint sector ranges. */
  lemma ClustersDisjoint(g: Geometry, c: nat, d: nat)
    requires InRange(g, c) && InRange(g, d) && c != d
    ensures Clust2Sect(g, c) + g.csize <= Clust2Sect(g, d) || Clust2Sect(g, d) + g.csize <= Clust2Sect(g, c)
  {
    if c < d {
      MultiplesApart(g.csize, c - 2, d - 2);
    } else {
      MultiplesApart(g.csize, d - 2, c - 2);
    }
  }

  /** A cluster lies wholly inside the data area. */
  lemma ClusterInData(g: Geometry, n: nat, c: nat)
    requires FatLayout(g, n) && DataLayout(g, n) && InRange(g, c)
    ensures FatEnd(g) <= g.database <= Clust2Sect(g, c) && Clust2Sect(g, c) + g.csize <= n
  {
    hide FatBytesNeeded, MaxEntries, PowerOfTwo;
    MultiplesApart(g.csize, c - 2, g.nFatent - 2);
    MulNonNeg(c - 2, g.csize);
  }
}
