/** The whole volume as a state: directories, the chains their entries own, and how single changes keep them in order. */
module VolumeState {
  import opened Arith
  import opened Sealed
  import opened Bytes
  import opened Geometry
  import opened Window
  import opened InfoSector
  import opened FatAccess
  import opened Chains
  import opened Allocation
  import opened FileData
  import opened DirTable
  import opened Directory

  /** Entry `index` of the directory that starts at cluster `dir` (0: the root). */
  datatype Slot = Slot(dir: nat, index: nat)

  /** A volume: its image and chains, its directories, and for every owned entry the head of the entry's chain (0: none). */
  datatype Vol = Vol(g: Geometry, img: seq<Sector>, chains: map<nat, seq<nat>>, dirs: set<nat>, starts: map<Slot, nat>)

  ghost predicate Based(v: Vol) {
    FatLayout(v.g, |v.img|) && DataLayout(v.g, |v.img|) && ChainsOk(FatOf(v.g, v.img), v.chains)
  }

  function ChainAt(chains: map<nat, seq<nat>>, h: nat): seq<nat> {
    if h in chains then chains[h] else []
  }

  /** The sectors of the area that starts at head `h`; 0 stands for the fixed root. */
  ghost function HeadSecs(g: Geometry, chains: map<nat, seq<nat>>, h: nat): seq<nat> {
    if h == 0 then RootSecs(g, RootSectors(g)) else Secs(g, ChainAt(chains, h))
  }

  lemma DirSecsAre(g: Geometry, chains: map<nat, seq<nat>>, d: nat)
    ensures DirSecs(g, chains, d) == HeadSecs(g, chains, DirHead(g, d))
  {
    hide Secs, RootSecs, RootSectors;
    NoSectors(g);
  }

  lemma RootSecAt(g: Geometry, n: nat, i: nat)
    requires FatLayout(g, n) && DataLayout(g, n) && i < RootSectors(g)
    ensures var s := RootSecs(g, RootSectors(g))[i]; 0 < s < g.database && s < n && s >= g.fatbase && !InFat(g, s) && !InMirror(g, s)
  {
    hide FatBytesNeeded, MaxEntries, PowerOfTwo;
    MulNonNeg(g.nFatent - 2, g.csize);
  }

  /** An area's sectors are data sectors of the volume. */
  lemma AreaSector(v: Vol, h: nat, s: nat)
    requires Based(v) && s in HeadSecs(v.g, v.chains, h)
    ensures 0 < s < |v.img| && !InFat(v.g, s) && !InMirror(v.g, s) && s >= v.g.fatbase && !IsInfo(v.g, s)
    ensures h != 0 ==> h in v.chains && s >= v.g.database
    ensures h == 0 ==> s < v.g.database
  {
    hide FatLayout, DataLayout, FatOf, ChainsOk, Secs, RootSecs, RootSectors, InFat, InMirror, SectorCount;
    InfoBelow(v.g, |v.img|);
    var secs := HeadSecs(v.g, v.chains, h);
    var i :| 0 <= i < |secs| && secs[i] == s;
    if h == 0 {
      RootSecAt(v.g, |v.img|, i);
    } else {
      NoSectors(v.g);
      DataFacts(v.g, |v.img|);
      ChainGood(v.g, FatOf(v.g, v.img), v.chains, h);
      FileSector(v.g, |v.img|, v.chains[h], i);
    }
  }

  /** Different areas have no common sector. */
  lemma AreasApart(v: Vol, h: nat, k: nat, s: nat)
    requires Based(v) && h != k && s in HeadSecs(v.g, v.chains, h)
    ensures s !in HeadSecs(v.g, v.chains, k)
  {
    hide FatLayout, DataLayout, FatOf, ChainsOk, Secs, RootSecs, RootSectors, SectorCount;
    AreaSector(v, h, s);
    if s in HeadSecs(v.g, v.chains, k) {
      AreaSector(v, k, s);
      if h != 0 && k != 0 {
        ChainsApart(v, h, k);
        var a, b := v.chains[h], v.chains[k];
        var i :| 0 <= i < |Secs(v.g, a)| && Secs(v.g, a)[i] == s;
        var j :| 0 <= j < |Secs(v.g, b)| && Secs(v.g, b)[j] == s;
        FilesApart(v.g, a, b, i, j);
      }
      assert false;
    }
  }

  lemma ChainsApart(v: Vol, h: nat, k: nat)
    requires Based(v) && h in v.chains && k in v.chains && h != k
    ensures AllClusters(v.g, v.chains[h]) && AllClusters(v.g, v.chains[k]) && v.g.csize > 0
    ensures forall c :: c in v.chains[h] ==> c !in v.chains[k]
  {
    hide FatLayout, DataLayout, FatOf;
    DataFacts(v.g, |v.img|);
    ChainGood(v.g, FatOf(v.g, v.img), v.chains, h);
    ChainGood(v.g, FatOf(v.g, v.img), v.chains, k);
    assert Opened(0);
    assert Disjoint(v.chains[h], v.chains[k]);
  }

  ghost predicate OutsideArea(v: Vol, v': Vol, h: nat, s: nat) {
    !IsInfo(v.g, s) && !InFat(v.g, s) && s !in HeadSecs(v.g, v.chains, h) && s !in HeadSecs(v.g, v'.chains, h)
  }

  /** From `v` to `v'`, besides the FAT and the FSInfo sector only the area of head `h` changed, and no chain but `h`. */
  ghost predicate OnlyArea(v: Vol, v': Vol, h: nat) {
    && v'.g == v.g && |v'.img| == |v.img|
    && (forall k {:trigger k in v'.chains} :: k != h ==> (k in v'.chains <==> k in v.chains))
    && (forall k {:trigger v'.chains[k]} :: k != h && k in v'.chains && k in v.chains ==> v'.chains[k] == v.chains[k])
    && (forall s: nat {:trigger v'.img[s]} :: s < |v.img| && OutsideArea(v, v', h, s) ==> v'.img[s] == v.img[s])
  }

  /** Other areas stay as they are. */
  lemma AreaKept(v: Vol, v': Vol, h: nat, k: nat)
    requires Based(v) && Based(v') && OnlyArea(v, v', h) && k != h
    ensures k in v'.chains <==> k in v.chains
    ensures ChainAt(v'.chains, k) == ChainAt(v.chains, k) && HeadSecs(v.g, v'.chains, k) == HeadSecs(v.g, v.chains, k)
    ensures forall s: nat {:trigger v'.img[s]} :: s in HeadSecs(v.g, v.chains, k) ==> s < |v.img| && v'.img[s] == v.img[s]
  {
    hide Based, RootSecs, RootSectors, Secs, InFat, InMirror, IsInfo;
    assert k in v'.chains <==> k in v.chains;
    forall s: nat | s in HeadSecs(v.g, v.chains, k) ensures s < |v.img| && v'.img[s] == v.img[s] {
      AreaSector(v, k, s);
      AreasApart(v, k, h, s);
      AreasApart(v', k, h, s);
    }
  }

  /** The table of a directory. */
  ghost function Tab(v: Vol, d: nat): seq<Entry> {
    var secs := DirSecs(v.g, v.chains, d);
    if SectorsOk(v.img, secs) then Table(v.img, secs) else []
  }

  lemma TabIs(v: Vol, d: nat)
    requires SectorsOk(v.img, DirSecs(v.g, v.chains, d))
    ensures Tab(v, d) == Table(v.img, DirSecs(v.g, v.chains, d))
  {
  }

  /** The entry at a slot. */
  ghost function EntryOf(v: Vol, s: Slot): Entry {
    if s.index < |Tab(v, s.dir)| then Tab(v, s.dir)[s.index] else seq(32, _ => 0)
  }

  /** Entries that own what they name: the dot entries of a sub-directory do not. */
  predicate Owns(e: Entry) {
    Live(e) && e[0] != 0x2E
  }

  /** The start cluster in an entry. */
  function StartOf(g: Geometry, e: Entry): nat {
    LdWord(e, 26) + (if g.fsType == Fat32 then 0x1_0000 * LdWord(e, 20) else 0)
  }

  function SizeOf(e: Entry): nat {
    LdDword(e, 28)
  }

  ghost predicate DirOk(v: Vol, d: nat) {
    DirKnown(v.g, v.chains, d) && DirSecsOk(v.g, |v.img|, DirSecs(v.g, v.chains, d)) && TableOk(Tab(v, d))
  }

  /** An entry as the operations make it: no label, and not read-only. */
  predicate PlainEntry(e: Entry) {
    Blank(e) || (!IsLabel(e) && !IsReadOnly(e))
  }

  /** A directory as the operations make it, with no more clusters than its entries can use. */
  ghost predicate DirPlain(v: Vol, d: nat) {
    && |DirSecs(v.g, v.chains, d)| < 4096 + v.g.csize
    && forall i {:trigger Tab(v, d)[i]} :: 0 <= i < |Tab(v, d)| ==> PlainEntry(Tab(v, d)[i])
  }

  ghost predicate DirsOk(v: Vol) {
    0 in v.dirs && forall d {:trigger d in v.dirs} :: d in v.dirs ==> DirOk(v, d)
  }

  /** The chain that the root directory occupies, or 0. */
  function RootHead(g: Geometry): nat {
    DirHead(g, 0)
  }

  ghost predicate IsOwner(v: Vol, s: Slot) {
    s.dir in v.dirs && s.index < |Tab(v, s.dir)| && Owns(EntryOf(v, s))
  }

  /** Exactly the owning entries have starts. */
  ghost predicate SlotsOk(v: Vol) {
    forall s {:trigger s in v.starts} {:trigger IsOwner(v, s)} :: s in v.starts <==> IsOwner(v, s)
  }

  ghost predicate Headed(starts: map<Slot, nat>, h: nat) {
    exists s :: s in starts && starts[s] == h
  }

  ghost predicate HeadsDistinct(v: Vol) {
    forall s, t {:trigger v.starts[s], v.starts[t]} :: s in v.starts && t in v.starts && s != t && v.starts[s] != 0 ==>
           v.starts[s] != v.starts[t]
  }

  /** Every chain has exactly one owner: the root, an entry, or it is `loose`. */
  ghost predicate HeadsOk(v: Vol, loose: set<nat>) {
    && (forall s {:trigger v.starts[s]} :: s in v.starts && v.starts[s] != 0 ==>
          v.starts[s] in v.chains && v.starts[s] !in loose && v.starts[s] != RootHead(v.g))
    && HeadsDistinct(v)
    && (forall h {:trigger h in loose} :: h in loose ==> h in v.chains && h != RootHead(v.g) && h != 0)
    && (forall h {:trigger Headed(v.starts, h)} :: h in v.chains && h !in loose && h != RootHead(v.g) ==> Headed(v.starts, h))
    && 0 !in v.chains
  }

  /** What a chain can hold. */
  ghost function Capacity(v: Vol, h: nat): nat {
    |Secs(v.g, ChainAt(v.chains, h))| * 512
  }

  /** The entry says what is: its start, and a size that its chain can hold. */
  ghost predicate Agrees(v: Vol, s: Slot)
    requires s in v.starts
  {
    && StartOf(v.g, EntryOf(v, s)) == v.starts[s]
    && (IsDir(EntryOf(v, s)) || SizeOf(EntryOf(v, s)) <= Capacity(v, v.starts[s]))
  }

  /** Only entries of files written since the last sync may lag behind. */
  ghost predicate AgreeOk(v: Vol, pend: set<Slot>) {
    && (forall s {:trigger s in pend} :: s in pend ==> s in v.starts && !IsDir(EntryOf(v, s)))
    && (forall s {:trigger v.starts[s]} :: s in v.starts && s !in pend ==> Agrees(v, s))
  }

  ghost predicate DirLink(v: Vol, d: nat, s: Slot) {
    s in v.starts && v.starts[s] == d && IsDir(EntryOf(v, s))
  }

  ghost predicate DotsOk(v: Vol, d: nat) {
    |Tab(v, d)| >= 2 && Tab(v, d)[0][0] == 0x2E && Tab(v, d)[1][0] == 0x2E
  }

  /** Directory entries name the directories, and every directory but the root is named by an entry. */
  ghost predicate SubdirsOk(v: Vol) {
    && (forall s {:trigger v.starts[s]} :: s in v.starts && IsDir(EntryOf(v, s)) ==> v.starts[s] != 0 && v.starts[s] in v.dirs)
    && (forall d {:trigger d in v.dirs} :: d in v.dirs && d != 0 ==> DotsOk(v, d) && exists s :: DirLink(v, d, s))
  }

  /** A volume in order. */
  ghost predicate Sound(v: Vol, loose: set<nat>, pend: set<Slot>) {
    forall k: nat {:trigger Opened(k)} :: Opened(k) ==>
      Based(v) && DirsOk(v) && SlotsOk(v) && HeadsOk(v, loose) && AgreeOk(v, pend) && SubdirsOk(v)
  }

  /** The bytes that a closed file holds. */
  ghost function FileOf(v: Vol, s: Slot): seq<byte>
    requires s in v.starts
  {
    BytesAt(v, v.starts[s], SizeOf(EntryOf(v, s)))
  }

  ghost function BytesAt(v: Vol, h: nat, size: nat): seq<byte> {
    var ch := ChainAt(v.chains, h);
    if Fits(v.g, |v.img|, ch) && size <= |Secs(v.g, ch)| * 512 then Flat(v.g, v.img, ch)[..size] else []
  }

  /** Every used cluster lies on exactly one chain, and that chain has exactly one owner. */
  lemma NothingLost(v: Vol, pend: set<Slot>, c: nat)
    requires Sound(v, {}, pend) && FatLayout(v.g, |v.img|) && InRange(v.g, c) && FatOf(v.g, v.img)[c] != 0
    ensures exists h :: h in v.chains && c in v.chains[h] && (h == RootHead(v.g) || Headed(v.starts, h))
    ensures forall h, k :: h in v.chains && k in v.chains && c in v.chains[h] && c in v.chains[k] ==> h == k
  {
    hide FatLayout, DataLayout, FatOf, DirsOk, SlotsOk, AgreeOk, SubdirsOk, IsChain, ChainsFormed;
    assert Opened(0);
    OwnedIffUsed(FatOf(v.g, v.img), v.chains, c);
    var h :| h in v.chains && c in v.chains[h];
    assert h == RootHead(v.g) || Headed(v.starts, h);
    forall a, b | a in v.chains && b in v.chains && c in v.chains[a] && c in v.chains[b] ensures a == b {
      assert a == b || Disjoint(v.chains[a], v.chains[b]);
    }
  }

  lemma SoundMeans(v: Vol, loose: set<nat>, pend: set<Slot>)
    requires Sound(v, loose, pend)
    ensures Based(v) && DirsOk(v) && SlotsOk(v) && HeadsOk(v, loose) && AgreeOk(v, pend) && SubdirsOk(v)
  {
    hide Based, DirsOk, SlotsOk, HeadsOk, AgreeOk, SubdirsOk;
    assert Opened(0);
  }

  lemma SoundParts(v: Vol, loose: set<nat>, pend: set<Slot>)
    requires Sound(v, loose, pend)
    ensures Based(v) && HeadsOk(v, loose) && 0 !in v.chains && DirsOk(v)
    ensures forall s {:trigger s in v.starts} :: s in v.starts ==> s.dir in v.dirs
  {
    hide Based, DirsOk, AgreeOk, SubdirsOk, Owns, EntryOf, Tab;
    SoundMeans(v, loose, pend);
    forall s | s in v.starts ensures s.dir in v.dirs { assert IsOwner(v, s); }
  }

  lemma SoundIs(v: Vol, loose: set<nat>, pend: set<Slot>)
    requires Based(v) && DirsOk(v) && SlotsOk(v) && HeadsOk(v, loose) && AgreeOk(v, pend) && SubdirsOk(v)
    ensures Sound(v, loose, pend)
  {
    hide Based, DirsOk, SlotsOk, HeadsOk, AgreeOk, SubdirsOk;
  }

  /** Head `h` is no directory's. */
  ghost predicate NoDir(v: Vol, h: nat) {
    forall d {:trigger d in v.dirs} :: d in v.dirs ==> DirHead(v.g, d) != h
  }

  /** A file's chain is no directory. */
  lemma FileNoDir(v: Vol, loose: set<nat>, pend: set<Slot>, s: Slot)
    requires Sound(v, loose, pend) && s in v.starts && !IsDir(EntryOf(v, s)) && v.starts[s] != 0
    ensures NoDir(v, v.starts[s])
  {
    hide Based, DirsOk, SlotsOk, AgreeOk, DotsOk, EntryOf, IsDir;
    SoundMeans(v, loose, pend);
    forall d | d in v.dirs ensures DirHead(v.g, d) != v.starts[s] {
      if d != 0 {
        var t :| DirLink(v, d, t);
        assert t != s;
      }
    }
  }

  lemma LooseNoDir(v: Vol, loose: set<nat>, pend: set<Slot>, h: nat)
    requires Sound(v, loose, pend) && h in loose
    ensures NoDir(v, h)
  {
    hide Based, DirsOk, SlotsOk, AgreeOk, DotsOk, EntryOf, IsDir;
    SoundMeans(v, loose, pend);
    forall d | d in v.dirs ensures DirHead(v.g, d) != h {
      if d != 0 {
        var t :| DirLink(v, d, t);
        assert v.starts[t] == d;
      }
    }
  }

  lemma FreshNoDir(v: Vol, loose: set<nat>, pend: set<Slot>, h: nat)
    requires Sound(v, loose, pend) && h != 0 && h !in v.chains
    ensures NoDir(v, h)
  {
    hide Based, SlotsOk, HeadsOk, AgreeOk, SubdirsOk, EntryOf, IsDir, DirHead, TableOk, DirSecsOk;
    SoundMeans(v, loose, pend);
    forall d | d in v.dirs ensures DirHead(v.g, d) != h {
      assert DirOk(v, d);
    }
  }

  /** Different directories have different heads. */
  lemma DirHeadsDiffer(v: Vol, loose: set<nat>, pend: set<Slot>, d: nat, k: nat)
    requires Sound(v, loose, pend) && d in v.dirs && k in v.dirs && d != k
    ensures DirHead(v.g, d) != DirHead(v.g, k)
  {
    hide Based, DirsOk, SlotsOk, AgreeOk, DotsOk, EntryOf, IsDir;
    SoundMeans(v, loose, pend);
    if d != 0 { var t :| DirLink(v, d, t); assert v.starts[t] == d; }
    if k != 0 { var t :| DirLink(v, k, t); assert v.starts[t] == k; }
  }

  /** A directory whose area did not change keeps its table. */
  lemma TabKept(v: Vol, v': Vol, h: nat, d: nat)
    requires Based(v) && Based(v') && OnlyArea(v, v', h) && DirHead(v.g, d) != h && DirOk(v, d)
    ensures DirSecs(v.g, v'.chains, d) == DirSecs(v.g, v.chains, d) && Tab(v', d) == Tab(v, d) && DirOk(v', d)
  {
    hide Based, RootSecs, RootSectors, Secs, InFat, InMirror, HeadSecs, DirSecs, DirSecsOk, TableOk, Table, SectorsOk;
    var k := DirHead(v.g, d);
    AreaKept(v, v', h, k);
    DirSecsAre(v.g, v.chains, d);
    DirSecsAre(v.g, v'.chains, d);
    var secs := DirSecs(v.g, v.chains, d);
    DirSecsMean(v.g, v.img, secs);
    forall i | 0 <= i < |secs| ensures v'.img[secs[i]] == v.img[secs[i]] { assert secs[i] in secs; DirSector(v.g, |v.img|, secs, i); }
    TableKept(v.img, v'.img, secs);
  }

  /** A chain that did not change keeps its bytes. */
  lemma BytesKept(v: Vol, v': Vol, h: nat, k: nat, size: nat)
    requires Based(v) && Based(v') && OnlyArea(v, v', h) && k != h && 0 !in v.chains && 0 !in v'.chains
    ensures BytesAt(v', k, size) == BytesAt(v, k, size) && Capacity(v', k) == Capacity(v, k)
    ensures ChainAt(v'.chains, k) == ChainAt(v.chains, k)
  {
    hide Based, RootSecs, RootSectors, Secs, InFat, InMirror, Fits, Flat;
    AreaKept(v, v', h, k);
    var ch := ChainAt(v.chains, k);
    NoSectors(v.g);
    if Fits(v.g, |v.img|, ch) {
      forall s: nat | s < |v.img| && s in Secs(v.g, ch) ensures v'.img[s] == v.img[s] {
        assert s in HeadSecs(v.g, v.chains, k);
      }
      FlatSame(v.g, v.img, v'.img, ch);
    }
  }

  lemma HeadRange(v: Vol, h: nat)
    requires Based(v) && h in v.chains
    ensures h >= 2
  {
    hide FatLayout, DataLayout, FatOf, ChainsOk;
    ChainGood(v.g, FatOf(v.g, v.img), v.chains, h);
    ChainStep(FatOf(v.g, v.img), v.chains, h, 0);
  }

  lemma RootKnown(v: Vol)
    requires DirsOk(v)
    ensures RootHead(v.g) != 0 ==> RootHead(v.g) in v.chains
  {
    hide DirHead, DirSecs, Tab, TableOk, DirSecsOk;
    assert DirOk(v, 0);
  }

  lemma SameGeometry(v: Vol, v': Vol, h: nat)
    requires OnlyArea(v, v', h)
    ensures v'.g == v.g && |v'.img| == |v.img|
  {
    hide HeadSecs;
  }

  /** The names in every directory, with their slots. */
  ghost function NamesOf(v: Vol): map<nat, map<Name, nat>> {
    map d | d in v.dirs :: NameMap(Tab(v, d))
  }

  /** The names with one more, and with one less, in directory `d`. */
  function WithName(ns: map<nat, map<Name, nat>>, d: nat, n: Name, i: nat): map<nat, map<Name, nat>>
    requires d in ns
  {
    var m: map<Name, nat> := ns[d][n := i];
    ns[d := m]
  }

  function WithoutName(ns: map<nat, map<Name, nat>>, d: nat, n: Name): map<nat, map<Name, nat>>
    requires d in ns
  {
    ns[d := ns[d] - {n}]
  }

  lemma NamesKept(v: Vol, v': Vol)
    requires v'.dirs == v.dirs && forall d {:trigger d in v.dirs} :: d in v.dirs ==> Tab(v', d) == Tab(v, d)
    ensures NamesOf(v') == NamesOf(v)
  {
    hide Tab, NameMap;
  }

  ghost predicate SameTab(v: Vol, v': Vol, d: nat) {
    Tab(v', d) == Tab(v, d) && DirOk(v', d)
  }

  /** All directories but those of one head keep their tables. */
  lemma OtherTabsKept(v: Vol, v': Vol, h: nat, loose: set<nat>, pend: set<Slot>)
    requires Sound(v, loose, pend) && Based(v') && OnlyArea(v, v', h)
    ensures forall d {:trigger d in v.dirs} :: d in v.dirs && DirHead(v.g, d) != h ==> SameTab(v, v', d)
  {
    hide Based, SlotsOk, HeadsOk, AgreeOk, SubdirsOk, OnlyArea, DirHead, DirOk, Tab;
    SoundMeans(v, loose, pend);
    forall d | d in v.dirs && DirHead(v.g, d) != h ensures SameTab(v, v', d) { TabKept(v, v', h, d); }
  }

  lemma SameEntry(v: Vol, v': Vol, s: Slot)
    requires Tab(v', s.dir) == Tab(v, s.dir)
    ensures EntryOf(v', s) == EntryOf(v, s)
    ensures s.dir in v.dirs && s.dir in v'.dirs ==> (IsOwner(v', s) <==> IsOwner(v, s))
  {
    hide Tab;
  }

  /** The head that stands for a file's area; a file without clusters has none, and no area starts at cluster 1. */
  function AreaOf(sclust: nat): nat {
    if sclust == 0 then 1 else sclust
  }

  /** A change to one file's chain: the entry of that file may lag behind, all else is in order. */
  lemma FileStep(v: Vol, v': Vol, slot: Slot, loose: set<nat>, pend: set<Slot>)
    requires Sound(v, loose, pend) && slot in v.starts && !IsDir(EntryOf(v, slot)) && slot in v'.starts
    requires Based(v') && OnlyArea(v, v', AreaOf(v'.starts[slot]))
    requires v'.dirs == v.dirs && v'.starts == v.starts[slot := v'.starts[slot]]
    requires v'.starts[slot] == v.starts[slot] || (v.starts[slot] == 0 && v'.starts[slot] !in v.chains)
    requires v'.starts[slot] != 0 ==> v'.starts[slot] in v'.chains
    ensures Sound(v', loose, pend + {slot})
    ensures forall d {:trigger d in v.dirs} :: d in v.dirs ==> Tab(v', d) == Tab(v, d)
    ensures forall s {:trigger s in v.starts} :: s in v.starts ==> EntryOf(v', s) == EntryOf(v, s)
    ensures forall s {:trigger s in v.starts} :: s in v.starts && s != slot ==> FileOf(v', s) == FileOf(v, s)
  {
    hide Based, OnlyArea, DirHead, DirOk, Tab, EntryOf, IsOwner, HeadsOk, AgreeOk, SubdirsOk, BytesAt, IsDir, SizeOf;
    SoundMeans(v, loose, pend);
    var h := AreaOf(v'.starts[slot]);
    FileHeadNoDir(v, v', slot, h, loose, pend);
    OtherTabsKept(v, v', h, loose, pend);
    forall d | d in v.dirs ensures Tab(v', d) == Tab(v, d) { assert SameTab(v, v', d); }
    EntriesKept(v, v');
    RootKnown(v);
    SameGeometry(v, v', h);
    FileHeads(v, v', slot, h, loose);
    forall s | s in v.starts && s != slot ensures FileOf(v', s) == FileOf(v, s)
           && Capacity(v', v.starts[s]) == Capacity(v, v.starts[s]) {
      StartDiffers(v, v', slot, h, s, loose);
      BytesKept(v, v', h, v.starts[s], SizeOf(EntryOf(v, s)));
    }
    FileAgrees(v, v', slot, pend);
    SoundIs(v', loose, pend + {slot});
  }

  lemma FileHeadNoDir(v: Vol, v': Vol, slot: Slot, h: nat, loose: set<nat>, pend: set<Slot>)
    requires Sound(v, loose, pend) && slot in v.starts && !IsDir(EntryOf(v, slot)) && slot in v'.starts
    requires h == AreaOf(v'.starts[slot])
    requires v'.starts[slot] == v.starts[slot] || (v.starts[slot] == 0 && v'.starts[slot] !in v.chains)
    ensures NoDir(v, h)
  {
    hide Based, DirHead, DirOk, Tab, EntryOf, DirsOk, SlotsOk, HeadsOk, AgreeOk, SubdirsOk, IsDir, NoDir;
    SoundMeans(v, loose, pend);
    if v'.starts[slot] == 0 {
      if 1 in v.chains { HeadRange(v, 1); }
      FreshNoDir(v, loose, pend, 1);
    } else if v'.starts[slot] == v.starts[slot] {
      FileNoDir(v, loose, pend, slot);
    } else {
      FreshNoDir(v, loose, pend, h);
    }
  }

  /** With all tables kept, all entries are. */
  lemma EntriesKept(v: Vol, v': Vol)
    requires v'.dirs == v.dirs && (forall d {:trigger d in v.dirs} :: d in v.dirs ==> SameTab(v, v', d))
    requires DirsOk(v) && SlotsOk(v) && v'.starts.Keys == v.starts.Keys
    ensures DirsOk(v') && SlotsOk(v')
    ensures forall s {:trigger s in v.starts} :: s in v.starts ==> EntryOf(v', s) == EntryOf(v, s)
    ensures forall d {:trigger d in v.dirs} :: d in v.dirs ==> (DotsOk(v', d) <==> DotsOk(v, d))
  {
    hide DirOk, Tab, EntryOf, Owns;
    forall s ensures s in v'.starts <==> IsOwner(v', s) {
      assert s in v'.starts <==> s in v.starts;
      if s.dir in v.dirs { assert SameTab(v, v', s.dir); SameEntry(v, v', s); }
    }
    forall s | s in v.starts ensures EntryOf(v', s) == EntryOf(v, s) {
      assert IsOwner(v, s);
      assert SameTab(v, v', s.dir);
      SameEntry(v, v', s);
    }
    forall d | d in v.dirs ensures DotsOk(v', d) <==> DotsOk(v, d) { assert SameTab(v, v', d); }
  }

  lemma FileHeads(v: Vol, v': Vol, slot: Slot, h: nat, loose: set<nat>)
    requires Based(v) && Based(v') && HeadsOk(v, loose) && OnlyArea(v, v', h) && slot in v.starts && slot in v'.starts
    requires h == AreaOf(v'.starts[slot])
    requires v'.starts == v.starts[slot := v'.starts[slot]] && (v'.starts[slot] != 0 ==> v'.starts[slot] in v'.chains)
    requires v'.starts[slot] == v.starts[slot] || (v.starts[slot] == 0 && v'.starts[slot] !in v.chains)
    requires RootHead(v.g) != 0 ==> RootHead(v.g) in v.chains
    ensures HeadsOk(v', loose)
  {
    hide Based, RootHead, HeadSecs;
    if 1 in v.chains { HeadRange(v, 1); }
    if 1 in v'.chains { HeadRange(v', 1); }
    forall k | k in v'.chains && k !in loose && k != RootHead(v'.g) ensures Headed(v'.starts, k) {
      if k == v'.starts[slot] {
        assert slot in v'.starts;
      } else {
        assert Headed(v.starts, k);
        var s :| s in v.starts && v.starts[s] == k;
        assert s in v'.starts && v'.starts[s] == k;
      }
    }
  }

  lemma StartDiffers(v: Vol, v': Vol, slot: Slot, h: nat, s: Slot, loose: set<nat>)
    requires Based(v) && Based(v') && HeadsOk(v, loose) && slot in v.starts && slot in v'.starts && s in v.starts && s != slot
    requires h == AreaOf(v'.starts[slot])
    requires v'.starts[slot] == v.starts[slot] || (v.starts[slot] == 0 && v'.starts[slot] !in v.chains)
    ensures v.starts[s] != h && 0 !in v.chains && 0 !in v'.chains
  {
    hide Based, RootHead;
    if 1 in v.chains { HeadRange(v, 1); }
    if 0 in v'.chains { HeadRange(v', 0); }
  }

  lemma FileAgrees(v: Vol, v': Vol, slot: Slot, pend: set<Slot>)
    requires AgreeOk(v, pend) && SubdirsOk(v) && slot in v.starts && slot in v'.starts && !IsDir(EntryOf(v, slot))
    requires v'.g == v.g && v'.dirs == v.dirs && v'.starts == v.starts[slot := v'.starts[slot]]
    requires forall s {:trigger s in v.starts} :: s in v.starts ==> EntryOf(v', s) == EntryOf(v, s)
    requires forall s {:trigger s in v.starts} :: s in v.starts && s != slot ==>
             Capacity(v', v.starts[s]) == Capacity(v, v.starts[s])
    requires forall d {:trigger d in v.dirs} :: d in v.dirs ==> (DotsOk(v', d) <==> DotsOk(v, d))
    ensures AgreeOk(v', pend + {slot}) && SubdirsOk(v')
  {
    hide EntryOf, IsDir, SizeOf, StartOf, Capacity, DotsOk;
    forall s | s in v'.starts && s !in pend + {slot} ensures Agrees(v', s) { assert Agrees(v, s); }
    forall d | d in v'.dirs && d != 0 ensures exists t :: DirLink(v', d, t) {
      var t :| DirLink(v, d, t);
      assert DirLink(v', d, t);
    }
  }

  /** A change to a chain that no entry owns. */
  lemma LooseStep(v: Vol, v': Vol, h: nat, loose: set<nat>, pend: set<Slot>)
    requires Sound(v, loose, pend) && Based(v') && OnlyArea(v, v', h) && v'.dirs == v.dirs && v'.starts == v.starts
    requires h in loose || (h != 0 && h !in v.chains)
    ensures Sound(v', if h in v'.chains then loose + {h} else loose - {h}, pend)
    ensures forall s {:trigger s in v.starts} :: s in v.starts ==> EntryOf(v', s) == EntryOf(v, s) && FileOf(v', s) == FileOf(v, s)
  {
    hide Based, OnlyArea, DirHead, DirOk, Tab, EntryOf, IsOwner, HeadsOk, AgreeOk, SubdirsOk, BytesAt, IsDir, SizeOf;
    SoundMeans(v, loose, pend);
    if h in loose { LooseNoDir(v, loose, pend, h); } else { FreshNoDir(v, loose, pend, h); }
    OtherTabsKept(v, v', h, loose, pend);
    EntriesKept(v, v');
    RootKnown(v);
    SameGeometry(v, v', h);
    LooseHeads(v, v', h, loose);
    forall s | s in v.starts ensures FileOf(v', s) == FileOf(v, s) && Capacity(v', v.starts[s]) == Capacity(v, v.starts[s]) {
      BytesKept(v, v', h, v.starts[s], SizeOf(EntryOf(v, s)));
    }
    AllAgree(v, v', pend);
    SoundIs(v', if h in v'.chains then loose + {h} else loose - {h}, pend);
  }

  lemma LooseHeads(v: Vol, v': Vol, h: nat, loose: set<nat>)
    requires Based(v) && Based(v') && HeadsOk(v, loose) && OnlyArea(v, v', h) && v'.starts == v.starts
    requires h in loose || (h != 0 && h !in v.chains)
    requires RootHead(v.g) != 0 ==> RootHead(v.g) in v.chains
    ensures HeadsOk(v', if h in v'.chains then loose + {h} else loose - {h})
    ensures 0 !in v.chains && 0 !in v'.chains && forall s {:trigger v.starts[s]} :: s in v.starts ==> v.starts[s] != h
  {
    hide Based, RootHead, HeadSecs;
  }

  lemma AllAgree(v: Vol, v': Vol, pend: set<Slot>)
    requires AgreeOk(v, pend) && SubdirsOk(v) && v'.g == v.g && v'.dirs == v.dirs && v'.starts == v.starts
    requires forall s {:trigger s in v.starts} :: s in v.starts ==> EntryOf(v', s) == EntryOf(v, s)
    requires forall s {:trigger s in v.starts} :: s in v.starts ==> Capacity(v', v.starts[s]) == Capacity(v, v.starts[s])
    requires forall d {:trigger d in v.dirs} :: d in v.dirs ==> (DotsOk(v', d) <==> DotsOk(v, d))
    ensures AgreeOk(v', pend) && SubdirsOk(v')
  {
    hide EntryOf, IsDir, SizeOf, StartOf, Capacity, DotsOk;
    forall s | s in v'.starts && s !in pend ensures Agrees(v', s) { assert Agrees(v, s); }
    forall d | d in v'.dirs && d != 0 ensures exists t :: DirLink(v', d, t) {
      var t :| DirLink(v, d, t);
      assert DirLink(v', d, t);
    }
  }

  /** The starts differ at one slot only. */
  ghost predicate StartsBut(a: map<Slot, nat>, b: map<Slot, nat>, slot: Slot) {
    && (forall s {:trigger s in b} :: s != slot ==> (s in b <==> s in a))
    && (forall s {:trigger b[s]} :: s != slot && s in a && s in b ==> b[s] == a[s])
  }

  /** A change to one entry of directory `slot.dir`, which may also grow. */
  ghost predicate SlotChange(v: Vol, v': Vol, slot: Slot) {
    && slot.dir in v.dirs && Based(v') && OnlyArea(v, v', DirHead(v.g, slot.dir)) && DirOk(v', slot.dir)
    && KeptBut(Tab(v, slot.dir), Tab(v', slot.dir), slot.index) && slot.index < |Tab(v', slot.dir)|
    && (slot.index < |Tab(v, slot.dir)| && slot !in v.starts ==> Blank(EntryOf(v, slot)))
    && StartsBut(v.starts, v'.starts, slot) && (slot in v'.starts <==> Owns(EntryOf(v', slot)))
  }

  /** All other entries stay, and none appears. */
  lemma SlotEntries(v: Vol, v': Vol, slot: Slot, loose: set<nat>, pend: set<Slot>)
    requires Sound(v, loose, pend) && SlotChange(v, v', slot) && v'.dirs == v.dirs
    ensures DirsOk(v') && SlotsOk(v')
    ensures forall s {:trigger s in v.starts} :: s in v.starts && s != slot ==> EntryOf(v', s) == EntryOf(v, s)
    ensures forall d {:trigger d in v.dirs} :: d in v.dirs && d != 0 && DotsOk(v, d) ==> DotsOk(v', d)
  {
    hide Based, OnlyArea, DirHead, DirOk, Tab, HeadsOk, AgreeOk, SubdirsOk, Live, DotsOk, AllZero;
    SoundMeans(v, loose, pend);
    OtherTabsKept(v, v', DirHead(v.g, slot.dir), loose, pend);
    forall d | d in v.dirs && d != slot.dir ensures SameTab(v, v', d) { DirHeadsDiffer(v, loose, pend, d, slot.dir); }
    forall d | d in v.dirs ensures DirOk(v', d) { assert d == slot.dir || SameTab(v, v', d); }
    forall s | s != slot ensures s.dir in v.dirs ==> (IsOwner(v', s) <==> IsOwner(v, s)) && (IsOwner(v, s) ==> EntryOf(v', s) == EntryOf(v, s)) {
      if s.dir in v.dirs {
        if s.dir == slot.dir { SlotInTab(v, v', slot, s); } else { assert SameTab(v, v', s.dir); SameEntry(v, v', s); }
      }
    }
    forall s ensures s in v'.starts <==> IsOwner(v', s) {
      assert s in v.starts <==> IsOwner(v, s);
    }
    forall d | d in v.dirs && d != 0 && DotsOk(v, d) ensures DotsOk(v', d) {
      if d == slot.dir { DotsStay(v, v', slot); } else { assert SameTab(v, v', d); DotsSame(v, v', d); }
    }
  }

  lemma DotsSame(v: Vol, v': Vol, d: nat)
    requires Tab(v', d) == Tab(v, d) && DotsOk(v, d)
    ensures DotsOk(v', d)
  {
    hide Tab;
  }

  lemma SlotInTab(v: Vol, v': Vol, slot: Slot, s: Slot)
    requires KeptBut(Tab(v, slot.dir), Tab(v', slot.dir), slot.index) && s != slot && s.dir == slot.dir
             && s.dir in v.dirs && s.dir in v'.dirs
    ensures IsOwner(v', s) <==> IsOwner(v, s)
    ensures IsOwner(v, s) ==> EntryOf(v', s) == EntryOf(v, s)
  {
    hide Tab;
    if |Tab(v, s.dir)| <= s.index < |Tab(v', s.dir)| { ZeroNotLive(Tab(v', s.dir)[s.index]); }
  }

  lemma DotsStay(v: Vol, v': Vol, slot: Slot)
    requires KeptBut(Tab(v, slot.dir), Tab(v', slot.dir), slot.index) && DotsOk(v, slot.dir) && SlotsOk(v)
    requires slot.index < |Tab(v, slot.dir)| && slot !in v.starts ==> Blank(EntryOf(v, slot))
    ensures DotsOk(v', slot.dir)
  {
    hide Tab, AllZero, IsLabel;
    if slot in v.starts { assert IsOwner(v, slot); }
  }

  /** What a change of the slot sets free. */
  ghost function FreedBy(v: Vol, v': Vol, slot: Slot): set<nat> {
    if slot in v.starts && v.starts[slot] != 0 && !(slot in v'.starts && v'.starts[slot] == v.starts[slot])
       then {v.starts[slot]} else {}
  }

  /** A file's entry is added, changed or removed: its chain is kept or set free; the entry may lag behind. */
  lemma SlotStep(v: Vol, v': Vol, slot: Slot, loose: set<nat>, pend: set<Slot>)
    requires Sound(v, loose, pend) && SlotChange(v, v', slot) && v'.dirs == v.dirs
    requires slot in v.starts ==> !IsDir(EntryOf(v, slot))
    requires slot in v'.starts ==> !IsDir(EntryOf(v', slot))
    requires slot in v'.starts ==> v'.starts[slot] == 0 || (slot in v.starts && v'.starts[slot] == v.starts[slot])
    ensures Sound(v', loose + FreedBy(v, v', slot), if slot in v'.starts then pend + {slot} else pend - {slot})
    ensures forall s {:trigger s in v.starts} :: s in v.starts && s != slot ==> s in v'.starts && EntryOf(v', s) == EntryOf(v, s)
    ensures forall s {:trigger s in v.starts} :: s in v.starts && s != slot && !IsDir(EntryOf(v, s)) ==>
            FileOf(v', s) == FileOf(v, s)
    ensures forall s {:trigger s in v'.starts} :: s in v'.starts && s != slot ==> s in v.starts
  {
    hide Based, OnlyArea, DirHead, DirOk, Tab, EntryOf, IsOwner, HeadsOk, AgreeOk, SubdirsOk, BytesAt, IsDir, SizeOf,
         KeptBut, Owns, Blank, FreedBy;
    SoundMeans(v, loose, pend);
    var h := DirHead(v.g, slot.dir);
    SlotEntries(v, v', slot, loose, pend);
    RootKnown(v);
    SameGeometry(v, v', h);
    assert DirOk(v', slot.dir) && DirOk(v, slot.dir);
    DirHeadKnown(v', slot.dir);
    DirHeadKnown(v, slot.dir);
    if h in loose { LooseNoDir(v, loose, pend, h); }
    SlotHeads(v, v', slot, h, loose);
    forall s | s in v.starts && s != slot && !IsDir(EntryOf(v, s))
      ensures FileOf(v', s) == FileOf(v, s) && Capacity(v', v.starts[s]) == Capacity(v, v.starts[s])
    {
      if v.starts[s] != 0 { FileNoDir(v, loose, pend, s); }
      FileUntouched(v, v', h, v.starts[s], SizeOf(EntryOf(v, s)));
    }
    SlotAgrees(v, v', slot, pend);
    SoundIs(v', loose + FreedBy(v, v', slot), if slot in v'.starts then pend + {slot} else pend - {slot});
  }

  lemma DirHeadKnown(v: Vol, d: nat)
    requires DirOk(v, d)
    ensures DirHead(v.g, d) != 0 ==> DirHead(v.g, d) in v.chains
  {
  }

  /** A file with no chain holds nothing, whatever changes. */
  lemma FileUntouched(v: Vol, v': Vol, h: nat, k: nat, size: nat)
    requires Based(v) && Based(v') && OnlyArea(v, v', h) && (k == 0 || k != h) && 0 !in v.chains && 0 !in v'.chains
    ensures BytesAt(v', k, size) == BytesAt(v, k, size) && Capacity(v', k) == Capacity(v, k)
  {
    hide Based, RootSecs, RootSectors, InFat, InMirror, OnlyArea;
    if k == 0 {
      SameGeometry(v, v', h);
      NoSectors(v.g);
      assert Secs(v.g, []) == [];
      NoBytes(v);
      NoBytes(v');
    } else {
      BytesKept(v, v', h, k, size);
    }
  }

  lemma NoBytes(v: Vol)
    requires 0 !in v.chains
    ensures forall size: nat :: BytesAt(v, 0, size) == []
  {
    NoSectors(v.g);
  }

  lemma SlotHeads(v: Vol, v': Vol, slot: Slot, h: nat, loose: set<nat>)
    requires Based(v') && HeadsOk(v, loose) && OnlyArea(v, v', h) && StartsBut(v.starts, v'.starts, slot)
    requires slot in v'.starts ==> v'.starts[slot] == 0 || (slot in v.starts && v'.starts[slot] == v.starts[slot])
    requires RootHead(v.g) != 0 ==> RootHead(v.g) in v.chains
    requires h != 0 ==> h in v'.chains && h in v.chains && h !in loose
    ensures HeadsOk(v', loose + FreedBy(v, v', slot)) && 0 !in v.chains && 0 !in v'.chains
  {
    hide Based, RootHead, HeadSecs, HeadsDistinct;
    if 0 in v'.chains { HeadRange(v', 0); }
    SlotDistinct(v, v', slot);
    SlotStarts(v, v', slot, h, loose);
    forall k | k in v'.chains && k !in loose + FreedBy(v, v', slot) && k != RootHead(v'.g) ensures Headed(v'.starts, k) {
      assert Headed(v.starts, k);
      var s :| s in v.starts && v.starts[s] == k;
      assert s in v'.starts && v'.starts[s] == k;
    }
  }

  lemma SlotDistinct(v: Vol, v': Vol, slot: Slot)
    requires HeadsDistinct(v) && StartsBut(v.starts, v'.starts, slot)
    requires slot in v'.starts ==> v'.starts[slot] == 0 || (slot in v.starts && v'.starts[slot] == v.starts[slot])
    ensures HeadsDistinct(v')
  {
  }

  lemma SlotStarts(v: Vol, v': Vol, slot: Slot, h: nat, loose: set<nat>)
    requires HeadsOk(v, loose) && OnlyArea(v, v', h) && StartsBut(v.starts, v'.starts, slot) && (h != 0 ==> h in v'.chains)
    requires slot in v'.starts ==> v'.starts[slot] == 0 || (slot in v.starts && v'.starts[slot] == v.starts[slot])
    ensures forall s {:trigger v'.starts[s]} :: s in v'.starts && v'.starts[s] != 0 ==>
              v'.starts[s] in v'.chains && v'.starts[s] !in loose + FreedBy(v, v', slot) && v'.starts[s] != RootHead(v.g)
  {
    hide RootHead, HeadSecs;
    forall s | s in v'.starts && v'.starts[s] != 0
      ensures v'.starts[s] in v'.chains && v'.starts[s] !in loose + FreedBy(v, v', slot) && v'.starts[s] != RootHead(v.g)
    {
      assert s in v.starts && v'.starts[s] == v.starts[s];
      assert s == slot || slot !in v.starts || v.starts[s] != v.starts[slot];
    }
  }

  lemma SlotAgrees(v: Vol, v': Vol, slot: Slot, pend: set<Slot>)
    requires AgreeOk(v, pend) && SubdirsOk(v) && v'.g == v.g && v'.dirs == v.dirs && StartsBut(v.starts, v'.starts, slot)
    requires slot in v.starts ==> !IsDir(EntryOf(v, slot))
    requires slot in v'.starts ==> !IsDir(EntryOf(v', slot))
    requires forall s {:trigger s in v.starts} :: s in v.starts && s != slot ==> EntryOf(v', s) == EntryOf(v, s)
    requires forall s {:trigger s in v.starts} :: s in v.starts && s != slot && !IsDir(EntryOf(v, s)) ==>
               Capacity(v', v.starts[s]) == Capacity(v, v.starts[s])
    requires forall d {:trigger d in v.dirs} :: d in v.dirs && d != 0 && DotsOk(v, d) ==> DotsOk(v', d)
    ensures AgreeOk(v', if slot in v'.starts then pend + {slot} else pend - {slot}) && SubdirsOk(v')
  {
    hide EntryOf, IsDir, SizeOf, StartOf, Capacity, DotsOk;
    var pend' := if slot in v'.starts then pend + {slot} else pend - {slot};
    forall s | s in v'.starts && s !in pend' ensures Agrees(v', s) { assert s in v.starts && s != slot; assert Agrees(v, s); }
    forall d | d in v'.dirs && d != 0 ensures DotsOk(v', d) && exists t :: DirLink(v', d, t) {
      var t :| DirLink(v, d, t);
      assert DirLink(v', d, t);
    }
  }

  /** Directory `c` holds no entry that owns anything. */
  ghost predicate NoneOwned(v: Vol, c: nat) {
    forall i: nat {:trigger Slot(c, i)} :: i < |Tab(v, c)| ==> !Owns(EntryOf(v, Slot(c, i)))
  }

  /** A loose chain becomes a new, empty directory, and the entry at the slot names it. */
  lemma DirLinked(v: Vol, v': Vol, slot: Slot, c: nat, loose: set<nat>, pend: set<Slot>)
    requires Sound(v, loose, pend) && c in loose && SlotChange(v, v', slot)
    requires slot in v.starts && v.starts[slot] == 0 && !IsDir(EntryOf(v, slot))
    requires v'.dirs == v.dirs + {c} && slot in v'.starts && v'.starts[slot] == c && v'.chains == v.chains
    requires IsDir(EntryOf(v', slot)) && StartOf(v.g, EntryOf(v', slot)) == c
    requires DirOk(v', c) && DotsOk(v', c) && NoneOwned(v', c)
    ensures Sound(v', loose - {c}, pend - {slot})
    ensures forall s {:trigger s in v.starts} :: s in v.starts && s != slot ==> s in v'.starts && EntryOf(v', s) == EntryOf(v, s)
    ensures forall s {:trigger s in v.starts} :: s in v.starts && s != slot && !IsDir(EntryOf(v, s)) ==>
            FileOf(v', s) == FileOf(v, s)
    ensures forall s {:trigger s in v'.starts} :: s in v'.starts && s != slot ==> s in v.starts
  {
    hide Based, OnlyArea, DirHead, DirOk, Tab, EntryOf, IsOwner, HeadsOk, AgreeOk, SubdirsOk, BytesAt, IsDir, SizeOf,
         StartOf, KeptBut, Owns, Blank, DotsOk, NoneOwned, Capacity, StartsBut, SlotChange;
    SoundMeans(v, loose, pend);
    var h := DirHead(v.g, slot.dir);
    ChangeMeans(v, v', slot);
    SameGeometry(v, v', h);
    LooseNoDir(v, loose, pend, c);
    NotADir(v, c, loose);
    var u := v'.(dirs := v.dirs);
    DirlessChange(v, v', u, slot);
    SlotEntries(v, u, slot, loose, pend);
    LinkedDirs(v, v', u, slot, c);
    LinkedHeads(v, v', slot, c, loose);
    forall s | s in v.starts && s != slot && !IsDir(EntryOf(v, s))
      ensures FileOf(v', s) == FileOf(v, s) && Capacity(v', v.starts[s]) == Capacity(v, v.starts[s])
    {
      if v.starts[s] != 0 { FileNoDir(v, loose, pend, s); }
      NoZeroHead(v, loose);
      FileUntouched(v, v', h, v.starts[s], SizeOf(EntryOf(v, s)));
    }
    LinkedAgrees(v, v', slot, c, pend);
    SoundIs(v', loose - {c}, pend - {slot});
  }

  lemma DistinctHeads(v: Vol, loose: set<nat>)
    requires HeadsOk(v, loose)
    ensures HeadsDistinct(v)
  {
  }

  lemma NoZeroHead(v: Vol, loose: set<nat>)
    requires HeadsOk(v, loose)
    ensures 0 !in v.chains
  {
  }

  lemma ChangeMeans(v: Vol, v': Vol, slot: Slot)
    requires SlotChange(v, v', slot)
    ensures slot.dir in v.dirs && Based(v') && OnlyArea(v, v', DirHead(v.g, slot.dir)) && StartsBut(v.starts, v'.starts, slot)
    ensures slot in v'.starts <==> Owns(EntryOf(v', slot))
  {
  }

  lemma NotADir(v: Vol, c: nat, loose: set<nat>)
    requires NoDir(v, c) && HeadsOk(v, loose) && c in loose
    ensures c !in v.dirs && c != 0
  {
  }

  /** A change of slots does not depend on the set of directories. */
  lemma DirlessChange(v: Vol, v': Vol, u: Vol, slot: Slot)
    requires SlotChange(v, v', slot) && u.g == v'.g && u.img == v'.img && u.chains == v'.chains && u.starts == v'.starts
    ensures SlotChange(v, u, slot) && (forall d: nat {:trigger Tab(u, d)} :: Tab(u, d) == Tab(v', d))
    ensures forall s {:trigger EntryOf(u, s)} :: EntryOf(u, s) == EntryOf(v', s)
    ensures forall d: nat {:trigger DirOk(u, d)} :: DirOk(u, d) <==> DirOk(v', d)
    ensures forall d: nat {:trigger DotsOk(u, d)} :: DotsOk(u, d) <==> DotsOk(v', d)
  {
    hide FatLayout, DataLayout, FatOf, ChainsOk, DirKnown, DirSecsOk, TableOk, Owns, Blank, Table, SectorsOk, DirSecs,
         KeptBut, HeadSecs, InFat, DirHead;
  }

  lemma LinkedDirs(v: Vol, v': Vol, u: Vol, slot: Slot, c: nat)
    requires DirsOk(u) && SlotsOk(u) && u == v'.(dirs := v.dirs) && v'.dirs == v.dirs + {c} && c !in v.dirs
    requires DirOk(v', c) && NoneOwned(v', c)
    requires forall d: nat {:trigger DirOk(u, d)} :: DirOk(u, d) <==> DirOk(v', d)
    requires forall s {:trigger EntryOf(u, s)} :: EntryOf(u, s) == EntryOf(v', s)
    requires forall d: nat {:trigger Tab(u, d)} :: Tab(u, d) == Tab(v', d)
    ensures DirsOk(v') && SlotsOk(v')
  {
    hide DirOk, Tab, EntryOf, Owns;
    forall d | d in v'.dirs ensures DirOk(v', d) { assert d == c || DirOk(u, d); }
    forall s ensures s in v'.starts <==> IsOwner(v', s) {
      assert s in u.starts <==> IsOwner(u, s);
      assert s.dir == c && s.index < |Tab(v', c)| ==> !Owns(EntryOf(v', Slot(c, s.index)));
      assert EntryOf(u, s) == EntryOf(v', s) && Tab(u, s.dir) == Tab(v', s.dir);
    }
  }

  lemma LinkedHeads(v: Vol, v': Vol, slot: Slot, c: nat, loose: set<nat>)
    requires HeadsOk(v, loose) && c in loose && v'.g == v.g && v'.chains == v.chains && StartsBut(v.starts, v'.starts, slot)
    requires slot in v.starts && v.starts[slot] == 0 && slot in v'.starts && v'.starts[slot] == c
    ensures HeadsOk(v', loose - {c})
  {
    hide RootHead;
    forall k | k in v'.chains && k !in loose - {c} && k != RootHead(v'.g) ensures Headed(v'.starts, k) {
      if k == c {
        assert v'.starts[slot] == c;
      } else {
        assert Headed(v.starts, k);
        var s :| s in v.starts && v.starts[s] == k;
        assert s in v'.starts && v'.starts[s] == k;
      }
    }
  }

  lemma LinkedAgrees(v: Vol, v': Vol, slot: Slot, c: nat, pend: set<Slot>)
    requires AgreeOk(v, pend) && SubdirsOk(v) && v'.g == v.g && v'.dirs == v.dirs + {c} && StartsBut(v.starts, v'.starts, slot)
    requires slot in v.starts && !IsDir(EntryOf(v, slot)) && slot in v'.starts && v'.starts[slot] == c != 0
    requires IsDir(EntryOf(v', slot)) && StartOf(v.g, EntryOf(v', slot)) == c && DotsOk(v', c)
    requires forall s {:trigger s in v.starts} :: s in v.starts && s != slot ==> EntryOf(v', s) == EntryOf(v, s)
    requires forall s {:trigger s in v.starts} :: s in v.starts && s != slot && !IsDir(EntryOf(v, s)) ==>
               Capacity(v', v.starts[s]) == Capacity(v, v.starts[s])
    requires forall d {:trigger d in v.dirs} :: d in v.dirs && d != 0 && DotsOk(v, d) ==> DotsOk(v', d)
    ensures AgreeOk(v', pend - {slot}) && SubdirsOk(v')
  {
    hide EntryOf, IsDir, SizeOf, StartOf, Capacity, DotsOk;
    forall s | s in v'.starts && s !in pend - {slot} ensures Agrees(v', s) {
      if s != slot { assert s in v.starts; assert Agrees(v, s); }
    }
    forall d | d in v'.dirs && d != 0 ensures DotsOk(v', d) && exists t :: DirLink(v', d, t) {
      if d == c {
        assert DirLink(v', c, slot);
      } else {
        var t :| DirLink(v, d, t);
        assert DirLink(v', d, t);
      }
    }
  }

  /** The entry of an empty directory is removed: its chain becomes loose. */
  lemma DirUnlinked(v: Vol, v': Vol, slot: Slot, c: nat, loose: set<nat>, pend: set<Slot>)
    requires Sound(v, loose, pend) && SlotChange(v, v', slot) && slot in v.starts && IsDir(EntryOf(v, slot))
             && v.starts[slot] == c
    requires v'.dirs == v.dirs - {c} && slot !in v'.starts && v'.chains == v.chains && slot.dir != c
    requires forall s {:trigger s in v.starts} :: s in v.starts ==> s.dir != c
    ensures Sound(v', loose + {c}, pend)
    ensures forall s {:trigger s in v.starts} :: s in v.starts && s != slot ==> s in v'.starts && EntryOf(v', s) == EntryOf(v, s)
    ensures forall s {:trigger s in v.starts} :: s in v.starts && s != slot && !IsDir(EntryOf(v, s)) ==>
            FileOf(v', s) == FileOf(v, s)
    ensures forall s {:trigger s in v'.starts} :: s in v'.starts ==> s in v.starts
  {
    hide Based, OnlyArea, DirHead, DirOk, Tab, EntryOf, IsOwner, HeadsOk, AgreeOk, SubdirsOk, BytesAt, IsDir, SizeOf,
         StartOf, KeptBut, Owns, Blank, DotsOk, NoneOwned, Capacity, StartsBut, SlotChange;
    SoundMeans(v, loose, pend);
    var h := DirHead(v.g, slot.dir);
    ChangeMeans(v, v', slot);
    SameGeometry(v, v', h);
    SubdirStart(v, slot);
    var u := v'.(dirs := v.dirs);
    DirlessChange(v, v', u, slot);
    SlotEntries(v, u, slot, loose, pend);
    UnlinkedDirs(v, v', u, slot, c);
    UnlinkedHeads(v, v', slot, c, loose);
    DistinctHeads(v, loose);
    NoZeroHead(v, loose);
    forall s | s in v.starts && s != slot && !IsDir(EntryOf(v, s))
      ensures FileOf(v', s) == FileOf(v, s) && Capacity(v', v.starts[s]) == Capacity(v, v.starts[s])
    {
      if v.starts[s] != 0 { FileNoDir(v, loose, pend, s); }
      FileUntouched(v, v', h, v.starts[s], SizeOf(EntryOf(v, s)));
    }
    UnlinkedAgrees(v, v', slot, c, pend);
    SoundIs(v', loose + {c}, pend);
  }

  lemma SubdirStart(v: Vol, s: Slot)
    requires SubdirsOk(v) && s in v.starts && IsDir(EntryOf(v, s))
    ensures v.starts[s] != 0 && v.starts[s] in v.dirs
  {
    hide IsDir, EntryOf, DotsOk;
  }

  lemma UnlinkedDirs(v: Vol, v': Vol, u: Vol, slot: Slot, c: nat)
    requires DirsOk(u) && SlotsOk(u) && u == v'.(dirs := v.dirs) && v'.dirs == v.dirs - {c} && c != 0
    requires StartsBut(v.starts, v'.starts, slot) && slot !in v'.starts
             && forall s {:trigger s in v.starts} :: s in v.starts ==> s.dir != c
    requires forall d: nat {:trigger DirOk(u, d)} :: DirOk(u, d) <==> DirOk(v', d)
    requires forall s {:trigger EntryOf(u, s)} :: EntryOf(u, s) == EntryOf(v', s)
    requires forall d: nat {:trigger Tab(u, d)} :: Tab(u, d) == Tab(v', d)
    ensures DirsOk(v') && SlotsOk(v')
  {
    hide DirOk, Tab, EntryOf, Owns;
    forall d | d in v'.dirs ensures DirOk(v', d) { assert DirOk(u, d); }
    forall s ensures s in v'.starts <==> IsOwner(v', s) {
      assert s in u.starts <==> IsOwner(u, s);
      assert s in v'.starts ==> s in v.starts;
      assert EntryOf(u, s) == EntryOf(v', s) && Tab(u, s.dir) == Tab(v', s.dir);
    }
  }

  lemma UnlinkedHeads(v: Vol, v': Vol, slot: Slot, c: nat, loose: set<nat>)
    requires HeadsOk(v, loose) && v'.g == v.g && v'.chains == v.chains && StartsBut(v.starts, v'.starts, slot)
    requires slot in v.starts && v.starts[slot] == c != 0 && slot !in v'.starts
    ensures HeadsOk(v', loose + {c})
  {
    hide RootHead;
    assert v.starts[slot] == c;
    forall k | k in v'.chains && k !in loose + {c} && k != RootHead(v'.g) ensures Headed(v'.starts, k) {
      assert Headed(v.starts, k);
      var s :| s in v.starts && v.starts[s] == k;
      assert s in v'.starts && v'.starts[s] == k;
    }
  }

  lemma UnlinkedAgrees(v: Vol, v': Vol, slot: Slot, c: nat, pend: set<Slot>)
    requires AgreeOk(v, pend) && SubdirsOk(v) && v'.g == v.g && v'.dirs == v.dirs - {c} && StartsBut(v.starts, v'.starts, slot)
    requires slot in v.starts && IsDir(EntryOf(v, slot)) && v.starts[slot] == c && slot !in v'.starts && HeadsDistinct(v)
    requires forall s {:trigger s in v.starts} :: s in v.starts && s != slot ==> EntryOf(v', s) == EntryOf(v, s)
    requires forall s {:trigger s in v.starts} :: s in v.starts && s != slot && !IsDir(EntryOf(v, s)) ==>
               Capacity(v', v.starts[s]) == Capacity(v, v.starts[s])
    requires forall d {:trigger d in v.dirs} :: d in v.dirs && d != 0 && DotsOk(v, d) ==> DotsOk(v', d)
    ensures AgreeOk(v', pend) && SubdirsOk(v')
  {
    hide EntryOf, IsDir, SizeOf, StartOf, Capacity, DotsOk;
    assert v.starts[slot] == c;
    forall s | s in v'.starts && s !in pend ensures Agrees(v', s) { assert s in v.starts && s != slot; assert Agrees(v, s); }
    forall d | d in v'.dirs && d != 0 ensures DotsOk(v', d) && exists t :: DirLink(v', d, t) {
      var t :| DirLink(v, d, t);
      assert t != slot;
      assert DirLink(v', d, t);
    }
  }

  /** Once the entry says what is, it no longer lags behind. */
  lemma Settled(v: Vol, slot: Slot, loose: set<nat>, pend: set<Slot>)
    requires Sound(v, loose, pend) && slot in v.starts && Agrees(v, slot)
    ensures Sound(v, loose, pend - {slot})
  {
    hide Based, DirsOk, SlotsOk, HeadsOk, SubdirsOk, Agrees, EntryOf, IsDir;
    SoundMeans(v, loose, pend);
    SoundIs(v, loose, pend - {slot});
  }

  /** Stores into one directory's sectors change its area only. */
  lemma StoreIsArea(v: Vol, v': Vol, d: nat)
    requires v'.g == v.g && v'.chains == v.chains && OnlySecs(v.g, v.img, v'.img, DirSecs(v.g, v.chains, d))
    ensures OnlyArea(v, v', DirHead(v.g, d))
  {
    hide DirSecs, HeadSecs, DirHead, InFat;
    DirSecsAre(v.g, v.chains, d);
  }

  /** A file's entry gets other bytes behind its name: a change of that slot, and no name changes. */
  lemma EntryChanged(v: Vol, v': Vol, slot: Slot, e': Entry, loose: set<nat>, pend: set<Slot>)
    requires Sound(v, loose, pend) && slot in v.starts && Based(v') && v'.g == v.g && v'.chains == v.chains && v'.dirs == v.dirs
    requires StartsBut(v.starts, v'.starts, slot) && slot in v'.starts
    requires OnlySecs(v.g, v.img, v'.img, DirSecs(v.g, v.chains, slot.dir))
    requires slot.index < |Tab(v, slot.dir)| && Tab(v', slot.dir) == Tab(v, slot.dir)[slot.index := e']
    requires e'[..11] == EntryOf(v, slot)[..11] && !IsLabel(e')
    ensures SlotChange(v, v', slot) && EntryOf(v', slot) == e' && NamesOf(v') == NamesOf(v)
    ensures OnlyArea(v, v', DirHead(v.g, slot.dir)) && slot.dir in v.dirs
  {
    hide Based, OnlyArea, DirHead, Tab, HeadsOk, AgreeOk, SubdirsOk, DirSecs, OnlySecs, TableOk, NameMap, DirKnown,
         DirSecsOk, IsLabel, NamesOf, EntryOf;
    SoundMeans(v, loose, pend);
    StoreIsArea(v, v', slot.dir);
    assert IsOwner(v, slot);
    assert DirOk(v, slot.dir);
    EntryAtSlot(v, slot);
    EntryAtSlot(v', slot);
    SameNameOwns(EntryOf(v, slot), e');
    UpdateKeepsMap(Tab(v, slot.dir), slot.index, e');
    OtherTabsKept(v, v', DirHead(v.g, slot.dir), loose, pend);
    SameSecsOk(v, v', slot.dir);
    KeptIs(Tab(v, slot.dir), slot.index, e');
    forall d | d in v.dirs ensures NameMap(Tab(v', d)) == NameMap(Tab(v, d)) {
      if d != slot.dir { DirHeadsDiffer(v, loose, pend, d, slot.dir); assert SameTab(v, v', d); }
    }
    NamesAre(v, v');
  }

  lemma EntryAtSlot(v: Vol, s: Slot)
    requires s.index < |Tab(v, s.dir)|
    ensures EntryOf(v, s) == Tab(v, s.dir)[s.index]
  {
    hide Tab;
  }

  lemma SameNameOwns(e: Entry, e': Entry)
    requires Owns(e) && e'[..11] == e[..11] && !IsLabel(e')
    ensures Owns(e') && Live(e) && Live(e')
  {
    hide IsLabel;
    assert e'[0] == e'[..11][0] == e[..11][0] == e[0];
  }

  lemma SameSecsOk(v: Vol, v': Vol, d: nat)
    requires v'.g == v.g && v'.chains == v.chains && DirOk(v, d) && OnlySecs(v.g, v.img, v'.img, DirSecs(v.g, v.chains, d))
    requires TableOk(Tab(v', d))
    ensures DirOk(v', d)
  {
    hide TableOk, Tab, DirSecs, DirHead, InFat;
  }

  lemma KeptIs(t: seq<Entry>, i: nat, e: Entry)
    requires i < |t|
    ensures KeptBut(t, t[i := e], i)
  {
  }

  lemma NamesAre(v: Vol, v': Vol)
    requires v'.dirs == v.dirs && forall d {:trigger d in v.dirs} :: d in v.dirs ==> NameMap(Tab(v', d)) == NameMap(Tab(v, d))
    ensures NamesOf(v') == NamesOf(v)
  {
    hide Tab, NameMap;
  }
}
