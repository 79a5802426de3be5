/** What every public operation keeps beside the order of the volume: files have no cluster that their bytes do not need,
    directories stay bounded, and the boot sectors stay, so that a mount finds the volume again. */
module Upkeep {
  import opened Bytes
  import opened Geometry
  import opened InfoSector
  import opened FatAccess
  import opened FileData
  import opened DirTable
  import opened Directory
  import opened VolumeState
  import opened VolumeSteps
  import Format
  import Mount

  /** Every file has only the clusters that its bytes need. */
  ghost predicate Tight(v: Vol, c: map<Slot, seq<byte>>) {
    forall s {:trigger c[s]} :: s in c ==> s in v.starts && Snug(v.g, |ChainAt(v.chains, v.starts[s])|, |c[s]|)
  }

  /** A mount of the volume finds its geometry. */
  ghost predicate Mountable(v: Vol) {
    var at := Mount.FindVolume(v.img).1;
    Mount.MountOf(v.img) == Mount.MountedAs(v.g) && at < v.g.fatbase && !IsInfo(v.g, at)
  }

  ghost predicate DirsPlain(v: Vol) {
    forall d {:trigger d in v.dirs} :: d in v.dirs ==> DirPlain(v, d)
  }

  ghost predicate Regular(v: Vol, c: map<Slot, seq<byte>>) {
    Tight(v, c) && Mountable(v) && DirsPlain(v)
  }

  lemma RegularMeans(v: Vol, c: map<Slot, seq<byte>>)
    requires Regular(v, c)
    ensures Tight(v, c) && Mountable(v) && DirsPlain(v)
  {
    hide Tight, Mountable, DirsPlain;
  }

  lemma RegularIs(v: Vol, c: map<Slot, seq<byte>>)
    requires Tight(v, c) && Mountable(v) && DirsPlain(v)
    ensures Regular(v, c)
  {
    hide Tight, Mountable, DirsPlain;
  }

  lemma TightAt(v: Vol, c: map<Slot, seq<byte>>, s: Slot)
    requires Tight(v, c) && s in c
    ensures s in v.starts && Snug(v.g, |ChainAt(v.chains, v.starts[s])|, |c[s]|)
  {
    hide Snug;
  }

  /** The boot sector lies before the FAT. */
  lemma BootSector(v: Vol)
    requires Mountable(v)
    ensures Mount.FindVolume(v.img).0 == 0 && Mount.FindVolume(v.img).1 < v.g.fatbase
    ensures Mount.Derive(Mount.ReadBpb(v.img[Mount.FindVolume(v.img).1]), Mount.FindVolume(v.img).1) == Mount.MountedAs(v.g)
  {
    hide Mount.FindVolume, Mount.ReadBpb, Mount.Derive;
  }

  lemma SectorStays(v: Vol, v': Vol, h: nat, s: nat)
    requires Based(v) && Based(v') && OnlyArea(v, v', h) && s < v.g.fatbase && !IsInfo(v.g, s)
    ensures s < |v.img| == |v'.img| && v'.img[s] == v.img[s]
  {
    hide Based, HeadSecs;
    if s in HeadSecs(v.g, v.chains, h) { AreaSector(v, h, s); }
    if s in HeadSecs(v.g, v'.chains, h) { AreaSector(v', h, s); }
    BeforeFat(v);
  }

  lemma BeforeFat(v: Vol)
    requires Based(v)
    ensures 1 <= v.g.fatbase <= |v.img| && !IsInfo(v.g, 0)
  {
    hide FatBytesNeeded, MaxEntries, PowerOfTwo, DataEnd, FatOf, Chains.ChainsOk;
  }

  lemma MountableKept(v: Vol, v': Vol, h: nat)
    requires Based(v) && Based(v') && OnlyArea(v, v', h) && Mountable(v)
    ensures Mountable(v')
  {
    hide Based, OnlyArea, Mount.ReadBpb, Mount.Derive, Signed, Format.FatString, LdDword, IsInfo;
    BootSector(v);
    BeforeFat(v);
    SameGeometry(v, v', h);
    SectorStays(v, v', h, 0);
    SectorStays(v, v', h, Mount.FindVolume(v.img).1);
  }

  /** A change in the area of one head keeps the other files as they are. */
  lemma TightKept(v: Vol, v': Vol, h: nat, slot: Slot, c: map<Slot, seq<byte>>, c': map<Slot, seq<byte>>)
    requires Based(v) && Based(v') && OnlyArea(v, v', h) && Tight(v, c) && 0 !in v.chains && 0 !in v'.chains
    requires forall s {:trigger s in c'} :: s in c' && s != slot ==>
               && s in c && c'[s] == c[s] && s in v.starts && s in v'.starts && v'.starts[s] == v.starts[s]
                    && (v.starts[s] == 0 || v.starts[s] != h)
    requires slot in c' ==> slot in v'.starts && Snug(v'.g, |ChainAt(v'.chains, v'.starts[slot])|, |c'[slot]|)
    ensures Tight(v', c')
  {
    hide Based, OnlyArea, Snug;
    SameGeometry(v, v', h);
    forall s | s in c' && s != slot ensures ChainAt(v'.chains, v'.starts[s]) == ChainAt(v.chains, v.starts[s]) {
      if v.starts[s] != 0 { AreaKept(v, v', h, v.starts[s]); }
    }
  }

  /** Directories whose areas did not change stay plain. */
  lemma PlainKept(v: Vol, v': Vol, h: nat, d: nat, loose: set<nat>, pend: set<Slot>)
    requires Sound(v, loose, pend) && Based(v') && OnlyArea(v, v', h) && d in v.dirs && DirHead(v.g, d) != h && DirPlain(v, d)
    ensures DirPlain(v', d)
  {
    hide Based, SlotsOk, HeadsOk, AgreeOk, SubdirsOk, OnlyArea, DirHead, DirOk, Tab, DirSecs, PlainEntry;
    SoundMeans(v, loose, pend);
    SameGeometry(v, v', h);
    TabKept(v, v', h, d);
  }

  lemma AllPlainKept(v: Vol, v': Vol, h: nat, loose: set<nat>, pend: set<Slot>)
    requires Sound(v, loose, pend) && Based(v') && OnlyArea(v, v', h) && NoDir(v, h) && DirsPlain(v) && v'.dirs == v.dirs
    ensures DirsPlain(v')
  {
    hide Sound, Based, OnlyArea, DirHead, DirPlain;
    forall d | d in v'.dirs ensures DirPlain(v', d) { PlainKept(v, v', h, d, loose, pend); }
  }

  lemma PlainBySlot(v: Vol, v': Vol, d: nat, loose: set<nat>, pend: set<Slot>)
    requires Sound(v, loose, pend) && Based(v') && d in v.dirs && OnlyArea(v, v', DirHead(v.g, d)) && DirsPlain(v)
    requires DirPlain(v, d) ==> DirPlain(v', d)
    requires forall k {:trigger k in v'.dirs} :: k in v'.dirs ==> k in v.dirs || DirPlain(v', k)
    ensures DirsPlain(v')
  {
    hide Sound, Based, OnlyArea, DirHead, DirPlain;
    forall k | k in v'.dirs ensures DirPlain(v', k) {
      if k in v.dirs && k != d {
        DirHeadsDiffer(v, loose, pend, k, d);
        PlainKept(v, v', DirHead(v.g, d), k, loose, pend);
      }
    }
  }

  lemma DirIs(v: Vol, d: nat, loose: set<nat>, pend: set<Slot>)
    requires Sound(v, loose, pend) && d in v.dirs
    ensures DirOk(v, d)
  {
    hide Based, SlotsOk, HeadsOk, AgreeOk, SubdirsOk, DirOk;
    SoundMeans(v, loose, pend);
  }

  /** With the attributes of a plain entry, an entry is plain. */
  lemma KindPlain(e: Entry, e': Entry)
    requires !IsLabel(e') && (!IsReadOnly(e) ==> !IsReadOnly(e')) && e'[..11] == e[..11]
    ensures PlainEntry(e) ==> PlainEntry(e')
  {
    hide IsLabel, IsReadOnly;
    assert e[0] == e[..11][0] && e'[0] == e'[..11][0];
  }

  lemma DeletedPlain(e: Entry)
    ensures PlainEntry(Patch(e, 0, [DDE]))
  {
  }

  /** One entry of a directory is replaced by a plain one. */
  lemma PlainStore(v: Vol, v': Vol, d: nat, i: nat, e: Entry)
    requires v'.g == v.g && v'.chains == v.chains && i < |Tab(v, d)| && Tab(v', d) == Tab(v, d)[i := e]
    requires PlainEntry(Tab(v, d)[i]) ==> PlainEntry(e)
    ensures DirPlain(v, d) ==> DirPlain(v', d)
  {
    hide Tab, DirSecs, PlainEntry;
  }

  /** A directory gets a plain entry, and perhaps a cluster. */
  lemma PlainGrown(v: Vol, v': Vol, d: nat, i: nat)
    requires v'.g == v.g && GrownOnce(v, v', d) && KeptBut(Tab(v, d), Tab(v', d), i) && i < |Tab(v', d)|
             && PlainEntry(Tab(v', d)[i])
    requires DirOk(v, d) && 0 !in v.chains && Based(v)
    ensures DirPlain(v, d) ==> DirPlain(v', d)
  {
    hide Tab, DirSecs, PlainEntry, DirHead, TableOk, Based;
    if DirPlain(v, d) {
      forall j | 0 <= j < |Tab(v', d)| ensures PlainEntry(Tab(v', d)[j]) {
        if j >= |Tab(v, d)| && j != i { ZeroPlain(Tab(v', d)[j]); }
        if j < |Tab(v, d)| && j != i { assert Tab(v', d)[j] == Tab(v, d)[j]; }
      }
      if v'.chains != v.chains { GrownBound(v, v', d); }
    }
  }

  lemma GrownBound(v: Vol, v': Vol, d: nat)
    requires Based(v) && v'.g == v.g && DirOk(v, d) && |Tab(v, d)| < 65536
    requires var h := DirHead(v.g, d); h != 0 && h in v.chains && h in v'.chains && |v'.chains[h]| == |v.chains[h]| + 1
    ensures |DirSecs(v'.g, v'.chains, d)| < 4096 + v'.g.csize
  {
    hide Table, SectorsOk, TableOk, DirSecsOk, Secs, Based;
    DirSecsAre(v.g, v.chains, d);
    DirSecsAre(v'.g, v'.chains, d);
    DirSecsMean(v.g, v.img, DirSecs(v.g, v.chains, d));
    TabIs(v, d);
  }

  lemma NoneNeeded(v: Vol, slot: Slot)
    requires Based(v) && 0 !in v.chains
    ensures Snug(v.g, |ChainAt(v.chains, 0)|, 0)
  {
    hide FatLayout, DataLayout, FatOf, Chains.ChainsOk, SectorCount;
    DataFacts(v.g, |v.img|);
    NoClusterBytes(v.g);
  }

  /** A change of one slot or of its directory: the other files keep their clusters, and a file that is new has none. */
  lemma RegularBySlot(v: Vol, v': Vol, slot: Slot, d: nat, loose: set<nat>, pend: set<Slot>, open: set<Slot>,
                      c: map<Slot, seq<byte>>, c': map<Slot, seq<byte>>)
    requires Sound(v, loose, pend) && Based(v') && d in v.dirs && OnlyArea(v, v', DirHead(v.g, d)) && ContentsFor(v, open, c)
    requires forall s {:trigger s in c'} :: s in c' && s != slot ==> s in c && c'[s] == c[s] && s in v'.starts && v'.starts[s] == v.starts[s]
    requires slot in c' ==> slot in v'.starts && v'.starts[slot] == 0 && c'[slot] == []
    requires DirPlain(v, d) ==> DirPlain(v', d)
    requires forall k {:trigger k in v'.dirs} :: k in v'.dirs ==> k in v.dirs || DirPlain(v', k)
    ensures Regular(v, c) ==> Regular(v', c')
  {
    hide Sound, Based, OnlyArea, DirHead, EntryOf, Tight, Mountable, DirsPlain, DirPlain, FileOf, Snug;
    if Regular(v, c) {
      PlainBySlot(v, v', d, loose, pend);
      SoundParts(v, loose, pend);
      NoHeadZero(v');
      MountableKept(v, v', DirHead(v.g, d));
      NoneNeeded(v', slot);
      forall s | s in c' && s != slot ensures s in v.starts && (v.starts[s] == 0 || v.starts[s] != DirHead(v.g, d)) {
        FileNotDir(v, loose, pend, s, d);
      }
      TightKept(v, v', DirHead(v.g, d), slot, c, c');
    }
  }

  /** A change in a directory that keeps all starts. */
  lemma RegularInDir(v: Vol, v': Vol, d: nat, loose: set<nat>, pend: set<Slot>, open: set<Slot>, c: map<Slot, seq<byte>>)
    requires Sound(v, loose, pend) && Based(v') && d in v.dirs && OnlyArea(v, v', DirHead(v.g, d)) && ContentsFor(v, open, c)
    requires v'.starts == v.starts && v'.dirs == v.dirs && (DirPlain(v, d) ==> DirPlain(v', d))
    ensures Regular(v, c) ==> Regular(v', c)
  {
    hide *;
    if Regular(v, c) {
      RegularMeans(v, c);
      TooFar(v, loose, pend);
      forall s | s in c ensures s in v.starts { TightAt(v, c, s); }
      RegularBySlot(v, v', NOBODY, d, loose, pend, open, c, c);
    }
  }

  /** A change of a chain without owner. */
  lemma RegularLoose(v: Vol, v': Vol, h: nat, loose: set<nat>, pend: set<Slot>, open: set<Slot>, c: map<Slot, seq<byte>>)
    requires Sound(v, loose, pend) && Based(v') && OnlyArea(v, v', h) && ContentsFor(v, open, c)
             && v'.starts == v.starts && v'.dirs == v.dirs
    requires h in loose || (h != 0 && h !in v.chains)
    ensures Regular(v, c) ==> Regular(v', c)
  {
    hide *;
    if Regular(v, c) {
      RegularMeans(v, c);
      SoundParts(v, loose, pend);
      NoHeadZero(v');
      MountableKept(v, v', h);
      LooseStarts(v, loose, pend, h);
      if h in loose { LooseNoDir(v, loose, pend, h); } else { FreshNoDir(v, loose, pend, h); }
      AllPlainKept(v, v', h, loose, pend);
      TooFar(v, loose, pend);
      forall s | s in c ensures s in v.starts { TightAt(v, c, s); }
      TightKept(v, v', h, NOBODY, c, c);
      RegularIs(v', c);
    }
  }

  /** A change of one file's chain, if the file did not get more than it needs. */
  lemma RegularByFile(v: Vol, v': Vol, slot: Slot, loose: set<nat>, pend: set<Slot>, c: map<Slot, seq<byte>>, b: seq<byte>)
    requires Sound(v, loose, pend) && Based(v') && slot in v.starts && slot in v'.starts && slot in c
    requires OnlyArea(v, v', AreaOf(v'.starts[slot])) && v'.starts == v.starts[slot := v'.starts[slot]]
    requires v'.starts[slot] == v.starts[slot] || (v.starts[slot] == 0 && v'.starts[slot] !in v.chains)
    requires |ChainAt(v'.chains, v'.starts[slot])| == |ChainAt(v.chains, v.starts[slot])|
             || Snug(v.g, |ChainAt(v'.chains, v'.starts[slot])|, |b|)
    requires |c[slot]| <= |b| && v'.dirs == v.dirs && NoDir(v, AreaOf(v'.starts[slot]))
    ensures Regular(v, c) ==> Regular(v', c[slot := b])
  {
    hide *;
    if Regular(v, c) {
      var h := AreaOf(v'.starts[slot]);
      RegularMeans(v, c);
      SoundMeans(v, loose, pend);
      NoHeadZero(v);
      NoHeadZero(v');
      MountableKept(v, v', h);
      SameGeometry(v, v', h);
      AllPlainKept(v, v', h, loose, pend);
      TightAt(v, c, slot);
      if |ChainAt(v'.chains, v'.starts[slot])| == |ChainAt(v.chains, v.starts[slot])| {
        SnugMore(v.g, |ChainAt(v.chains, v.starts[slot])|, |c[slot]|, |b|);
      }
      forall s | s in c && s != slot ensures s in v.starts && v.starts[s] != h {
        TightAt(v, c, s);
        StartDiffers(v, v', slot, h, s, loose);
      }
      TightKept(v, v', h, slot, c, c[slot := b]);
      RegularIs(v', c[slot := b]);
    }
  }
}
