/** Following paths (src/ff.cpp: follow_path).  A path is the list of 11-byte names that create_name makes of its segments. */
module Paths {
  import opened Geometry
  import opened Window
  import opened Allocation
  import opened DirTable
  import opened Directory
  import opened VolumeState
  import opened EntryStore

  datatype Found = AtStart | AtEntry(slot: Slot) | Missing(dir: nat) | NoWay

  /** What a path names, from directory `d` on. */
  ghost function Resolve(v: Vol, d: nat, path: seq<Name>): Found
    decreases |path|
  {
    if path == [] then AtStart
    else
      var t, k := Tab(v, d), Scan(Tab(v, d), path[0], 0);
      if k == |t| then if |path| == 1 then Missing(d) else NoWay
      else if |path| == 1 then AtEntry(Slot(d, k))
      else if !IsDir(t[k]) then NoWay
      else Resolve(v, StartOf(v.g, t[k]), path[1..])
  }

  /** Names as create_name makes them: a dot never starts one. */
  predicate SegmentOk(n: Name) {
    NameOk(n) && n[0] != 0x2E
  }

  ghost predicate PathOk(path: seq<Name>) {
    forall i {:trigger path[i]} :: 0 <= i < |path| ==> SegmentOk(path[i])
  }

  /** A name found in a directory is an owned entry; one not found is in no entry. */
  lemma FoundIsOwned(v: Vol, loose: set<nat>, pend: set<Slot>, d: nat, n: Name)
    requires Sound(v, loose, pend) && d in v.dirs && SegmentOk(n)
    ensures var k := Scan(Tab(v, d), n, 0);
            if k < |Tab(v, d)| then Slot(d, k) in v.starts && n in NameMap(Tab(v, d)) && NameMap(Tab(v, d))[n] == k
               && EntryOf(v, Slot(d, k)) == Tab(v, d)[k]
            else n !in NameMap(Tab(v, d))
  {
    hide Based, HeadsOk, AgreeOk, SubdirsOk, Tab, Scan, NameMap, DirSecsOk, DirKnown, IsLabel, TableOk;
    SoundMeans(v, loose, pend);
    assert DirOk(v, d);
    var t := Tab(v, d);
    ScanIsLookup(t, n);
    var k := Scan(t, n, 0);
    if k < |t| {
      TableUnique(t);
      NameMapBinds(t, n);
      BoundOwns(t, n, k);
      assert IsOwner(v, Slot(d, k));
    }
  }

  lemma TableUnique(t: seq<Entry>)
    requires TableOk(t)
    ensures NamesUnique(t)
  {
  }

  lemma BoundOwns(t: seq<Entry>, n: Name, k: nat)
    requires Binds(t, n, k) && n[0] != 0x2E
    ensures Owns(t[k])
  {
    hide IsLabel;
    assert t[k][0] == t[k][..11][0] == n[0];
  }

  /** The entry of a sub-directory leads to a directory. */
  lemma SubdirLeads(v: Vol, loose: set<nat>, pend: set<Slot>, s: Slot)
    requires Sound(v, loose, pend) && s in v.starts && IsDir(EntryOf(v, s))
    ensures StartOf(v.g, EntryOf(v, s)) == v.starts[s] && v.starts[s] in v.dirs
  {
    hide Based, DirsOk, SlotsOk, HeadsOk, Tab, EntryOf, IsDir, DotsOk, StartOf;
    SoundMeans(v, loose, pend);
    assert s !in pend;
    assert Agrees(v, s);
  }

  /** What a path names is in the volume: its directory is one, an entry found has that name and an owner, and a missing
      one's name is in no entry. */
  lemma {:induction false} ResolveMeans(v: Vol, loose: set<nat>, pend: set<Slot>, d: nat, path: seq<Name>)
    requires Sound(v, loose, pend) && d in v.dirs && PathOk(path)
    ensures var r := Resolve(v, d, path);
            && (r.AtEntry? ==> r.slot in v.starts && r.slot.dir in v.dirs && NamedBy(v, r.slot, path[|path| - 1]))
            && (r.Missing? ==> r.dir in v.dirs && path != [] && path[|path| - 1] !in NameMap(Tab(v, r.dir)))
            && (r.AtStart? <==> path == [])
    decreases |path|
  {
    hide Sound, Tab, Scan, NameMap, IsDir, StartOf, SegmentOk, EntryOf;
    if path != [] {
      FoundIsOwned(v, loose, pend, d, path[0]);
      var k := Scan(Tab(v, d), path[0], 0);
      if k < |Tab(v, d)| && |path| > 1 && IsDir(Tab(v, d)[k]) {
        SubdirLeads(v, loose, pend, Slot(d, k));
        ResolveMeans(v, loose, pend, StartOf(v.g, Tab(v, d)[k]), path[1..]);
      }
    }
  }

  ghost predicate NamedBy(v: Vol, s: Slot, n: Name) {
    n in NameMap(Tab(v, s.dir)) && NameMap(Tab(v, s.dir))[n] == s.index
  }

  /** The mounted volume is in state `v`. */
  ghost predicate OnVolume(fs: FatFs, v: Vol)
    requires fs.Valid()
    reads fs`winsect, fs`wflag, fs`chains, fs.disk, fs.win
  {
    v.g == fs.geo && v.img == fs.Img() && v.chains == fs.chains
  }

  lemma OnVolumeMeans(fs: FatFs, v: Vol)
    requires fs.Valid() && OnVolume(fs, v)
    ensures v.g == fs.geo && v.img == fs.Img() && v.chains == fs.chains
  {
  }

  lemma OnVolumeIs(fs: FatFs, v: Vol)
    requires fs.Valid() && v.g == fs.geo && v.img == fs.Img() && v.chains == fs.chains
    ensures OnVolume(fs, v)
  {
  }

  lemma EntriesTab(dj: Dir, v: Vol)
    requires dj.Known() && OnVolume(dj.fs, v)
    ensures dj.Entries() == Tab(v, dj.sclust) && dj.MySecs() == DirSecs(v.g, v.chains, dj.sclust)
  {
    hide VolumeOk, Table, SectorsOk, DirSecs, DirSecsOk;
    DirSecsMean(dj.fs.geo, dj.fs.Img(), dj.MySecs());
    TabIs(v, dj.sclust);
  }

  /** Every directory of a volume in order can be entered. */
  lemma DirKnownHere(dj: Dir, v: Vol, loose: set<nat>, pend: set<Slot>)
    requires VolumeOk(dj.fs) && OnVolume(dj.fs, v) && Sound(v, loose, pend) && dj.sclust in v.dirs
    ensures dj.Known()
  {
    hide VolumeOk, Based, SlotsOk, HeadsOk, AgreeOk, SubdirsOk, DirSecs, DirSecsOk, TableOk, DirHead, DirKnown;
    SoundMeans(v, loose, pend);
    assert DirOk(v, dj.sclust);
  }

  /** The cursor's entry, brought into the window. */
  lemma CursorInWindow(dj: Dir)
    requires dj.Known() && dj.Stands(dj.index) && dj.fs.winsect == dj.sect
    ensures InWindow(dj.fs, Slot(dj.sclust, dj.index)) && TableOf(dj.fs, Slot(dj.sclust, dj.index)) == dj.Entries()
  {
    hide VolumeOk, DirSecs, DirSecsOk, Table, SectorsOk, SlotSector, ChainCursor;
    dj.EntriesAre();
    dj.EntryHere(dj.index);
  }

  /** follow_path: the cursor ends in the last directory of the path, on the entry if there is one. */
  method FollowPath(dj: Dir, path: seq<Name>, ghost v: Vol, ghost pend: set<Slot>) returns (res: FResult, ghost wd: nat)
    requires VolumeOk(dj.fs) && OnVolume(dj.fs, v) && Sound(v, {}, pend) && PathOk(path)
    modifies dj`sclust, dj`index, dj`clust, dj`sect
    modifies dj.fs`winsect, dj.fs`wflag, dj.fs`lastClust, dj.fs`freeClust, dj.fs`fsiFlag, dj.fs`chains, dj.fs.disk, dj.fs.win
    ensures dj.Known() && OnVolume(dj.fs, v) && dj.sclust in v.dirs
    ensures var r := Resolve(v, 0, path);
            && res == (match r case AtStart => FrOk case AtEntry(_) => FrOk case Missing(_) => FrNoFile case NoWay => FrNoPath)
            && (r.Missing? ==> dj.sclust == r.dir)
            && (r.AtEntry? ==> Slot(dj.sclust, dj.index) == r.slot && dj.Stands(dj.index) && dj.fs.winsect == dj.sect)
    ensures wd in v.dirs && MovedIn(v.g, old(dj.fs.winsect), dj.fs.winsect, DirSecs(v.g, v.chains, wd))
    ensures old(dj.fs.Clean()) ==> dj.fs.Clean()
  {
    hide *;
    dj.sclust := 0;
    wd := 0;
    SoundParts(v, {}, pend);
    RootIn(v);
    DirKnownHere(dj, v, {}, pend);
    EntriesTab(dj, v);
    ghost var ws := dj.fs.winsect;
    OnVolumeMeans(dj.fs, v);
    MovedNot(v.g, ws, dj.MySecs());
    if path == [] {
      dj.NotEmpty();
      res := dj.Sdi(0);
      OnVolumeIs(dj.fs, v);
      MovedOn(v.g, ws, dj.fs.winsect, dj.fs.winsect, [], DirSecs(v.g, v.chains, 0)) by { MovedNot(v.g, dj.fs.winsect, DirSecs(v.g, v.chains, 0)); }
      StartResolved(v);
      return;
    }
    var i := 0;
    assert path[0..] == path;
    while true
      invariant i < |path| && dj.Known() && v.g == dj.fs.geo && v.img == dj.fs.Img() && v.chains == dj.fs.chains
                && dj.sclust in v.dirs && wd in v.dirs
      invariant Resolve(v, 0, path) == Resolve(v, dj.sclust, path[i..])
      invariant MovedIn(v.g, ws, dj.fs.winsect, DirSecs(v.g, v.chains, wd)) && (old(dj.fs.Clean()) ==> dj.fs.Clean())
      decreases |path| - i
    {
      ghost var ws1, wd1 := dj.fs.winsect, wd;
      OnVolumeIs(dj.fs, v);
      EntriesTab(dj, v);
      SegmentHere(path, i);
      FoundIsOwned(v, {}, pend, dj.sclust, path[i]);
      ResolveStep(v, dj.sclust, path[i..]);
      TailOfTail(path, i);
      res := dj.Find(path[i]);
      OnVolumeIs(dj.fs, v);
      EntriesTab(dj, v);
      wd := WindowDir(v.g, v.chains, ws, ws1, dj.fs.winsect, wd1, dj.sclust);
      if res != FrOk {
        if i + 1 < |path| { res := FrNoPath; }
        return;
      }
      if i + 1 == |path| { return; }
      CursorInWindow(dj);
      EntryShown(dj.fs, Slot(dj.sclust, dj.index));
      var o := SlotOffset(dj.index);
      var dir: Entry := dj.fs.win[o..o + 32];
      if !IsDir(dir) { return FrNoPath, wd; }
      SubdirLeads(v, {}, pend, Slot(dj.sclust, dj.index));
      dj.sclust := StartOf(dj.fs.geo, dir);
      DirKnownHere(dj, v, {}, pend);
      i := i + 1;
    }
  }

  lemma RootIn(v: Vol)
    requires DirsOk(v)
    ensures 0 in v.dirs
  {
  }

  lemma SegmentHere(path: seq<Name>, i: nat)
    requires PathOk(path) && i < |path|
    ensures SegmentOk(path[i])
  {
  }

  lemma TailOfTail(path: seq<Name>, i: nat)
    requires i < |path|
    ensures path[i..][0] == path[i] && |path[i..]| == |path| - i && path[i..][1..] == path[i + 1..]
  {
  }

  lemma StartResolved(v: Vol)
    ensures Resolve(v, 0, []) == AtStart
  {
  }

  lemma ResolveStep(v: Vol, d: nat, path: seq<Name>)
    requires path != []
    ensures var t, k := Tab(v, d), Scan(Tab(v, d), path[0], 0);
            && (k == |t| ==> Resolve(v, d, path) == if |path| == 1 then Missing(d) else NoWay)
            && (k < |t| ==> Resolve(v, d, path) == if |path| == 1 then AtEntry(Slot(d, k)) else if !IsDir(t[k]) then NoWay
                            else Resolve(v, StartOf(v.g, t[k]), path[1..]))
  {
    hide Tab, Scan;
  }

  /** A look into another directory leaves the window there, or where it was before, or in the FAT. */
  lemma WindowDir(g: Geometry, chains: map<nat, seq<nat>>, ws: nat, ws1: nat, ws2: nat, wd: nat, d: nat) returns (w: nat)
    requires MovedIn(g, ws, ws1, DirSecs(g, chains, wd)) && MovedIn(g, ws1, ws2, DirSecs(g, chains, d))
    ensures MovedIn(g, ws, ws2, DirSecs(g, chains, w)) && (w == wd || w == d)
  {
    hide DirSecs, InFat;
    if ws2 == ws1 { return wd; } else { return d; }
  }
}
