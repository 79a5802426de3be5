/** A channel's segment files on the RAM disk (src/channel.cpp: Channel::stream over src/ramdisk.cpp and src/ff.cpp): the window
    of segments is the contents of the volume, and the volume always has room for it. */
module Recorder {
  import opened Arith
  import opened Bytes
  import opened Geometry
  import opened FatAccess
  import opened Chains
  import opened FileData
  import opened FileObject
  import opened DirTable
  import opened Directory
  import opened Window
  import opened VolumeState
  import opened VolumeSteps
  import opened Paths
  import opened Upkeep
  import opened Room
  import opened Volume
  import opened Segments
  import opened Remount
  import Format
  import Mount
  import NewVolume
  import Packets
  import Packetizer
  import Pmt

  /** The geometry of the RAM disk's volume. */
  predicate RamGeometry(g: Geometry) {
    g.fsType == Fat16 && g.csize == 1 && g.nFatent == 24386
  }

  lemma RamDiskGeometry(l: Format.Layout)
    requires Format.LayoutOk(l, 24576) && l.bVol == 63 && l.au == 1 && Format.FatChosen(l)
    ensures RamGeometry(Mount.GeoOf(l))
  {
    hide Format.LayoutOk, Format.FatChosen;
    RamDiskClusters(l);
  }

  ghost predicate IsSegment(at: map<nat, Slot>, s: Slot) {
    exists i :: i in at && at[i] == s
  }

  /** The files of the volume are the segments `at`, all in directory `dir`, each with at most the bytes of its packets. */
  ghost predicate Stored(c: map<Slot, seq<byte>>, dir: nat, at: map<nat, Slot>, files: map<nat, nat>) {
    at.Keys == files.Keys && SlotsApart(at) && OnlySegments(c, at)
    && forall i {:trigger at[i]} :: i in at ==> at[i] in c && at[i].dir == dir && |c[at[i]]| <= 188 * files[i]
  }

  ghost predicate SlotsApart(at: map<nat, Slot>) {
    forall i, j {:trigger at[i], at[j]} :: i in at && j in at && i != j ==> at[i] != at[j]
  }

  ghost predicate OnlySegments(c: map<Slot, seq<byte>>, at: map<nat, Slot>) {
    forall s {:trigger s in c} :: s in c ==> IsSegment(at, s)
  }

  /** `m` names the segments, besides the dot entries. */
  ghost predicate NamesAre(m: map<Name, nat>, names: nat -> Name, at: map<nat, Slot>, dots: map<Name, nat>) {
    && (forall i {:trigger at[i]} :: i in at ==> names(i) in m && m[names(i)] == at[i].index)
    && (forall n {:trigger n in m} :: n in m ==> n in dots || exists i :: i in at && names(i) == n)
  }

  /** Their names, besides the dot entries, are the names in the directory; the directory has its name in the root. */
  ghost predicate Named(ns: map<nat, map<Name, nat>>, dir: nat, folder: Name, names: nat -> Name, at: map<nat, Slot>,
                        dots: map<Name, nat>) {
    0 in ns && folder in ns[0] && dir in ns && OnlyDots(dots) && NamesAre(ns[dir], names, at, dots)
  }

  /** File names that are legal, and different within the window. */
  ghost predicate NamesDiffer(names: nat -> Name) {
    && (forall i {:trigger names(i)} :: SegmentOk(names(i)))
    && (forall i, j {:trigger names(i), names(j)} :: i < j <= i + 4 ==> names(i) != names(j))
  }

  /** The slots of the segments `lo` to `hi - 1`. */
  ghost function SlotList(at: map<nat, Slot>, lo: nat, hi: nat): seq<Slot>
    requires lo <= hi
    decreases hi - lo
  {
    if lo == hi then [] else SlotList(at, lo, hi - 1) + (if hi - 1 in at then [at[hi - 1]] else [])
  }

  lemma {:induction false} SlotListed(at: map<nat, Slot>, lo: nat, hi: nat, s: Slot)
    requires lo <= hi
    ensures s in SlotList(at, lo, hi) <==> exists i :: lo <= i < hi && i in at && at[i] == s
    decreases hi - lo
  {
    if lo < hi {
      SlotListed(at, lo, hi - 1, s);
      if i :| lo <= i < hi && i in at && at[i] == s && i < hi - 1 { assert s in SlotList(at, lo, hi - 1); }
    }
  }

  lemma {:induction false} SlotsDiffer(at: map<nat, Slot>, lo: nat, hi: nat)
    requires lo <= hi && SlotsApart(at)
    ensures AllDiffer(SlotList(at, lo, hi))
    decreases hi - lo
  {
    if lo < hi {
      SlotsDiffer(at, lo, hi - 1);
      var l, front := SlotList(at, lo, hi), SlotList(at, lo, hi - 1);
      if hi - 1 in at {
        SlotListed(at, lo, hi - 1, at[hi - 1]);
        assert at[hi - 1] !in front;
        forall i, j | 0 <= i < j < |l| ensures l[i] != l[j] {
          assert l[i] == front[i] && front[i] in front;
          if j < |front| { assert l[j] == front[j]; }
        }
      } else {
        assert l == front;
      }
    }
  }

  lemma SlotsList(c: map<Slot, seq<byte>>, dir: nat, at: map<nat, Slot>, files: map<nat, nat>, lo: nat, streams: nat)
    requires Stored(c, dir, at, files) && LiveFiles(files, lo, streams)
    ensures Lists(SlotList(at, lo, lo + 4), c.Keys)
  {
    var l := SlotList(at, lo, lo + 4);
    SlotsDiffer(at, lo, lo + 4);
    forall s ensures s in l <==> s in c.Keys {
      SlotListed(at, lo, lo + 4, s);
      if s in c {
        assert IsSegment(at, s);
        var i :| i in at && at[i] == s;
        assert i in files.Keys && files[i] <= MaxPackets(streams);
        assert s in l;
      }
      if s in l {
        var i :| lo <= i < lo + 4 && i in at && at[i] == s;
        assert at[i] in c;
      }
    }
    assert forall x {:trigger x in c.Keys} {:trigger x in l} :: x in l <==> x in c.Keys;
  }

  /** The clusters that the files need are no more than what their packets need. */
  lemma {:induction false} NeedWithin(g: Geometry, c: map<Slot, seq<byte>>, at: map<nat, Slot>, files: map<nat, nat>,
                                      lo: nat, hi: nat)
    requires g.csize == 1 && lo <= hi && at.Keys == files.Keys && AllIn(SlotList(at, lo, hi), c.Keys)
    requires forall i {:trigger at[i]} :: i in at ==> at[i] in c && |c[at[i]]| <= 188 * files[i]
    ensures FilesNeed(g, c, SlotList(at, lo, hi)) <= Demand(files, lo, hi)
    decreases hi - lo
  {
    hide ClustersNeeded, ClustersFor;
    if lo < hi {
      var l := SlotList(at, lo, hi);
      assert hi - 1 in at <==> hi - 1 in files.Keys;
      if hi - 1 in at {
        assert l[..|l| - 1] == SlotList(at, lo, hi - 1);
        NeededByPackets(g, |c[at[hi - 1]]|, files[hi - 1]);
      }
      FrontIn(l, SlotList(at, lo, hi - 1), c.Keys);
      NeedWithin(g, c, at, files, lo, hi - 1);
      if hi - 1 in at {
        assert FilesNeed(g, c, l) == FilesNeed(g, c, l[..|l| - 1]) + ClustersNeeded(g, |c[at[hi - 1]]|);
      } else {
        assert l == SlotList(at, lo, hi - 1);
      }
    }
  }

  lemma FrontIn(l: seq<Slot>, front: seq<Slot>, keys: set<Slot>)
    requires AllIn(l, keys) && front <= l
    ensures AllIn(front, keys)
  {
    assert forall i :: 0 <= i < |front| ==> front[i] == l[i];
  }

  lemma NeededByPackets(g: Geometry, size: nat, packets: nat)
    requires g.csize == 1 && size <= 188 * packets
    ensures ClustersNeeded(g, size) <= ClustersFor(packets)
  {
  }

  /** A directory has no more clusters of one sector than its entries can use; the fixed root has none. */
  lemma DirTakes(v: Vol, dir: nat, loose: set<nat>, pend: set<Slot>)
    requires Sound(v, loose, pend) && RamGeometry(v.g) && DirsPlain(v) && dir != 0 && v.dirs == {0, dir}
    ensures DirsTake(v, [0, dir]) <= 4096 && Lists([0, dir], v.dirs)
  {
    hide Sound, Secs, RootSecs, PlainEntry, Tab;
    SoundParts(v, loose, pend);
    assert DirPlain(v, dir);
    DirSecsAre(v.g, v.chains, dir);
    OneSector(v.g, ChainAt(v.chains, dir));
    assert [0, dir][..1] == [0] && [0][..0] == [];
    assert DirsTake(v, [0]) == DirsTake(v, []) + |ChainAt(v.chains, 0)| == 0;
  }

  lemma OneSector(g: Geometry, ch: seq<nat>)
    requires g.csize == 1
    ensures |Secs(g, ch)| == |ch|
  {
    SectorCountIs(g, |ch|);
  }

  /** The path of a segment leads to its file, or to the channel's directory if there is none. */
  lemma SegmentPath(v: Vol, pend: set<Slot>, open: set<Slot>, c: map<Slot, seq<byte>>, dir: nat, folder: Name, n: Name)
    requires Sound(v, {}, pend) && ContentsFor(v, open, c) && v.dirs == {0, dir} && dir != 0 && SegmentOk(folder) && SegmentOk(n)
    requires folder in NameMap(Tab(v, 0)) && forall s {:trigger s in c} :: s in c ==> s.dir == dir
    ensures Resolve(v, 0, [folder, n]) ==
            if n in NameMap(Tab(v, dir)) then AtEntry(Slot(dir, NameMap(Tab(v, dir))[n])) else Missing(dir)
  {
    hide Sound, Tab, Scan, NameMap, FileOf, IsDir, StartOf, EntryOf;
    var k := Scan(Tab(v, 0), folder, 0);
    FoundIsOwned(v, {}, pend, 0, folder);
    FoundIsOwned(v, {}, pend, dir, n);
    assert Slot(0, k) !in c;
    SubdirLeads(v, {}, pend, Slot(0, k));
    NotRoot(v, pend, Slot(0, k));
    assert [folder, n][1..] == [n];
    assert Resolve(v, dir, [n]) == if Scan(Tab(v, dir), n, 0) == |Tab(v, dir)| then Missing(dir)
           else AtEntry(Slot(dir, Scan(Tab(v, dir), n, 0)));
  }

  lemma NotRoot(v: Vol, pend: set<Slot>, s: Slot)
    requires Sound(v, {}, pend) && s in v.starts && IsDir(EntryOf(v, s))
    ensures v.starts[s] != 0
  {
    hide Based, DirsOk, SlotsOk, HeadsOk, AgreeOk, EntryOf, IsDir;
    SoundMeans(v, {}, pend);
    SubdirStart(v, s);
  }

  lemma NameCount(m: map<Name, nat>, names: nat -> Name, at: map<nat, Slot>, dots: map<Name, nat>)
    requires forall n {:trigger n in m} :: n in m ==> n in dots || exists i :: i in at && names(i) == n
    ensures |m| <= |dots| + |at|
  {
    var ns := set i | i in at :: names(i);
    NamesNoMore(names, at.Keys);
    assert m.Keys <= dots.Keys + ns;
    SubsetSize(m.Keys, dots.Keys + ns);
    assert |dots.Keys + ns| <= |dots.Keys| + |ns|;
    assert |m| == |m.Keys| && |dots| == |dots.Keys| && |at| == |at.Keys|;
  }

  lemma {:induction false} NamesNoMore(names: nat -> Name, s: set<nat>)
    ensures |set i | i in s :: names(i)| <= |s|
  {
    if s == {} {
      assert (set i | i in s :: names(i)) == {};
    } else {
      var x :| x in s;
      NamesNoMore(names, s - {x});
      assert (set i | i in s :: names(i)) == (set i | i in s - {x} :: names(i)) + {names(x)};
    }
  }

  lemma {:induction false} RangeSize(s: set<nat>, lo: nat, hi: nat)
    requires lo <= hi && forall i {:trigger i in s} :: i in s ==> lo <= i < hi
    ensures |s| <= hi - lo
    decreases hi - lo
  {
    if lo < hi {
      RangeSize(s - {hi - 1}, lo, hi - 1);
    } else {
      assert s == {};
    }
  }

  lemma DirLong(v: Vol, d: nat, loose: set<nat>, pend: set<Slot>)
    requires Sound(v, loose, pend) && d in v.dirs && d != 0
    ensures |Tab(v, d)| >= 16 && TableOk(Tab(v, d))
  {
    hide Based, SlotsOk, HeadsOk, AgreeOk, SubdirsOk, Secs, TableOk, Table;
    SoundMeans(v, loose, pend);
    assert DirOk(v, d);
    DirSecsMean(v.g, v.img, DirSecs(v.g, v.chains, d));
    TabIs(v, d);
    VolumeNumbers(v);
    ChainGood(v.g, FatOf(v.g, v.img), v.chains, d);
    SectorCountIs(v.g, |v.chains[d]|);
    DirSecsAre(v.g, v.chains, d);
    MulAtLeast(|v.chains[d]|, v.g.csize);
  }

  lemma MulAtLeast(a: nat, b: nat)
    requires a >= 1 && b >= 1
    ensures a * b >= 1
  {
  }

  /** With at most five names, a directory has a blank entry. */
  lemma RoomForName(v: Vol, d: nat, loose: set<nat>, pend: set<Slot>)
    requires Sound(v, loose, pend) && d in v.dirs && d != 0 && DirsPlain(v) && |NameMap(Tab(v, d))| <= 6
    ensures FirstBlank(Tab(v, d), 0) < |Tab(v, d)|
  {
    hide Sound, Tab, NameMap, PlainEntry, TableOk, DirSecs, FirstBlank;
    DirLong(v, d, loose, pend);
    assert DirPlain(v, d);
    BlankLeft(Tab(v, d));
  }

  lemma StoredMeans(c: map<Slot, seq<byte>>, dir: nat, at: map<nat, Slot>, files: map<nat, nat>)
    requires Stored(c, dir, at, files)
    ensures at.Keys == files.Keys && forall s {:trigger s in c} :: s in c ==> s.dir == dir
    ensures forall i {:trigger at[i]} :: i in at ==> at[i] in c && at[i].dir == dir && |c[at[i]]| <= 188 * files[i]
  {
    forall s | s in c ensures s.dir == dir { assert IsSegment(at, s); }
  }

  lemma StoredMore(c: map<Slot, seq<byte>>, dir: nat, at: map<nat, Slot>, files: map<nat, nat>, i: nat, n: nat)
    requires Stored(c, dir, at, files) && i in files && files[i] <= n
    ensures Stored(c, dir, at, files[i := n])
  {
  }

  lemma StoredAppended(c: map<Slot, seq<byte>>, dir: nat, at: map<nat, Slot>, files: map<nat, nat>, i: nat, b: seq<byte>)
    requires Stored(c, dir, at, files) && i in at && |b| <= 188 * files[i]
    ensures Stored(c[at[i] := b], dir, at, files)
  {
    forall s | s in c[at[i] := b] ensures IsSegment(at, s) { assert s in c; }
  }

  lemma StoredNew(c: map<Slot, seq<byte>>, dir: nat, at: map<nat, Slot>, files: map<nat, nat>, i: nat, slot: Slot, n: nat)
    requires Stored(c, dir, at, files) && i !in files && slot !in c && slot.dir == dir
    ensures i !in at && Stored(c[slot := []], dir, at[i := slot], files[i := n])
  {
    hide SlotsApart, OnlySegments;
    assert i !in at.Keys;
    var at' := at[i := slot];
    ApartNew(c, at, i, slot);
    OnlyNew(c, at, i, slot);
    forall j | j in at' ensures at'[j] in c[slot := []] && at'[j].dir == dir { if j != i { assert at'[j] == at[j]; } }
  }

  lemma ApartNew(c: map<Slot, seq<byte>>, at: map<nat, Slot>, i: nat, slot: Slot)
    requires SlotsApart(at) && i !in at && slot !in c && forall j {:trigger at[j]} :: j in at ==> at[j] in c
    ensures SlotsApart(at[i := slot])
  {
  }

  lemma OnlyNew(c: map<Slot, seq<byte>>, at: map<nat, Slot>, i: nat, slot: Slot)
    requires OnlySegments(c, at) && i !in at
    ensures OnlySegments(c[slot := []], at[i := slot])
  {
    var at' := at[i := slot];
    forall s | s in c[slot := []] ensures IsSegment(at', s) {
      if s == slot {
        assert at'[i] == s;
      } else {
        assert IsSegment(at, s);
        var j :| j in at && at[j] == s;
        assert at'[j] == s;
      }
    }
  }

  lemma StoredGone(c: map<Slot, seq<byte>>, dir: nat, at: map<nat, Slot>, files: map<nat, nat>, i: nat)
    requires Stored(c, dir, at, files) && i in at
    ensures Stored(c - {at[i]}, dir, at - {i}, files - {i})
  {
    hide SlotsApart, OnlySegments;
    ApartGone(at, i);
    OnlyGone(c, at, i);
  }

  lemma ApartGone(at: map<nat, Slot>, i: nat)
    requires SlotsApart(at) && i in at
    ensures SlotsApart(at - {i}) && forall j {:trigger (at - {i})[j]} :: j in at - {i} ==> (at - {i})[j] == at[j] && at[j] != at[i]
  {
  }

  lemma OnlyGone(c: map<Slot, seq<byte>>, at: map<nat, Slot>, i: nat)
    requires OnlySegments(c, at) && i in at
    ensures OnlySegments(c - {at[i]}, at - {i})
  {
    var at' := at - {i};
    forall s | s in c - {at[i]} ensures IsSegment(at', s) {
      assert IsSegment(at, s);
      var j :| j in at && at[j] == s;
      assert at'[j] == s;
    }
  }

  lemma NamedMeans(ns: map<nat, map<Name, nat>>, dir: nat, folder: Name, names: nat -> Name, at: map<nat, Slot>,
                   dots: map<Name, nat>)
    requires Named(ns, dir, folder, names, at, dots)
    ensures 0 in ns && folder in ns[0] && dir in ns && |dots| <= 2
    ensures forall i {:trigger at[i]} :: i in at ==> names(i) in ns[dir] && ns[dir][names(i)] == at[i].index
    ensures |ns[dir]| <= |dots| + |at|
  {
    NameCount(ns[dir], names, at, dots);
  }

  /** A name that no live segment has is not in the directory. */
  lemma FreshName(ns: map<nat, map<Name, nat>>, dir: nat, folder: Name, names: nat -> Name, at: map<nat, Slot>,
                  dots: map<Name, nat>, i: nat)
    requires Named(ns, dir, folder, names, at, dots) && NamesDiffer(names) && forall j {:trigger at[j]} :: j in at ==>
             j < i <= j + 4
    ensures names(i) !in ns[dir]
  {
    assert SegmentOk(names(i));
    forall j | j in at ensures names(j) != names(i) {
      var s := at[j];
      assert j < i <= j + 4;
    }
  }

  lemma NamedNew(ns: map<nat, map<Name, nat>>, dir: nat, folder: Name, names: nat -> Name, at: map<nat, Slot>,
                 dots: map<Name, nat>, i: nat, slot: Slot)
    requires Named(ns, dir, folder, names, at, dots) && dir != 0 && i !in at && names(i) !in ns[dir]
    ensures dir in ns && Named(WithName(ns, dir, names(i), slot.index), dir, folder, names, at[i := slot], dots)
  {
    NamesNew(ns[dir], names, at, dots, i, slot);
  }

  lemma NamesNew(m: map<Name, nat>, names: nat -> Name, at: map<nat, Slot>, dots: map<Name, nat>, i: nat, slot: Slot)
    requires NamesAre(m, names, at, dots) && i !in at && names(i) !in m
    ensures NamesAre(m[names(i) := slot.index], names, at[i := slot], dots)
  {
    var m', at' := m[names(i) := slot.index], at[i := slot];
    forall j | j in at' ensures names(j) in m' && m'[names(j)] == at'[j].index {
      if j != i { assert at'[j] == at[j]; }
    }
    forall n | n in m' && n !in dots ensures exists j :: j in at' && names(j) == n {
      if n == names(i) {
        assert i in at';
      } else {
        var j :| j in at && names(j) == n;
        assert j in at';
      }
    }
  }

  lemma NamedGone(ns: map<nat, map<Name, nat>>, dir: nat, folder: Name, names: nat -> Name, at: map<nat, Slot>,
                  dots: map<Name, nat>, i: nat)
    requires Named(ns, dir, folder, names, at, dots) && dir != 0 && i in at && NamesDiffer(names)
    requires forall j {:trigger at[j]} :: j in at && j != i ==> i < j <= i + 4
    ensures dir in ns && Named(WithoutName(ns, dir, names(i)), dir, folder, names, at - {i}, dots)
  {
    hide SegmentOk, OnlyDots, NamesAre;
    forall j | j in at && j != i ensures names(j) != names(i) { var s := at[j]; }
    NamesGone(ns[dir], names, at, dots, i);
  }

  lemma NamesGone(m: map<Name, nat>, names: nat -> Name, at: map<nat, Slot>, dots: map<Name, nat>, i: nat)
    requires NamesAre(m, names, at, dots) && forall j {:trigger at[j]} :: j in at && j != i ==> names(j) != names(i)
    ensures NamesAre(m - {names(i)}, names, at - {i}, dots)
  {
    var m', at' := m - {names(i)}, at - {i};
    forall j | j in at' ensures names(j) in m' && m'[names(j)] == at'[j].index {
      assert at'[j] == at[j];
    }
    forall n | n in m' && n !in dots ensures exists j :: j in at' && names(j) == n {
      var j :| j in at && names(j) == n;
      assert j in at';
    }
  }

  lemma NamesKeys(v: Vol)
    ensures NamesOf(v).Keys == v.dirs
  {
    hide Tab, NameMap;
  }

  lemma WithoutKeys(ns: map<nat, map<Name, nat>>, d: nat, n: Name)
    requires d in ns
    ensures WithoutName(ns, d, n).Keys == ns.Keys
  {
  }

  lemma RamMeans(g: Geometry)
    requires RamGeometry(g)
    ensures g.fsType == Fat16 && g.csize == 1 && g.nFatent == 24386
  {
  }

  /** A live segment's entry is a file's, with the segment's name, and may be removed. */
  lemma SegmentEntry(v: Vol, pend: set<Slot>, open: set<Slot>, c: map<Slot, seq<byte>>, s: Slot, n: Name)
    requires Sound(v, {}, pend) && ContentsFor(v, open, c) && DirsPlain(v) && s in c && s.dir in v.dirs
    requires n in NameMap(Tab(v, s.dir)) && NameMap(Tab(v, s.dir))[n] == s.index
    ensures s in v.starts && Removable(v, s) && NamesLess(v, s) == WithoutName(NamesOf(v), s.dir, n)
  {
    hide Sound, Tab, NameMap, FileOf, IsDir, IsReadOnly, StartOf, TableOk, DirSecs, IsLabel, NamesOf;
    DirTableOk(v, s.dir, {}, pend);
    assert DirPlain(v, s.dir);
    TableUnique(Tab(v, s.dir));
    NameMapBinds(Tab(v, s.dir), n);
    EntryAtSlot(v, s);
    assert PlainEntry(Tab(v, s.dir)[s.index]);
    DirInNames(v, s.dir);
    assert !IsDir(EntryOf(v, s));
  }

  ghost function BytesOf(c: map<Slot, seq<byte>>, at: map<nat, Slot>): map<nat, seq<byte>> {
    map i | i in at && at[i] in c :: c[at[i]]
  }

  lemma BytesAppended(c: map<Slot, seq<byte>>, dir: nat, at: map<nat, Slot>, files: map<nat, nat>, i: nat, b: seq<byte>)
    requires Stored(c, dir, at, files) && i in at
    ensures BytesOf(c[at[i] := b], at) == BytesOf(c, at)[i := b] && i in BytesOf(c, at) && BytesOf(c, at)[i] == c[at[i]]
  {
  }

  lemma BytesNew(c: map<Slot, seq<byte>>, at: map<nat, Slot>, i: nat, slot: Slot)
    requires slot !in c && i !in at && forall j {:trigger at[j]} :: j in at ==> at[j] in c
    ensures BytesOf(c[slot := []], at[i := slot]) == BytesOf(c, at)[i := []]
  {
  }

  lemma EarlierLive(files: map<nat, nat>, at: map<nat, Slot>, lo: nat, i: nat, streams: nat)
    requires LiveFiles(files, lo, streams) && at.Keys == files.Keys && lo <= i < lo + 4 && i !in files
    requires forall j {:trigger files[j]} :: j in files ==> j < i
    ensures (forall j {:trigger at[j]} :: j in at ==> j < i <= j + 4) && |at| <= 4
  {
    forall j | j in at ensures lo <= j < i {
      assert j in files.Keys;
      var n := files[j];
    }
    RangeSize(at.Keys, lo, lo + 4);
    assert |at| == |at.Keys|;
  }

  lemma LegalName(names: nat -> Name, i: nat)
    requires NamesDiffer(names)
    ensures SegmentOk(names(i))
  {
  }

  lemma TwoNamesOk(a: Name, b: Name)
    requires SegmentOk(a) && SegmentOk(b)
    ensures PathOk([a, b])
  {
    hide SegmentOk;
  }

  lemma Truncating()
    ensures Creating(Mode(false, true, false, true, false))
  {
  }

  lemma NoRoomNot(t: seq<Entry>, head: nat, res: FResult, free: nat)
    requires FirstBlank(t, 0) < |t|
    ensures !NoRoom(t, head, res, free)
  {
    hide FirstBlank;
  }

  lemma OpenedMeans(f: Fil, m: Mode, written: bool)
    requires OpenedAs(f, m, written)
    ensures f.faRead == m.read && f.faWrite == m.write && f.fptr == 0
  {
  }

  lemma LiveMore(files: map<nat, nat>, lo: nat, streams: nat, i: nat, n: nat)
    requires LiveFiles(files, lo, streams) && lo <= i < lo + 4 && n <= MaxPackets(streams)
    ensures LiveFiles(files[i := n], lo, streams)
  {
  }

  lemma BytesGone(c: map<Slot, seq<byte>>, dir: nat, at: map<nat, Slot>, files: map<nat, nat>, k: nat)
    requires Stored(c, dir, at, files) && k in at
    ensures BytesOf(c - {at[k]}, at - {k}) == BytesOf(c, at) - {k}
  {
  }

  lemma ByteLength(c: map<Slot, seq<byte>>, at: map<nat, Slot>, i: nat)
    requires i in at && at[i] in c
    ensures i in BytesOf(c, at) && BytesOf(c, at)[i] == c[at[i]]
  {
  }

  lemma LaterLive(files: map<nat, nat>, at: map<nat, Slot>, lo: nat, k: nat, streams: nat)
    requires LiveFiles(files, lo, streams) && at.Keys == files.Keys && k in files
    requires forall j {:trigger files[j]} :: j in files && j != k ==> k < j
    ensures k in at && (forall j {:trigger at[j]} :: j in at && j != k ==> k < j <= k + 4)
            && LiveFiles(files - {k}, k + 1, streams)
  {
    assert k in at.Keys;
    forall j | j in at && j != k ensures k < j <= k + 4 {
      assert j in files.Keys;
      var n, m := files[j], files[k];
    }
    forall j | j in files - {k} ensures k + 1 <= j < k + 5 && (files - {k})[j] <= MaxPackets(streams) { var n, m := files[j], files[k]; }
  }

  lemma NextIsNew(w: SegmentWindow)
    requires w.Valid() && !w.isOpen
    ensures w.index !in w.files && FirstLive(w.index) <= w.index < FirstLive(w.index) + 4
    ensures forall j {:trigger w.files[j]} :: j in w.files ==> j < w.index
  {
  }

  lemma OpenIsLive(w: SegmentWindow)
    requires w.Valid() && w.isOpen
    ensures w.index in w.files && w.files[w.index] == PSI_PKTS + w.pktNum && w.pktNum <= SEGMENT_PKTS
    ensures FirstLive(w.index) <= w.index < FirstLive(w.index) + 4
    ensures w.index >= 1 && forall j {:trigger j in w.files} :: j in w.files <==> FirstLive(w.index) <= j <= w.index
  {
  }

  lemma NoneGone(files: map<nat, nat>, bytes: map<nat, seq<byte>>)
    ensures files - {} == files && bytes - {} == bytes
  {
  }

  /** When segment `i` is done, the oldest file is the one that leaves the window. */
  lemma OldestIs(files: map<nat, nat>, i: nat)
    requires i >= 1 && forall j {:trigger j in files} :: j in files <==> FirstLive(i) <= j <= i
    ensures i + 1 <= SEGMENT_NUM ==> FirstLive(i + 1) == FirstLive(i)
    ensures i + 1 > SEGMENT_NUM ==>
              var k := i + 1 - SEGMENT_NUM;
              k in files && FirstLive(i + 1) == k + 1 && forall j {:trigger files[j]} :: j in files && j != k ==> k < j
  {
  }

  lemma LiveGrown(files: map<nat, nat>, lo: nat, streams: nat, i: nat, n: nat)
    requires LiveFiles(files, lo, streams) && lo <= i < lo + 4 && n <= SEGMENT_PKTS + streams
    ensures LiveFiles(files[i := PSI_PKTS + n], lo, streams)
  {
  }

  lemma FewPackets(streams: nat)
    ensures PSI_PKTS <= MaxPackets(streams)
  {
  }

  lemma SpliceAtEnd(b: seq<byte>, c: seq<byte>)
    ensures Splice(b, |b|, c) == b + c
  {
  }

  lemma SmallFile(files: map<nat, nat>, lo: nat, streams: nat, i: nat)
    requires LiveFiles(files, lo, streams) && streams <= 33 && i in files
    ensures lo <= i < lo + 4 && files[i] <= 13035 && 188 * files[i] <= 0xFFFF_FFFF
  {
  }

  class Recorder {
    const vol: MountedVolume
    const window: SegmentWindow
    const folder: Name             // the channel's directory
    const names: nat -> Name       // the segments' file names
    ghost const dir: nat           // the directory's cluster, and its dot entries
    ghost const dots: map<Name, nat>
    ghost var at: map<nat, Slot>   // the segments' files
    var file: Fil?                 // the open segment

    /** A recorder over an empty volume with the channel's directory. */
    constructor (vol: MountedVolume, streams: nat, folder: Name, names: nat -> Name, ghost dir: nat)
      requires vol.Valid() && vol.Saved() && Regular(vol.V(), vol.Contents()) && RamGeometry(vol.fs.geo)
               && vol.dirs == {0, dir} && dir != 0
      requires vol.Contents() == map[] && vol.files == map[] && SegmentOk(folder) && NamesDiffer(names) && streams <= 33
      requires var ns := NamesOf(vol.V()); 0 in ns && folder in ns[0] && dir in ns && OnlyDots(ns[dir])
      ensures Valid() && Bytes() == map[] && this.vol == vol && fresh(window) && window.streams == streams
      ensures window.index == 1 && !window.isOpen && this.dir == dir
    {
      hide *;
      this.vol, this.folder, this.names, this.dir, this.dots := vol, folder, names, dir, NamesOf(vol.V())[dir];
      this.window := new SegmentWindow(streams);
      at, file := map[], null;
      new;
      StartIs();
    }

    lemma StartIs()
      requires vol.Valid() && vol.Saved() && Regular(vol.V(), vol.Contents()) && RamGeometry(vol.fs.geo)
               && vol.dirs == {0, dir} && dir != 0
      requires vol.Contents() == map[] && vol.files == map[] && SegmentOk(folder) && NamesDiffer(names)
      requires var ns := NamesOf(vol.V()); 0 in ns && folder in ns[0] && dir in ns && OnlyDots(ns[dir]) && dots == ns[dir]
      requires window.Valid() && window.files == map[] && window.streams <= 33 && !window.isOpen && at == map[]
      ensures Valid() && Bytes() == map[]
    {
      hide MountedVolume.Valid, MountedVolume.V, MountedVolume.Contents, MountedVolume.Saved, Regular, RamGeometry,
           NamesDiffer, SegmentOk, NamesOf, SegmentWindow.Valid;
    }

    /** The volume between two operations, holding the files `files`, of which `lo` is the first. */
    ghost predicate Ready(files: map<nat, nat>, lo: nat)
      reads this`at, vol, vol.fs`winsect, vol.fs`wflag, vol.fs`freeClust, vol.fs`fsiFlag, vol.fs`chains, vol.fs.disk, vol.fs.win
      reads vol.files.Values, set s | s in vol.files :: vol.files[s].buf
      ensures Ready(files, lo) ==> vol.Valid() && vol.fs.Valid()
    {
      && vol.Valid() && vol.Saved() && Regular(vol.V(), vol.Contents()) && RamGeometry(vol.fs.geo)
           && vol.dirs == {0, dir} && dir != 0
      && SegmentOk(folder) && NamesDiffer(names)
      && Stored(vol.Contents(), dir, at, files) && Named(NamesOf(vol.V()), dir, folder, names, at, dots)
      && LiveFiles(files, lo, window.streams) && window.streams <= 33
    }

    /** Segment `i` is open, with the file pointer at its end. */
    ghost predicate OpenAt(i: nat)
      reads this`at, this`file, vol, vol.fs`winsect, vol.fs`wflag, vol.fs`freeClust, vol.fs`fsiFlag, vol.fs`chains,
            vol.fs.disk, vol.fs.win
      reads vol.files.Values, set s | s in vol.files :: vol.files[s].buf
      requires vol.fs.Valid()
    {
      && i in at && vol.files.Keys == {at[i]} && file == vol.files[at[i]] && file.faWrite
      && at[i] in vol.Contents() && file.fptr == |vol.Contents()[at[i]]|
    }

    ghost predicate Valid()
      reads this, window, vol, vol.fs`winsect, vol.fs`wflag, vol.fs`freeClust, vol.fs`fsiFlag, vol.fs`chains,
            vol.fs.disk, vol.fs.win
      reads vol.files.Values, set s | s in vol.files :: vol.files[s].buf
      ensures Valid() ==> window.Valid() && vol.fs.Valid()
    {
      && window.Valid() && Ready(window.files, FirstLive(window.index))
      && (if window.isOpen then OpenAt(window.index) else vol.files == map[])
    }

    /** The segments' bytes, by number. */
    ghost function Bytes(): map<nat, seq<byte>>
      reads this`at, vol, vol.fs`winsect, vol.fs`wflag, vol.fs`freeClust, vol.fs`fsiFlag, vol.fs`chains, vol.fs.disk, vol.fs.win
      reads vol.files.Values, set s | s in vol.files :: vol.files[s].buf
      requires vol.fs.Valid()
    {
      BytesOf(vol.Contents(), at)
    }

    lemma BytesAre()
      requires vol.fs.Valid()
      ensures Bytes() == BytesOf(vol.Contents(), at)
    {
      hide MountedVolume.Contents, FatFs.Valid;
    }

    lemma ReadyMeans(files: map<nat, nat>, lo: nat)
      requires Ready(files, lo)
      ensures vol.Valid() && vol.Saved() && Regular(vol.V(), vol.Contents()) && RamGeometry(vol.fs.geo)
              && vol.dirs == {0, dir} && dir != 0
      ensures SegmentOk(folder) && NamesDiffer(names) && LiveFiles(files, lo, window.streams) && window.streams <= 33
      ensures Stored(vol.Contents(), dir, at, files) && Named(NamesOf(vol.V()), dir, folder, names, at, dots)
    {
      hide MountedVolume.Valid, MountedVolume.V, MountedVolume.Contents, MountedVolume.Saved, Regular, RamGeometry,
           Stored, Named, NamesDiffer, LiveFiles, SegmentOk, NamesOf;
    }

    lemma ReadyIs(files: map<nat, nat>, lo: nat)
      requires vol.Valid() && vol.Saved() && Regular(vol.V(), vol.Contents()) && RamGeometry(vol.fs.geo)
               && vol.dirs == {0, dir} && dir != 0
      requires SegmentOk(folder) && NamesDiffer(names) && LiveFiles(files, lo, window.streams) && window.streams <= 33
      requires Stored(vol.Contents(), dir, at, files) && Named(NamesOf(vol.V()), dir, folder, names, at, dots)
      ensures Ready(files, lo)
    {
      hide MountedVolume.Valid, MountedVolume.V, MountedVolume.Contents, MountedVolume.Saved, Regular, RamGeometry,
           Stored, Named, NamesDiffer, LiveFiles, SegmentOk, NamesOf;
    }

    lemma OpenMeans(i: nat)
      requires vol.fs.Valid() && OpenAt(i)
      ensures i in at && vol.files.Keys == {at[i]} && file == vol.files[at[i]] && file.faWrite
      ensures at[i] in vol.Contents() && file.fptr == |vol.Contents()[at[i]]|
    {
      hide MountedVolume.Contents, FatFs.Valid;
    }

    lemma OpenIsAt(i: nat)
      requires vol.fs.Valid() && i in at && vol.files.Keys == {at[i]} && file == vol.files[at[i]] && file.faWrite
      requires at[i] in vol.Contents() && file.fptr == |vol.Contents()[at[i]]|
      ensures OpenAt(i)
    {
      hide MountedVolume.Contents, FatFs.Valid;
    }

    /** There is always a free cluster. */
    lemma RoomLeft(files: map<nat, nat>, lo: nat)
      requires Ready(files, lo)
      ensures CountFree(Fat(vol.fs)) > 0
    {
      hide *;
      ReadyMeans(files, lo);
      vol.Start();
      RegularMeans(vol.V(), vol.Contents());
      RamMeans(vol.fs.geo);
      SlotsList(vol.Contents(), dir, at, files, lo, window.streams);
      DirTakes(vol.V(), dir, {}, vol.Pending());
      vol.FreeClusters(SlotList(at, lo, lo + 4), [0, dir]);
      StoredMeans(vol.Contents(), dir, at, files);
      NeedWithin(vol.fs.geo, vol.Contents(), at, files, lo, lo + 4);
      WindowFits(files, lo, window.streams);
    }

    /** Writes to the open segment, with room for its packets, are never short. */
    method Append(chunk: seq<byte>, ghost files: map<nat, nat>, ghost lo: nat, ghost i: nat) returns (bw: nat)
      requires Ready(files, lo) && OpenAt(i) && i in files && |vol.Contents()[at[i]]| + |chunk| <= 188 * files[i]
      modifies vol`starts, vol.fs, vol.fs.disk, vol.fs.win, file, if file == null then {} else {file.buf}
      ensures Ready(files, lo) && OpenAt(i) && bw == |chunk|
      ensures Bytes() == old(Bytes())[i := old(Bytes())[i] + chunk]
    {
      hide *;
      ReadyMeans(files, lo);
      OpenMeans(i);
      BytesAre();
      ghost var c := vol.Contents();
      SmallFile(files, lo, window.streams, i);
      var res;
      res, bw := vol.Write(file, at[i], chunk);
      if res != FrOk { assert false; }
      SpliceAtEnd(c[at[i]], chunk[..bw]);
      StoredAppended(c, dir, at, files, i, c[at[i]] + chunk[..bw]);
      ReadyIs(files, lo);
      OpenIsAt(i);
      RoomLeft(files, lo);
      assert chunk[..bw] == chunk;
      BytesAppended(c, dir, at, files, i, c[at[i]] + chunk);
      BytesAre();
    }

    lemma ValidMeans()
      requires Valid()
      ensures window.Valid() && Ready(window.files, FirstLive(window.index))
      ensures if window.isOpen then OpenAt(window.index) else vol.files == map[]
    {
      hide SegmentWindow.Valid, Recorder.Ready, Recorder.OpenAt;
    }

    lemma ValidIs()
      requires window.Valid() && Ready(window.files, FirstLive(window.index))
      requires if window.isOpen then OpenAt(window.index) else vol.files == map[]
      ensures Valid()
    {
      hide SegmentWindow.Valid, Recorder.Ready, Recorder.OpenAt;
    }

    /** Between two segments, a mount of the disk finds all that was recorded. */
    lemma Recorded()
      requires Valid() && !window.isOpen
      ensures AtRest(vol)
    {
      hide *;
      ValidMeans();
      ReadyMeans(window.files, FirstLive(window.index));
      AtRestIs(vol);
    }

    /** f_open of a segment that does not exist yet creates it. */
    method CreateFile(i: nat, tm: nat, ghost files: map<nat, nat>, ghost lo: nat) returns (f: Fil, ghost slot: Slot)
      requires Ready(files, lo) && vol.files == map[] && i !in files && lo <= i < lo + 4
               && forall j {:trigger files[j]} :: j in files ==> j < i
      modifies vol`starts, vol`files
      modifies vol.fs`winsect, vol.fs`wflag, vol.fs`lastClust, vol.fs`freeClust, vol.fs`fsiFlag, vol.fs`chains,
               vol.fs.disk, vol.fs.win
      ensures vol.Valid() && vol.Saved() && Regular(vol.V(), vol.Contents()) && slot.dir == dir
              && slot !in old(vol.Contents()) && fresh(f)
      ensures vol.Contents() == old(vol.Contents())[slot := []] && vol.files == map[slot := f] && f.faWrite && f.fptr == 0
      ensures dir in old(NamesOf(vol.V())) && names(i) !in old(NamesOf(vol.V())[dir])
      ensures NamesOf(vol.V()) == WithName(old(NamesOf(vol.V())), dir, names(i), slot.index)
    {
      hide *;
      ReadyMeans(files, lo);
      vol.Start();
      ghost var c, ns, v := vol.Contents(), NamesOf(vol.V()), vol.V();
      StoredMeans(c, dir, at, files);
      NamedMeans(ns, dir, folder, names, at, dots);
      EarlierLive(files, at, lo, i, window.streams);
      FreshName(ns, dir, folder, names, at, dots, i);
      DirInNames(v, 0);
      DirInNames(v, dir);
      LegalName(names, i);
      SegmentPath(v, vol.Pending(), vol.files.Keys, c, dir, folder, names(i));
      RegularMeans(v, c);
      RoomForName(v, dir, {}, vol.Pending());
      TwoNamesOk(folder, names(i));
      var path, mode := [folder, names(i)], Mode(false, true, false, true, false);
      var res, g;
      res, g, slot := vol.Open(path, mode, tm);
      Truncating();
      NoRoomNot(Tab(v, dir), DirHead(vol.fs.geo, dir), res, CountFree(Fat(vol.fs)));
      if res != FrOk { assert false; }
      OpenedMeans(g, mode, true);
      assert path[|path| - 1] == names(i);
      f := g;
    }

    /** The open of a segment's file: a new, empty file in the channel's directory. */
    method OpenFile(i: nat, tm: nat, ghost files: map<nat, nat>, ghost lo: nat)
      requires Ready(files, lo) && vol.files == map[] && i !in files && lo <= i < lo + 4
               && forall j {:trigger files[j]} :: j in files ==> j < i
      modifies this`at, this`file, vol`starts, vol`files
      modifies vol.fs`winsect, vol.fs`wflag, vol.fs`lastClust, vol.fs`freeClust, vol.fs`fsiFlag, vol.fs`chains,
               vol.fs.disk, vol.fs.win
      ensures Ready(files[i := PSI_PKTS], lo) && OpenAt(i) && Bytes() == old(Bytes())[i := []] && fresh(file)
    {
      hide *;
      ReadyMeans(files, lo);
      BytesAre();
      ghost var c, ns := vol.Contents(), NamesOf(vol.V());
      StoredMeans(c, dir, at, files);
      ghost var slot;
      file, slot := CreateFile(i, tm, files, lo);
      StoredNew(c, dir, at, files, i, slot, PSI_PKTS);
      NamedNew(ns, dir, folder, names, at, dots, i, slot);
      BytesNew(c, at, i, slot);
      at := at[i := slot];
      FewPackets(window.streams);
      LiveMore(files, lo, window.streams, i, PSI_PKTS);
      assert vol.Contents()[slot] == [];
      ReadyIs(files[i := PSI_PKTS], lo);
      OpenIsAt(i);
      BytesAre();
    }

    /** The close of a segment's file, with the bytes `rest` that were still to be written. */
    method FinishFile(rest: seq<byte>, tm: nat, ghost files: map<nat, nat>, ghost lo: nat, ghost i: nat)
      requires Ready(files, lo) && OpenAt(i) && i in files && |vol.Contents()[at[i]]| + |rest| <= 188 * files[i]
      modifies this`file, vol`starts, vol`files, vol.fs, vol.fs.disk, vol.fs.win, file, if file == null then {} else {file.buf}
      ensures Ready(files, lo) && vol.files == map[] && Bytes() == old(Bytes())[i := old(Bytes())[i] + rest]
    {
      hide *;
      var bw := Append(rest, files, lo, i);
      ReadyMeans(files, lo);
      OpenMeans(i);
      BytesAre();
      var res := vol.Close(file, at[i], tm);
      file := null;
      ReadyIs(files, lo);
      BytesAre();
    }

    /** f_unlink of a segment that is not open removes it. */
    method RemoveFile(k: nat, ghost files: map<nat, nat>, ghost lo: nat)
      requires Ready(files, lo) && vol.files == map[] && k in files
      modifies vol`starts, vol`dirs
      modifies vol.fs`winsect, vol.fs`wflag, vol.fs`lastClust, vol.fs`freeClust, vol.fs`fsiFlag, vol.fs`chains,
               vol.fs.disk, vol.fs.win
      ensures vol.Valid() && vol.Saved() && Regular(vol.V(), vol.Contents()) && vol.dirs == old(vol.dirs)
      ensures k in at && dir in old(NamesOf(vol.V()))
      ensures vol.Contents() == old(vol.Contents()) - {at[k]}
              && NamesOf(vol.V()) == WithoutName(old(NamesOf(vol.V())), dir, names(k))
    {
      hide *;
      ReadyMeans(files, lo);
      vol.Start();
      ghost var c, ns, v := vol.Contents(), NamesOf(vol.V()), vol.V();
      StoredMeans(c, dir, at, files);
      assert k in at.Keys;
      NamedMeans(ns, dir, folder, names, at, dots);
      DirInNames(v, 0);
      DirInNames(v, dir);
      LegalName(names, k);
      SegmentPath(v, vol.Pending(), vol.files.Keys, c, dir, folder, names(k));
      RegularMeans(v, c);
      SegmentEntry(v, vol.Pending(), vol.files.Keys, c, at[k], names(k));
      TwoNamesOk(folder, names(k));
      var path := [folder, names(k)];
      var res := vol.Unlink(path);
      if res != FrOk { assert false; }
      NamesKeys(v);
      NamesKeys(vol.V());
      vol.BasedNow();
      WithoutKeys(ns, dir, names(k));
    }

    /** The removal of a segment's file. */
    method DeleteFile(k: nat, ghost files: map<nat, nat>, ghost lo: nat)
      requires Ready(files, lo) && vol.files == map[] && k in files && forall j {:trigger files[j]} :: j in files && j != k ==> k < j
      modifies this`at, vol`starts, vol`dirs
      modifies vol.fs`winsect, vol.fs`wflag, vol.fs`lastClust, vol.fs`freeClust, vol.fs`fsiFlag, vol.fs`chains,
               vol.fs.disk, vol.fs.win
      ensures Ready(files - {k}, k + 1) && vol.files == map[] && Bytes() == old(Bytes()) - {k}
    {
      hide *;
      ReadyMeans(files, lo);
      BytesAre();
      ghost var c, ns := vol.Contents(), NamesOf(vol.V());
      StoredMeans(c, dir, at, files);
      LaterLive(files, at, lo, k, window.streams);
      RemoveFile(k, files, lo);
      StoredGone(c, dir, at, files, k);
      NamedGone(ns, dir, folder, names, at, dots, k);
      BytesGone(c, dir, at, files, k);
      at := at - {k};
      ReadyIs(files - {k}, k + 1);
      BytesAre();
    }

    /** Opens the next segment: this cannot fail. */
    method OpenSegment(tm: nat)
      requires Valid() && !window.isOpen
      modifies this`at, this`file, window, vol`starts, vol`files
      modifies vol.fs`winsect, vol.fs`wflag, vol.fs`lastClust, vol.fs`freeClust, vol.fs`fsiFlag, vol.fs`chains,
               vol.fs.disk, vol.fs.win
      ensures Valid() && window.isOpen && window.index == old(window.index) && fresh(file)
      ensures Bytes() == old(Bytes())[window.index := []] && window.files == old(window.files)[window.index := 2]
    {
      hide *;
      Limits();
      ValidMeans();
      NextIsNew(window);
      OpenFile(window.index, tm, window.files, FirstLive(window.index));
      window.OpenSegment(true);
      ValidIs();
    }

    /** The worker's write of bytes that the open segment has packets for: it is never short. */
    method Store(chunk: seq<byte>) returns (bw: nat)
      requires Valid() && window.isOpen && window.index in Bytes()
      requires |Bytes()[window.index]| + |chunk| <= 188 * (PSI_PKTS + window.pktNum)
      modifies vol`starts, vol.fs, vol.fs.disk, vol.fs.win, file, if file == null then {} else {file.buf}
      ensures Valid() && bw == |chunk|
      ensures var i := old(window.index); Bytes() == old(Bytes())[i := old(Bytes())[i] + chunk]
    {
      hide *;
      ValidMeans();
      OpenMeans(window.index);
      BytesAre();
      ByteLength(vol.Contents(), at, window.index);
      OpenIsLive(window);
      bw := Append(chunk, window.files, FirstLive(window.index), window.index);
      ValidIs();
    }

    /** One round of Channel::stream. `rest` is what a close has still to write of the segment's packets. */
    method Round(brought: seq<bool>, idle: bool, elapsed: bool, rest: seq<byte>, tm: nat)
      requires Valid() && window.isOpen && window.index in Bytes() && |brought| == window.streams
      requires idle ==> forall i {:trigger brought[i]} :: 0 <= i < |brought| ==> !brought[i]
      requires |Bytes()[window.index]| + |rest| <= 188 * (PSI_PKTS + window.pktNum + multiset(brought)[true])
      modifies this`at, this`file, window, vol, vol.fs, vol.fs.disk, vol.fs.win, file, if file == null then {} else {file.buf}
      ensures Valid()
      ensures var n, i := old(window.pktNum) + multiset(brought)[true], old(window.index);
              if !idle && (elapsed || n > 13000)
              then !window.isOpen && window.index == i + 1
                   && Bytes() == old(Bytes())[i := old(Bytes())[i] + rest] - (if i + 1 > 4 then {i + 1 - 4} else {})
              else window.isOpen && window.index == i && window.pktNum == n && Bytes() == old(Bytes())
    {
      hide *;
      Limits();
      ghost var i, n := window.index, window.pktNum + multiset(brought)[true];
      ghost var files, lo := window.files[i := PSI_PKTS + n], FirstLive(i);
      RoundReady(brought, i, n, files, lo);
      window.Round(brought, idle, elapsed);
      if !window.isOpen {
        FinishFile(rest, tm, files, lo, i);
        if window.index > SEGMENT_NUM {
          DeleteFile(window.index - SEGMENT_NUM, files, lo);
        } else {
          NoneGone(files, Bytes());
        }
      }
      ValidIs();
    }

    /** What holds when the window has counted a round's packets. */
    lemma RoundReady(brought: seq<bool>, i: nat, n: nat, files: map<nat, nat>, lo: nat)
      requires Valid() && window.isOpen && |brought| == window.streams && i == window.index && lo == FirstLive(i)
      requires n == window.pktNum + multiset(brought)[true] && files == window.files[i := PSI_PKTS + n]
      ensures Ready(files, lo) && OpenAt(i) && i in at && at[i] in vol.Contents() && i in Bytes()
              && Bytes()[i] == vol.Contents()[at[i]]
      ensures i + 1 <= SEGMENT_NUM ==> FirstLive(i + 1) == lo
      ensures i + 1 > SEGMENT_NUM ==>
                var k := i + 1 - SEGMENT_NUM;
                k in files && FirstLive(i + 1) == k + 1 && forall j {:trigger files[j]} :: j in files && j != k ==> k < j
      ensures window.Valid()
    {
      hide *;
      ValidMeans();
      OpenMeans(i);
      OpenIsLive(window);
      BytesAre();
      ByteLength(vol.Contents(), at, i);
      BroughtBound(brought);
      ReadyMeans(window.files, lo);
      StoredMore(vol.Contents(), dir, at, window.files, i, PSI_PKTS + n);
      LiveGrown(window.files, lo, window.streams, i, n);
      ReadyIs(files, lo);
      OldestIs(files, i);
    }
  }

  /** The bytes of a list of packets. */
  function Concat(ps: seq<seq<byte>>): seq<byte> {
    if ps == [] then [] else Concat(ps[..|ps| - 1]) + ps[|ps| - 1]
  }

  predicate WholePackets(ps: seq<seq<byte>>) {
    forall i {:trigger ps[i]} :: 0 <= i < |ps| ==> |ps[i]| == 188
  }

  lemma {:induction false} PacketBytes(ps: seq<seq<byte>>)
    requires WholePackets(ps)
    ensures |Concat(ps)| == 188 * |ps|
  {
    if ps != [] { PacketBytes(ps[..|ps| - 1]); }
  }

  lemma {:induction false} PacketSizes(pid: nat, start: bool, cc: nat, b: seq<byte>)
    requires cc < 16
    ensures WholePackets(Packets.BlockPackets(pid, start, cc, b))
    decreases |b|
  {
    hide Packets.Packet;
    if |b| > 184 {
      PacketSizes(pid, false, Packets.NextCc(cc), b[184..]);
    }
  }

  /** A channel's tables take the packets that the window counts for them, exactly up to 33 streams. */
  lemma TablesFit(serviceId: nat, pmtPid: nat, pcrPid: nat, streams: seq<(byte, nat)>)
    requires pcrPid < 0x2000 && forall i {:trigger streams[i]} :: 0 <= i < |streams| ==> streams[i].1 < 0x2000
    ensures Pmt.ProgramOk(Pmt.Program(pcrPid, [], Packetizer.PlainStreams(streams)))
    ensures var ps := Packetizer.PsiPackets(serviceId, pmtPid, pcrPid, streams);
            (|Concat(ps)| == 188 * PSI_PKTS <==> |streams| <= 33) && |Concat(ps)| == 188 * |ps|
  {
    hide Packets.BlockPackets, Packetizer.PatBlock, Packetizer.PmtBlock, Packetizer.PlainStreams, Pmt.ProgramOk, Concat;
    Packetizer.TwoPackets(serviceId, pmtPid, pcrPid, streams);
    var ps := Packetizer.PsiPackets(serviceId, pmtPid, pcrPid, streams);
    var a, b := Packetizer.PatBlock(serviceId, pmtPid), Packetizer.PmtBlock(serviceId, pcrPid, streams);
    PacketSizes(0, true, 0, a);
    PacketSizes(pmtPid, true, 0, b);
    assert Packets.AllPackets(0, 0, [a]) == Packets.BlockPackets(0, true, 0, a) + [];
    assert Packets.AllPackets(pmtPid, 0, [b]) == Packets.BlockPackets(pmtPid, true, 0, b) + [];
    PacketBytes(ps);
  }

  /** The plan for the RAM disk fits. */
  lemma RamDiskFits(l: Format.Layout)
    requires Format.PlannedFor(l, 24576, false, 1)
    ensures Format.HasRoom(l)
  {
    assert l.au == 1 && l.nVol == 24513;
    Format.ClustersIs(24513, 1);
    hide Format.Clusters;
    assert l.fmt == Fat16 && l.nFat == 96;
    Format.ClustersIs(24384, 1);
  }

  lemma UnitOne()
    ensures forall n {:trigger Format.UnitFor(n, 1)} :: Format.UnitFor(n, 1) == 1
    ensures Format.UnitOk(1) && Format.UnitSectors(1) == 1 && Format.Clusters(24576, 1) == 24576
  {
    Format.ClustersIs(24576, 1);
  }

  lemma RootLong(v: Vol, loose: set<nat>, pend: set<Slot>)
    requires Sound(v, loose, pend) && 0 in v.dirs && v.g.fsType == Fat16
    ensures |Tab(v, 0)| > 0 && TableOk(Tab(v, 0)) && DirHead(v.g, 0) == 0
  {
    hide Based, SlotsOk, HeadsOk, AgreeOk, SubdirsOk, TableOk, Table;
    SoundMeans(v, loose, pend);
    assert DirOk(v, 0);
    DirSecsMean(v.g, v.img, DirSecs(v.g, v.chains, 0));
    TabIs(v, 0);
    RootHasSectors(v);
  }

  lemma RootHasSectors(v: Vol)
    requires Based(v) && v.g.fsType == Fat16
    ensures |RootSecs(v.g, RootSectors(v.g))| > 0
  {
    hide FatBytesNeeded, MaxEntries, PowerOfTwo, DataEnd, FatOf, ChainsOk;
  }

  /** A new root directory leads nowhere, and has room. */
  lemma EmptyRoot(v: Vol, pend: set<Slot>, folder: Name)
    requires Sound(v, {}, pend) && v.dirs == {0} && v.g.fsType == Fat16 && DirsPlain(v) && NameMap(Tab(v, 0)) == map[]
             && SegmentOk(folder)
    ensures Resolve(v, 0, [folder]) == Missing(0) && FirstBlank(Tab(v, 0), 0) < |Tab(v, 0)| && DirsTake(v, [0]) == 0
            && Lists([0], v.dirs)
  {
    hide Sound, Tab, Scan, NameMap, StartOf, PlainEntry, FirstBlank, TableOk, Secs;
    RootLong(v, {}, pend);
    FoundIsOwned(v, {}, pend, 0, folder);
    assert DirPlain(v, 0);
    BlankLeft(Tab(v, 0));
    SoundParts(v, {}, pend);
    assert [0][..0] == [] && DirsTake(v, []) == 0;
    assert DirsTake(v, [0]) == DirsTake(v, [0][..0]) + |ChainAt(v.chains, 0)|;
  }

  lemma OnePathOk(a: Name)
    requires SegmentOk(a)
    ensures PathOk([a])
  {
    hide SegmentOk;
  }

  lemma NothingListed(c: map<Slot, seq<byte>>)
    requires c == map[]
    ensures Lists<Slot>([], c.Keys)
  {
  }

  lemma FolderNamed(ns0: map<nat, map<Name, nat>>, ns: map<nat, map<Name, nat>>, d: nat, folder: Name, i: nat)
    requires 0 in ns0 && d != 0 && ns - {d} == WithName(ns0, 0, folder, i)
    ensures 0 in ns && folder in ns[0]
  {
    assert 0 in ns - {d} && (ns - {d})[0] == ns[0];
  }

  /** ramdisk_init and the beginning of Channel::stream: the RAM disk is formatted and mounted, and the channel's directory
      is made.  This cannot fail. */
  method Start(disk: array<Sector>, streams: nat, folder: Name, names: nat -> Name, serial: nat, tm: nat) returns (r: Recorder)
    requires disk.Length == 24576 && SegmentOk(folder) && NamesDiffer(names) && streams <= 33
    modifies disk
    ensures fresh(r) && r.Valid() && r.Bytes() == map[] && r.window.index == 1 && !r.window.isOpen && r.window.streams == streams
    ensures r.vol.fs.disk == disk
  {
    hide *;
    UnitOne();
    var res, v;
    ghost var l;
    res, v, l := NewVolume.FormatNew(disk, 0, 1, serial);
    if res == FrMkfsAborted { RamDiskFits(l); assert false; }
    if res != FrOk { assert false; }
    var vol: MountedVolume := v;
    RamDiskGeometry(l);
    RamMeans(vol.fs.geo);
    vol.Start();
    RegularMeans(vol.V(), vol.Contents());
    DirInNames(vol.V(), 0);
    EmptyRoot(vol.V(), vol.Pending(), folder);
    NothingListed(vol.Contents());
    vol.FreeClusters([], [0]);
    NothingNeeded(vol.fs.geo, vol.Contents());
    OnePathOk(folder);
    ghost var ns, t, free := NamesOf(vol.V()), Tab(vol.V(), 0), CountFree(Fat(vol.fs));
    var made;
    ghost var dir, slot;
    made, dir, slot := vol.MkDir([folder], tm);
    NoRoomNot(t, DirHead(vol.fs.geo, 0), made, free - 1);
    if made != FrOk { assert false; }
    FolderNamed(ns, NamesOf(vol.V()), dir, folder, slot.index);
    r := new Recorder(vol, streams, folder, names, dir);
  }

  lemma NothingNeeded(g: Geometry, c: map<Slot, seq<byte>>)
    requires g.csize > 0
    ensures FilesNeed(g, c, []) == 0
  {
  }
}
