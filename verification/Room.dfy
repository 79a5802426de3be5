/** How much room a volume has: its free clusters are what the bytes of its files and its directories leave. */
module Room {
  import opened Arith
  import opened Sealed
  import opened Bytes
  import opened Geometry
  import opened Chains
  import opened FatAccess
  import opened FileData
  import opened DirTable
  import opened Directory
  import opened VolumeState
  import opened VolumeSteps
  import opened Upkeep

  /** The clusters on a list of chains, counted and collected. */
  function Total(cs: seq<seq<nat>>): nat {
    if cs == [] then 0 else Total(cs[..|cs| - 1]) + |cs[|cs| - 1]|
  }

  function Elems(ch: seq<nat>): (r: set<nat>)
    ensures forall c {:trigger c in r} :: c in r <==> c in ch
  {
    set i | 0 <= i < |ch| :: ch[i]
  }

  function Members(cs: seq<seq<nat>>): set<nat> {
    if cs == [] then {} else Members(cs[..|cs| - 1]) + Elems(cs[|cs| - 1])
  }

  ghost predicate Apart(cs: seq<seq<nat>>) {
    && (forall i {:trigger cs[i]} :: 0 <= i < |cs| ==> Distinct(cs[i]))
    && (forall i, j {:trigger cs[i], cs[j]} :: 0 <= i < j < |cs| ==> Disjoint(cs[i], cs[j]))
  }

  lemma {:induction false} MemberOf(cs: seq<seq<nat>>, c: nat)
    ensures c in Members(cs) <==> exists i :: 0 <= i < |cs| && c in cs[i]
  {
    if cs != [] {
      var front := cs[..|cs| - 1];
      MemberOf(front, c);
      if c in Members(front) {
        var i :| 0 <= i < |front| && c in front[i];
        assert c in cs[i];
      }
      if i :| 0 <= i < |cs| && c in cs[i] && i < |cs| - 1 { assert c in front[i]; }
    }
  }

  lemma {:induction false} DistinctSize(ch: seq<nat>)
    requires Distinct(ch)
    ensures |Elems(ch)| == |ch|
  {
    if ch == [] {
      assert Elems(ch) == {};
    } else {
      var front, x := ch[..|ch| - 1], ch[|ch| - 1];
      DistinctSize(front);
      assert Elems(ch) == Elems(front) + {x};
      assert x !in front;
    }
  }

  lemma {:induction false} MembersSize(cs: seq<seq<nat>>)
    requires Apart(cs)
    ensures |Members(cs)| == Total(cs)
  {
    if cs != [] {
      var front, last := cs[..|cs| - 1], cs[|cs| - 1];
      assert Apart(front) by { assert forall i :: 0 <= i < |front| ==> front[i] == cs[i]; }
      MembersSize(front);
      DistinctSize(last);
      forall c | c in Members(front) ensures c !in last {
        MemberOf(front, c);
        var i :| 0 <= i < |front| && c in front[i];
        assert c in cs[i] && Disjoint(cs[i], last);
      }
      UnionSize(Members(front), Elems(last));
    }
  }

  lemma UnionSize(a: set<nat>, b: set<nat>)
    requires a * b == {}
    ensures |a + b| == |a| + |b|
  {
  }

  ghost function UsedBelow(fat: seq<nat>, k: nat): set<nat>
    requires k <= |fat|
  {
    set c | 2 <= c < k && fat[c] != 0
  }

  lemma {:induction false} FreeAndUsed(fat: seq<nat>, k: nat)
    requires 2 <= k <= |fat|
    ensures FreeBelow(fat, k) + |UsedBelow(fat, k)| == k - 2
  {
    if k == 2 {
      assert UsedBelow(fat, k) == {};
    } else {
      FreeAndUsed(fat, k - 1);
      if fat[k - 1] == 0 {
        assert UsedBelow(fat, k) == UsedBelow(fat, k - 1);
      } else {
        assert UsedBelow(fat, k) == UsedBelow(fat, k - 1) + {k - 1};
      }
    }
  }

  /** Free clusters and the clusters of a list of chains that holds every used cluster once make up the volume. */
  lemma FreePlusListed(fat: seq<nat>, chains: map<nat, seq<nat>>, cs: seq<seq<nat>>)
    requires ChainsOk(fat, chains) && |fat| >= 2 && Apart(cs)
    requires forall c {:trigger Owned(chains, c)} :: Owned(chains, c) <==> c in Members(cs)
    ensures CountFree(fat) + Total(cs) == |fat| - 2
  {
    hide IsChain, ChainsDisjoint, Disjoint, FreeBelow;
    MembersSize(cs);
    FreeAndUsed(fat, |fat|);
    forall c: nat ensures c in UsedBelow(fat, |fat|) <==> c in Members(cs) {
      assert Owned(chains, c) <==> c in Members(cs);
      if 2 <= c < |fat| { OwnedIffUsed(fat, chains, c); }
      if Owned(chains, c) { OwnedInRange(fat, chains, c); }
    }
    assert UsedBelow(fat, |fat|) == Members(cs);
  }

  lemma OwnedInRange(fat: seq<nat>, chains: map<nat, seq<nat>>, c: nat)
    requires ChainsOk(fat, chains) && Owned(chains, c)
    ensures 2 <= c < |fat|
  {
    hide IsChain, Disjoint;
    assert Opened(0);
    var h :| h in chains && c in chains[h];
    ChainLink(fat, chains[h], c);
  }

  ghost function ChainList(chains: map<nat, seq<nat>>, hs: seq<nat>): (cs: seq<seq<nat>>)
    ensures |cs| == |hs|
  {
    seq(|hs|, i requires 0 <= i < |hs| => ChainAt(chains, hs[i]))
  }

  /** The chains of different heads are apart; a head without a chain adds nothing. */
  lemma ListApart(g: Geometry, fat: seq<nat>, chains: map<nat, seq<nat>>, hs: seq<nat>)
    requires ChainsOk(fat, chains) && |fat| == g.nFatent
    requires forall i, j {:trigger hs[i], hs[j]} :: 0 <= i < j < |hs| ==> hs[i] != hs[j] || hs[i] !in chains
    ensures Apart(ChainList(chains, hs))
  {
    hide IsChain, ChainsFormed, ChainsCover, AllClusters;
    assert Opened(0);
    var cs := ChainList(chains, hs);
    forall i | 0 <= i < |cs| ensures Distinct(cs[i]) { if hs[i] in chains { ChainGood(g, fat, chains, hs[i]); } }
    forall i, j | 0 <= i < j < |cs| ensures Disjoint(cs[i], cs[j]) {
      if hs[i] in chains && hs[j] in chains { assert Disjoint(chains[hs[i]], chains[hs[j]]); }
    }
  }

  lemma ListOwned(chains: map<nat, seq<nat>>, hs: seq<nat>, c: nat)
    requires forall h {:trigger h in chains} :: h in chains ==> h in hs
    ensures Owned(chains, c) <==> c in Members(ChainList(chains, hs))
  {
    var cs := ChainList(chains, hs);
    MemberOf(cs, c);
    if Owned(chains, c) {
      var h :| h in chains && c in chains[h];
      var i :| 0 <= i < |hs| && hs[i] == h;
      assert c in cs[i];
    }
    if i :| 0 <= i < |cs| && c in cs[i] { assert hs[i] in chains; }
  }

  /** The free clusters and the lengths of all chains add up to the number of clusters. */
  lemma FreePlusChains(g: Geometry, fat: seq<nat>, chains: map<nat, seq<nat>>, hs: seq<nat>)
    requires ChainsOk(fat, chains) && |fat| == g.nFatent >= 2
    requires forall h {:trigger h in chains} :: h in chains ==> h in hs
    requires forall i, j {:trigger hs[i], hs[j]} :: 0 <= i < j < |hs| ==> hs[i] != hs[j] || hs[i] !in chains
    ensures CountFree(fat) + Total(ChainList(chains, hs)) == |fat| - 2
  {
    hide ChainsOk, FreeBelow, Owned;
    ListApart(g, fat, chains, hs);
    forall c ensures Owned(chains, c) <==> c in Members(ChainList(chains, hs)) { ListOwned(chains, hs, c); }
    FreePlusListed(fat, chains, ChainList(chains, hs));
  }

  /** Clusters that `size` bytes need. */
  function ClustersNeeded(g: Geometry, size: nat): nat
    requires g.csize > 0
  {
    (size + ClusterSize(g) - 1) / ClusterSize(g)
  }

  /** Tight chains have exactly that many. */
  lemma SnugNeeds(g: Geometry, n: nat, size: nat)
    requires g.csize > 0 && Snug(g, n, size) && size <= ClusterBytes(g, n)
    ensures n == ClustersNeeded(g, size)
  {
    hide ClusterBytes;
    var m := ClusterSize(g);
    ClusterBytesIs(g, n);
    DivModUnique(size + m - 1, m, n, size + m - 1 - n * m);
  }

  predicate AllIn(slots: seq<Slot>, keys: set<Slot>) {
    forall i {:trigger slots[i]} :: 0 <= i < |slots| ==> slots[i] in keys
  }

  function FilesNeed(g: Geometry, c: map<Slot, seq<byte>>, slots: seq<Slot>): nat
    requires g.csize > 0 && AllIn(slots, c.Keys)
  {
    if slots == [] then 0
    else FilesNeed(g, c, slots[..|slots| - 1]) + ClustersNeeded(g, |c[slots[|slots| - 1]]|)
  }

  ghost function DirsTake(v: Vol, ds: seq<nat>): nat {
    if ds == [] then 0 else DirsTake(v, ds[..|ds| - 1]) + |ChainAt(v.chains, DirHead(v.g, ds[|ds| - 1]))|
  }

  ghost predicate AllDiffer<T>(l: seq<T>) {
    forall i, j {:trigger l[i], l[j]} :: 0 <= i < j < |l| ==> l[i] != l[j]
  }

  /** `l` lists the elements of `s`, each once. */
  ghost predicate Lists<T(!new)>(l: seq<T>, s: set<T>) {
    (forall x {:trigger x in s} {:trigger x in l} :: x in l <==> x in s) && AllDiffer(l)
  }

  ghost function FileHeads(v: Vol, slots: seq<Slot>): (hs: seq<nat>)
    requires AllIn(slots, v.starts.Keys)
    ensures |hs| == |slots|
  {
    seq(|slots|, i requires 0 <= i < |slots| => v.starts[slots[i]])
  }

  ghost function DirHeads(v: Vol, ds: seq<nat>): (hs: seq<nat>)
    ensures |hs| == |ds|
  {
    seq(|ds|, i requires 0 <= i < |ds| => DirHead(v.g, ds[i]))
  }

  lemma {:induction false} TotalOfBoth(a: seq<seq<nat>>, b: seq<seq<nat>>)
    ensures Total(a + b) == Total(a) + Total(b)
  {
    if b == [] {
      assert a + b == a;
    } else {
      TotalOfBoth(a, b[..|b| - 1]);
      assert (a + b)[..|a + b| - 1] == a + b[..|b| - 1];
    }
  }

  lemma {:induction false} FilesTotal(v: Vol, c: map<Slot, seq<byte>>, slots: seq<Slot>)
    requires v.g.csize > 0 && Tight(v, c) && AllIn(slots, c.Keys) && AllIn(slots, v.starts.Keys)
    requires forall s {:trigger c[s]} :: s in c && s in v.starts ==> |c[s]| <= Capacity(v, v.starts[s])
    ensures Total(ChainList(v.chains, FileHeads(v, slots))) == FilesNeed(v.g, c, slots)
  {
    hide Tight, Secs, ClustersNeeded;
    if slots != [] {
      var front, s := slots[..|slots| - 1], slots[|slots| - 1];
      FilesTotal(v, c, front);
      TightAt(v, c, s);
      EndOfChainBytes(v.g, ChainAt(v.chains, v.starts[s]));
      SnugNeeds(v.g, |ChainAt(v.chains, v.starts[s])|, |c[s]|);
      var cs := ChainList(v.chains, FileHeads(v, slots));
      assert cs[..|cs| - 1] == ChainList(v.chains, FileHeads(v, front));
    }
  }

  lemma {:induction false} DirsTotal(v: Vol, ds: seq<nat>)
    ensures Total(ChainList(v.chains, DirHeads(v, ds))) == DirsTake(v, ds)
  {
    hide DirHead;
    if ds != [] {
      DirsTotal(v, ds[..|ds| - 1]);
      var cs := ChainList(v.chains, DirHeads(v, ds));
      assert cs[..|cs| - 1] == ChainList(v.chains, DirHeads(v, ds[..|ds| - 1]));
    }
  }

  /** Files and directories have all chains, and different ones. */
  lemma AllHeads(v: Vol, pend: set<Slot>, open: set<Slot>, c: map<Slot, seq<byte>>, slots: seq<Slot>, ds: seq<nat>)
    requires Sound(v, {}, pend) && ContentsFor(v, open, c) && Lists(slots, c.Keys) && Lists(ds, v.dirs)
    ensures AllIn(slots, c.Keys) && AllIn(slots, v.starts.Keys)
    ensures forall h {:trigger h in v.chains} :: h in v.chains ==> h in FileHeads(v, slots) + DirHeads(v, ds)
  {
    hide Based, DirsOk, SlotsOk, AgreeOk, DotsOk, EntryOf, IsDir, FileOf;
    SoundMeans(v, {}, pend);
    forall i | 0 <= i < |slots| ensures slots[i] in c && slots[i] in v.starts { assert slots[i] in slots; assert slots[i] in c.Keys; }
    forall h | h in v.chains ensures h in FileHeads(v, slots) + DirHeads(v, ds) {
      var hs := FileHeads(v, slots) + DirHeads(v, ds);
      if h == RootHead(v.g) {
        RootListed(v, pend, ds);
      } else {
        assert Headed(v.starts, h);
        var s :| s in v.starts && v.starts[s] == h;
        if IsDir(EntryOf(v, s)) {
          assert h in v.dirs;
          var j :| 0 <= j < |ds| && ds[j] == h;
          assert DirHeads(v, ds)[j] == h;
        } else {
          assert s in c.Keys;
          var i :| 0 <= i < |slots| && slots[i] == s;
          assert FileHeads(v, slots)[i] == h;
        }
      }
    }
  }

  lemma RootListed(v: Vol, pend: set<Slot>, ds: seq<nat>)
    requires Sound(v, {}, pend) && Lists(ds, v.dirs)
    ensures RootHead(v.g) in DirHeads(v, ds)
  {
    hide Based, SlotsOk, AgreeOk, SubdirsOk, HeadsOk, DirOk;
    SoundMeans(v, {}, pend);
    assert 0 in v.dirs;
    var j :| 0 <= j < |ds| && ds[j] == 0;
    assert DirHeads(v, ds)[j] == RootHead(v.g);
  }

  lemma HeadsDiffer(v: Vol, pend: set<Slot>, open: set<Slot>, c: map<Slot, seq<byte>>, slots: seq<Slot>, ds: seq<nat>)
    requires Sound(v, {}, pend) && ContentsFor(v, open, c) && Lists(slots, c.Keys) && Lists(ds, v.dirs)
    requires AllIn(slots, c.Keys) && AllIn(slots, v.starts.Keys)
    ensures var hs := FileHeads(v, slots) + DirHeads(v, ds);
            forall i, j {:trigger hs[i], hs[j]} :: 0 <= i < j < |hs| ==> hs[i] != hs[j] || hs[i] !in v.chains
  {
    hide Based, DirsOk, SlotsOk, AgreeOk, SubdirsOk, EntryOf, IsDir, FileOf, DirHead;
    SoundMeans(v, {}, pend);
    var hs := FileHeads(v, slots) + DirHeads(v, ds);
    forall i, j | 0 <= i < j < |hs| && hs[i] in v.chains ensures hs[i] != hs[j] {
      if i < |slots| {
        var s := slots[i];
        assert s in slots && s in c && v.starts[s] != 0;
        if j < |slots| {
          assert slots[j] in slots && v.starts[s] != 0;
        } else {
          assert ds[j - |slots|] in ds;
          FileNotDir(v, {}, pend, s, ds[j - |slots|]);
        }
      } else {
        assert ds[i - |slots|] in ds && ds[j - |slots|] in ds;
        DirHeadsDiffer(v, {}, pend, ds[i - |slots|], ds[j - |slots|]);
      }
    }
  }

  /** Free clusters, the clusters that the files' bytes need and those of the directories make up the volume. */
  lemma FreeSpace(v: Vol, pend: set<Slot>, open: set<Slot>, c: map<Slot, seq<byte>>, slots: seq<Slot>, ds: seq<nat>)
    requires Sound(v, {}, pend) && Regular(v, c) && ContentsFor(v, open, c) && Lists(slots, c.Keys) && Lists(ds, v.dirs)
    requires forall s {:trigger c[s]} :: s in c && s in v.starts ==> |c[s]| <= Capacity(v, v.starts[s])
    ensures Based(v) && v.g.csize > 0 && AllIn(slots, c.Keys)
    ensures CountFree(FatOf(v.g, v.img)) + FilesNeed(v.g, c, slots) + DirsTake(v, ds) == v.g.nFatent - 2
  {
    hide *;
    SoundParts(v, {}, pend);
    RegularMeans(v, c);
    VolumeNumbers(v);
    AllHeads(v, pend, open, c, slots, ds);
    HeadsDiffer(v, pend, open, c, slots, ds);
    var a, b := FileHeads(v, slots), DirHeads(v, ds);
    FreePlusChains(v.g, FatOf(v.g, v.img), v.chains, a + b);
    ListOfBoth(v.chains, a, b);
    TotalOfBoth(ChainList(v.chains, a), ChainList(v.chains, b));
    FilesTotal(v, c, slots);
    DirsTotal(v, ds);
  }

  lemma ListOfBoth(chains: map<nat, seq<nat>>, a: seq<nat>, b: seq<nat>)
    ensures ChainList(chains, a + b) == ChainList(chains, a) + ChainList(chains, b)
  {
    hide ChainAt;
  }

  lemma VolumeNumbers(v: Vol)
    requires Based(v)
    ensures v.g.csize > 0 && v.g.nFatent >= 3 && FatLayout(v.g, |v.img|)
    ensures |FatOf(v.g, v.img)| == v.g.nFatent && ChainsOk(FatOf(v.g, v.img), v.chains)
  {
    hide FatBytesNeeded, MaxEntries, PowerOfTwo, DataEnd, FatOf, ChainsOk;
  }
}
