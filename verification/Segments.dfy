/** The window of transport stream files that a running channel keeps on the RAM disk (src/channel.cpp: Channel::stream). */
module Segments {
  import opened Geometry
  import opened Format

  const SEGMENT_NUM: nat := 4
  const SEGMENT_PKTS: nat := 13000
  const PSI_PKTS: nat := 2        // one packet for the PAT, one for the PMT

  lemma Limits()
    ensures SEGMENT_NUM == 4 && SEGMENT_PKTS == 13000 && PSI_PKTS == 2
  {
  }

  /** First of the files that are live while segment `s` is the current one. */
  function FirstLive(s: nat): nat {
    if s > 3 then s - 3 else 1
  }

  /** Packets that one file can get: the check comes once per round, and a round brings one packet per stream at most. */
  function MaxPackets(streams: nat): nat {
    PSI_PKTS + SEGMENT_PKTS + streams
  }

  class SegmentWindow {
    const streams: nat         // MAX_STREAM_NUM
    var index: nat             // seg_index
    var isOpen: bool           // h_fileop
    var pktNum: nat            // i_pkt_num
    var files: map<nat, nat>   // the files on disk, with their packets

    /** The live files are exactly the last ones, and none is longer than a file can get. */
    ghost predicate Valid()
      reads this
    {
      && index >= 1
      && (forall i :: i in files <==> FirstLive(index) <= i < index || (i == index && isOpen))
      && (forall i {:trigger files[i]} :: i in files ==> files[i] <= MaxPackets(streams))
      && (isOpen ==> pktNum <= SEGMENT_PKTS && index in files && files[index] == PSI_PKTS + pktNum)
    }

    constructor (streams: nat)
      ensures Valid() && index == 1 && !isOpen && files == map[] && this.streams == streams
    {
      this.streams := streams;
      index, isOpen, pktNum, files := 1, false, 0, map[];
    }

    /** Opens the current segment, if the worker can, and writes the tables into it. */
    method OpenSegment(ok: bool)
      requires Valid() && !isOpen
      modifies this
      ensures Valid() && index == old(index) && isOpen == ok
      ensures files == if ok then old(files)[index := 2] else old(files)
    {
      if !ok { return; }
      isOpen := true;
      pktNum := 0;
      files := files[index := PSI_PKTS];
    }

    /** Writes one packet for each stream that brought one. */
    method TakePackets(brought: seq<bool>)
      requires Valid() && isOpen && |brought| == streams
      modifies this`pktNum, this`files
      ensures pktNum == old(pktNum) + multiset(brought)[true] <= old(pktNum) + streams
      ensures files == old(files)[index := PSI_PKTS + pktNum]
    {
      var i := 0;
      while i < streams
        invariant 0 <= i <= streams && pktNum == old(pktNum) + multiset(brought[..i])[true] <= old(pktNum) + i
        invariant files == old(files)[index := PSI_PKTS + pktNum]
      {
        assert brought[..i + 1] == brought[..i] + [brought[i]];
        if brought[i] {
          files := files[index := files[index] + 1];
          pktNum := pktNum + 1;
        }
        i := i + 1;
      }
      assert brought[..streams] == brought;
    }

    /** One round over the streams: `brought` says which of them had a packet to write, `idle` that none had anything, and
        `elapsed` that the segment has lasted long enough.  A full or old segment is closed, and the file that leaves the
        window is deleted. */
    method Round(brought: seq<bool>, idle: bool, elapsed: bool)
      requires Valid() && isOpen && |brought| == streams && (idle ==> forall i {:trigger brought[i]} :: 0 <= i < |brought| ==> !brought[i])
      modifies this
      ensures Valid()
      ensures var n := old(pktNum) + multiset(brought)[true];
              if !idle && (elapsed || n > 13000)
              then !isOpen && index == old(index) + 1
                   && files == old(files)[old(index) := 2 + n] - (if index > 4 then {index - 4} else {})
              else isOpen && index == old(index) && pktNum == n && files == old(files)[index := 2 + n]
    {
      TakePackets(brought);
      if idle {
        NothingBrought(brought);
        return;
      }
      if !elapsed && pktNum <= SEGMENT_PKTS { return; }
      isOpen := false;
      pktNum := 0;
      index := index + 1;
      if index > SEGMENT_NUM {
        files := files - {index - SEGMENT_NUM};
      }
    }
  }

  lemma NothingBrought(brought: seq<bool>)
    requires forall i {:trigger brought[i]} :: 0 <= i < |brought| ==> !brought[i]
    ensures multiset(brought)[true] == 0
  {
    assert true !in brought;
  }

  /** No round counts more packets than there are streams. */
  lemma {:induction false} BroughtBound(brought: seq<bool>)
    ensures multiset(brought)[true] <= |brought|
  {
    if brought != [] {
      var front := brought[..|brought| - 1];
      BroughtBound(front);
      assert brought == front + [brought[|brought| - 1]];
    }
  }

  /** Clusters of 512 bytes that a file of `n` packets takes. */
  function ClustersFor(n: nat): nat {
    (n * 188 + 511) / 512
  }

  /** Clusters that the files `lo` to `hi - 1` take. */
  function Demand(files: map<nat, nat>, lo: nat, hi: nat): nat
    requires lo <= hi
    decreases hi - lo
  {
    if lo == hi then 0 else Demand(files, lo, hi - 1) + (if hi - 1 in files then ClustersFor(files[hi - 1]) else 0)
  }

  lemma ClustersForMonotone(a: nat, b: nat)
    requires a <= b
    ensures ClustersFor(a) <= ClustersFor(b)
  {
  }

  lemma {:induction false} DemandBound(files: map<nat, nat>, lo: nat, hi: nat, p: nat)
    requires lo <= hi && forall i {:trigger files[i]} :: i in files ==> files[i] <= p
    ensures Demand(files, lo, hi) <= (hi - lo) * ClustersFor(p)
    decreases hi - lo
  {
    hide ClustersFor;
    if lo < hi {
      DemandBound(files, lo, hi - 1, p);
      if hi - 1 in files { ClustersForMonotone(files[hi - 1], p); }
      MulStep(hi - lo, ClustersFor(p));
    }
  }

  lemma MulStep(n: nat, c: nat)
    requires n >= 1
    ensures n * c == (n - 1) * c + c
  {
  }

  /** The RAM disk's volume: 24576 sectors behind a partition table, formatted with one sector per cluster. */
  lemma RamDiskClusters(l: Layout)
    requires LayoutOk(l, 24576) && l.bVol == 63 && l.au == 1 && FatChosen(l)
    ensures l.fmt == Fat16 && l.nClst == 24384
  {
    ClustersIs(24513, 1);
    hide Clusters, UnitSound;
    assert l.nFat == 96;
    ClustersIs(24384, 1);
  }

  /** The files `lo` to `lo + 3`, with what such a file can get. */
  ghost predicate LiveFiles(files: map<nat, nat>, lo: nat, streams: nat) {
    forall i {:trigger files[i]} :: i in files ==> lo <= i < lo + 4 && files[i] <= MaxPackets(streams)
  }

  /** What the live files need always fits the formatted volume, for any number of streams whose table fits one packet, even
      if their directory had all the clusters that a directory can use. */
  lemma WindowFits(files: map<nat, nat>, lo: nat, streams: nat)
    requires LiveFiles(files, lo, streams) && streams <= 33
    ensures Demand(files, lo, lo + 4) + 4096 < 24384
  {
    hide Demand, ClustersFor;
    DemandBound(files, lo, lo + 4, MaxPackets(streams));
    ClustersForMonotone(MaxPackets(streams), 13035);
    LargestFile();
  }

  lemma LargestFile()
    ensures ClustersFor(13035) == 4787
  {
  }
}
