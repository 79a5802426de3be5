/** The file server's writes to a recorder's segment: they leave room on the disk, so no byte of a segment is lost
    (src/ramdisk.cpp over src/channel.cpp). */
module RecordedWrites {
  import opened Bytes
  import opened FatAccess
  import opened Segments
  import opened FileServer
  import Chains
  import Recorder

  /** The handle at the worker's hand has the open segment's bytes, and stands at their end. */
  ghost predicate HoldsSegment(s: State, r: Recorder.Recorder)
    reads r, r.window, r.vol, r.vol.fs`winsect, r.vol.fs`wflag, r.vol.fs`freeClust, r.vol.fs`fsiFlag, r.vol.fs`chains,
          r.vol.fs.disk, r.vol.fs.win
    reads r.vol.files.Values, set k | k in r.vol.files :: r.vol.files[k].buf
    requires r.vol.fs.Valid()
  {
    && HasHand(s) && r.window.index in r.Bytes()
    && s.files[s.worker.h].content == r.Bytes()[r.window.index] && s.files[s.worker.h].pos == |s.files[s.worker.h].content|
  }

  lemma Holds(s: State, r: Recorder.Recorder)
    requires r.vol.fs.Valid() && HoldsSegment(s, r)
    ensures HasHand(s) && r.window.index in r.Bytes()
    ensures s.files[s.worker.h].content == r.Bytes()[r.window.index] && s.files[s.worker.h].pos == |s.files[s.worker.h].content|
  {
    hide Recorder.Recorder.Bytes;
  }

  /** A segment is smaller than the largest file. */
  lemma SmallSegment(r: Recorder.Recorder)
    requires r.window.Valid() && r.window.isOpen
    ensures 188 * (PSI_PKTS + r.window.pktNum) <= 0xFFFF_FFFF
  {
  }

  lemma ChunkStep(s: State, chunk: seq<byte>, free: nat) returns (s': State)
    requires HasHand(s) && s.worker.chunk == chunk && s.files[s.worker.h].pos == |s.files[s.worker.h].content|
    requires free > 0 && |s.files[s.worker.h].content| + |chunk| <= 0xFFFF_FFFF
    ensures WorkerStep(s, FileServer.WriteChunk(|chunk|, free), s') && LeavesRoom(s, FileServer.WriteChunk(|chunk|, free))
    ensures s.worker.h in s'.files && s'.files[s.worker.h].content == s.files[s.worker.h].content + chunk
    ensures s'.files[s.worker.h].pos == |s'.files[s.worker.h].content|
    ensures s'.files[s.worker.h].short == s.files[s.worker.h].short
  {
    var w, f := s.worker, s.files[s.worker.h];
    assert chunk[..|chunk|] == chunk;
    assert Splice(f.content, |f.content|, chunk) == f.content + chunk;
    s' := s.(files := s.files[w.h := Wrote(f, chunk, |chunk|)],
             worker := if w.SweepHand? then Sweep(w.i, w.idx + 1) else Drain(w.h, w.req, w.idx + 1));
  }

  /** The worker's write of its chunk to the open segment, which has packets for it, is a step of the file server that leaves
      room: the handle goes on holding the segment's bytes. */
  method WriteChunk(r: Recorder.Recorder, chunk: seq<byte>, ghost s: State) returns (bw: nat, ghost free: nat, ghost s': State)
    requires r.Valid() && r.window.isOpen && HoldsSegment(s, r) && s.worker.chunk == chunk
    requires |s.files[s.worker.h].content| + |chunk| <= 188 * (PSI_PKTS + r.window.pktNum)
    modifies r.vol`starts, r.vol.fs, r.vol.fs.disk, r.vol.fs.win, r.file, if r.file == null then {} else {r.file.buf}
    ensures r.Valid() && WorkerStep(s, FileServer.WriteChunk(bw, free), s') && LeavesRoom(s, FileServer.WriteChunk(bw, free))
    ensures s.worker.h in s'.files && r.window.index in r.Bytes()
    ensures s'.files[s.worker.h].content == r.Bytes()[r.window.index] && s'.files[s.worker.h].pos == |r.Bytes()[r.window.index]|
    ensures bw == |chunk| && s'.files[s.worker.h].short == s.files[s.worker.h].short
  {
    hide *;
    Holds(s, r);
    r.ValidMeans();
    SmallSegment(r);
    bw := r.Store(chunk);
    r.ValidMeans();
    r.RoomLeft(r.window.files, FirstLive(r.window.index));
    free := Chains.CountFree(Fat(r.vol.fs));
    s' := ChunkStep(s, chunk, free);
  }
}
