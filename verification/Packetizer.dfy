/** The packetizer of src/channel.cpp: it cuts PSI sections into transport stream packets on a block chain. */
module Packetizer {
  import opened Bytes
  import opened Packets
  import opened BlockChain
  import Psi
  import Pat
  import Pmt

  /** Writes the adaptation field in front of the last `n` bytes. */
  method Stuff(buf: array<byte>, n: nat)
    requires buf.Length == 188 && n < 184
    modifies buf
    ensures buf[..] == old(buf[..4]) + Stuffing(n) + old(buf[188 - n..])
  {
    var stuffing := 184 - n;
    buf[4] := stuffing - 1;
    if stuffing > 1 {
      buf[5] := 0;
      for i := 6 to 6 + stuffing - 2
        invariant forall j :: 6 <= j < i ==> buf[j] == 0xFF
        invariant buf[4] == stuffing - 1 && buf[5] == 0 && buf[..4] == old(buf[..4]) && buf[188 - n..] == old(buf[188 - n..])
      {
        buf[i] := 0xFF;
      }
    }
    assert buf[4..188 - n] == Stuffing(n);
    assert buf[..] == buf[..4] + buf[4..188 - n] + buf[188 - n..];
  }

  method PutHeader(buf: array<byte>, pid: nat, start: bool, adaptation: bool, cc: nat)
    requires buf.Length == 188 && cc < 16
    modifies buf
    ensures buf[..] == TsHeader(pid, start, adaptation, cc) + old(buf[4..])
  {
    ghost var rest := buf[4..];
    buf[0] := 0x47;
    buf[1] := (if start then 0x40 else 0) + pid / 0x100 % 0x20;
    buf[2] := pid % 0x100;
    buf[3] := (if adaptation then 0x30 else 0x10) + cc;
    assert buf[4..] == rest && buf[..4] == TsHeader(pid, start, adaptation, cc);
    assert buf[..] == buf[..4] + buf[4..];
  }

  method PutPayload(buf: array<byte>, data: seq<byte>)
    requires buf.Length == 188 && |data| <= 184
    modifies buf
    ensures buf[..] == old(buf[..188 - |data|]) + data
  {
    var at := 188 - |data|;
    forall i | 0 <= i < |data| {
      buf[at + i] := data[i];
    }
  }

  /** Fills one packet of 188 bytes: header, stuffing, payload. */
  method MakePacket(pid: nat, start: bool, cc: nat, data: seq<byte>) returns (p: Block)
    requires |data| <= 184 && cc < 16
    ensures fresh(p) && p.next == null && p.bytes == Packet(pid, start, cc, data)
  {
    hide TsHeader, Stuffing;
    var n := |data|;
    var buf := new byte[188](_ => 0);
    PutHeader(buf, pid, start, n < 184, cc);
    assert buf[..4] == buf[..][..4] == TsHeader(pid, start, n < 184, cc);
    if n < 184 {
      Stuff(buf, n);
      assert buf[..188 - n] == buf[..][..188 - n] == TsHeader(pid, start, true, cc) + Stuffing(n);
    }
    PutPayload(buf, data);
    p := new Block(buf[..]);
  }

  /** The packets still to come while a block is being cut up. */
  ghost function ToCome(pid: nat, start: bool, cc: nat, rest: seq<byte>, blocks: seq<seq<byte>>): seq<seq<byte>>
    requires cc < 16
  {
    var ps := BlockPackets(pid, start, cc, rest);
    ps + AllPackets(pid, CcAfter(cc, |ps|), blocks)
  }

  lemma NextPacket(pid: nat, start: bool, cc: nat, rest: seq<byte>, blocks: seq<seq<byte>>)
    requires cc < 16
    ensures |rest| > 184 ==>
              (ToCome(pid, start, cc, rest, blocks)
               == [Packet(pid, start, cc, rest[..184])] + ToCome(pid, false, NextCc(cc), rest[184..], blocks))
    ensures |rest| <= 184 && blocks != [] ==>
              (ToCome(pid, start, cc, rest, blocks)
               == [Packet(pid, start, cc, rest)] + ToCome(pid, true, NextCc(cc), blocks[0], blocks[1..]))
    ensures |rest| <= 184 && blocks == [] ==> ToCome(pid, start, cc, rest, blocks) == [Packet(pid, start, cc, rest)]
  {
    hide Packet, NextCc, CcAfter;
    CcSteps(cc, 0, 0);
    if |rest| > 184 {
      var ps := BlockPackets(pid, false, NextCc(cc), rest[184..]);
      CcSteps(cc, 1, |ps|);
    }
  }

  /** One turn of the loop takes the next packet off what is to come. */
  lemma Turn(pid: nat, start: bool, cc: nat, rest: seq<byte>, blocks: seq<seq<byte>>, k: nat, n: nat,
             all: seq<seq<byte>>, done: seq<seq<byte>>)
    requires cc < 16 && k < |blocks| && n == (if |rest| < 184 then |rest| else 184)
    requires all == done + ToCome(pid, start, cc, rest, blocks[k + 1..])
    ensures var done' := done + [Packet(pid, start, cc, rest[..n])];
            && (|rest[n..]| > 0 ==> all == done' + ToCome(pid, false, NextCc(cc), rest[n..], blocks[k + 1..]))
            && (|rest[n..]| == 0 && k + 1 < |blocks| ==> all == done' + ToCome(pid, true, NextCc(cc), blocks[k + 1], blocks[k + 2..]))
            && (|rest[n..]| == 0 && k + 1 == |blocks| ==> all == done')
  {
    hide Packet, NextCc, ToCome;
    NextPacket(pid, start, cc, rest, blocks[k + 1..]);
    if |rest| <= 184 {
      assert rest[..n] == rest;
      if k + 1 < |blocks| {
        assert blocks[k + 1..][1..] == blocks[k + 2..];
      }
    }
  }

  /** PEStoTS: cuts the blocks into packets and appends them to the chain. */
  method PesToTs(c: BufferChain, blocks: seq<seq<byte>>, pid: nat)
    requires c.Valid() && blocks != []
    modifies c, c.last
    ensures c.Valid() && c.Contents() == old(c.Contents()) + AllPackets(pid, 0, blocks)
    ensures c.depth == old(c.depth) + |AllPackets(pid, 0, blocks)| && (c.last == old(c.last) || fresh(c.last))
  {
    hide *;
    ghost var before, all := c.Contents(), AllPackets(pid, 0, blocks);
    ghost var done: seq<seq<byte>> := [];
    var k, data, cc, start := 0, blocks[0], 0, true;
    AllIsToCome(pid, blocks);
    assert before + done == before && done + all == all;
    while k < |blocks|
      invariant k <= |blocks| && cc < 16 && c.Valid()
      invariant c.Contents() == before + done && c.depth == old(c.depth) + |done|
      invariant if k < |blocks| then all == done + ToCome(pid, start, cc, data, blocks[k + 1..]) else all == done
      invariant c.last == old(c.last) || fresh(c.last)
      decreases |blocks| - k, |data|
    {
      var n := if |data| < 184 then |data| else 184;
      Turn(pid, start, cc, data, blocks, k, n, all, done);
      AppendPacket(c, pid, start, cc, data[..n]);
      ghost var p := Packet(pid, start, cc, data[..n]);
      assert before + done + [p] == before + (done + [p]);
      done := done + [p];
      start, cc, data := false, NextCc(cc), data[n..];
      if |data| == 0 {
        k := k + 1;
        if k < |blocks| {
          start, data := true, blocks[k];
        }
      }
    }
  }

  lemma AllIsToCome(pid: nat, blocks: seq<seq<byte>>)
    requires blocks != []
    ensures AllPackets(pid, 0, blocks) == ToCome(pid, true, 0, blocks[0], blocks[1..])
  {
  }

  method AppendPacket(c: BufferChain, pid: nat, start: bool, cc: nat, data: seq<byte>)
    requires c.Valid() && |data| <= 184 && cc < 16
    modifies c, c.last
    ensures c.Valid() && c.Contents() == old(c.Contents()) + [Packet(pid, start, cc, data)] && c.depth == old(c.depth) + 1
    ensures fresh(c.last)
  {
    hide Packet;
    var p := MakePacket(pid, start, cc, data);
    ghost var was := c.items;
    c.Append(p, [p]);
    c.ContentsOf(was, [p]);
  }

  /** A section with the pointer byte that a packet payload starts with (2.4.4.2 of ISO/IEC 13818-1). */
  function WithPointer(ss: seq<seq<byte>>): (b: seq<seq<byte>>)
    ensures |b| == |ss|
  {
    seq(|ss|, i requires 0 <= i < |ss| => [0] + ss[i])
  }

  /** What a receiver makes of the blocks: the sections behind their pointer bytes. */
  function Unpointed(b: seq<seq<byte>>): seq<seq<byte>>
    requires forall i {:trigger b[i]} :: 0 <= i < |b| ==> b[i] != []
  {
    seq(|b|, i requires 0 <= i < |b| => b[i][1..])
  }

  lemma PointerBack(ss: seq<seq<byte>>)
    ensures (forall i {:trigger WithPointer(ss)[i]} :: 0 <= i < |ss| ==> WithPointer(ss)[i] != [])
            && Unpointed(WithPointer(ss)) == ss
  {
    assert forall i :: 0 <= i < |ss| ==> WithPointer(ss)[i][1..] == ss[i];
  }

  /** From the program list to packets and back: a receiver that reassembles the packets and decodes the sections gets the
      list that went in, in order, whatever the number of sections. */
  lemma PatOverPackets(pid: nat, tsId: nat, version: nat, current: bool, ps: seq<Pat.Program>, m: nat)
    requires pid < 0x2000 && tsId < 0x1_0000 && version < 0x20 && 0 < m <= 253 && |Pat.Chunks(ps, m)| <= 256
    requires forall p :: p in ps ==> Pat.ProgramOk(p)
    ensures var n := |Pat.Chunks(ps, m)|;
            var ss := Pat.PatSections(tsId, version, current, Pat.Chunks(ps, m), 0, n);
            var d := Decode(AllPackets(pid, 0, WithPointer(ss)), pid, 0);
            && d.Some? && (forall i {:trigger d.value[i]} :: 0 <= i < |d.value| ==> d.value[i] != [])
            && Pat.DecodeFrom(Unpointed(d.value), 0, n, tsId, version, current) == Pat.Some(ps)
  {
    hide Decode, AllPackets, WithPointer, Unpointed, Pat.DecodeFrom, Pat.PatSections;
    var n := |Pat.Chunks(ps, m)|;
    var ss := Pat.PatSections(tsId, version, current, Pat.Chunks(ps, m), 0, n);
    PointerBack(ss);
    PacketsRoundTrip(pid, WithPointer(ss));
    Pat.PatRoundTrip(tsId, version, current, ps, m);
  }

  /** The blocks of a list of built sections. */
  method WritePsiSection(ss: seq<Psi.Section>) returns (blocks: seq<seq<byte>>)
    requires forall i {:trigger ss[i]} :: 0 <= i < |ss| ==> ss[i].data.Length == 1024 && ss[i].end <= 1020
    ensures |blocks| == |ss|
    ensures forall i {:trigger blocks[i]} :: 0 <= i < |ss| ==> blocks[i] == [0] + ss[i].data[..ss[i].end + 4]
  {
    blocks := [];
    var k := 0;
    while k < |ss|
      invariant 0 <= k <= |ss| && |blocks| == k
      invariant forall i {:trigger blocks[i]} :: 0 <= i < k ==> blocks[i] == [0] + ss[i].data[..ss[i].end + 4]
    {
      var size := ss[k].end + 4;
      blocks := blocks + [[0] + ss[k].data[..size]];
      k := k + 1;
    }
  }

  /** The streams of a channel as the table lists them: without descriptors. */
  function PlainStreams(streams: seq<(byte, nat)>): (es: seq<Pmt.Stream>)
    ensures |es| == |streams|
  {
    seq(|streams|, i requires 0 <= i < |streams| => Pmt.Stream(streams[i].0, streams[i].1, []))
  }

  lemma PlainStreamsFit(streams: seq<(byte, nat)>, pcrPid: nat)
    requires forall i {:trigger streams[i]} :: 0 <= i < |streams| ==> streams[i].1 < 0x2000
    requires pcrPid < 0x2000
    ensures Pmt.ProgramOk(Pmt.Program(pcrPid, [], PlainStreams(streams)))
    ensures |Pmt.Payload(Pmt.Program(pcrPid, [], PlainStreams(streams)))| == 4 + 5 * |streams|
    ensures |streams| <= 201 ==> Pmt.FitsOneSection(Pmt.Program(pcrPid, [], PlainStreams(streams)))
  {
    PlainLength(PlainStreams(streams));
  }

  lemma {:induction false} PlainLength(es: seq<Pmt.Stream>)
    requires Pmt.StreamsOk(es) && forall i {:trigger es[i]} :: 0 <= i < |es| ==> es[i].descriptors == []
    ensures |Pmt.Streams(es)| == 5 * |es|
  {
    if es != [] {
      PlainLength(es[1..]);
    }
  }

  /** The blocks and the packets of a channel's two tables. */
  function PatBlock(serviceId: nat, pmtPid: nat): seq<byte> {
    [0] + Pat.PatSection(1, 1, true, if pmtPid == 0 then [] else [Pat.Program(serviceId, pmtPid)], 0, 1)
  }

  function PmtBlock(serviceId: nat, pcrPid: nat, streams: seq<(byte, nat)>): seq<byte>
    requires Pmt.ProgramOk(Pmt.Program(pcrPid, [], PlainStreams(streams)))
  {
    [0] + Pmt.PmtSection(serviceId, 1, true, Pmt.Program(pcrPid, [], PlainStreams(streams)))
  }

  function PsiPackets(serviceId: nat, pmtPid: nat, pcrPid: nat, streams: seq<(byte, nat)>): seq<seq<byte>>
    requires Pmt.ProgramOk(Pmt.Program(pcrPid, [], PlainStreams(streams)))
  {
    AllPackets(0, 0, [PatBlock(serviceId, pmtPid)]) + AllPackets(pmtPid, 0, [PmtBlock(serviceId, pcrPid, streams)])
  }

  /** Two packets carry both tables, exactly as long as there are at most 33 streams. */
  lemma TwoPackets(serviceId: nat, pmtPid: nat, pcrPid: nat, streams: seq<(byte, nat)>)
    requires pcrPid < 0x2000 && forall i {:trigger streams[i]} :: 0 <= i < |streams| ==> streams[i].1 < 0x2000
    ensures Pmt.ProgramOk(Pmt.Program(pcrPid, [], PlainStreams(streams)))
    ensures |PsiPackets(serviceId, pmtPid, pcrPid, streams)| == 2 <==> |streams| <= 33
  {
    hide BlockPackets, PatBlock, PmtBlock, AllPackets;
    PlainStreamsFit(streams, pcrPid);
    BlockSizes(serviceId, pmtPid, pcrPid, streams);
    OneBlock(0, PatBlock(serviceId, pmtPid));
    OneBlock(pmtPid, PmtBlock(serviceId, pcrPid, streams));
  }

  lemma BlockSizes(serviceId: nat, pmtPid: nat, pcrPid: nat, streams: seq<(byte, nat)>)
    requires pcrPid < 0x2000 && forall i {:trigger streams[i]} :: 0 <= i < |streams| ==> streams[i].1 < 0x2000
    ensures Pmt.ProgramOk(Pmt.Program(pcrPid, [], PlainStreams(streams)))
    ensures 0 < |PatBlock(serviceId, pmtPid)| <= 21 && |PmtBlock(serviceId, pcrPid, streams)| == 17 + 5 * |streams|
  {
    hide Psi.Header, Psi.Protected, Pmt.Payload, PlainStreams, Pmt.ProgramOk;
    PlainStreamsFit(streams, pcrPid);
  }

  lemma OneBlock(pid: nat, b: seq<byte>)
    requires b != []
    ensures |AllPackets(pid, 0, [b])| >= 1 && (|AllPackets(pid, 0, [b])| == 1 <==> |b| <= 184)
  {
    PacketCount(pid, true, 0, b);
    hide BlockPackets;
    assert AllPackets(pid, 0, [b]) == BlockPackets(pid, true, 0, b) + [];
  }

  /** Channel::getDvbPsi: appends the packets of the channel's PAT and PMT to a chain. */
  method GetDvbPsi(c: BufferChain, serviceId: nat, pmtPid: nat, pcrPid: nat, streams: seq<(byte, nat)>)
    requires c.Valid() && pcrPid < 0x2000 && |streams| <= 201
    requires forall i {:trigger streams[i]} :: 0 <= i < |streams| ==> streams[i].1 < 0x2000
    modifies c, c.last
    ensures c.Valid() && Pmt.ProgramOk(Pmt.Program(pcrPid, [], PlainStreams(streams)))
    ensures c.Contents() == old(c.Contents()) + PsiPackets(serviceId, pmtPid, pcrPid, streams)
    ensures c.depth == old(c.depth) + |PsiPackets(serviceId, pmtPid, pcrPid, streams)|
    ensures serviceId < 0x1_0000 && 0 < pmtPid < 0x2000 ==>
              Announces(c.Contents()[|old(c.Contents())|..], serviceId, pmtPid, pcrPid, streams)
  {
    hide *;
    ghost var was := c.Contents();
    PlainStreamsFit(streams, pcrPid);
    PsiPacketsAre(serviceId, pmtPid, pcrPid, streams);
    var blocks := PatBlocks(serviceId, pmtPid);
    PesToTs(c, blocks, 0);
    blocks := PmtBlocks(serviceId, pcrPid, streams);
    PesToTs(c, blocks, pmtPid);
    ghost var ps := PsiPackets(serviceId, pmtPid, pcrPid, streams);
    assert c.Contents() == was + ps && c.Contents()[|was|..] == ps;
    if serviceId < 0x1_0000 && 0 < pmtPid < 0x2000 { TablesAnnounce(serviceId, pmtPid, pcrPid, streams); }
  }

  /** A block that a receiver takes for a program association section with the one program `serviceId` at `pmtPid`. */
  predicate LeadsTo(b: seq<byte>, serviceId: nat, pmtPid: nat) {
    b != [] && b[0] == 0 && Pat.DecodeFrom([b[1..]], 0, 1, 1, 1, true) == Pat.Some([Pat.Program(serviceId, pmtPid)])
  }

  /** A block that a receiver takes for the program map section of `serviceId`: its clock's PID, and the type and the PID of
      every stream, in order, without descriptors. */
  predicate Lists(b: seq<byte>, serviceId: nat, pcrPid: nat, streams: seq<(byte, nat)>) {
    && b != [] && b[0] == 0
    && var s := b[1..];
    && Psi.SectionOk(s, 2) && Psi.SectionNumber(s) == Psi.LastSection(s) == 0
    && Psi.Extension(s) == serviceId && Psi.Version(s) == 1 && Psi.CurrentNext(s)
    && var p := Pmt.Parse(Psi.PayloadOf(s));
    && p.Some? && p.value.pcrPid == pcrPid && p.value.descriptors == [] && |p.value.streams| == |streams|
    && forall i {:trigger streams[i]} :: 0 <= i < |streams| ==>
         var e := p.value.streams[i]; e.kind == streams[i].0 && e.pid == streams[i].1 && e.descriptors == []
  }

  /** Packets from which a receiver learns the channel: on PID 0 one block that leads to the map, on the map's PID one block
      that lists the streams, and nothing on any other PID. */
  predicate Announces(ps: seq<seq<byte>>, serviceId: nat, pmtPid: nat, pcrPid: nat, streams: seq<(byte, nat)>) {
    && var a, b := Decode(OnPid(ps, 0), 0, 0), Decode(OnPid(ps, pmtPid), pmtPid, 0);
    && a.Some? && |a.value| == 1 && LeadsTo(a.value[0], serviceId, pmtPid)
    && b.Some? && |b.value| == 1 && Lists(b.value[0], serviceId, pcrPid, streams)
    && forall i {:trigger ps[i]} :: 0 <= i < |ps| ==> |ps[i]| == 188 && PidOf(ps[i]) in {0, pmtPid}
  }

  lemma PatLeads(serviceId: nat, pmtPid: nat)
    requires serviceId < 0x1_0000 && 0 < pmtPid < 0x2000
    ensures LeadsTo(PatBlock(serviceId, pmtPid), serviceId, pmtPid)
  {
    hide Pat.PatSection, Pat.SectionFits, Pat.DecodePrograms, Psi.PayloadOf;
    var ps := [Pat.Program(serviceId, pmtPid)];
    Pat.SectionDecodes(1, 1, true, ps, 0, 1);
    var s := Pat.PatSection(1, 1, true, ps, 0, 1);
    assert PatBlock(serviceId, pmtPid)[1..] == s;
    OneSection(s, 0, 1, 1, 1, true, ps);
  }

  lemma OneSection(s: seq<byte>, k: nat, n: nat, tsId: nat, version: nat, current: bool, ps: seq<Pat.Program>)
    requires Pat.SectionFits(s, k, n, tsId, version, current) && Pat.DecodePrograms(Psi.PayloadOf(s)) == ps
    ensures Pat.DecodeFrom([s], k, n, tsId, version, current) == Pat.Some(ps)
  {
    hide Pat.SectionFits, Pat.DecodePrograms, Psi.PayloadOf;
    var ss: seq<seq<byte>> := [s];
    assert ss[0] == s && ss[1..] == [];
    assert Pat.DecodeFrom(ss[1..], k + 1, n, tsId, version, current) == Pat.Some([]);
    assert ps + [] == ps;
  }

  lemma PmtLists(serviceId: nat, pcrPid: nat, streams: seq<(byte, nat)>)
    requires serviceId < 0x1_0000 && pcrPid < 0x2000 && |streams| <= 201
    requires forall i {:trigger streams[i]} :: 0 <= i < |streams| ==> streams[i].1 < 0x2000
    ensures Pmt.ProgramOk(Pmt.Program(pcrPid, [], PlainStreams(streams)))
    ensures Lists(PmtBlock(serviceId, pcrPid, streams), serviceId, pcrPid, streams)
  {
    hide Pmt.PmtSection, Pmt.Parse, Psi.PayloadOf, Psi.SectionOk, Psi.SectionNumber, Psi.LastSection, Psi.Extension, Psi.Version,
         Psi.CurrentNext, Pmt.ProgramOk, Pmt.FitsOneSection;
    PlainStreamsFit(streams, pcrPid);
    var p := Pmt.Program(pcrPid, [], PlainStreams(streams));
    Pmt.PmtRoundTrip(serviceId, 1, true, p);
    assert PmtBlock(serviceId, pcrPid, streams)[1..] == Pmt.PmtSection(serviceId, 1, true, p);
  }

  /** What a receiver makes of the packets of a channel's tables. */
  lemma TablesAnnounce(serviceId: nat, pmtPid: nat, pcrPid: nat, streams: seq<(byte, nat)>)
    requires serviceId < 0x1_0000 && 0 < pmtPid < 0x2000 && pcrPid < 0x2000 && |streams| <= 201
    requires forall i {:trigger streams[i]} :: 0 <= i < |streams| ==> streams[i].1 < 0x2000
    ensures Pmt.ProgramOk(Pmt.Program(pcrPid, [], PlainStreams(streams)))
    ensures Announces(PsiPackets(serviceId, pmtPid, pcrPid, streams), serviceId, pmtPid, pcrPid, streams)
  {
    hide *;
    PatLeads(serviceId, pmtPid);
    PmtLists(serviceId, pcrPid, streams);
    var x, y := PatBlock(serviceId, pmtPid), PmtBlock(serviceId, pcrPid, streams);
    var p, q := AllPackets(0, 0, [x]), AllPackets(pmtPid, 0, [y]);
    PsiPacketsAre(serviceId, pmtPid, pcrPid, streams);
    ListOnPid(0, 0, [x]);
    ListOnPid(pmtPid, 0, [y]);
    OnPidAll(p, 0, 0);
    OnPidAll(p, 0, pmtPid);
    OnPidAll(q, pmtPid, 0);
    OnPidAll(q, pmtPid, pmtPid);
    OnPidJoin(p, q, 0);
    OnPidJoin(p, q, pmtPid);
    assert p + [] == p && [] + q == q;
    BlocksNotEmpty(x, y, serviceId, pmtPid, pcrPid, streams);
    PacketsRoundTrip(0, [x]);
    PacketsRoundTrip(pmtPid, [y]);
    AnnouncesIs(p, q, x, y, serviceId, pmtPid, pcrPid, streams);
  }

  lemma BlocksNotEmpty(x: seq<byte>, y: seq<byte>, serviceId: nat, pmtPid: nat, pcrPid: nat, streams: seq<(byte, nat)>)
    requires LeadsTo(x, serviceId, pmtPid) && Lists(y, serviceId, pcrPid, streams)
    ensures x != [] && y != []
  {
  }

  lemma AnnouncesIs(p: seq<seq<byte>>, q: seq<seq<byte>>, x: seq<byte>, y: seq<byte>, serviceId: nat, pmtPid: nat, pcrPid: nat,
                    streams: seq<(byte, nat)>)
    requires LeadsTo(x, serviceId, pmtPid) && Lists(y, serviceId, pcrPid, streams) && AllOnPid(p, 0) && AllOnPid(q, pmtPid)
    requires Decode(OnPid(p + q, 0), 0, 0) == Some([x]) && Decode(OnPid(p + q, pmtPid), pmtPid, 0) == Some([y])
    ensures Announces(p + q, serviceId, pmtPid, pcrPid, streams)
  {
    hide LeadsTo, Lists, Decode, OnPid, PidOf;
    forall i | 0 <= i < |p + q| ensures |(p + q)[i]| == 188 && PidOf((p + q)[i]) in {0, pmtPid} {
      assert (p + q)[i] == if i < |p| then p[i] else q[i - |p|];
    }
  }

  lemma PsiPacketsAre(serviceId: nat, pmtPid: nat, pcrPid: nat, streams: seq<(byte, nat)>)
    requires Pmt.ProgramOk(Pmt.Program(pcrPid, [], PlainStreams(streams)))
    ensures PsiPackets(serviceId, pmtPid, pcrPid, streams)
            == AllPackets(0, 0, [PatBlock(serviceId, pmtPid)]) + AllPackets(pmtPid, 0, [PmtBlock(serviceId, pcrPid, streams)])
  {
  }

  method PatBlocks(serviceId: nat, pmtPid: nat) returns (blocks: seq<seq<byte>>)
    ensures blocks == [PatBlock(serviceId, pmtPid)]
  {
    hide Pat.PatSection;
    var pat := new Pat.Table(1, 1, true);
    var _ := pat.ProgramAdd(serviceId, pmtPid);
    var sections := pat.SectionsGenerate(0);
    assert Pat.Chunks(pat.programs, 253) == [pat.programs];
    ghost var ps := pat.programs;
    assert ps == if pmtPid == 0 then [] else [Pat.Program(serviceId, pmtPid)];
    blocks := WritePsiSection(sections);
    assert blocks == [[0] + Pat.PatSection(1, 1, true, ps, 0, 1)];
    hide PatBlock;
    PatBlockIs(serviceId, pmtPid, ps);
  }

  lemma PatBlockIs(serviceId: nat, pmtPid: nat, ps: seq<Pat.Program>)
    requires ps == if pmtPid == 0 then [] else [Pat.Program(serviceId, pmtPid)]
    ensures PatBlock(serviceId, pmtPid) == [0] + Pat.PatSection(1, 1, true, ps, 0, 1)
  {
  }

  lemma PmtBlockIs(serviceId: nat, pcrPid: nat, streams: seq<(byte, nat)>)
    requires Pmt.ProgramOk(Pmt.Program(pcrPid, [], PlainStreams(streams)))
    ensures PmtBlock(serviceId, pcrPid, streams) == [0] + Pmt.PmtSection(serviceId, 1, true, Pmt.Program(pcrPid, [], PlainStreams(streams)))
  {
  }

  method PmtBlocks(serviceId: nat, pcrPid: nat, streams: seq<(byte, nat)>) returns (blocks: seq<seq<byte>>)
    requires pcrPid < 0x2000 && |streams| <= 201
    requires forall i {:trigger streams[i]} :: 0 <= i < |streams| ==> streams[i].1 < 0x2000
    ensures Pmt.ProgramOk(Pmt.Program(pcrPid, [], PlainStreams(streams)))
    ensures blocks == [PmtBlock(serviceId, pcrPid, streams)]
  {
    hide *;
    PlainStreamsFit(streams, pcrPid);
    PmtBlockIs(serviceId, pcrPid, streams);
    var pmt := Pmt.SectionsGenerate(serviceId, 1, true, Pmt.Program(pcrPid, [], PlainStreams(streams)));
    blocks := WritePsiSection(pmt);
  }
}
