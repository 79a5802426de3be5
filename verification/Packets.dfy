/** Transport stream packets: the packetizer of src/channel.cpp, the chain it appends to (src/buffer.cpp), and a decoder
    after ISO/IEC 13818-1, 2.4.3.2 and 2.4.3.4. */
module Packets {
  import opened Arith
  import opened Bytes

  datatype Option<T> = None | Some(value: T)

  /** The four header bytes. */
  function TsHeader(pid: nat, start: bool, adaptation: bool, cc: nat): (h: seq<byte>)
    requires cc < 16
    ensures |h| == 4
  {
    [0x47, (if start then 0x40 else 0) + pid / 0x100 % 0x20, pid % 0x100, (if adaptation then 0x30 else 0x10) + cc]
  }

  /** The adaptation field that fills a packet in front of `n` payload bytes. */
  function Stuffing(n: nat): (a: seq<byte>)
    requires n < 184
    ensures |a| == 184 - n
  {
    [183 - n] + (if n == 183 then [] else [0] + seq(182 - n, _ => 0xFF))
  }

  /** A packet with up to 184 payload bytes. */
  function Packet(pid: nat, start: bool, cc: nat, payload: seq<byte>): (p: seq<byte>)
    requires |payload| <= 184 && cc < 16
    ensures |p| == 188
  {
    TsHeader(pid, start, |payload| < 184, cc) + (if |payload| < 184 then Stuffing(|payload|) else []) + payload
  }

  function NextCc(cc: nat): (c: nat)
    ensures c < 16
  {
    (cc + 1) % 16
  }

  function CcAfter(cc: nat, n: nat): (c: nat)
    ensures c < 16
  {
    (cc + n) % 16
  }

  /** The packets of one block. */
  function BlockPackets(pid: nat, start: bool, cc: nat, b: seq<byte>): (ps: seq<seq<byte>>)
    requires cc < 16
    ensures |ps| > 0
    decreases |b|
  {
    if |b| <= 184 then [Packet(pid, start, cc, b)]
    else [Packet(pid, start, cc, b[..184])] + BlockPackets(pid, false, NextCc(cc), b[184..])
  }

  /** The packets of a list of blocks; the continuity counter runs on. */
  function AllPackets(pid: nat, cc: nat, blocks: seq<seq<byte>>): seq<seq<byte>>
    requires cc < 16
    decreases |blocks|
  {
    if blocks == [] then []
    else
      var ps := BlockPackets(pid, true, cc, blocks[0]);
      ps + AllPackets(pid, CcAfter(cc, |ps|), blocks[1..])
  }

  /** A block takes as many packets as its size in units of 184 bytes, at least one. */
  lemma {:induction false} PacketCount(pid: nat, start: bool, cc: nat, b: seq<byte>)
    requires cc < 16
    ensures |BlockPackets(pid, start, cc, b)| == if b == [] then 1 else (|b| + 183) / 184
    decreases |b|
  {
    if |b| > 184 {
      PacketCount(pid, false, NextCc(cc), b[184..]);
      ModAddMultiple(|b| - 184 + 183, 184, 1);
    } else if b != [] {
      DivModUnique(|b| + 183, 184, 1, |b| - 1);
    }
  }

  /** What a decoder takes from a packet: the start indicator, the counter, and the payload behind the adaptation field. */
  datatype Fields = Fields(start: bool, cc: nat, payload: seq<byte>)

  /** A packet of section 2.4.3.2 with no transport error, without priority, and not scrambled. */
  predicate Clear(p: seq<byte>) {
    |p| == 188 && p[0] == 0x47 && p[1] / 0x80 == 0 && p[1] / 0x20 % 2 == 0 && p[3] / 0x40 == 0
  }

  function PidOf(p: seq<byte>): nat
    requires |p| == 188
  {
    p[1] as int % 0x20 * 0x100 + p[2] as int
  }

  /** An adaptation field of section 2.4.3.4 that only stuffs: no flag set, and then bytes of ones. */
  predicate OnlyStuffing(p: seq<byte>)
    requires |p| == 188 && p[4] <= 182
  {
    p[4] > 0 ==> p[5] == 0 && forall i {:trigger p[i]} :: 6 <= i < 5 + p[4] as int ==> p[i] == 0xFF
  }

  function ParsePacket(p: seq<byte>, pid: nat): Option<Fields> {
    if !Clear(p) || PidOf(p) != pid then None
    else
      var start, control, cc := p[1] / 0x40 % 2 == 1, p[3] / 0x10 % 4, p[3] as int % 0x10;
      if control == 1 then Some(Fields(start, cc, p[4..]))
      else if control == 3 && p[4] <= 182 && OnlyStuffing(p) then Some(Fields(start, cc, p[5 + p[4] as int..]))
      else None
  }

  lemma HeaderParses(pid: nat, start: bool, adaptation: bool, cc: nat)
    requires pid < 0x2000 && cc < 16
    ensures var h := TsHeader(pid, start, adaptation, cc);
            && h[0] == 0x47 && h[1] as int % 0x20 * 0x100 + h[2] as int == pid
            && (h[1] / 0x40 % 2 == 1) == start && h[3] / 0x10 % 4 == (if adaptation then 3 else 1) && h[3] as int % 0x10 == cc
            && h[1] / 0x80 == 0 && h[1] / 0x20 % 2 == 0 && h[3] / 0x40 == 0
  {
    var d, s := pid / 0x100, if start then 0x40 else 0;
    ModAddMultiple(d, 0x20, s / 0x20);
    DivModUnique(s + d, 0x40, s / 0x40, d);
    DivModUnique(s + d, 0x20, s / 0x20, d);
    DivModUnique((if adaptation then 0x30 else 0x10) + cc, 0x10, if adaptation then 3 else 1, cc);
  }

  /** Every packet is on the PID that it was made for. */
  lemma PacketOnPid(pid: nat, start: bool, cc: nat, payload: seq<byte>)
    requires pid < 0x2000 && |payload| <= 184 && cc < 16
    ensures PidOf(Packet(pid, start, cc, payload)) == pid
  {
    var p, h := Packet(pid, start, cc, payload), TsHeader(pid, start, |payload| < 184, cc);
    HeaderParses(pid, start, |payload| < 184, cc);
    hide TsHeader;
    assert p[1] == h[1] && p[2] == h[2];
  }

  /** All packets of a list are on one PID. */
  predicate AllOnPid(ps: seq<seq<byte>>, pid: nat) {
    forall i {:trigger ps[i]} :: 0 <= i < |ps| ==> |ps[i]| == 188 && PidOf(ps[i]) == pid
  }

  lemma {:induction false} BlockOnPid(pid: nat, start: bool, cc: nat, b: seq<byte>)
    requires pid < 0x2000 && cc < 16
    ensures AllOnPid(BlockPackets(pid, start, cc, b), pid)
    decreases |b|
  {
    hide Packet, PidOf;
    if |b| <= 184 {
      PacketOnPid(pid, start, cc, b);
    } else {
      PacketOnPid(pid, start, cc, b[..184]);
      BlockOnPid(pid, false, NextCc(cc), b[184..]);
    }
  }

  lemma {:induction false} ListOnPid(pid: nat, cc: nat, blocks: seq<seq<byte>>)
    requires pid < 0x2000 && cc < 16
    ensures AllOnPid(AllPackets(pid, cc, blocks), pid)
    decreases |blocks|
  {
    hide PidOf, BlockPackets;
    if blocks != [] {
      BlockOnPid(pid, true, cc, blocks[0]);
      ListOnPid(pid, CcAfter(cc, |BlockPackets(pid, true, cc, blocks[0])|), blocks[1..]);
    }
  }

  /** What a demultiplexer takes out of a stream of packets for one PID. */
  function OnPid(ps: seq<seq<byte>>, pid: nat): seq<seq<byte>> {
    if ps == [] then []
    else
      var p := ps[|ps| - 1];
      OnPid(ps[..|ps| - 1], pid) + (if |p| == 188 && PidOf(p) == pid then [p] else [])
  }

  lemma {:induction false} OnPidAll(ps: seq<seq<byte>>, pid: nat, other: nat)
    requires AllOnPid(ps, pid)
    ensures OnPid(ps, other) == if other == pid then ps else []
  {
    hide PidOf;
    if ps != [] {
      OnPidAll(ps[..|ps| - 1], pid, other);
      assert ps == ps[..|ps| - 1] + [ps[|ps| - 1]];
    }
  }

  lemma {:induction false} OnPidJoin(a: seq<seq<byte>>, b: seq<seq<byte>>, pid: nat)
    ensures OnPid(a + b, pid) == OnPid(a, pid) + OnPid(b, pid)
    decreases |b|
  {
    hide PidOf;
    if b == [] {
      assert a + b == a;
    } else {
      OnPidJoin(a, b[..|b| - 1], pid);
      assert (a + b)[..|a + b| - 1] == a + b[..|b| - 1];
    }
  }

  /** Every packet with a payload decodes to its fields; one without a payload is not a packet with a payload. */
  lemma PacketParses(pid: nat, start: bool, cc: nat, payload: seq<byte>)
    requires pid < 0x2000 && |payload| <= 184 && cc < 16
    ensures ParsePacket(Packet(pid, start, cc, payload), pid) ==
            if payload == [] then None else Some(Fields(start, cc, payload))
  {
    var p, h := Packet(pid, start, cc, payload), TsHeader(pid, start, |payload| < 184, cc);
    HeaderParses(pid, start, |payload| < 184, cc);
    hide TsHeader;
    assert p[0] == h[0] && p[1] == h[1] && p[2] == h[2] && p[3] == h[3];
    if |payload| < 184 {
      assert p[4..188 - |payload|] == Stuffing(|payload|);
      assert p[4] == Stuffing(|payload|)[0] == 183 - |payload|;
      forall i | 5 <= i < 188 - |payload| ensures p[i] == if i == 5 then 0 else 0xFF {
        assert p[i] == p[4..188 - |payload|][i - 4] == Stuffing(|payload|)[i - 4];
      }
      assert p[188 - |payload|..] == payload;
    } else {
      assert p[4..] == payload;
    }
  }

  /** The decoder: counters must be consecutive, a start indicator begins a new block, other packets go on with the last one. */
  function Decode(ps: seq<seq<byte>>, pid: nat, cc: nat): Option<seq<seq<byte>>>
  {
    if ps == [] then Some([])
    else
      match ParsePacket(ps[|ps| - 1], pid)
      case None => None
      case Some(f) =>
        if f.cc != CcAfter(cc, |ps| - 1) then None
        else
          match Decode(ps[..|ps| - 1], pid, cc)
          case None => None
          case Some(blocks) =>
            if f.start then Some(blocks + [f.payload])
            else if blocks == [] then None
            else Some(blocks[..|blocks| - 1] + [blocks[|blocks| - 1] + f.payload])
  }

  lemma CcSteps(cc: nat, a: nat, b: nat)
    ensures CcAfter(CcAfter(cc, a), b) == CcAfter(cc, a + b)
    ensures CcAfter(cc, 1) == NextCc(cc)
    ensures cc < 16 ==> CcAfter(cc, 0) == cc
  {
    ModAddMultiple((cc + a) % 16 + b, 16, (cc + a) / 16);
  }

  /** `x` as a new block, or as more of the last one. */
  function Continued(d: seq<seq<byte>>, start: bool, x: seq<byte>): (r: seq<seq<byte>>)
    requires start || d != []
    ensures r != []
  {
    if start then d + [x] else d[..|d| - 1] + [d[|d| - 1] + x]
  }

  lemma DecodesOn(ps: seq<seq<byte>>, pid: nat, cc: nat, start: bool, x: seq<byte>)
    requires pid < 0x2000 && cc < 16 && Decode(ps, pid, cc).Some? && x != [] && |x| <= 184
    requires !start ==> Decode(ps, pid, cc).value != []
    ensures Decode(ps + [Packet(pid, start, CcAfter(cc, |ps|), x)], pid, cc) == Some(Continued(Decode(ps, pid, cc).value, start, x))
  {
    hide Packet, ParsePacket, CcAfter;
    var p := Packet(pid, start, CcAfter(cc, |ps|), x);
    PacketParses(pid, start, CcAfter(cc, |ps|), x);
    assert (ps + [p])[..|ps|] == ps;
  }

  lemma ContinuedTwice(d: seq<seq<byte>>, start: bool, b: seq<byte>)
    requires |b| > 184 && (start || d != [])
    ensures Continued(Continued(d, start, b[..184]), false, b[184..]) == Continued(d, start, b)
  {
    assert b[..184] + b[184..] == b;
    if start {
      assert (d + [b[..184]])[..|d|] == d;
    } else {
      assert Continued(d, start, b[..184])[..|d| - 1] == d[..|d| - 1];
      assert d[|d| - 1] + b[..184] + b[184..] == d[|d| - 1] + b;
    }
  }

  /** Decoding goes on over the packets of a block: they add a block, or go on with the last one. */
  lemma {:induction false} BlockDecodes(ps: seq<seq<byte>>, pid: nat, cc: nat, start: bool, b: seq<byte>)
    requires pid < 0x2000 && cc < 16 && Decode(ps, pid, cc).Some? && b != []
    requires !start ==> Decode(ps, pid, cc).value != []
    ensures Decode(ps + BlockPackets(pid, start, CcAfter(cc, |ps|), b), pid, cc) ==
            Some(Continued(Decode(ps, pid, cc).value, start, b))
    decreases |b|
  {
    hide Packet, Decode, CcAfter, NextCc, Continued;
    var c, d := CcAfter(cc, |ps|), Decode(ps, pid, cc).value;
    if |b| <= 184 {
      DecodesOn(ps, pid, cc, start, b);
    } else {
      var p := Packet(pid, start, c, b[..184]);
      DecodesOn(ps, pid, cc, start, b[..184]);
      CcSteps(cc, |ps|, 1);
      CcSteps(c, 0, 0);
      BlockDecodes(ps + [p], pid, cc, false, b[184..]);
      assert ps + BlockPackets(pid, start, c, b) == ps + [p] + BlockPackets(pid, false, NextCc(c), b[184..]);
      ContinuedTwice(d, start, b);
    }
  }

  lemma {:induction false} ListDecodes(ps: seq<seq<byte>>, pid: nat, cc: nat, blocks: seq<seq<byte>>)
    requires pid < 0x2000 && cc < 16 && Decode(ps, pid, cc).Some?
    requires forall i {:trigger blocks[i]} :: 0 <= i < |blocks| ==> blocks[i] != []
    ensures Decode(ps + AllPackets(pid, CcAfter(cc, |ps|), blocks), pid, cc) == Some(Decode(ps, pid, cc).value + blocks)
    decreases |blocks|
  {
    hide CcAfter, Decode, BlockPackets;
    var c := CcAfter(cc, |ps|);
    if blocks == [] {
      assert ps + AllPackets(pid, c, blocks) == ps;
      assert Decode(ps, pid, cc).value + blocks == Decode(ps, pid, cc).value;
    } else {
      var bp := BlockPackets(pid, true, c, blocks[0]);
      BlockDecodes(ps, pid, cc, true, blocks[0]);
      CcSteps(cc, |ps|, |bp|);
      ListDecodes(ps + bp, pid, cc, blocks[1..]);
      assert ps + AllPackets(pid, c, blocks) == ps + bp + AllPackets(pid, CcAfter(c, |bp|), blocks[1..]);
      assert Decode(ps, pid, cc).value + [blocks[0]] + blocks[1..] == Decode(ps, pid, cc).value + blocks;
    }
  }

  lemma NothingDecodes(pid: nat)
    ensures Decode([], pid, 0) == Some([])
  {
  }

  /** A decoder recovers every list of non-empty blocks exactly. */
  lemma PacketsRoundTrip(pid: nat, blocks: seq<seq<byte>>)
    requires pid < 0x2000 && forall i {:trigger blocks[i]} :: 0 <= i < |blocks| ==> blocks[i] != []
    ensures Decode(AllPackets(pid, 0, blocks), pid, 0) == Some(blocks)
  {
    hide CcAfter, Decode, AllPackets;
    CcSteps(0, 0, 0);
    NothingDecodes(pid);
    ListDecodes([], pid, 0, blocks);
    assert [] + AllPackets(pid, 0, blocks) == AllPackets(pid, 0, blocks) && [] + blocks == blocks;
  }

  /** What does not decode does not decode with more packets behind it either. */
  lemma {:induction false} LostStays(ps: seq<seq<byte>>, qs: seq<seq<byte>>, pid: nat, cc: nat)
    requires Decode(ps, pid, cc) == None
    ensures Decode(ps + qs, pid, cc) == None
    decreases |qs|
  {
    hide ParsePacket, CcAfter;
    if qs == [] {
      assert ps + qs == ps;
    } else {
      LostStays(ps, qs[..|qs| - 1], pid, cc);
      assert (ps + qs)[..|ps + qs| - 1] == ps + qs[..|qs| - 1];
    }
  }

  /** An empty block becomes a packet without a payload, which is lost with everything behind it. */
  lemma EmptyBlockLost(ps: seq<seq<byte>>, pid: nat, cc: nat, rest: seq<seq<byte>>)
    requires pid < 0x2000 && cc < 16
    ensures Decode(ps + AllPackets(pid, CcAfter(cc, |ps|), [[]] + rest), pid, cc) == None
  {
    hide Packet, ParsePacket, CcAfter;
    var c := CcAfter(cc, |ps|);
    var p, qs := Packet(pid, true, c, []), AllPackets(pid, CcAfter(c, 1), rest);
    PacketParses(pid, true, c, []);
    assert (ps + [p])[..|ps|] == ps;
    assert ([[]] + rest)[1..] == rest;
    LostStays(ps + [p], qs, pid, cc);
    assert ps + AllPackets(pid, c, [[]] + rest) == ps + [p] + qs;
  }

  lemma {:induction false} ListLost(ps: seq<seq<byte>>, pid: nat, cc: nat, blocks: seq<seq<byte>>)
    requires pid < 0x2000 && cc < 16 && Decode(ps, pid, cc).Some? && [] in blocks
    ensures Decode(ps + AllPackets(pid, CcAfter(cc, |ps|), blocks), pid, cc) == None
    decreases |blocks|
  {
    hide CcAfter, Decode, BlockPackets;
    var c := CcAfter(cc, |ps|);
    if blocks[0] == [] {
      assert blocks == [[]] + blocks[1..];
      EmptyBlockLost(ps, pid, cc, blocks[1..]);
    } else {
      var bp := BlockPackets(pid, true, c, blocks[0]);
      BlockDecodes(ps, pid, cc, true, blocks[0]);
      CcSteps(cc, |ps|, |bp|);
      ListLost(ps + bp, pid, cc, blocks[1..]);
      assert ps + AllPackets(pid, c, blocks) == ps + bp + AllPackets(pid, CcAfter(c, |bp|), blocks[1..]);
    }
  }

  /** Which lists of blocks a decoder recovers: exactly those without an empty block. */
  lemma RecoveredIff(pid: nat, blocks: seq<seq<byte>>)
    requires pid < 0x2000
    ensures Decode(AllPackets(pid, 0, blocks), pid, 0) == Some(blocks) <==> [] !in blocks
  {
    hide CcAfter, Decode, AllPackets;
    if [] in blocks {
      CcSteps(0, 0, 0);
      NothingDecodes(pid);
      ListLost([], pid, 0, blocks);
      assert [] + AllPackets(pid, 0, blocks) == AllPackets(pid, 0, blocks);
    } else {
      PacketsRoundTrip(pid, blocks);
    }
  }
}
