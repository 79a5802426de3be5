/** Program map tables that fit one section: the generator of src/dvbpsi.cpp, and a decoder after ISO/IEC 13818-1, 2.4.4.8. */
module Pmt {
  import opened Arith
  import opened Bytes
  import opened Psi
  import Crc

  datatype Option<T> = None | Some(value: T)

  datatype Descriptor = Descriptor(tag: byte, data: seq<byte>)

  datatype Stream = Stream(kind: byte, pid: nat, descriptors: seq<Descriptor>)

  datatype Program = Program(pcrPid: nat, descriptors: seq<Descriptor>, streams: seq<Stream>)

  /** A descriptor's length is one byte. */
  predicate DescriptorOk(d: Descriptor) {
    |d.data| < 0x100
  }

  predicate AllOk(ds: seq<Descriptor>) {
    forall i {:trigger ds[i]} :: 0 <= i < |ds| ==> DescriptorOk(ds[i])
  }

  predicate StreamsOk(es: seq<Stream>) {
    forall i {:trigger es[i]} :: 0 <= i < |es| ==> es[i].pid < 0x2000 && AllOk(es[i].descriptors)
  }

  predicate ProgramOk(p: Program) {
    p.pcrPid < 0x2000 && AllOk(p.descriptors) && StreamsOk(p.streams)
  }

  function DescBytes(d: Descriptor): (b: seq<byte>)
    requires DescriptorOk(d)
    ensures |b| == 2 + |d.data|
  {
    [d.tag, |d.data|] + d.data
  }

  function Descs(ds: seq<Descriptor>): seq<byte>
    requires AllOk(ds)
  {
    if ds == [] then [] else DescBytes(ds[0]) + Descs(ds[1..])
  }

  /** A 13-bit PID under three set bits, and a 12-bit length under four. */
  function PidBytes(pid: nat): (b: seq<byte>)
    ensures |b| == 2
  {
    [pid / 0x100 % 0x20 + 0xE0, pid % 0x100]
  }

  function InfoLength(n: nat): (b: seq<byte>)
    ensures |b| == 2
  {
    [n / 0x100 % 0x10 + 0xF0, n % 0x100]
  }

  function StreamBytes(e: Stream): (b: seq<byte>)
    requires AllOk(e.descriptors)
    ensures |b| == 5 + |Descs(e.descriptors)|
  {
    [e.kind] + PidBytes(e.pid) + InfoLength(|Descs(e.descriptors)|) + Descs(e.descriptors)
  }

  function Streams(es: seq<Stream>): seq<byte>
    requires StreamsOk(es)
  {
    if es == [] then [] else StreamBytes(es[0]) + Streams(es[1..])
  }

  function Payload(p: Program): (b: seq<byte>)
    requires ProgramOk(p)
    ensures |b| == 4 + |Descs(p.descriptors)| + |Streams(p.streams)|
  {
    PidBytes(p.pcrPid) + InfoLength(|Descs(p.descriptors)|) + Descs(p.descriptors) + Streams(p.streams)
  }

  /** The header and everything the table carries fit one section with room for the CRC. */
  predicate FitsOneSection(p: Program)
    requires ProgramOk(p)
  {
    8 + |Payload(p)| <= 1020
  }

  lemma {:induction false} DescsAppend(ds: seq<Descriptor>, d: Descriptor)
    requires AllOk(ds) && DescriptorOk(d)
    ensures AllOk(ds + [d]) && Descs(ds + [d]) == Descs(ds) + DescBytes(d)
  {
    hide DescBytes;
    if ds == [] {
      assert ds + [d] == [d] && Descs([d][1..]) == [];
    } else {
      DescsAppend(ds[1..], d);
      assert (ds + [d])[1..] == ds[1..] + [d];
    }
  }

  lemma {:induction false} StreamsAppend(es: seq<Stream>, e: Stream)
    requires StreamsOk(es) && e.pid < 0x2000 && AllOk(e.descriptors)
    ensures StreamsOk(es + [e]) && Streams(es + [e]) == Streams(es) + StreamBytes(e)
  {
    hide StreamBytes;
    if es == [] {
      assert es + [e] == [e] && Streams([e][1..]) == [];
    } else {
      StreamsAppend(es[1..], e);
      assert (es + [e])[1..] == es[1..] + [e];
    }
  }

  /** What precedes an element is no longer than the whole. */
  lemma {:induction false} DescsPrefix(ds: seq<Descriptor>, i: nat)
    requires AllOk(ds) && i < |ds|
    ensures |Descs(ds[..i])| + |DescBytes(ds[i])| <= |Descs(ds)|
    ensures Descs(ds[..i + 1]) == Descs(ds[..i]) + DescBytes(ds[i])
    decreases |ds| - i
  {
    hide DescBytes;
    assert ds[..i + 1] == ds[..i] + [ds[i]];
    DescsAppend(ds[..i], ds[i]);
    if i + 1 < |ds| {
      DescsPrefix(ds, i + 1);
    } else {
      assert ds[..i + 1] == ds;
    }
  }

  lemma {:induction false} StreamsPrefix(es: seq<Stream>, i: nat)
    requires StreamsOk(es) && i < |es|
    ensures |Streams(es[..i])| + |StreamBytes(es[i])| <= |Streams(es)|
    ensures Streams(es[..i + 1]) == Streams(es[..i]) + StreamBytes(es[i])
    decreases |es| - i
  {
    hide StreamBytes;
    assert es[..i + 1] == es[..i] + [es[i]];
    StreamsAppend(es[..i], es[i]);
    if i + 1 < |es| {
      StreamsPrefix(es, i + 1);
    } else {
      assert es[..i + 1] == es;
    }
  }

  /** The decoder's descriptor loop. */
  function ParseDescs(b: seq<byte>): Option<seq<Descriptor>>
    decreases |b|
  {
    if b == [] then Some([])
    else if |b| < 2 || |b| < 2 + b[1] as int then None
    else
      match ParseDescs(b[2 + b[1] as int..])
      case None => None
      case Some(ds) => Some([Descriptor(b[0], b[2..2 + b[1] as int])] + ds)
  }

  function Pid(b: seq<byte>, at: nat): nat
    requires at + 2 <= |b|
  {
    b[at] as int % 0x20 * 0x100 + b[at + 1] as int
  }

  function Info(b: seq<byte>, at: nat): nat
    requires at + 2 <= |b|
  {
    b[at] as int % 0x10 * 0x100 + b[at + 1] as int
  }

  /** The reserved bits in front of a PID and a length are set. */
  predicate Reserved(b: seq<byte>, at: nat)
    requires at + 4 <= |b|
  {
    b[at] / 0x20 == 7 && b[at + 2] / 0x10 == 0xF
  }

  /** The decoder's stream loop. */
  function ParseStreams(b: seq<byte>): Option<seq<Stream>>
    decreases |b|
  {
    if b == [] then Some([])
    else if |b| < 5 || |b| < 5 + Info(b, 3) || !Reserved(b, 1) then None
    else
      var n := 5 + Info(b, 3);
      match (ParseDescs(b[5..n]), ParseStreams(b[n..]))
      case (Some(ds), Some(es)) => Some([Stream(b[0], Pid(b, 1), ds)] + es)
      case (_, _) => None
  }

  function Parse(b: seq<byte>): Option<Program> {
    if |b| < 4 || |b| < 4 + Info(b, 2) || !Reserved(b, 0) then None
    else
      var n := 4 + Info(b, 2);
      match (ParseDescs(b[4..n]), ParseStreams(b[n..]))
      case (Some(ds), Some(es)) => Some(Program(Pid(b, 0), ds, es))
      case (_, _) => None
  }

  lemma {:induction false} DescsParse(ds: seq<Descriptor>)
    requires AllOk(ds)
    ensures ParseDescs(Descs(ds)) == Some(ds)
  {
    if ds != [] {
      hide ParseDescs, DescriptorOk;
      DescsParse(ds[1..]);
      assert DescriptorOk(ds[0]);
      DescParses(ds[0], Descs(ds[1..]), ds[1..]);
      assert ds == [ds[0]] + ds[1..];
    }
  }

  /** The decoder takes one descriptor off the front. */
  lemma DescParses(d: Descriptor, rest: seq<byte>, ds: seq<Descriptor>)
    requires DescriptorOk(d) && ParseDescs(rest) == Some(ds)
    ensures ParseDescs(DescBytes(d) + rest) == Some([d] + ds)
  {
    var b := DescBytes(d) + rest;
    assert b[0] == d.tag && b[1] == |d.data|;
    assert b[2..2 + |d.data|] == d.data && b[2 + |d.data|..] == rest;
  }

  lemma FieldsParse(pid: nat, n: nat)
    requires pid < 0x2000 && n < 0x1000
    ensures Pid(PidBytes(pid), 0) == pid && Info(InfoLength(n), 0) == n
    ensures Reserved(PidBytes(pid) + InfoLength(n), 0)
  {
    ModAddMultiple(pid / 0x100, 0x20, 7);
    ModAddMultiple(n / 0x100, 0x10, 15);
  }

  lemma {:induction false} StreamsParse(es: seq<Stream>)
    requires StreamsOk(es) && |Streams(es)| < 0x1000
    ensures ParseStreams(Streams(es)) == Some(es)
  {
    if es != [] {
      hide StreamBytes, ParseDescs, ParseStreams, Descs, AllOk;
      StreamsParse(es[1..]);
      StreamParses(es[0], Streams(es[1..]), es[1..]);
      assert es == [es[0]] + es[1..];
    }
  }

  /** The decoder takes one stream off the front. */
  lemma StreamParses(e: Stream, rest: seq<byte>, es: seq<Stream>)
    requires e.pid < 0x2000 && AllOk(e.descriptors) && |Descs(e.descriptors)| < 0x1000 && ParseStreams(rest) == Some(es)
    ensures ParseStreams(StreamBytes(e) + rest) == Some([e] + es)
  {
    hide PidBytes, InfoLength, ParseDescs, Descs, AllOk, Pid, Info;
    var d, b := Descs(e.descriptors), StreamBytes(e) + rest;
    DescsParse(e.descriptors);
    StreamFields(e, rest);
    assert b[5..5 + |d|] == d && b[5 + |d|..] == rest;
  }

  lemma StreamFields(e: Stream, rest: seq<byte>)
    requires e.pid < 0x2000 && AllOk(e.descriptors) && |Descs(e.descriptors)| < 0x1000
    ensures var b := StreamBytes(e) + rest;
            |b| >= 5 && b[0] == e.kind && Pid(b, 1) == e.pid && Info(b, 3) == |Descs(e.descriptors)| && Reserved(b, 1)
  {
    hide PidBytes, InfoLength, Descs, AllOk;
    var b := StreamBytes(e) + rest;
    FieldsParse(e.pid, |Descs(e.descriptors)|);
    var pb, ib := PidBytes(e.pid), InfoLength(|Descs(e.descriptors)|);
    assert b[1] == pb[0] && b[2] == pb[1] && b[3] == ib[0] && b[4] == ib[1];
    assert (pb + ib)[0] == pb[0] && (pb + ib)[2] == ib[0];
  }

  /** The payload decodes to the program: PCR PID, program descriptors, and every stream with its descriptors, in order. */
  lemma PayloadParses(p: Program)
    requires ProgramOk(p) && |Payload(p)| < 0x1000
    ensures Parse(Payload(p)) == Some(p)
  {
    hide PidBytes, InfoLength, ParseDescs, ParseStreams, Descs, Streams, AllOk, StreamsOk;
    var b, d, s := Payload(p), Descs(p.descriptors), Streams(p.streams);
    DescsParse(p.descriptors);
    StreamsParse(p.streams);
    FieldsParse(p.pcrPid, |d|);
    var pb, ib := PidBytes(p.pcrPid), InfoLength(|d|);
    assert b[0] == pb[0] && b[1] == pb[1] && b[2] == ib[0] && b[3] == ib[1];
    assert (pb + ib)[0] == pb[0] && (pb + ib)[2] == ib[0];
    assert Pid(b, 0) == p.pcrPid && Info(b, 2) == |d|;
    assert b[4..4 + |d|] == d && b[4 + |d|..] == s;
  }

  /** The section of a program. */
  function PmtSection(number: nat, version: nat, current: bool, p: Program): seq<byte>
    requires ProgramOk(p)
  {
    Protected(Header(2, false, 9 + |Payload(p)|, number, version, current, 0, 0) + Payload(p))
  }

  /** Decoding the one generated section recovers everything; its length field is exact and its CRC checks. */
  lemma PmtRoundTrip(number: nat, version: nat, current: bool, p: Program)
    requires number < 0x1_0000 && version < 0x20 && ProgramOk(p) && FitsOneSection(p)
    ensures var s := PmtSection(number, version, current, p);
            && SectionOk(s, 2) && SectionNumber(s) == LastSection(s) == 0
            && Extension(s) == number && Version(s) == version && CurrentNext(s) == current
            && Parse(PayloadOf(s)) == Some(p) && s[1] / 0x40 % 2 == 0
  {
    hide Header, Protected, SectionOk, Extension, Version, CurrentNext, SectionNumber, LastSection, PayloadOf, Payload, Parse;
    HeaderDecodes(2, false, number, version, current, 0, 0, Payload(p));
    PayloadParses(p);
    assert SectionOk(PmtSection(number, version, current, p), 2);
  }

  /** Appends descriptors; they never overflow the section, so no new one is started. */
  method AddDescriptors(s: Section, ds: seq<Descriptor>)
    requires s.data.Length == 1024 && AllOk(ds) && s.end + |Descs(ds)| <= 1020
    modifies s`end, s`length, s.data
    ensures s.end == old(s.end) + |Descs(ds)| && s.length == old(s.length) + |Descs(ds)|
    ensures s.data[..s.end] == old(s.data[..s.end]) + Descs(ds)
  {
    hide DescBytes;
    ghost var d := s.data[..s.end];
    var i := 0;
    while i < |ds|
      invariant 0 <= i <= |ds|
      invariant s.end == old(s.end) + |Descs(ds[..i])| && s.length == old(s.length) + |Descs(ds[..i])|
      invariant s.end <= 1020 && s.data[..s.end] == d + Descs(ds[..i])
    {
      DescsPrefix(ds, i);
      if s.end + |ds[i].data| > 1018 { assert false; }
      s.Append(DescBytes(ds[i]));
      i := i + 1;
    }
    assert ds[..|ds|] == ds;
  }

  /** The generator's look ahead over a stream's descriptors: it sees all of them, so no new section is started. */
  method ScanDescriptors(start: nat, ds: seq<Descriptor>) returns (left: bool, length: nat)
    requires AllOk(ds) && start + 5 + |Descs(ds)| <= 1020
    ensures !left && length == 5 + |Descs(ds)|
  {
    hide DescBytes;
    var i := 0;
    length := 5;
    while i < |ds| && start + length <= 1020
      invariant 0 <= i <= |ds| && length == 5 + |Descs(ds[..i])|
      invariant length <= 5 + |Descs(ds)|
    {
      DescsPrefix(ds, i);
      length := length + |ds[i].data| + 2;
      i := i + 1;
    }
    assert ds[..|ds|] == ds;
    left := i < |ds|;
  }

  /** Appends one stream with its descriptors, and fills in its info length afterwards. */
  method AddStream(s: Section, e: Stream)
    requires s.data.Length == 1024 && AllOk(e.descriptors) && 12 <= s.end && s.end + |StreamBytes(e)| <= 1020
    modifies s`end, s`length, s.data
    ensures s.end == old(s.end) + |StreamBytes(e)| && s.length == old(s.length) + |StreamBytes(e)|
    ensures s.data[..s.end] == old(s.data[..s.end]) + StreamBytes(e)
  {
    hide Descs, PidBytes, InfoLength, Patch;
    var start := s.end;
    ghost var d := s.data[..s.end];
    var left, length := ScanDescriptors(start, e.descriptors);
    if left { assert false; }
    s.Append([e.kind] + PidBytes(e.pid) + [0, 0]);
    AddDescriptors(s, e.descriptors);
    length := s.end - start - 5;
    ghost var d1 := s.data[..s.end];
    s.Store(start + 3, InfoLength(length));
    InfoInPlace(d, d1, s.data[..s.end], [e.kind] + PidBytes(e.pid), InfoLength(length), Descs(e.descriptors));
  }

  lemma InfoInPlace(d: seq<byte>, d1: seq<byte>, d2: seq<byte>, front: seq<byte>, info: seq<byte>, rest: seq<byte>)
    requires |front| == 3 && |info| == 2 && d1 == d + (front + [0, 0]) + rest
    requires d2 == Patch(d1, |d| + 3, info)
    ensures d2 == d + (front + info + rest)
  {
  }

  lemma PatchAt(m: seq<byte>, at: nat, b: seq<byte>)
    requires at + |b| <= |m|
    ensures Patch(m, at, b)[at..at + |b|] == b
  {
  }

  lemma FrontInPlace(h: seq<byte>, d1: seq<byte>, d2: seq<byte>, pid: seq<byte>, info: seq<byte>, rest: seq<byte>)
    requires |h| == 12 && |pid| == 2 && |info| == 2 && h[8..10] == pid && d1 == h + rest && d2 == Patch(d1, 10, info)
    ensures |d2| == |d1| && d2[8..] == pid + info + rest
  {
  }

  lemma SplitFront(d: seq<byte>, front: seq<byte>, rest: seq<byte>)
    requires |front| >= 8 && d == front + rest
    ensures d[8..] == front[8..] + rest
  {
  }

  /** Appends all streams. */
  method AddStreams(s: Section, es: seq<Stream>)
    requires s.data.Length == 1024 && StreamsOk(es) && 12 <= s.end && s.end + |Streams(es)| <= 1020
    modifies s`end, s`length, s.data
    ensures s.end == old(s.end) + |Streams(es)| && s.length == old(s.length) + |Streams(es)|
    ensures s.data[..s.end] == old(s.data[..s.end]) + Streams(es)
  {
    hide StreamBytes;
    ghost var d := s.data[..s.end];
    var i := 0;
    while i < |es|
      invariant 0 <= i <= |es|
      invariant s.end == old(s.end) + |Streams(es[..i])| && s.length == old(s.length) + |Streams(es[..i])|
      invariant 12 <= s.end <= 1020 && s.data[..s.end] == d + Streams(es[..i])
    {
      StreamsPrefix(es, i);
      AddStream(s, es[i]);
      i := i + 1;
    }
    assert es[..|es|] == es;
  }

  /** dvbpsi_pmt_sections_generate, for a table that fits one section. */
  method SectionsGenerate(number: nat, version: nat, current: bool, p: Program) returns (ss: seq<Section>)
    requires ProgramOk(p) && FitsOneSection(p)
    ensures |ss| == 1 && fresh(ss) && ss[0].data.Length == 1024 && ss[0].end <= 1020
    ensures ss[0].data[..ss[0].end + 4] == PmtSection(number, version, current, p)
  {
    hide Descs, Streams, StreamBytes, PidBytes, InfoLength, Patch, Header, Protected, Checks, Crc.Divide, Crc.Complemented;
    var s := new Section(2, number, version, current, 0, 12);
    PatchAt(s.data[..12], 8, PidBytes(p.pcrPid));
    s.Store(8, PidBytes(p.pcrPid));
    ghost var h := s.data[..12];
    AddDescriptors(s, p.descriptors);
    var n := s.end - 12;
    ghost var d1 := s.data[..s.end];
    s.Store(10, InfoLength(n));
    ghost var front := s.data[..s.end];
    FrontInPlace(h, d1, front, PidBytes(p.pcrPid), InfoLength(n), Descs(p.descriptors));
    AddStreams(s, p.streams);
    assert s.data[8..s.end] == Payload(p) by { SplitFront(s.data[..s.end], front, Streams(p.streams)); }
    s.lastNumber := s.number;
    s.Build();
    ss := [s];
  }
}
