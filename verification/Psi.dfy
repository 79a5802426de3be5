/** PSI sections as src/dvbpsi.cpp builds them: header, payload and CRC in one byte array. */
module Psi {
  import opened Arith
  import opened Bytes
  import opened Crc

  const CRC_START: bv32 := 0xffff_ffff

  /** The first eight bytes of a section with the syntax indicator set. */
  function Header(tableId: byte, priv: bool, length: nat, extension: nat, version: nat, current: bool, number: nat,
                  last: nat): (h: seq<byte>)
    ensures |h| == 8
  {
    [tableId, 0x80 + (if priv then 0x40 else 0) + 0x30 + length / 0x100 % 0x10, length % 0x100,
     extension / 0x100 % 0x100, extension % 0x100, 0xC0 + version % 0x20 * 2 + (if current then 1 else 0),
     number % 0x100, last % 0x100]
  }

  /** A message with its CRC behind it. */
  function Protected(m: seq<byte>): (p: seq<byte>)
    ensures |p| == |m| + 4
  {
    m + CrcBytes(Running(CRC_START, m))
  }

  /** A section passes the CRC check of its decoder. */
  predicate Checks(s: seq<byte>) {
    Running(CRC_START, s) == 0
  }

  /** The stored CRC is the remainder of Annex A: of the message with its first 32 bits turned over, from a zero register. */
  lemma ProtectedIs(m: seq<byte>)
    requires |m| >= 4
    ensures Protected(m) == m + CrcBytes(Divide(0, Complemented(m)))
  {
    hide Running, Divide, Complemented, CrcBytes;
    OnesDivide(m);
  }

  /** The check passes exactly when the remainder of Annex A over section and CRC is zero. */
  lemma ChecksIs(s: seq<byte>)
    requires |s| >= 4
    ensures Checks(s) <==> Divide(0, Complemented(s)) == 0
  {
    hide Running, Divide, Complemented;
    OnesDivide(s);
  }

  lemma ProtectedChecks(m: seq<byte>)
    ensures Checks(Protected(m))
  {
    hide Running, CrcBytes;
    OwnCrcIsZero(CRC_START, m);
  }

  /** The section of a table with the one program 1 at PID 0x100, without its CRC. */
  function OneProgram(): seq<byte> {
    [0x00, 0xB0, 0x0D, 0x00, 0x01, 0xC3, 0x00, 0x00, 0x00, 0x01, 0xE1, 0x00]
  }

  lemma OctetsAre()
    ensures Reg(0) == 0 && Reg(1) == 1 && Reg(0x0D) == 0x0D && Reg(0xB0) == 0xB0 && Reg(0xC3) == 0xC3 && Reg(0xE1) == 0xE1
  {
  }

  lemma FirstUpdates()
    ensures Update(0xffff_ffff, 0x00) == 0x4e08_bfb4 && Update(0x4e08_bfb4, 0xB0) == 0xbd89_e903
    ensures Update(0xbd89_e903, 0x0D) == 0x34d7_8e7e && Update(0x34d7_8e7e, 0x00) == 0x10b8_654c
    ensures Update(0x10b8_654c, 0x01) == 0xf0b5_8ac7 && Update(0xf0b5_8ac7, 0xC3) == 0x6cfb_8c49
  {
    OctetsAre();
    hide Reg;
  }

  lemma LastUpdates()
    ensures Update(0x6cfb_8c49, 0x00) == 0x6225_14f3 && Update(0x6225_14f3, 0x00) == 0x8033_0ef9
    ensures Update(0x8033_0ef9, 0x00) == 0x5a02_19ee && Update(0x5a02_19ee, 0x01) == 0x51c5_8e66
    ensures Update(0x51c5_8e66, 0xE1) == 0x78b0_eb7e && Update(0x78b0_eb7e, 0x00) == 0x7657_8e5f
  {
    OctetsAre();
    hide Reg;
  }

  lemma OneUpdate(c: bv32, m: seq<byte>, i: nat, c': bv32)
    requires i < |m| && Update(c, m[i]) == c'
    ensures Running(c, m[i..]) == Running(c', m[i + 1..])
  {
    hide Update, Running;
    RunningFirst(c, m[i..]);
    assert m[i..][1..] == m[i + 1..];
  }

  lemma StoredAre()
    ensures CrcBytes(0x7657_8e5f) == [0x76, 0x57, 0x8E, 0x5F]
  {
  }

  lemma FirstHalf()
    ensures Running(0xffff_ffff, OneProgram()) == Running(0x6cfb_8c49, OneProgram()[6..])
  {
    hide Update, Running;
    FirstUpdates();
    var m := OneProgram();
    OneUpdate(0xffff_ffff, m, 0, 0x4e08_bfb4);
    OneUpdate(0x4e08_bfb4, m, 1, 0xbd89_e903);
    OneUpdate(0xbd89_e903, m, 2, 0x34d7_8e7e);
    OneUpdate(0x34d7_8e7e, m, 3, 0x10b8_654c);
    OneUpdate(0x10b8_654c, m, 4, 0xf0b5_8ac7);
    OneUpdate(0xf0b5_8ac7, m, 5, 0x6cfb_8c49);
    assert m[0..] == m;
  }

  lemma SecondHalf()
    ensures Running(0x6cfb_8c49, OneProgram()[6..]) == 0x7657_8e5f
  {
    hide Update, Running;
    LastUpdates();
    var m := OneProgram();
    OneUpdate(0x6cfb_8c49, m, 6, 0x6225_14f3);
    OneUpdate(0x6225_14f3, m, 7, 0x8033_0ef9);
    OneUpdate(0x8033_0ef9, m, 8, 0x5a02_19ee);
    OneUpdate(0x5a02_19ee, m, 9, 0x51c5_8e66);
    OneUpdate(0x51c5_8e66, m, 10, 0x78b0_eb7e);
    OneUpdate(0x78b0_eb7e, m, 11, 0x7657_8e5f);
    RunningNothing(0x7657_8e5f, m[12..]);
  }

  /** Its CRC, as every receiver expects it. */
  lemma KnownCrc()
    ensures Protected(OneProgram()) == OneProgram() + [0x76, 0x57, 0x8E, 0x5F]
  {
    hide OneProgram, Running, CrcBytes;
    FirstHalf();
    SecondHalf();
    StoredAre();
  }

  /** The section_length field of ISO/IEC 13818-1, 2.4.4.3 and 2.4.4.8: the bytes that follow it. */
  function SectionLength(s: seq<byte>): nat
    requires |s| >= 3
  {
    s[1] as int % 0x10 * 0x100 + s[2] as int
  }

  /** A well-formed long section: the reserved bits are set, its length field matches its size, it is not longer than 1024
      bytes, and its CRC checks. */
  predicate SectionOk(s: seq<byte>, tableId: byte) {
    && 12 <= |s| <= 1024
    && s[0] == tableId && s[1] / 0x80 == 1 && s[1] / 0x10 % 4 == 3 && s[5] / 0x40 == 3
    && SectionLength(s) == |s| - 3
    && Checks(s)
  }

  function Extension(s: seq<byte>): nat
    requires |s| >= 12
  {
    s[3] as int * 0x100 + s[4] as int
  }

  function Version(s: seq<byte>): nat
    requires |s| >= 12
  {
    s[5] / 2 % 0x20
  }

  predicate CurrentNext(s: seq<byte>)
    requires |s| >= 12
  {
    s[5] % 2 == 1
  }

  function SectionNumber(s: seq<byte>): nat
    requires |s| >= 12
  {
    s[6]
  }

  function LastSection(s: seq<byte>): nat
    requires |s| >= 12
  {
    s[7]
  }

  function PayloadOf(s: seq<byte>): seq<byte>
    requires |s| >= 12
  {
    s[8..|s| - 4]
  }

  /** Every field of a built section decodes to what was built in. */
  lemma HeaderDecodes(tableId: byte, priv: bool, extension: nat, version: nat, current: bool, number: nat, last: nat,
                      payload: seq<byte>)
    requires |payload| <= 1012 && extension < 0x1_0000 && version < 0x20 && number < 0x100 && last < 0x100
    ensures var s := Protected(Header(tableId, priv, 9 + |payload|, extension, version, current, number, last) + payload);
            && SectionOk(s, tableId) && Extension(s) == extension && Version(s) == version && CurrentNext(s) == current
            && SectionNumber(s) == number && LastSection(s) == last && PayloadOf(s) == payload
            && (s[1] / 0x40 % 2 == 1 <==> priv)
  {
    hide Checks;
    var h := Header(tableId, priv, 9 + |payload|, extension, version, current, number, last);
    var m := h + payload;
    hide Protected;
    assert |Protected(m)| == |m| + 4;
    ProtectedChecks(m);
    ProtectedFront(m);
    var s := Protected(m);
    assert s[..|s| - 4] == m;
    FieldsDecode(h, tableId, priv, 9 + |payload|, extension, version, current, number, last);
    assert forall i :: 0 <= i < 8 ==> s[i] == s[..|s| - 4][i] == h[i];
    assert PayloadOf(s) == m[8..] == payload;
  }

  lemma ProtectedFront(m: seq<byte>)
    ensures Protected(m)[..|m|] == m
  {
  }

  lemma FieldsDecode(h: seq<byte>, tableId: byte, priv: bool, length: nat, extension: nat, version: nat, current: bool,
                     number: nat, last: nat)
    requires length < 0x1000 && extension < 0x1_0000 && version < 0x20 && number < 0x100 && last < 0x100
    requires h == Header(tableId, priv, length, extension, version, current, number, last)
    ensures h[0] == tableId && h[1] / 0x80 == 1 && h[1] as int % 0x10 * 0x100 + h[2] as int == length
    ensures h[3] as int * 0x100 + h[4] as int == extension && h[5] / 2 % 0x20 == version && (h[5] % 2 == 1) == current
    ensures h[6] == number && h[7] == last
    ensures h[1] / 0x10 % 4 == 3 && (h[1] / 0x40 % 2 == 1 <==> priv) && h[5] / 0x40 == 3
  {
    LengthDecodes(length, if priv then 0xF0 else 0xB0);
    VersionDecodes(version, if current then 1 else 0);
  }

  lemma LengthDecodes(length: nat, flags: nat)
    requires length < 0x1000 && (flags == 0xB0 || flags == 0xF0)
    ensures (flags + length / 0x100 % 0x10) / 0x80 == 1
    ensures (flags + length / 0x100 % 0x10) % 0x10 * 0x100 + length % 0x100 == length
    ensures (flags + length / 0x100 % 0x10) / 0x10 % 4 == 3
    ensures (flags + length / 0x100 % 0x10) / 0x40 % 2 == 1 <==> flags == 0xF0
  {
    var d := length / 0x100;
    ModAddMultiple(d, 0x10, flags / 0x10);
    LengthBits(flags + d);
  }

  lemma LengthBits(x: nat)
    requires 0xB0 <= x < 0xC0 || 0xF0 <= x < 0x100
    ensures x / 0x80 == 1 && x / 0x10 % 4 == 3 && (x / 0x40 % 2 == 1 <==> x >= 0xF0)
  {
    if x < 0xC0 {
      assert x / 0x10 == 11 && x / 0x40 == 2;
    } else {
      assert x / 0x10 == 15 && x / 0x40 == 3;
    }
  }

  lemma VersionDecodes(v: nat, c: nat)
    requires v < 0x20 && c < 2
    ensures (0xC0 + v % 0x20 * 2 + c) / 2 % 0x20 == v && (0xC0 + v % 0x20 * 2 + c) % 2 == c
    ensures (0xC0 + v % 0x20 * 2 + c) / 0x40 == 3
  {
    DivModUnique(0xC0 + v * 2 + c, 2, 0x60 + v, c);
    ModAddMultiple(v, 0x20, 3);
  }

  /** The section structure of the source.  `data` holds the bytes, `end` is where the payload ends. */
  class Section {
    const tableId: byte
    const extension: nat
    const version: nat
    const currentNext: bool
    const number: nat
    const data: array<byte>
    var length: nat
    var lastNumber: nat
    var end: nat
    var crc: bv32

    /** A new, zeroed section of 1024 bytes whose payload starts behind `start` bytes. */
    constructor (tableId: byte, extension: nat, version: nat, currentNext: bool, number: nat, start: nat)
      requires 8 <= start <= 1020
      ensures fresh(data) && data.Length == 1024 && end == start && length == start + 1
      ensures this.tableId == tableId && this.extension == extension && this.version == version
      ensures this.currentNext == currentNext && this.number == number
    {
      this.tableId, this.extension, this.version, this.currentNext, this.number := tableId, extension, version,
          currentNext, number;
      data := new byte[1024](_ => 0);
      end, length, lastNumber, crc := start, start + 1, 0, 0;
    }

    /** Appends payload bytes; `size` is how much the source adds to the length. */
    method Append(b: seq<byte>)
      requires data.Length == 1024 && end + |b| <= 1024
      modifies this`end, this`length, data
      ensures end == old(end) + |b| && length == old(length) + |b|
      ensures data[..end] == old(data[..end]) + b
    {
      forall i | 0 <= i < |b| {
        data[end + i] := b[i];
      }
      end := end + |b|;
      length := length + |b|;
    }

    /** Overwrites bytes in front of the payload's end. */
    method Store(at: nat, b: seq<byte>)
      requires data.Length == 1024 && at + |b| <= end <= 1024
      modifies data
      ensures data[..end] == Patch(old(data[..end]), at, b)
    {
      forall i | 0 <= i < |b| {
        data[at + i] := b[i];
      }
    }

    /** Runs the table-driven loop over the section and stores the register behind it. */
    method CalculateCrc32()
      requires data.Length == 1024 && end <= 1020
      modifies this`crc, data
      ensures data[..end + 4] == Protected(old(data[..end]))
      ensures end >= 4 ==> data[..end + 4] == old(data[..end]) + CrcBytes(Divide(0, Complemented(old(data[..end]))))
    {
      hide Update, CrcBytes, Running, Divide, Complemented;
      var at := 0;
      crc := CRC_START;
      RunningNothing(CRC_START, data[..0]);
      while at < end
        invariant 0 <= at <= end && crc == Running(CRC_START, data[..at]) && data[..] == old(data[..])
      {
        RunningAppend(CRC_START, data[..at], data[at]);
        crc := Update(crc, data[at]);
        assert data[..at + 1] == data[..at] + [data[at]];
        at := at + 1;
      }
      assert data[..end] == old(data[..end]);
      var b := CrcBytes(crc);
      data[end], data[end + 1], data[end + 2], data[end + 3] := b[0], b[1], b[2], b[3];
      assert data[..end] == old(data[..end]);
      assert data[..end + 4] == data[..end] + b;
      if end >= 4 { ProtectedIs(data[..end]); }
    }

    /** The same loop over the section and its CRC. */
    method ValidSection() returns (ok: bool)
      requires data.Length == 1024 && end <= 1020
      ensures ok == Checks(data[..end + 4])
      ensures ok <==> Divide(0, Complemented(data[..end + 4])) == 0
    {
      hide Update, Running, Divide, Complemented;
      var at, c := 0, CRC_START;
      RunningNothing(CRC_START, data[..0]);
      while at < end + 4
        invariant 0 <= at <= end + 4 && c == Running(CRC_START, data[..at])
      {
        RunningAppend(CRC_START, data[..at], data[at]);
        c := Update(c, data[at]);
        assert data[..at + 1] == data[..at] + [data[at]];
        at := at + 1;
      }
      ChecksIs(data[..end + 4]);
      return c == 0;
    }

    /** Fills in the header and the CRC; the section then passes its own check. */
    method Build()
      requires data.Length == 1024 && 8 <= end <= 1020
      modifies this`crc, data
      ensures data[..end + 4] ==
              Protected(Header(tableId, false, length, extension, version, currentNext, number, lastNumber) + old(data[8..end]))
      ensures Checks(data[..end + 4]) && Divide(0, Complemented(data[..end + 4])) == 0
    {
      hide Update, Running, CrcBytes, Checks, Protected, Patch, Divide, Complemented;
      ghost var h := Header(tableId, false, length, extension, version, currentNext, number, lastNumber);
      ghost var d := data[..end];
      Store(0, [tableId, 0x80 + 0x30 + length / 0x100 % 0x10, length % 0x100]);
      ghost var d1 := data[..end];
      Store(3, [extension / 0x100 % 0x100, extension % 0x100,
          0xC0 + version % 0x20 * 2 + (if currentNext then 1 else 0), number % 0x100, lastNumber % 0x100]);
      assert h[..3] == [tableId, 0x80 + 0x30 + length / 0x100 % 0x10, length % 0x100];
      assert h[3..] == [extension / 0x100 % 0x100, extension % 0x100,
             0xC0 + version % 0x20 * 2 + (if currentNext then 1 else 0), number % 0x100, lastNumber % 0x100];
      HeaderInPlace(d, d1, data[..end], h);
      ProtectedChecks(data[..end]);
      CalculateCrc32();
      var ok := ValidSection();
      if !ok { assert false; }
    }
  }

  lemma HeaderInPlace(d: seq<byte>, d1: seq<byte>, d2: seq<byte>, h: seq<byte>)
    requires |d| >= 8 && |h| == 8
    requires d1 == Patch(d, 0, h[..3]) && d2 == Patch(d1, 3, h[3..])
    ensures d2 == h + d[8..]
  {
  }
}
