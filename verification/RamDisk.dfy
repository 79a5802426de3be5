/** The block device of src/ramdisk.cpp: an array of sectors, moved in whole sectors. */
module RamDisk {
  import opened Bytes

  datatype DResult = ResOk | ResParErr

  /** A 32-bit sum, as the source's words have it. */
  function W32(n: nat): (r: nat)
    ensures n < 0x1_0000_0000 ==> r == n
  {
    n % 0x1_0000_0000
  }

  /** The bounds check of both transfers, on a disk of `size` sectors. */
  predicate Refused(size: nat, sector: nat, count: nat) {
    W32(sector + count) > size
  }

  /** The check refuses exactly the transfers that leave the disk if and only if its sum does not wrap. */
  lemma RefusedIff(size: nat, sector: nat, count: nat)
    requires 256 <= size <= 0xFFFF_FFFF && sector <= 0xFFFF_FFFF && count < 256
    ensures (Refused(size, sector, count) <==> sector + count > size) <==> sector + count < 0x1_0000_0000
  {
    if sector + count >= 0x1_0000_0000 {
      assert W32(sector + count) == sector + count - 0x1_0000_0000 < 256;
    }
  }

  /** Copies `count` sectors out of the disk, or refuses a transfer that leaves it. */
  method DiskRead(mem: array<Sector>, sector: nat, count: nat) returns (res: DResult, data: seq<Sector>)
    requires sector + count < 0x1_0000_0000 || Refused(mem.Length, sector, count)
    ensures res == ResOk <==> sector + count <= mem.Length
    ensures res == ResOk ==> data == mem[sector..sector + count]
  {
    if Refused(mem.Length, sector, count) {
      return ResParErr, [];
    }
    return ResOk, mem[sector..sector + count];
  }

  /** Copies `buff` onto the disk; a refused transfer changes nothing. */
  method DiskWrite(mem: array<Sector>, buff: seq<Sector>, sector: nat) returns (res: DResult)
    requires sector + |buff| < 0x1_0000_0000 || Refused(mem.Length, sector, |buff|)
    modifies mem
    ensures res == ResOk <==> sector + |buff| <= mem.Length
    ensures mem[..] == if res == ResOk then Overwrite(old(mem[..]), sector, buff) else old(mem[..])
  {
    if Refused(mem.Length, sector, |buff|) {
      return ResParErr;
    }
    forall i | 0 <= i < |buff| {
      mem[sector + i] := buff[i];
    }
    return ResOk;
  }

  /** `m` with the sectors from `at` on replaced by `b`. */
  function Overwrite(m: seq<Sector>, at: nat, b: seq<Sector>): (r: seq<Sector>)
    requires at + |b| <= |m|
    ensures |r| == |m|
    ensures |b| == 1 ==> r == m[at := b[0]]
  {
    m[..at] + b + m[at + |b|..]
  }

  /** A later read finds what was written, and elsewhere what was there before. */
  lemma ReadBack(m: seq<Sector>, at: nat, b: seq<Sector>, from: nat, count: nat)
    requires at + |b| <= |m| && from + count <= |m|
    ensures from == at && count == |b| ==> Overwrite(m, at, b)[from..from + count] == b
    ensures from + count <= at || at + |b| <= from ==> Overwrite(m, at, b)[from..from + count] == m[from..from + count]
  {
    var r := Overwrite(m, at, b);
    if from == at && count == |b| {
      assert r[at..at + |b|] == b;
    }
    if from + count <= at || at + |b| <= from {
      assert forall k :: from <= k < from + count ==> r[k] == m[k];
    }
  }
}
