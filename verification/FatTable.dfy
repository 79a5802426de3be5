/** Packed FAT12/16/32 entries as a plain sequence of numbers. */
module FatTable {
  import opened Arith
  import opened Bytes
  import opened Geometry

  /** Offset of the first byte that holds part of entry `c`. */
  function EntryOffset(t: FatType, c: nat): nat {
    match t
    case Fat12 => c + c / 2
    case Fat16 => c * 2
    case Fat32 => c * 4
  }

  function EntryBytes(t: FatType): nat {
    match t
    case Fat12 => 2
    case Fat16 => 2
    case Fat32 => 4
  }

  /** A FAT12 entry is one whole byte and one nibble of its neighbour's. */
  function Unpack12(odd: bool, lo: byte, hi: byte): nat {
    var wc := lo as int + 0x100 * hi as int;
    if odd then wc / 0x10 else wc % 0x1000
  }

  /** Entry `c` of the FAT held in `m`, at entry width. */
  function Entry(t: FatType, m: seq<byte>, c: nat): nat
    requires EntryOffset(t, c) + EntryBytes(t) <= |m|
  {
    var at := EntryOffset(t, c);
    match t
    case Fat12 => Unpack12(c % 2 == 1, m[at], m[at + 1])
    case Fat16 => LdWord(m, at)
    case Fat32 => LdDword(m, at) % 0x1000_0000
  }

  /** What a stored value reads back as. */
  function Width(t: FatType, v: nat): nat {
    match t
    case Fat12 => v % 0x1000
    case Fat16 => v % 0x1_0000
    case Fat32 => v % 0x1000_0000
  }

  function Low12(odd: bool, cur: byte, v: nat): byte {
    if odd then cur % 0x10 + v % 0x10 * 0x10 else v % 0x100
  }

  function High12(odd: bool, cur: byte, v: nat): byte {
    if odd then v / 0x10 % 0x100 else cur / 0x10 * 0x10 + v / 0x100 % 0x10
  }

  /** The bytes at entry `c`'s offset after storing `v`: neighbours keep their nibbles, FAT32 its top four bits. */
  function EntryPatch(t: FatType, m: seq<byte>, c: nat, v: nat): (b: seq<byte>)
    requires EntryOffset(t, c) + EntryBytes(t) <= |m|
    ensures |b| == EntryBytes(t)
  {
    var at := EntryOffset(t, c);
    match t
    case Fat12 => [Low12(c % 2 == 1, m[at], v), High12(c % 2 == 1, m[at + 1], v)]
    case Fat16 => WordBytes(v)
    case Fat32 => DwordBytes(v % 0x1000_0000 + LdDword(m, at) / 0x1000_0000 * 0x1000_0000)
  }

  /** An odd entry is a high nibble and the whole next byte. */
  lemma UnpackOdd(lo: byte, hi: byte)
    ensures Unpack12(true, lo, hi) == lo as int / 0x10 + 0x10 * hi as int
  {
    ModAddMultiple(lo, 0x10, 0x10 * hi as int);
  }

  /** An even entry is a whole byte and the low nibble of the next. */
  lemma UnpackEven(lo: byte, hi: byte)
    ensures Unpack12(false, lo, hi) == lo as int + 0x100 * (hi as int % 0x10)
  {
    var h: int := hi;
    assert lo as int + 0x100 * h == (h / 0x10) * 0x1000 + (lo as int + 0x100 * (h % 0x10));
    DivModUnique(lo as int + 0x100 * h, 0x1000, h / 0x10, lo as int + 0x100 * (h % 0x10));
  }

  /** Storing an odd entry: it reads back, and the low nibble of its first byte is kept. */
  lemma StoreOdd(lo: byte, hi: byte, v: nat)
    ensures Low12(true, lo, v) % 0x10 == lo % 0x10
    ensures Unpack12(true, Low12(true, lo, v), High12(true, hi, v)) == v % 0x1000
  {
    DivModUnique(Low12(true, lo, v), 0x10, v % 0x10, lo % 0x10);
    UnpackOdd(Low12(true, lo, v), High12(true, hi, v));
    TwoDigits(v, 0x10, 0x100);
  }

  /** Storing an even entry: it reads back, and the high nibble of its second byte is kept. */
  lemma StoreEven(lo: byte, hi: byte, v: nat)
    ensures High12(false, hi, v) / 0x10 == hi / 0x10
    ensures Unpack12(false, Low12(false, lo, v), High12(false, hi, v)) == v % 0x1000
  {
    DivModUnique(High12(false, hi, v), 0x10, hi / 0x10, v / 0x100 % 0x10);
    UnpackEven(Low12(false, lo, v), High12(false, hi, v));
    TwoDigits(v, 0x100, 0x10);
  }

  lemma SameBytesSameEntry(t: FatType, m: seq<byte>, m': seq<byte>, d: nat)
    requires |m| == |m'| && EntryOffset(t, d) + EntryBytes(t) <= |m|
    requires forall k :: EntryOffset(t, d) <= k < EntryOffset(t, d) + EntryBytes(t) ==> m'[k] == m[k]
    ensures Entry(t, m', d) == Entry(t, m, d)
  {
    hide EntryOffset, Unpack12;
    var at := EntryOffset(t, d);
    assert m'[at] == m[at] && m'[at + 1] == m[at + 1];
    assert t == Fat32 ==> m'[at + 2] == m[at + 2] && m'[at + 3] == m[at + 3];
  }

  predicate ShareByte(t: FatType, c: nat, d: nat) {
    t == Fat12 && ((c % 2 == 0 && d == c + 1) || (d % 2 == 0 && c == d + 1))
  }

  /** Entries that do not share a FAT12 byte lie apart. */
  lemma EntriesApart(t: FatType, c: nat, d: nat)
    requires c < d && !ShareByte(t, c, d)
    ensures EntryOffset(t, c) + EntryBytes(t) <= EntryOffset(t, d)
  {
    if t == Fat12 {
      if d == c + 1 {
        DivModUnique(c, 2, c / 2, 1);
        DivModUnique(d, 2, c / 2 + 1, 0);
      } else {
        ModAddMultiple(c, 2, 1);
        assert (c + 2) / 2 <= d / 2;
      }
    }
  }

  /** A stored entry reads back at its width. */
  lemma PatchThenGet(t: FatType, m: seq<byte>, c: nat, v: nat)
    requires EntryOffset(t, c) + EntryBytes(t) <= |m|
    ensures Entry(t, Patch(m, EntryOffset(t, c), EntryPatch(t, m, c, v)), c) == Width(t, v)
  {
    hide EntryOffset, Unpack12, Low12, High12, Patch, LdWord, LdDword, WordBytes, DwordBytes;
    var at, b := EntryOffset(t, c), EntryPatch(t, m, c, v);
    var m' := Patch(m, at, b);
    PatchBytes(m, at, b);
    match t
    case Fat12 =>
      StoreOdd(m[at], m[at + 1], v);
      StoreEven(m[at], m[at + 1], v);
    case Fat16 =>
      SameWord(m', at, b);
      WordRoundTrip(v);
    case Fat32 =>
      var top := LdDword(m, at) / 0x1000_0000;
      SameDword(m', at, b);
      DwordRoundTrip(v % 0x1000_0000 + top * 0x1000_0000);
      TopNibble(v % 0x1000_0000, top);
  }

  /** The reserved top bits of a FAT32 entry and its 28-bit link are separate digits. */
  lemma TopNibble(low: nat, top: nat)
    requires low < 0x1000_0000 && top < 0x10
    ensures (low + top * 0x1000_0000) % 0x1_0000_0000 == low + top * 0x1000_0000
    ensures (low + top * 0x1000_0000) % 0x1000_0000 == low
    ensures (low + top * 0x1000_0000) / 0x1000_0000 == top
  {
    DivModUnique(low + top * 0x1000_0000, 0x1000_0000, top, low);
    DivModUnique(low + top * 0x1000_0000, 0x1_0000_0000, 0, low + top * 0x1000_0000);
  }

  lemma SameWord(m: seq<byte>, at: nat, b: seq<byte>)
    requires at + 2 <= |m| && |b| == 2
    requires forall k :: at <= k < at + 2 ==> m[k] == b[k - at]
    ensures LdWord(m, at) == LdWord(b, 0)
  {
    assert m[at] == b[0] && m[at + 1] == b[1];
  }

  lemma SameDword(m: seq<byte>, at: nat, b: seq<byte>)
    requires at + 4 <= |m| && |b| == 4
    requires forall k :: at <= k < at + 4 ==> m[k] == b[k - at]
    ensures LdDword(m, at) == LdDword(b, 0)
  {
    assert m[at] == b[0] && m[at + 1] == b[1] && m[at + 2] == b[2] && m[at + 3] == b[3];
  }

  /** Storing a FAT32 link keeps the four reserved bits above it. */
  lemma PatchKeepsTopBits(m: seq<byte>, c: nat, v: nat)
    requires c * 4 + 4 <= |m|
    ensures LdDword(Patch(m, c * 4, EntryPatch(Fat32, m, c, v)), c * 4) / 0x1000_0000 == LdDword(m, c * 4) / 0x1000_0000
  {
    hide Patch, LdDword, DwordBytes;
    var at, b := c * 4, EntryPatch(Fat32, m, c, v);
    var top := LdDword(m, at) / 0x1000_0000;
    PatchBytes(m, at, b);
    SameDword(Patch(m, at, b), at, b);
    DwordRoundTrip(v % 0x1000_0000 + top * 0x1000_0000);
    TopNibble(v % 0x1000_0000, top);
  }

  /** Two FAT12 neighbours share a byte; storing one leaves the other's nibble. */
  lemma PatchKeepsNeighbour(m: seq<byte>, c: nat, v: nat, d: nat)
    requires EntryOffset(Fat12, c) + 2 <= |m| && EntryOffset(Fat12, d) + 2 <= |m| && ShareByte(Fat12, c, d)
    ensures Entry(Fat12, Patch(m, EntryOffset(Fat12, c), EntryPatch(Fat12, m, c, v)), d) == Entry(Fat12, m, d)
  {
    hide Unpack12, Low12, High12, Patch;
    var at, b := EntryOffset(Fat12, c), EntryPatch(Fat12, m, c, v);
    var m' := Patch(m, at, b);
    PatchBytes(m, at, b);
    if c % 2 == 0 {
      NeighbourOffset(c);
      StoreEven(m[at], m[at + 1], v);
      UnpackOdd(m[at + 1], m[at + 2]);
      UnpackOdd(m'[at + 1], m'[at + 2]);
    } else {
      NeighbourOffset(d);
      StoreOdd(m[at], m[at + 1], v);
      UnpackEven(m[at - 1], m[at]);
      UnpackEven(m'[at - 1], m'[at]);
    }
  }

  lemma NeighbourOffset(c: nat)
    requires c % 2 == 0
    ensures (c + 1) % 2 == 1 && EntryOffset(Fat12, c + 1) == EntryOffset(Fat12, c) + 1
  {
    DivModUnique(c + 1, 2, c / 2, 1);
  }

  /** Storing an entry changes that entry only, whatever bytes or sectors it shares. */
  lemma PatchEntry(t: FatType, m: seq<byte>, c: nat, v: nat, d: nat)
    requires EntryOffset(t, c) + EntryBytes(t) <= |m|
    requires EntryOffset(t, d) + EntryBytes(t) <= |m|
    ensures var m' := Patch(m, EntryOffset(t, c), EntryPatch(t, m, c, v));
            Entry(t, m', d) == if d == c then Width(t, v) else Entry(t, m, d)
  {
    hide EntryOffset, EntryPatch, Patch, Entry, Width;
    if d == c {
      PatchThenGet(t, m, c, v);
    } else if ShareByte(t, c, d) {
      PatchKeepsNeighbour(m, c, v, d);
    } else {
      if c < d {
        EntriesApart(t, c, d);
      } else {
        EntriesApart(t, d, c);
      }
      PatchBytes(m, EntryOffset(t, c), EntryPatch(t, m, c, v));
      SameBytesSameEntry(t, m, Patch(m, EntryOffset(t, c), EntryPatch(t, m, c, v)), d);
    }
  }

  /** A FAT of sufficient size holds every byte of every entry. */
  lemma EntryFits(t: FatType, n: nat, c: nat, bytes: nat)
    requires c < n && FatBytesNeeded(t, n) <= bytes
    ensures EntryOffset(t, c) + EntryBytes(t) <= bytes
  {
    if t == Fat12 {
      var h := n / 2;
      if n % 2 == 0 {
        DivModUnique(n * 3, 2, 3 * h, 0);
        assert c / 2 <= h - 1;
      } else {
        DivModUnique(n * 3, 2, 3 * h + 1, 1);
        assert c / 2 <= h;
      }
    }
  }

  /** The FAT in `m` as a sequence of `n` numbers. */
  function Entries(t: FatType, m: seq<byte>, n: nat): (f: seq<nat>)
    requires FatBytesNeeded(t, n) <= |m|
    ensures |f| == n
  {
    seq(n, c requires 0 <= c < n => EntryFits(t, n, c, |m|); Entry(t, m, c))
  }

  /** Storing an entry refines updating one element of the plain sequence. */
  lemma PatchEntries(t: FatType, m: seq<byte>, n: nat, c: nat, v: nat)
    requires FatBytesNeeded(t, n) <= |m| && c < n
    ensures EntryOffset(t, c) + EntryBytes(t) <= |m|
    ensures Entries(t, Patch(m, EntryOffset(t, c), EntryPatch(t, m, c, v)), n) == Entries(t, m, n)[c := Width(t, v)]
  {
    hide EntryOffset, EntryPatch, Patch, Entry, Width, FatBytesNeeded;
    EntryFits(t, n, c, |m|);
    var m' := Patch(m, EntryOffset(t, c), EntryPatch(t, m, c, v));
    forall d | 0 <= d < n
      ensures Entries(t, m', n)[d] == Entries(t, m, n)[c := Width(t, v)][d]
    {
      EntryFits(t, n, d, |m|);
      PatchEntry(t, m, c, v, d);
    }
  }
}
