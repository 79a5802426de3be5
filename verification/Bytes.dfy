/** Bytes, little-endian words, 512-byte sectors, and in-place patches of byte sequences. */
module Bytes {
  import opened Arith

  type byte = i: int | 0 <= i < 0x100

  type Sector = s: seq<byte> | |s| == 512 witness seq(512, _ => 0)

  function ZeroSector(): Sector {
    seq(512, _ => 0)
  }

  /** `m` with the bytes from offset `at` on replaced by `b`. */
  function Patch(m: seq<byte>, at: nat, b: seq<byte>): (r: seq<byte>)
    requires at + |b| <= |m|
    ensures |r| == |m|
  {
    m[..at] + b + m[at + |b|..]
  }

  lemma PatchBytes(m: seq<byte>, at: nat, b: seq<byte>)
    requires at + |b| <= |m|
    ensures forall k {:trigger Patch(m, at, b)[k]} :: 0 <= k < |m| ==>
              Patch(m, at, b)[k] == if at <= k < at + |b| then b[k - at] else m[k]
  {
  }

  /** The 16-bit little-endian word at offset `at`. */
  function LdWord(m: seq<byte>, at: nat): (w: nat)
    requires at + 2 <= |m|
    ensures w < 0x1_0000
  {
    m[at] as int + 0x100 * m[at + 1] as int
  }

  /** The 32-bit little-endian word at offset `at`. */
  function LdDword(m: seq<byte>, at: nat): (w: nat)
    requires at + 4 <= |m|
    ensures w < 0x1_0000_0000
  {
    LdWord(m, at) + 0x1_0000 * LdWord(m, at + 2)
  }

  /** The two bytes that a 16-bit store writes; higher bits of `v` are dropped. */
  function WordBytes(v: nat): (b: seq<byte>)
    ensures |b| == 2
  {
    [v % 0x100, v / 0x100 % 0x100]
  }

  /** The four bytes that a 32-bit store writes; higher bits of `v` are dropped. */
  function DwordBytes(v: nat): (b: seq<byte>)
    ensures |b| == 4
  {
    WordBytes(v) + WordBytes(v / 0x1_0000)
  }

  /** A stored word reads back modulo its width. */
  lemma WordRoundTrip(v: nat)
    ensures LdWord(WordBytes(v), 0) == v % 0x1_0000
  {
    TwoDigits(v, 0x100, 0x100);
  }

  lemma DwordRoundTrip(v: nat)
    ensures LdDword(DwordBytes(v), 0) == v % 0x1_0000_0000
  {
    hide WordBytes;
    var lo, hi := WordBytes(v), WordBytes(v / 0x1_0000);
    assert DwordBytes(v) == lo + hi;
    WordRoundTrip(v);
    WordRoundTrip(v / 0x1_0000);
    TwoDigits(v, 0x1_0000, 0x1_0000);
  }

  /** The bytes of consecutive sectors. */
  function Flatten(secs: seq<Sector>): (b: seq<byte>)
    ensures |b| == |secs| * 512
  {
    seq(|secs| * 512, k requires 0 <= k < |secs| * 512 => secs[k / 512][k % 512])
  }

  /** Byte `o` of sector `j`. */
  lemma FlattenAt(secs: seq<Sector>, j: nat, o: nat)
    requires j < |secs| && o < 512
    ensures j * 512 + o < |secs| * 512
    ensures Flatten(secs)[j * 512 + o] == secs[j][o]
  {
    DivModUnique(j * 512 + o, 512, j, o);
  }

  /** The bytes of sector `j`. */
  lemma FlattenSector(secs: seq<Sector>, j: nat)
    requires j < |secs|
    ensures j * 512 + 512 <= |secs| * 512
    ensures Flatten(secs)[j * 512..j * 512 + 512] == secs[j]
  {
    hide Flatten;
    forall o | 0 <= o < 512
      ensures Flatten(secs)[j * 512..j * 512 + 512][o] == secs[j][o]
    {
      FlattenAt(secs, j, o);
    }
  }

  /** Patching one sector patches the flat bytes. */
  lemma FlattenPatch(secs: seq<Sector>, j: nat, o: nat, b: seq<byte>)
    requires j < |secs| && o + |b| <= 512
    ensures j * 512 + o + |b| <= |secs| * 512
    ensures Flatten(secs[j := Patch(secs[j], o, b)]) == Patch(Flatten(secs), j * 512 + o, b)
  {
    hide Patch;
    var secs' := secs[j := Patch(secs[j], o, b)];
    PatchBytes(secs[j], o, b);
    PatchBytes(Flatten(secs), j * 512 + o, b);
    forall k | 0 <= k < |secs| * 512
      ensures Flatten(secs')[k] == Patch(Flatten(secs), j * 512 + o, b)[k]
    {
      FlattenPatchAt(secs, j, o, b, k);
    }
  }

  lemma FlattenPatchAt(secs: seq<Sector>, j: nat, o: nat, b: seq<byte>, k: nat)
    requires j < |secs| && o + |b| <= 512 && k < |secs| * 512
    ensures Flatten(secs[j := Patch(secs[j], o, b)])[k]
            == if j * 512 + o <= k < j * 512 + o + |b| then b[k - (j * 512 + o)] else Flatten(secs)[k]
  {
    hide Patch;
    PatchBytes(secs[j], o, b);
    var q, r := k / 512, k % 512;
    assert k == q * 512 + r;
    if q < j {
      MultiplesApart(512, q, j);
    } else if j < q {
      MultiplesApart(512, j, q);
    }
  }

  /** The bytes of a run of sectors. */
  lemma FlattenSlice(secs: seq<Sector>, j: nat, c: nat)
    requires j + c <= |secs|
    ensures (j + c) * 512 <= |secs| * 512
    ensures Flatten(secs)[j * 512..(j + c) * 512] == Flatten(secs[j..j + c])
  {
    hide Flatten;
    var whole, part := Flatten(secs)[j * 512..(j + c) * 512], Flatten(secs[j..j + c]);
    forall k | 0 <= k < c * 512
      ensures whole[k] == part[k]
    {
      var q, r := k / 512, k % 512;
      assert q < c;
      FlattenAt(secs, j + q, r);
      FlattenAt(secs[j..j + c], q, r);
    }
  }

  lemma SliceJoin(b: seq<byte>, i: nat, j: nat, k: nat)
    requires i <= j <= k <= |b|
    ensures b[i..j] + b[j..k] == b[i..k]
  {
  }

  /** `b` cut into whole sectors. */
  function Sectors(b: seq<byte>): (s: seq<Sector>)
    requires |b| % 512 == 0
    ensures |s| == |b| / 512
  {
    seq(|b| / 512, i requires 0 <= i < |b| / 512 => b[i * 512..i * 512 + 512])
  }

  lemma FlattenSectors(b: seq<byte>)
    requires |b| % 512 == 0
    ensures Flatten(Sectors(b)) == b
  {
    hide Flatten;
    var f := Flatten(Sectors(b));
    forall k | 0 <= k < |b| ensures f[k] == b[k] {
      FlattenAt(Sectors(b), k / 512, k % 512);
    }
  }

  lemma PatchAll(m: seq<byte>, x: seq<byte>)
    requires |m| == |x|
    ensures Patch(m, 0, x) == x
  {
  }

  lemma PatchFront(m: seq<byte>, c: seq<byte>)
    requires |c| <= |m|
    ensures c <= Patch(m, 0, c)
  {
  }

  /** `b` with `c` over its bytes from `p` on, longer if `c` reaches past the end. */
  function Splice(b: seq<byte>, p: nat, c: seq<byte>): (r: seq<byte>)
    requires p <= |b|
    ensures |r| == if p + |c| > |b| then p + |c| else |b|
  {
    b[..p] + c + (if p + |c| < |b| then b[p + |c|..] else [])
  }

  /** Consecutive splices are one splice. */
  lemma SpliceOn(b: seq<byte>, c: seq<byte>, d: seq<byte>)
    ensures |c| <= |Splice(b, 0, c)| && Splice(b, 0, c)[..|c|] == c
    ensures Splice(Splice(b, 0, c), |c|, d) == Splice(b, 0, c + d)
  {
  }
}
