/** The fields of a directory entry that f_open, f_sync and f_mkdir store. */
module EntryFields {
  import opened Arith
  import opened Bytes
  import opened Geometry
  import opened DirTable
  import opened VolumeState

  /** The attribute byte with the archive bit set. */
  function SetArchive(a: byte): byte {
    if a / 32 % 2 == 1 then a else a + 32
  }

  /** The attribute bits of an entry, by the masks 0x01, 0x08 and 0x10. */
  lemma AttributeMasks(e: Entry)
    ensures IsReadOnly(e) <==> (e[11] as bv8) & 0x01 != 0
    ensures IsLabel(e) <==> (e[11] as bv8) & 0x08 != 0
    ensures IsDir(e) <==> (e[11] as bv8) & 0x10 != 0
  {
    MaskedBits(e[11], e[11] as bv8);
  }

  lemma MaskedBits(a: byte, x: bv8)
    requires x == a as bv8
    ensures x & 0x01 != 0 <==> a % 2 == 1
    ensures x & 0x08 != 0 <==> a / 8 % 2 == 1
    ensures x & 0x10 != 0 <==> a / 16 % 2 == 1
  {
  }

  /** The attribute byte without its archive bit says the same of directories and labels. */
  lemma ArchiveKeeps(a: byte)
    ensures SetArchive(a) / 16 % 2 == a / 16 % 2 && SetArchive(a) / 8 % 2 == a / 8 % 2 && SetArchive(a) % 2 == a % 2
  {
    BitKept(a / 16, 2);
    BitKept(a / 8, 4);
    BitKept(a, 32);
    assert (a + 32) / 16 == a / 16 + 2;
    assert (a + 32) / 8 == a / 8 + 4;
  }

  lemma BitKept(x: nat, k: nat)
    requires k == 2 || k == 4 || k == 32
    ensures (x + k) % 2 == x % 2
  {
    ModAddMultiple(x, 2, k / 2);
  }

  /** The bytes of a cluster number's two halves. */
  function LowHalf(c: nat): (b: seq<byte>)
    ensures |b| == 2
  {
    WordBytes(c)
  }

  function HighHalf(c: nat): (b: seq<byte>)
    ensures |b| == 2
  {
    WordBytes(c / 0x1_0000)
  }

  /** An entry after f_sync stored its fields. */
  function Synced(e: Entry, size: nat, start: nat, tm: nat): Entry {
    var e1: Entry := Patch(e, 11, [SetArchive(e[11])]);
    var e2: Entry := Patch(e1, 28, DwordBytes(size));
    var e3: Entry := Patch(e2, 26, LowHalf(start));
    var e4: Entry := Patch(e3, 20, HighHalf(start));
    var e5: Entry := Patch(e4, 22, DwordBytes(tm));
    Patch(e5, 18, WordBytes(0))
  }

  /** An entry after f_open emptied it. */
  function Emptied(e: Entry, tm: nat): Entry {
    var e1: Entry := Patch(e, 14, DwordBytes(tm));
    var e2: Entry := Patch(e1, 11, [0]);
    var e3: Entry := Patch(e2, 28, DwordBytes(0));
    var e4: Entry := Patch(e3, 26, LowHalf(0));
    Patch(e4, 20, HighHalf(0))
  }

  /** An entry after f_mkdir made it a directory's. */
  function MadeDir(e: Entry, start: nat, tm: nat): Entry {
    var e1: Entry := Patch(e, 11, [0x10]);
    var e2: Entry := Patch(e1, 22, DwordBytes(tm));
    var e3: Entry := Patch(e2, 26, LowHalf(start));
    Patch(e3, 20, HighHalf(start))
  }

  /** A store elsewhere keeps a field; a store of the field is read back. */
  lemma FieldKept(e: Entry, o: nat, b: seq<byte>, at: nat, n: nat)
    requires o + |b| <= 32 && at + n <= 32 && (at + n <= o || o + |b| <= at)
    ensures Patch(e, o, b)[at..at + n] == e[at..at + n]
  {
    hide Patch;
    PatchBytes(e, o, b);
  }

  lemma FieldStored(e: Entry, o: nat, b: seq<byte>)
    requires o + |b| <= 32
    ensures Patch(e, o, b)[o..o + |b|] == b
  {
    hide Patch;
    PatchBytes(e, o, b);
  }

  /** Start cluster and size, by the fields' bytes. */
  lemma FieldsRead(g: Geometry, e: Entry, start: nat, size: nat)
    requires e[26..28] == LowHalf(start) && e[20..22] == HighHalf(start) && e[28..32] == DwordBytes(size)
    requires start < 0x1_0000_0000 && (g.fsType != Fat32 ==> start < 0x1_0000) && size < 0x1_0000_0000
    ensures StartOf(g, e) == start && SizeOf(e) == size
  {
    StartRead(g, e, start);
    SizeRead(e, size);
  }

  lemma StartRead(g: Geometry, e: Entry, start: nat)
    requires e[26..28] == LowHalf(start) && e[20..22] == HighHalf(start)
    requires start < 0x1_0000_0000 && (g.fsType != Fat32 ==> start < 0x1_0000)
    ensures StartOf(g, e) == start
  {
    hide WordBytes;
    WordRoundTrip(start);
    WordRoundTrip(start / 0x1_0000);
    assert LdWord(e, 26) == LdWord(e[26..28], 0) && LdWord(e, 20) == LdWord(e[20..22], 0);
    HalvesJoin(start);
  }

  lemma HalvesJoin(start: nat)
    requires start < 0x1_0000_0000
    ensures start % 0x1_0000 + 0x1_0000 * (start / 0x1_0000 % 0x1_0000) == start
    ensures start < 0x1_0000 ==> start % 0x1_0000 == start
  {
  }

  lemma SizeRead(e: Entry, size: nat)
    requires e[28..32] == DwordBytes(size) && size < 0x1_0000_0000
    ensures SizeOf(e) == size
  {
    hide DwordBytes;
    DwordRoundTrip(size);
    assert LdDword(e, 28) == LdDword(e[28..32], 0);
  }

  /** A cluster number fits its fields. */
  lemma ClusterFits(g: Geometry, n: nat, c: nat)
    requires FatLayout(g, n) && DataLayout(g, n) && c < g.nFatent
    ensures c < 0x1_0000_0000 && (g.fsType != Fat32 ==> c < 0x1_0000)
  {
    hide FatBytesNeeded, PowerOfTwo, DataEnd;
  }

  /** After f_sync the entry gives the file's size and start, the time of the write and no day of access, and it is marked for
      archiving; name and kind stay. */
  lemma SyncedFields(g: Geometry, e: Entry, size: nat, start: nat, tm: nat)
    requires start < 0x1_0000_0000 && (g.fsType != Fat32 ==> start < 0x1_0000) && size < 0x1_0000_0000
    ensures var e' := Synced(e, size, start, tm);
            && StartOf(g, e') == start && SizeOf(e') == size && e'[..11] == e[..11]
            && (IsDir(e') <==> IsDir(e)) && (IsLabel(e') <==> IsLabel(e)) && (IsReadOnly(e') <==> IsReadOnly(e))
            && LdDword(e', 22) == tm % 0x1_0000_0000 && LdWord(e', 18) == 0 && e'[11] / 32 % 2 == 1
  {
    hide Patch, DwordBytes, WordBytes, SetArchive, StartOf, SizeOf;
    var e1: Entry := Patch(e, 11, [SetArchive(e[11])]);
    var e2: Entry := Patch(e1, 28, DwordBytes(size));
    var e3: Entry := Patch(e2, 26, LowHalf(start));
    var e4: Entry := Patch(e3, 20, HighHalf(start));
    var e5: Entry := Patch(e4, 22, DwordBytes(tm));
    var e6: Entry := Patch(e5, 18, WordBytes(0));
    FrontKept(e, 11, [SetArchive(e[11])]);
    FrontKept(e1, 28, DwordBytes(size));
    FrontKept(e2, 26, LowHalf(start));
    FrontKept(e3, 20, HighHalf(start));
    FrontKept(e4, 22, DwordBytes(tm));
    FrontKept(e5, 18, WordBytes(0));
    ArchiveKeeps(e[11]);
    AttrStored(e, SetArchive(e[11]));
    SizeKept(e1, size, start, tm);
    StartKept(e2, start, tm);
    FieldsRead(g, e6, start, size);
    ArchiveSet(e[11]);
    FieldStored(e4, 22, DwordBytes(tm));
    FieldKept(e5, 18, WordBytes(0), 22, 4);
    FieldStored(e5, 18, WordBytes(0));
    DwordRead(e6, 22, tm);
    WordRead(e6, 18, 0);
  }

  lemma ArchiveSet(a: byte)
    ensures SetArchive(a) / 32 % 2 == 1
  {
  }

  lemma DwordRead(e: Entry, o: nat, v: nat)
    requires o + 4 <= 32 && e[o..o + 4] == DwordBytes(v)
    ensures LdDword(e, o) == v % 0x1_0000_0000
  {
    hide DwordBytes;
    DwordRoundTrip(v);
    assert LdDword(e, o) == LdDword(e[o..o + 4], 0);
  }

  lemma WordRead(e: Entry, o: nat, v: nat)
    requires o + 2 <= 32 && e[o..o + 2] == WordBytes(v)
    ensures LdWord(e, o) == v % 0x1_0000
  {
    hide WordBytes;
    WordRoundTrip(v);
    assert LdWord(e, o) == LdWord(e[o..o + 2], 0);
  }

  /** Behind the name, stores keep the name; behind the attribute, the attribute. */
  lemma FrontKept(e: Entry, o: nat, b: seq<byte>)
    requires 11 <= o && o + |b| <= 32
    ensures Patch(e, o, b)[..11] == e[..11] && (o > 11 ==> Patch(e, o, b)[11] == e[11])
  {
    hide Patch;
    PatchBytes(e, o, b);
  }

  lemma AttrStored(e: Entry, a: byte)
    ensures Patch(e, 11, [a])[11] == a && Patch(e, 11, [a])[..11] == e[..11]
  {
  }

  lemma SizeKept(e: Entry, size: nat, start: nat, tm: nat)
    ensures var e2: Entry := Patch(e, 28, DwordBytes(size));
            var e4: Entry := Patch(Patch(e2, 26, LowHalf(start)), 20, HighHalf(start));
            Patch(Patch(e4, 22, DwordBytes(tm)), 18, WordBytes(0))[28..32] == DwordBytes(size)
  {
    hide Patch, DwordBytes, WordBytes;
    var e2: Entry := Patch(e, 28, DwordBytes(size));
    var e3: Entry := Patch(e2, 26, LowHalf(start));
    var e4: Entry := Patch(e3, 20, HighHalf(start));
    var e5: Entry := Patch(e4, 22, DwordBytes(tm));
    FieldStored(e, 28, DwordBytes(size));
    FieldKept(e2, 26, LowHalf(start), 28, 4);
    FieldKept(e3, 20, HighHalf(start), 28, 4);
    FieldKept(e4, 22, DwordBytes(tm), 28, 4);
    FieldKept(e5, 18, WordBytes(0), 28, 4);
  }

  lemma StartKept(e: Entry, start: nat, tm: nat)
    ensures var e4: Entry := Patch(Patch(e, 26, LowHalf(start)), 20, HighHalf(start));
            var e6: Entry := Patch(Patch(e4, 22, DwordBytes(tm)), 18, WordBytes(0));
            e6[26..28] == LowHalf(start) && e6[20..22] == HighHalf(start)
  {
    hide Patch, DwordBytes, WordBytes;
    var e3: Entry := Patch(e, 26, LowHalf(start));
    var e4: Entry := Patch(e3, 20, HighHalf(start));
    var e5: Entry := Patch(e4, 22, DwordBytes(tm));
    StartStored(e, start);
    FieldKept(e4, 22, DwordBytes(tm), 26, 2);
    FieldKept(e4, 22, DwordBytes(tm), 20, 2);
    FieldKept(e5, 18, WordBytes(0), 26, 2);
    FieldKept(e5, 18, WordBytes(0), 20, 2);
  }

  lemma StartStored(e: Entry, start: nat)
    ensures var e': Entry := Patch(Patch(e, 26, LowHalf(start)), 20, HighHalf(start));
            e'[26..28] == LowHalf(start) && e'[20..22] == HighHalf(start)
  {
    hide Patch, DwordBytes, WordBytes;
    var e3: Entry := Patch(e, 26, LowHalf(start));
    FieldStored(e, 26, LowHalf(start));
    FieldStored(e3, 20, HighHalf(start));
    FieldKept(e3, 20, HighHalf(start), 26, 2);
  }

  /** An emptied entry is a file's, of size 0, with no cluster, and made at the given time. */
  lemma EmptiedFields(g: Geometry, e: Entry, tm: nat)
    ensures var e' := Emptied(e, tm);
            StartOf(g, e') == 0 && SizeOf(e') == 0 && e'[..11] == e[..11] && !IsDir(e') && !IsLabel(e') && !IsReadOnly(e')
            && e'[11] == 0 && LdDword(e', 14) == tm % 0x1_0000_0000
  {
    hide Patch, DwordBytes, WordBytes, StartOf, SizeOf;
    var e1: Entry := Patch(e, 14, DwordBytes(tm));
    var e2: Entry := Patch(e1, 11, [0]);
    var e3: Entry := Patch(e2, 28, DwordBytes(0));
    var e4: Entry := Patch(e3, 26, LowHalf(0));
    FrontKept(e, 14, DwordBytes(tm));
    AttrStored(e1, 0);
    FrontKept(e2, 28, DwordBytes(0));
    FrontKept(e3, 26, LowHalf(0));
    FrontKept(e4, 20, HighHalf(0));
    FieldStored(e2, 28, DwordBytes(0));
    FieldKept(e3, 26, LowHalf(0), 28, 4);
    FieldKept(e4, 20, HighHalf(0), 28, 4);
    StartStored(e3, 0);
    FieldsRead(g, Emptied(e, tm), 0, 0);
    FieldStored(e, 14, DwordBytes(tm));
    FieldKept(e1, 11, [0], 14, 4);
    FieldKept(e2, 28, DwordBytes(0), 14, 4);
    FieldKept(e3, 26, LowHalf(0), 14, 4);
    FieldKept(e4, 20, HighHalf(0), 14, 4);
    DwordRead(Emptied(e, tm), 14, tm);
  }

  /** A made directory's entry gives its start and the time. */
  lemma MadeDirFields(g: Geometry, e: Entry, start: nat, tm: nat)
    requires start < 0x1_0000_0000 && (g.fsType != Fat32 ==> start < 0x1_0000)
    ensures var e' := MadeDir(e, start, tm);
            StartOf(g, e') == start && e'[..11] == e[..11] && IsDir(e') && !IsLabel(e') && !IsReadOnly(e')
            && e'[11] == 0x10 && LdDword(e', 22) == tm % 0x1_0000_0000
  {
    hide Patch, DwordBytes, WordBytes, StartOf;
    var e1: Entry := Patch(e, 11, [0x10]);
    var e2: Entry := Patch(e1, 22, DwordBytes(tm));
    var e3: Entry := Patch(e2, 26, LowHalf(start));
    AttrStored(e, 0x10);
    FrontKept(e1, 22, DwordBytes(tm));
    FrontKept(e2, 26, LowHalf(start));
    FrontKept(e3, 20, HighHalf(start));
    StartStored(e2, start);
    StartRead(g, MadeDir(e, start, tm), start);
    FieldStored(e1, 22, DwordBytes(tm));
    FieldKept(e2, 26, LowHalf(start), 22, 4);
    FieldKept(e3, 20, HighHalf(start), 22, 4);
    DwordRead(MadeDir(e, start, tm), 22, tm);
  }

  /** The first stores of f_open leave the start cluster. */
  lemma StartUntouched(g: Geometry, e: Entry, tm: nat)
    ensures var e1: Entry := Patch(e, 14, DwordBytes(tm));
            var e2: Entry := Patch(e1, 11, [0]);
            StartOf(g, Patch(e2, 28, DwordBytes(0))) == StartOf(g, e)
  {
    hide Patch, DwordBytes, StartOf;
    var e1: Entry := Patch(e, 14, DwordBytes(tm));
    var e2: Entry := Patch(e1, 11, [0]);
    StartSame(g, e, 14, DwordBytes(tm));
    StartSame(g, e1, 11, [0]);
    StartSame(g, e2, 28, DwordBytes(0));
  }

  lemma StartSame(g: Geometry, e: Entry, o: nat, b: seq<byte>)
    requires o + |b| <= 32 && (o + |b| <= 20 || 28 <= o)
    ensures StartOf(g, Patch(e, o, b)) == StartOf(g, e)
  {
    hide Patch;
    PatchBytes(e, o, b);
  }
}
