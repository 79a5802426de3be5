/** Reading and writing FAT entries through the window (src/ff.cpp: get_fat, put_fat). */
module FatAccess {
  import opened Arith
  import opened Bytes
  import opened Geometry
  import opened FatTable
  import opened Window

  /** The bytes of the first FAT copy. */
  function FatArea(g: Geometry, img: seq<Sector>): (a: seq<byte>)
    requires g.fatbase + g.fsize <= |img|
    ensures |a| == g.fsize * 512
  {
    Flatten(img[g.fatbase..g.fatbase + g.fsize])
  }

  /** The FAT of an image as plain numbers. */
  function FatOf(g: Geometry, img: seq<Sector>): (f: seq<nat>)
    requires FatLayout(g, |img|)
    ensures |f| == g.nFatent
  {
    Entries(g.fsType, FatArea(g, img), g.nFatent)
  }

  /** The FAT that the volume shows. */
  ghost function Fat(fs: FatFs): (f: seq<nat>)
    requires fs.Valid()
    reads fs`winsect, fs`wflag, fs.disk, fs.win
    ensures |f| == fs.geo.nFatent
  {
    FatOf(fs.geo, fs.Img())
  }

  /** Nothing outside the FAT differs. */
  predicate SameOutsideFat(g: Geometry, a: seq<Sector>, b: seq<Sector>) {
    && |a| == |b|
    && forall s :: 0 <= s < |a| && !InFat(g, s) ==> b[s] == a[s]
  }

  /** FAT byte `k` is byte `p` of sector `s`. */
  predicate FatPosition(g: Geometry, k: nat, s: nat, p: nat) {
    InFat(g, s) && p < 512 && k == (s - g.fatbase) * 512 + p
  }

  lemma PositionInFat(g: Geometry, k: nat)
    requires k < g.fsize * 512
    ensures FatPosition(g, k, g.fatbase + k / 512, k % 512)
  {
    assert k / 512 < g.fsize;
  }

  /** A FAT sector shows its bytes of the FAT. */
  lemma ByteInFat(g: Geometry, img: seq<Sector>, k: nat, s: nat, p: nat)
    requires g.fatbase + g.fsize <= |img| && k < g.fsize * 512 && FatPosition(g, k, s, p)
    ensures img[s][p] == FatArea(g, img)[k]
  {
    FlattenAt(img[g.fatbase..g.fatbase + g.fsize], s - g.fatbase, p);
  }

  /** Patching a FAT sector patches the FAT. */
  lemma PatchFatArea(g: Geometry, img: seq<Sector>, k: nat, s: nat, p: nat, b: seq<byte>)
    requires g.fatbase + g.fsize <= |img| && FatPosition(g, k, s, p) && p + |b| <= 512
    ensures k + |b| <= g.fsize * 512
    ensures FatArea(g, img[s := Patch(img[s], p, b)]) == Patch(FatArea(g, img), k, b)
  {
    hide Patch, Flatten;
    var a, j := img[g.fatbase..g.fatbase + g.fsize], s - g.fatbase;
    FlattenPatch(a, j, p, b);
    assert img[s := Patch(img[s], p, b)][g.fatbase..g.fatbase + g.fsize] == a[j := Patch(a[j], p, b)];
  }

  /** Brings the sector of FAT byte `k` into the window; `p` is the byte's offset there. */
  method MoveToFatByte(fs: FatFs, k: nat) returns (res: FResult, p: nat)
    requires fs.Valid() && k < fs.geo.fsize * 512
    modifies fs`winsect, fs`wflag, fs.disk, fs.win
    ensures fs.Valid() && fs.Img() == old(fs.Img()) && res == FrOk && (old(fs.Clean()) ==> fs.Clean())
    ensures FatPosition(fs.geo, k, fs.winsect, p) && fs.winsect != 0
    ensures fs.win[..] == fs.Img()[fs.winsect]
  {
    hide DataLayout, FatBytesNeeded, Image, MirrorAgrees, FatFs.Img, FatFs.Valid, FatFs.Clean, FatPosition;
    PositionInFat(fs.geo, k);
    var s := fs.geo.fatbase + k / 512;
    FatSectorReachable(fs.geo, fs.disk.Length, k, s, k % 512);
    res := fs.MoveWindow(s);
    p := k % 512;
  }

  lemma FatSectorReachable(g: Geometry, n: nat, k: nat, s: nat, p: nat)
    requires FatLayout(g, n) && FatPosition(g, k, s, p)
    ensures s != 0 && s < n && !InMirror(g, s)
  {
    hide FatBytesNeeded;
  }

  /** An entry in range lies inside the FAT. */
  lemma EntryInFat(g: Geometry, img: seq<Sector>, c: nat)
    requires FatLayout(g, |img|) && c < g.nFatent
    ensures EntryOffset(g.fsType, c) + EntryBytes(g.fsType) <= g.fsize * 512
    ensures FatOf(g, img)[c] == Entry(g.fsType, FatArea(g, img), c)
  {
    hide FatBytesNeeded, EntryOffset, EntryBytes, Entry, FatArea;
    EntryFits(g.fsType, g.nFatent, c, g.fsize * 512);
  }

  /** No entry is as wide as get_fat's disk error. */
  lemma EntryBound(g: Geometry, img: seq<Sector>, c: nat)
    requires FatLayout(g, |img|) && c < g.nFatent
    ensures FatOf(g, img)[c] <= END_OF_CHAIN
  {
    hide FatArea, FatBytesNeeded, LdWord, LdDword, EntryOffset;
    EntryInFat(g, img, c);
  }

  /** FAT16 and FAT32 entries never straddle two sectors. */
  lemma AlignedEntry(g: Geometry, k: nat, s: nat, p: nat, c: nat)
    requires FatPosition(g, k, s, p)
    ensures k == c * 2 ==> p + 2 <= 512
    ensures k == c * 4 ==> p + 4 <= 512
  {
    if k == c * 2 {
      ModAddMultiple(p, 2, (s - g.fatbase) * 256);
      DivModUnique(k, 2, c, 0);
    }
    if k == c * 4 {
      ModAddMultiple(p, 4, (s - g.fatbase) * 128);
      DivModUnique(k, 4, c, 0);
    }
  }

  /** The window over FAT byte `k` shows the words that start there. */
  lemma WordsInFat(g: Geometry, img: seq<Sector>, k: nat, s: nat, p: nat)
    requires g.fatbase + g.fsize <= |img| && FatPosition(g, k, s, p)
    ensures k + 2 <= g.fsize * 512 && p + 2 <= 512 ==> LdWord(img[s], p) == LdWord(FatArea(g, img), k)
    ensures k + 4 <= g.fsize * 512 && p + 4 <= 512 ==> LdDword(img[s], p) == LdDword(FatArea(g, img), k)
  {
    hide FatArea;
    if k + 2 <= g.fsize * 512 && p + 2 <= 512 {
      ByteInFat(g, img, k, s, p);
      ByteInFat(g, img, k + 1, s, p + 1);
    }
    if k + 4 <= g.fsize * 512 && p + 4 <= 512 {
      ByteInFat(g, img, k + 2, s, p + 2);
      ByteInFat(g, img, k + 3, s, p + 3);
    }
  }

  /** A FAT12 entry may lie in two sectors, so its bytes are fetched one by one. */
  method GetFat12(fs: FatFs, clst: nat) returns (v: nat)
    requires fs.Valid() && fs.geo.fsType == Fat12 && EntryOffset(Fat12, clst) + 2 <= fs.geo.fsize * 512
    modifies fs`winsect, fs`wflag, fs.disk, fs.win
    ensures fs.Valid() && fs.Img() == old(fs.Img()) && InFat(fs.geo, fs.winsect) && (old(fs.Clean()) ==> fs.Clean())
    ensures v == Entry(Fat12, FatArea(fs.geo, fs.Img()), clst)
  {
    hide DataLayout, FatBytesNeeded, FatFs.Img, FatFs.Valid, FatFs.Clean, FatArea;
    var bc := clst + clst / 2;
    var res, p := MoveToFatByte(fs, bc);
    if res != FrOk { assert false; }
    ByteInFat(fs.geo, fs.Img(), bc, fs.winsect, p);
    var wc: int := fs.win[p];
    bc := bc + 1;
    res, p := MoveToFatByte(fs, bc);
    if res != FrOk { assert false; }
    ByteInFat(fs.geo, fs.Img(), bc, fs.winsect, p);
    wc := wc + 0x100 * fs.win[p] as int;
    v := if clst % 2 == 1 then wc / 0x10 else wc % 0x1000;
  }

  method GetFat16(fs: FatFs, clst: nat) returns (v: nat)
    requires fs.Valid() && fs.geo.fsType == Fat16 && EntryOffset(Fat16, clst) + 2 <= fs.geo.fsize * 512
    modifies fs`winsect, fs`wflag, fs.disk, fs.win
    ensures fs.Valid() && fs.Img() == old(fs.Img()) && InFat(fs.geo, fs.winsect) && (old(fs.Clean()) ==> fs.Clean())
    ensures v == Entry(Fat16, FatArea(fs.geo, fs.Img()), clst)
  {
    hide DataLayout, FatBytesNeeded, FatFs.Img, FatFs.Valid, FatFs.Clean, FatArea, LdWord, FatPosition;
    var k := clst * 2;
    var res, p := MoveToFatByte(fs, k);
    if res != FrOk { assert false; }
    PositionBounds(fs.geo, k, fs.winsect, p);
    AlignedEntry(fs.geo, k, fs.winsect, p, clst);
    WordsInFat(fs.geo, fs.Img(), k, fs.winsect, p);
    v := LdWord(fs.win[..], p);
  }

  method GetFat32(fs: FatFs, clst: nat) returns (v: nat)
    requires fs.Valid() && fs.geo.fsType == Fat32 && EntryOffset(Fat32, clst) + 4 <= fs.geo.fsize * 512
    modifies fs`winsect, fs`wflag, fs.disk, fs.win
    ensures fs.Valid() && fs.Img() == old(fs.Img()) && InFat(fs.geo, fs.winsect) && (old(fs.Clean()) ==> fs.Clean())
    ensures v == Entry(Fat32, FatArea(fs.geo, fs.Img()), clst)
  {
    hide DataLayout, FatBytesNeeded, FatFs.Img, FatFs.Valid, FatFs.Clean, FatArea, LdDword, FatPosition;
    var k := clst * 4;
    var res, p := MoveToFatByte(fs, k);
    if res != FrOk { assert false; }
    PositionBounds(fs.geo, k, fs.winsect, p);
    AlignedEntry(fs.geo, k, fs.winsect, p, clst);
    WordsInFat(fs.geo, fs.Img(), k, fs.winsect, p);
    v := LdDword(fs.win[..], p) % 0x1000_0000;
  }

  /** Reads the status of cluster `clst`: 1 for a number out of range, else the entry.  The window
      never leaves the first FAT copy. */
  method GetFat(fs: FatFs, clst: nat) returns (v: nat)
    requires fs.Valid()
    modifies fs`winsect, fs`wflag, fs.disk, fs.win
    ensures fs.Valid() && fs.Img() == old(fs.Img()) && (old(fs.Clean()) ==> fs.Clean())
    ensures v == (if InRange(fs.geo, clst) then Fat(fs)[clst] else 1) <= END_OF_CHAIN
    ensures Fat(fs) == old(Fat(fs))
    ensures if InRange(fs.geo, clst) then InFat(fs.geo, fs.winsect) else fs.winsect == old(fs.winsect)
  {
    hide DataLayout, FatBytesNeeded, FatFs.Img, FatFs.Valid, FatFs.Clean, FatArea, InMirror, Entry, EntryOffset;
    if clst < 2 || clst >= fs.geo.nFatent {
      return 1;
    }
    EntryInFat(fs.geo, fs.Img(), clst);
    EntryBound(fs.geo, fs.Img(), clst);
    match fs.geo.fsType
    case Fat12 => v := GetFat12(fs, clst);
    case Fat16 => v := GetFat16(fs, clst);
    case Fat32 => v := GetFat32(fs, clst);
  }

  /** `img'` is `img` with entry `c` of the FAT replaced by `v`. */
  predicate EntryStored(g: Geometry, img: seq<Sector>, c: nat, v: nat, img': seq<Sector>)
    requires g.fatbase + g.fsize <= |img| && EntryOffset(g.fsType, c) + EntryBytes(g.fsType) <= g.fsize * 512
  {
    && SameOutsideFat(g, img, img')
    && FatArea(g, img') == Patch(FatArea(g, img), EntryOffset(g.fsType, c), EntryPatch(g.fsType, FatArea(g, img), c, v))
  }

  /** Storing the bytes of an entry updates one number of the FAT. */
  lemma StoreEntry(g: Geometry, img: seq<Sector>, c: nat, v: nat, img': seq<Sector>)
    requires FatLayout(g, |img|) && c < g.nFatent
    requires EntryOffset(g.fsType, c) + EntryBytes(g.fsType) <= g.fsize * 512
    requires EntryStored(g, img, c, v, img')
    ensures FatOf(g, img') == FatOf(g, img)[c := Width(g.fsType, v)]
  {
    hide FatBytesNeeded, EntryOffset, EntryBytes, EntryPatch, Patch, FatArea, Width, Entries;
    PatchEntries(g.fsType, FatArea(g, img), g.nFatent, c, v);
  }

  /** One aligned store writes a FAT16 or FAT32 entry. */
  lemma AlignedStore(g: Geometry, img: seq<Sector>, c: nat, v: nat, s: nat, p: nat, b: seq<byte>)
    requires g.fatbase + g.fsize <= |img| && EntryOffset(g.fsType, c) + EntryBytes(g.fsType) <= g.fsize * 512
    requires FatPosition(g, EntryOffset(g.fsType, c), s, p) && p + |b| <= 512
    requires b == EntryPatch(g.fsType, FatArea(g, img), c, v)
    ensures EntryStored(g, img, c, v, img[s := Patch(img[s], p, b)])
  {
    hide EntryOffset, EntryBytes, EntryPatch, Patch, FatArea;
    PatchFatArea(g, img, EntryOffset(g.fsType, c), s, p, b);
  }

  /** Two single-byte stores, perhaps in different sectors, write a FAT12 entry. */
  lemma SplitStore(g: Geometry, img: seq<Sector>, c: nat, v: nat, s: nat, p: nat, s': nat, p': nat)
    requires g.fsType == Fat12 && g.fatbase + g.fsize <= |img| && EntryOffset(Fat12, c) + 2 <= g.fsize * 512
    requires FatPosition(g, EntryOffset(Fat12, c), s, p) && FatPosition(g, EntryOffset(Fat12, c) + 1, s', p')
    ensures var img1 := img[s := Patch(img[s], p, [Low12(c % 2 == 1, img[s][p], v)])];
            EntryStored(g, img, c, v, img1[s' := Patch(img1[s'], p', [High12(c % 2 == 1, img1[s'][p'], v)])])
  {
    hide EntryOffset, Patch, FatArea, Low12, High12, FatPosition;
    var k := EntryOffset(Fat12, c);
    var a, odd := FatArea(g, img), c % 2 == 1;
    assert InFat(g, s) && InFat(g, s') && p < 512 && p' < 512 by { PositionBounds(g, k, s, p); PositionBounds(g, k + 1, s', p'); }
    ByteInFat(g, img, k, s, p);
    var lo := Low12(odd, a[k], v);
    var img1 := img[s := Patch(img[s], p, [lo])];
    PatchFatArea(g, img, k, s, p, [lo]);
    ByteInFat(g, img1, k + 1, s', p');
    PatchBytes(a, k, [lo]);
    var hi := High12(odd, a[k + 1], v);
    PatchFatArea(g, img1, k + 1, s', p', [hi]);
    PatchTwice(a, k, lo, hi);
  }

  lemma PositionBounds(g: Geometry, k: nat, s: nat, p: nat)
    requires FatPosition(g, k, s, p)
    ensures InFat(g, s) && p < 512
  {
  }

  lemma PatchTwice(m: seq<byte>, at: nat, a: byte, b: byte)
    requires at + 2 <= |m|
    ensures Patch(Patch(m, at, [a]), at + 1, [b]) == Patch(m, at, [a, b])
  {
  }

  method PutFat12(fs: FatFs, clst: nat, val: nat) returns (res: FResult)
    requires fs.Valid() && fs.geo.fsType == Fat12 && EntryOffset(Fat12, clst) + 2 <= fs.geo.fsize * 512
    modifies fs`winsect, fs`wflag, fs.disk, fs.win
    ensures fs.Valid() && res == FrOk
    ensures EntryStored(fs.geo, old(fs.Img()), clst, val, fs.Img()) && InFat(fs.geo, fs.winsect) && fs.wflag
  {
    hide DataLayout, FatBytesNeeded, FatFs.Img, FatFs.Valid, FatFs.Clean, FatArea, Low12, High12, Patch, EntryStored;
    ghost var img := fs.Img();
    var bc := clst + clst / 2;
    var p;
    res, p := MoveToFatByte(fs, bc);
    if res != FrOk { assert false; }
    ghost var s, q := fs.winsect, p;
    fs.StoreWin(p, [Low12(clst % 2 == 1, fs.win[p], val)]);
    bc := bc + 1;
    res, p := MoveToFatByte(fs, bc);
    if res != FrOk { assert false; }
    SplitStore(fs.geo, img, clst, val, s, q, fs.winsect, p);
    fs.StoreWin(p, [High12(clst % 2 == 1, fs.win[p], val)]);
  }

  method PutFat16(fs: FatFs, clst: nat, val: nat) returns (res: FResult)
    requires fs.Valid() && fs.geo.fsType == Fat16 && EntryOffset(Fat16, clst) + 2 <= fs.geo.fsize * 512
    modifies fs`winsect, fs`wflag, fs.disk, fs.win
    ensures fs.Valid() && res == FrOk
    ensures EntryStored(fs.geo, old(fs.Img()), clst, val, fs.Img()) && InFat(fs.geo, fs.winsect) && fs.wflag
  {
    hide DataLayout, FatBytesNeeded, FatFs.Img, FatFs.Valid, FatFs.Clean, FatArea, Patch, EntryStored, WordBytes, FatPosition;
    var k := clst * 2;
    var p;
    res, p := MoveToFatByte(fs, k);
    if res != FrOk { assert false; }
    AlignedEntry(fs.geo, k, fs.winsect, p, clst);
    PositionBounds(fs.geo, k, fs.winsect, p);
    AlignedStore(fs.geo, fs.Img(), clst, val, fs.winsect, p, WordBytes(val));
    fs.StoreWin(p, WordBytes(val));
  }

  lemma Fat32Bytes(a: seq<byte>, c: nat, v: nat)
    requires EntryOffset(Fat32, c) + 4 <= |a| && v <= END_OF_CHAIN
    ensures EntryPatch(Fat32, a, c, v) == DwordBytes(v + LdDword(a, c * 4) / 0x1000_0000 * 0x1000_0000)
  {
    hide LdDword, DwordBytes;
    assert v % 0x1000_0000 == v;
  }

  method PutFat32(fs: FatFs, clst: nat, val: nat) returns (res: FResult)
    requires fs.Valid() && fs.geo.fsType == Fat32 && EntryOffset(Fat32, clst) + 4 <= fs.geo.fsize * 512 && val <= END_OF_CHAIN
    modifies fs`winsect, fs`wflag, fs.disk, fs.win
    ensures fs.Valid() && res == FrOk
    ensures EntryStored(fs.geo, old(fs.Img()), clst, val, fs.Img()) && InFat(fs.geo, fs.winsect) && fs.wflag
  {
    hide DataLayout, FatBytesNeeded, FatFs.Img, FatFs.Valid, FatFs.Clean, FatArea, Patch, EntryStored, DwordBytes,
         LdDword, FatPosition, EntryPatch;
    var k := clst * 4;
    var p;
    res, p := MoveToFatByte(fs, k);
    if res != FrOk { assert false; }
    AlignedEntry(fs.geo, k, fs.winsect, p, clst);
    WordsInFat(fs.geo, fs.Img(), k, fs.winsect, p);
    Fat32Bytes(FatArea(fs.geo, fs.Img()), clst, val);
    PositionBounds(fs.geo, k, fs.winsect, p);
    var b := DwordBytes(val + LdDword(fs.win[..], p) / 0x1000_0000 * 0x1000_0000);
    AlignedStore(fs.geo, fs.Img(), clst, val, fs.winsect, p, b);
    fs.StoreWin(p, b);
  }

  /** Stores the link of cluster `clst`: exactly that entry changes, and nothing outside the FAT. */
  method PutFat(fs: FatFs, clst: nat, val: nat) returns (res: FResult)
    requires fs.Valid() && val <= END_OF_CHAIN
    modifies fs`winsect, fs`wflag, fs.disk, fs.win
    ensures fs.Valid()
    ensures res == if InRange(fs.geo, clst) then FrOk else FrIntErr
    ensures Fat(fs) == if res == FrOk then old(Fat(fs))[clst := Width(fs.geo.fsType, val)] else old(Fat(fs))
    ensures SameOutsideFat(fs.geo, old(fs.Img()), fs.Img())
    ensures if res == FrOk then InFat(fs.geo, fs.winsect) && fs.wflag else fs.winsect == old(fs.winsect)
  {
    hide DataLayout, FatBytesNeeded, FatFs.Img, FatFs.Valid, FatFs.Clean, FatArea, InMirror, EntryPatch, EntryOffset, Patch;
    if clst < 2 || clst >= fs.geo.nFatent {
      return FrIntErr;
    }
    EntryInFat(fs.geo, fs.Img(), clst);
    ghost var img := fs.Img();
    match fs.geo.fsType {
      case Fat12 => res := PutFat12(fs, clst, val);
      case Fat16 => res := PutFat16(fs, clst, val);
      case Fat32 => res := PutFat32(fs, clst, val);
    }
    StoreEntry(fs.geo, img, clst, val, fs.Img());
  }
}
