/** The volume as an array of sectors, seen through a one-sector write-back window. */
module Window {
  import opened Bytes
  import opened Geometry
  import opened RamDisk

  datatype FResult = FrOk | FrDiskErr | FrIntErr | FrNoFile | FrNoPath | FrInvalidName | FrDenied | FrExist
    | FrInvalidObject | FrMkfsAborted | FrNoFilesystem | FrInvalidParameter

  /** Sector `s` belongs to the second FAT copy, which is never read back. */
  predicate InMirror(g: Geometry, s: nat) {
    g.nFats == 2 && g.fatbase + g.fsize <= s < g.fatbase + 2 * g.fsize
  }

  predicate InFat(g: Geometry, s: nat) {
    g.fatbase <= s < g.fatbase + g.fsize
  }

  /** The volume's contents: the disk overlaid with the window.  The mirror reads as zero, so that
      flushing the window leaves the image as it was.  Window sector 0 means "nothing cached". */
  function Image(g: Geometry, d: seq<Sector>, ws: nat, w: Sector): (m: seq<Sector>)
    ensures |m| == |d|
  {
    seq(|d|, s requires 0 <= s < |d| => if InMirror(g, s) then ZeroSector() else if s == ws != 0 then w else d[s])
  }

  /** The second FAT copy equals the first, except where the first is still in a dirty window. */
  ghost predicate MirrorAgrees(g: Geometry, d: seq<Sector>, dirty: bool, ws: nat)
    requires FatEnd(g) <= |d|
  {
    g.nFats == 2 ==>
      forall s: nat {:trigger InFat(g, s)} :: InFat(g, s) && !(dirty && s == ws) ==> d[s + g.fsize] == d[s]
  }

  /** The disk after a flush of sector `ws`: the sector itself, and its second FAT copy if it has one. */
  function Flushed(g: Geometry, d: seq<Sector>, ws: nat, w: Sector): (d': seq<Sector>)
    requires ws < |d| && FatEnd(g) <= |d|
    ensures |d'| == |d|
  {
    var d1 := d[ws := w];
    if g.nFats == 2 && InFat(g, ws) then d1[ws + g.fsize := w] else d1
  }

  /** A flush leaves the image alone and makes both FAT copies agree. */
  lemma FlushKeepsImage(g: Geometry, d: seq<Sector>, ws: nat, w: Sector)
    requires FatEnd(g) <= |d| && ws != 0 && ws < |d|
    requires !InMirror(g, ws) && MirrorAgrees(g, d, true, ws)
    ensures Image(g, Flushed(g, d, ws, w), ws, w) == Image(g, d, ws, w)
    ensures MirrorAgrees(g, Flushed(g, d, ws, w), false, ws)
    ensures Flushed(g, d, ws, w)[ws] == w
  {
  }

  /** A clean window shows what the disk holds, so it can be dropped or moved. */
  lemma CleanWindow(g: Geometry, d: seq<Sector>, ws: nat, w: Sector, w': Sector)
    requires ws != 0 && ws < |d| ==> w == d[ws]
    ensures Image(g, d, ws, w) == Image(g, d, 0, w')
  {
  }

  /** Outside the second FAT copy, the window shows its own sector of the image. */
  lemma WindowShowsImage(g: Geometry, d: seq<Sector>, ws: nat, w: Sector)
    requires ws != 0 && ws < |d| && !InMirror(g, ws)
    ensures Image(g, d, ws, w)[ws] == w
  {
  }

  /** Sectors `at` to `at + cnt` hold file data: no FAT copy, no reserved sector. */
  ghost predicate DataRange(g: Geometry, n: nat, at: nat, cnt: nat) {
    0 < at && g.fatbase <= at && at + cnt <= n && forall s: nat {:trigger InFat(g, s)} {:trigger InMirror(g, s)} ::
        at <= s < at + cnt ==> !InFat(g, s) && !InMirror(g, s)
  }

  /** A write of data sectors past the window shows in the image. */
  lemma WritePastWindow(g: Geometry, d: seq<Sector>, ws: nat, w: Sector, dirty: bool, at: nat, b: seq<Sector>)
    requires DataRange(g, |d|, at, |b|) && !(at <= ws < at + |b|) && FatEnd(g) <= |d|
    ensures Image(g, Overwrite(d, at, b), ws, w) == Overwrite(Image(g, d, ws, w), at, b)
    ensures MirrorAgrees(g, d, dirty, ws) ==> MirrorAgrees(g, Overwrite(d, at, b), dirty, ws)
  {
    var d' := Overwrite(d, at, b);
    forall s: nat | s < |d| ensures Image(g, d', ws, w)[s] == Overwrite(Image(g, d, ws, w), at, b)[s] {
      assert at <= s < at + |b| ==> !InMirror(g, s);
    }
    if MirrorAgrees(g, d, dirty, ws) && g.nFats == 2 {
      forall s: nat | InFat(g, s) && !(dirty && s == ws) ensures d'[s + g.fsize] == d'[s] {
        assert InMirror(g, s + g.fsize);
      }
    }
  }

  /** A read of data sectors past the window sees the image. */
  lemma ReadPastWindow(g: Geometry, d: seq<Sector>, ws: nat, w: Sector, at: nat, cnt: nat)
    requires DataRange(g, |d|, at, cnt) && !(at <= ws < at + cnt)
    ensures Image(g, d, ws, w)[at..at + cnt] == d[at..at + cnt]
  {
    forall s: nat | at <= s < at + cnt ensures Image(g, d, ws, w)[s] == d[s] {
      assert !InMirror(g, s);
    }
  }

  lemma CleanMirror(g: Geometry, d: seq<Sector>, ws: nat, ws': nat)
    requires FatEnd(g) <= |d| && MirrorAgrees(g, d, false, ws)
    ensures MirrorAgrees(g, d, false, ws')
  {
  }

  /** The file system object: the mount's geometry, the window, and the allocation hints. */
  class FatFs {
    const geo: Geometry
    const disk: array<Sector>
    const win: array<byte>
    var winsect: nat
    var wflag: bool
    var lastClust: nat
    var freeClust: nat
    var fsiFlag: bool

    /** The cluster chains of the volume, by head. */
    ghost var chains: map<nat, seq<nat>>

    /** An object as a mount leaves it: nothing cached. */
    constructor (geo: Geometry, disk: array<Sector>, lastClust: nat, freeClust: nat)
      ensures this.geo == geo && this.disk == disk && fresh(win) && win.Length == 512
      ensures winsect == 0 && !wflag && !fsiFlag && this.lastClust == lastClust && this.freeClust == freeClust && chains == map[]
    {
      this.geo, this.disk := geo, disk;
      win := new byte[512](_ => 0);
      winsect, wflag, fsiFlag, chains := 0, false, false, map[];
      this.lastClust, this.freeClust := lastClust, freeClust;
    }

    ghost predicate Valid()
      reads this`winsect, this`wflag, disk, win
      ensures Valid() ==> win.Length == 512 && disk.Length <= 0xFFFF_FFFF && geo.nFatent >= 3
      ensures Valid() ==> FatLayout(geo, disk.Length) && DataLayout(geo, disk.Length)
    {
      && win.Length == 512
      && FatLayout(geo, disk.Length) && DataLayout(geo, disk.Length)
      && winsect < disk.Length
      && !InMirror(geo, winsect)
      && (wflag ==> winsect != 0)
      && (winsect != 0 && !wflag ==> win[..] == disk[winsect])
      && MirrorAgrees(geo, disk[..], wflag, winsect)
    }

    ghost function Img(): (m: seq<Sector>)
      reads this`winsect, this`wflag, disk, win
      requires Valid()
      ensures |m| == disk.Length
    {
      Image(geo, disk[..], winsect, win[..])
    }

    /** Nothing waits to be written: neither the window nor, on FAT32, the FSInfo sector. */
    ghost predicate Clean()
      reads this`wflag, this`fsiFlag
    {
      !wflag && (geo.fsType == Fat32 ==> !fsiFlag)
    }

    /** Writes the window into every further FAT copy. */
    method ReflectToCopies(fatSector: nat)
      requires win.Length == 512 && 1 <= geo.nFats <= 2
      requires (fatSector + geo.fsize < disk.Length || geo.nFats == 1) && disk.Length <= 0xFFFF_FFFF
      modifies disk
      ensures disk[..] == if geo.nFats == 2 then old(disk[..])[fatSector + geo.fsize := win[..]] else old(disk[..])
    {
      var wsect, nf := fatSector, geo.nFats;
      while nf >= 2
        invariant 1 <= nf <= geo.nFats
        invariant nf == geo.nFats ==> wsect == fatSector && disk[..] == old(disk[..])
        invariant nf < geo.nFats ==> disk[..] == old(disk[..])[fatSector + geo.fsize := win[..]]
      {
        wsect := wsect + geo.fsize;
        var _ := DiskWrite(disk, [win[..]], wsect);
        nf := nf - 1;
      }
    }

    /** Writes a dirty window back, and into the second FAT copy when it is a FAT sector. */
    method SyncWindow() returns (res: FResult)
      requires Valid()
      modifies this`wflag, disk
      ensures Valid() && res == FrOk && !wflag
      ensures Img() == old(Img())
    {
      hide DataLayout, Image, MirrorAgrees, FatBytesNeeded, Overwrite;
      if wflag {
        FlushKeepsImage(geo, disk[..], winsect, win[..]);
        ghost var d := Flushed(geo, disk[..], winsect, win[..]);
        var r := DiskWrite(disk, [win[..]], winsect);
        if r != ResOk { assert false; }
        wflag := false;
        if geo.fatbase <= winsect < geo.fatbase + geo.fsize {
          ReflectToCopies(winsect);
        }
        assert disk[..] == d;
      }
      return FrOk;
    }

    /** Replaces a clean window by `sector`. */
    method LoadWindow(sector: nat) returns (res: FResult)
      requires Valid() && !wflag
      requires sector != 0 && sector < disk.Length && !InMirror(geo, sector)
      modifies this`winsect, win
      ensures Valid() && res == FrOk && winsect == sector
      ensures Img() == old(Img())
    {
      hide DataLayout, FatBytesNeeded, MirrorAgrees, Image, InMirror;
      ghost var d := disk[..];
      var r, data := DiskRead(disk, sector, 1);
      if r != ResOk { assert false; }
      CleanMirror(geo, disk[..], winsect, sector);
      CleanWindow(geo, disk[..], winsect, win[..], data[0]);
      CleanWindow(geo, disk[..], sector, data[0], data[0]);
      forall i | 0 <= i < 512 {
        win[i] := data[0][i];
      }
      assert win[..] == data[0] && disk[..] == d;
      winsect := sector;
      assert d[sector] == data[0];
      return FrOk;
    }

    /** Brings `sector` into the window. */
    method MoveWindow(sector: nat) returns (res: FResult)
      requires Valid()
      requires sector != 0 && sector < disk.Length && !InMirror(geo, sector)
      modifies this`winsect, this`wflag, disk, win
      ensures Valid() && res == FrOk && winsect == sector
      ensures Img() == old(Img()) && (old(Clean()) ==> Clean())
      ensures win[..] == Img()[sector]
    {
      hide DataLayout, FatLayout, MirrorAgrees, Image, InMirror;
      if sector != winsect {
        res := SyncWindow();
        if res != FrOk { assert false; }
        res := LoadWindow(sector);
      }
      WindowShowsImage(geo, disk[..], winsect, win[..]);
      return FrOk;
    }

    /** Stores `b` at offset `at` of the window and marks it dirty. */
    method StoreWin(at: nat, b: seq<byte>)
      requires Valid() && winsect != 0 && at + |b| <= 512
      modifies this`wflag, win
      ensures Valid() && wflag
      ensures win[..] == Patch(old(win[..]), at, b)
      ensures winsect < |old(Img())| && Img() == old(Img())[winsect := Patch(old(Img())[winsect], at, b)]
    {
      hide DataLayout, FatBytesNeeded, Patch;
      PatchBytes(win[..], at, b);
      forall i | 0 <= i < |b| {
        win[at + i] := b[i];
      }
      assert win[..] == Patch(old(win[..]), at, b);
      wflag := true;
    }

    /** Transfers data sectors directly, past the window. */
    method ReadData(sect: nat, cnt: nat) returns (res: DResult, data: seq<Sector>)
      requires Valid() && DataRange(geo, disk.Length, sect, cnt) && !(sect <= winsect < sect + cnt)
      ensures res == ResOk && data == Img()[sect..sect + cnt]
    {
      hide DataLayout, FatLayout, MirrorAgrees, Image, InMirror, InFat;
      ReadPastWindow(geo, disk[..], winsect, win[..], sect, cnt);
      DataInside(geo, disk.Length, sect, cnt);
      res, data := DiskRead(disk, sect, cnt);
      assert data == disk[..][sect..sect + cnt];
    }

    method WriteData(buff: seq<Sector>, sect: nat) returns (res: DResult)
      requires Valid() && DataRange(geo, disk.Length, sect, |buff|) && !(sect <= winsect < sect + |buff|)
      modifies disk
      ensures Valid() && res == ResOk
      ensures Img() == Overwrite(old(Img()), sect, buff)
    {
      hide DataLayout, FatBytesNeeded, MirrorAgrees, Image, InMirror, InFat, DataRange;
      WritePastWindow(geo, disk[..], winsect, win[..], wflag, sect, buff);
      DataInside(geo, disk.Length, sect, |buff|);
      res := DiskWrite(disk, buff, sect);
      assert disk[..][winsect] == old(disk[..])[winsect];
    }
  }

  lemma DataInside(g: Geometry, n: nat, at: nat, cnt: nat)
    requires DataRange(g, n, at, cnt)
    ensures at + cnt <= n
  {
  }
}
