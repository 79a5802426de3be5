/** Open files on a volume that changes: what a file object means for a given volume state, and when it keeps that meaning. */
module OpenFiles {
  import opened Sealed
  import opened Bytes
  import opened Geometry
  import opened Window
  import opened Allocation
  import opened FileData
  import opened FileObject
  import opened Directory
  import opened VolumeState

  /** A file object in order on the volume `v`, with the window over sector `ws`. */
  ghost predicate FilOk(f: Fil, v: Vol, ws: nat)
    reads f`sclust, f`fptr, f`fsize, f`clust, f`dsect, f`faDirty, f.buf
  {
    var ch := ChainAt(v.chains, f.sclust);
    && f.buf.Length == 512 && (f.sclust != 0 <==> f.sclust in v.chains)
    && v.g.csize > 0 && Fits(v.g, |v.img|, ch)
    && f.fptr <= f.fsize <= |Secs(v.g, ch)| * 512 && f.fsize <= 0xFFFF_FFFF
    && FileShape(v.g, ch, f.fptr, f.dsect, f.faDirty, ws)
    && (f.dsect != 0 && !f.faDirty ==> f.dsect < |v.img| && f.buf[..] == v.img[f.dsect])
    && ClustOk(v.g, ch, f.fptr, f.clust)
  }

  /** The volume with the file's buffered sector. */
  ghost function FilView(f: Fil, v: Vol): (r: seq<Sector>)
    reads f`dsect, f`faDirty, f.buf
    ensures |r| == |v.img|
  {
    if f.faDirty && f.dsect < |v.img| && f.buf.Length == 512 then v.img[f.dsect := f.buf[..]] else v.img
  }

  /** The contents of the open file. */
  ghost function FilBytes(f: Fil, v: Vol): seq<byte>
    reads f`sclust, f`fsize, f`dsect, f`faDirty, f.buf
  {
    var ch := ChainAt(v.chains, f.sclust);
    if Fits(v.g, |v.img|, ch) && f.fsize <= |Secs(v.g, ch)| * 512 then Flat(v.g, FilView(f, v), ch)[..f.fsize] else []
  }

  /** On the volume it belongs to, this is the file object's own validity and contents. */
  lemma FilOkIs(f: Fil, v: Vol)
    requires f.buf != f.fs.win && VolumeOk(f.fs) && v.g == f.fs.geo && v.img == f.fs.Img() && v.chains == f.fs.chains
    ensures FilOk(f, v, f.fs.winsect) <==> f.Valid()
    ensures f.Valid() ==> FilBytes(f, v) == f.Content() && FilView(f, v) == f.View()
  {
    hide FatFs.Valid, FatFs.Img, FatLayout, DataLayout, Secs, SectorCount, Fits, VolumeOk, FileShape, ClustOk, Flat;
    if f.Valid() { f.ValidMeans(); }
  }

  /** The window stayed, was dropped, or went to the FAT or into the area of head `h`. */
  ghost predicate WindowGoes(g: Geometry, chains: map<nat, seq<nat>>, h: nat, ws: nat, ws': nat) {
    ws' == ws || ws' == 0 || InFat(g, ws') || ws' in HeadSecs(g, chains, h)
  }

  /** A file object on another chain than the changed one keeps its meaning and its contents. */
  lemma FileStays(f: Fil, v: Vol, ws: nat, v': Vol, ws': nat, h: nat)
    requires FilOk(f, v, ws) && Based(v) && Based(v') && OnlyArea(v, v', h) && WindowGoes(v'.g, v'.chains, h, ws, ws')
    requires (f.sclust == 0 || f.sclust != h) && 0 !in v.chains && 0 !in v'.chains
    ensures FilOk(f, v', ws')
    ensures FilBytes(f, v') == FilBytes(f, v)
  {
    hide Based, OnlyArea, HeadSecs, Secs, SectorCount, Fits, FileShape, ClustOk, Flat, InFat;
    SameGeometry(v, v', h);
    var ch := ChainAt(v.chains, f.sclust);
    if f.sclust == 0 {
      NoSectors(v.g);
      ShapeFacts(v.g, [], f.fptr, f.dsect, f.faDirty, ws);
      WindowFree(v.g, f.fptr, f.dsect, f.faDirty, ws, ws');
    } else {
      AreaKept(v, v', h, f.sclust);
      HeadSecsIs(v.g, v.chains, f.sclust);
      HeadSecsIs(v.g, v'.chains, f.sclust);
      ShapeFacts(v.g, ch, f.fptr, f.dsect, f.faDirty, ws);
      WindowStaysOut(v', h, f.sclust, ws, ws');
      WindowAnywhere(v.g, ch, f.fptr, f.dsect, f.faDirty, ws, ws');
      forall s: nat | s < |v.img| && s in Secs(v.g, ch) ensures FilView(f, v')[s] == FilView(f, v)[s] { }
      FlatSame(v.g, FilView(f, v), FilView(f, v'), ch);
    }
  }

  lemma HeadSecsIs(g: Geometry, chains: map<nat, seq<nat>>, h: nat)
    requires h != 0
    ensures HeadSecs(g, chains, h) == Secs(g, ChainAt(chains, h))
  {
  }

  lemma WindowFree(g: Geometry, fptr: nat, dsect: nat, dirty: bool, ws: nat, ws': nat)
    requires FileShape(g, [], fptr, dsect, dirty, ws)
    ensures FileShape(g, [], fptr, dsect, dirty, ws')
  {
    NoSectors(g);
    WindowAnywhere(g, [], fptr, dsect, dirty, ws, ws');
  }

  lemma WindowAnywhere(g: Geometry, ch: seq<nat>, fptr: nat, dsect: nat, dirty: bool, ws: nat, ws': nat)
    requires FileShape(g, ch, fptr, dsect, dirty, ws) && ws' !in Secs(g, ch)
    ensures FileShape(g, ch, fptr, dsect, dirty, ws')
  {
    hide Secs, AllClusters, Distinct, PointerCached;
    assert Opened(0);
  }

  lemma WindowStaysOut(v: Vol, h: nat, k: nat, ws: nat, ws': nat)
    requires Based(v) && WindowGoes(v.g, v.chains, h, ws, ws') && k != h && ws !in HeadSecs(v.g, v.chains, k)
    ensures ws' !in HeadSecs(v.g, v.chains, k)
  {
    hide Based, HeadSecs, InFat;
    if ws' in HeadSecs(v.g, v.chains, k) {
      AreaSector(v, k, ws');
      AreasApart(v, k, h, ws');
    }
  }

  /** The buffer can only differ from the volume on the file's own sectors. */
  ghost predicate ViewOf(view: seq<Sector>, img: seq<Sector>, secs: seq<nat>) {
    |view| == |img| && forall s: nat {:trigger view[s]} :: s < |img| && s !in secs ==> view[s] == img[s]
  }

  lemma OwnView(f: Fil)
    requires f.Valid()
    ensures ViewOf(f.View(), f.fs.Img(), Secs(f.fs.geo, f.Chain()))
  {
    hide FatFs.Valid, FatFs.Img, FatLayout, DataLayout, Secs, SectorCount, Fits, VolumeOk, ClustOk, FileShape;
    ShapeFacts(f.fs.geo, f.Chain(), f.fptr, f.dsect, f.faDirty, f.fs.winsect);
  }

  /** A write or a seek changes no other area. */
  lemma FileArea(f: Fil, v: Vol, v': Vol, s0: nat, view: seq<Sector>)
    requires f.Valid() && v.g == f.fs.geo && v'.g == f.fs.geo && v'.img == f.fs.Img() && v'.chains == f.fs.chains
             && |v'.img| == |v.img|
    requires f.OnlyChain(v.chains, s0) && ViewOf(view, v.img, Secs(v.g, ChainAt(v.chains, s0))) && 0 !in v.chains
    requires TouchesOnly(v.g, view, f.View(), f.Chain())
    ensures OnlyArea(v, v', AreaOf(f.sclust))
    ensures f.sclust == s0 || (s0 == 0 && f.sclust !in v.chains)
  {
    hide FatFs.Valid, FatFs.Img, FatLayout, DataLayout, Secs, SectorCount, Fits, VolumeOk, ClustOk, FileShape, Fil.View,
         RootSecs, InFat, Fil.Valid;
    OwnView(f);
    FileHead(f);
    NoSectors(v.g);
    var h := AreaOf(f.sclust);
    HeadSecsIs(v.g, v.chains, h);
    HeadSecsIs(v.g, v'.chains, h);
    ViewStays(v, v', h, f.View(), view, f.Chain(), ChainAt(v.chains, s0));
  }

  lemma ViewStays(v: Vol, v': Vol, h: nat, view': seq<Sector>, view: seq<Sector>, ch': seq<nat>, ch: seq<nat>)
    requires TouchesOnly(v.g, view, view', ch') && ViewOf(view, v.img, Secs(v.g, ch))
             && ViewOf(view', v'.img, Secs(v.g, ch')) && |v'.img| == |v.img|
    requires forall s: nat {:trigger s in Secs(v.g, ch)} :: s in Secs(v.g, ch) ==> s in HeadSecs(v.g, v.chains, h)
    requires forall s: nat {:trigger s in Secs(v.g, ch')} :: s in Secs(v.g, ch') ==> s in HeadSecs(v.g, v'.chains, h)
    ensures forall s: nat {:trigger v'.img[s]} :: s < |v.img| && OutsideArea(v, v', h, s) ==> v'.img[s] == v.img[s]
  {
    hide Secs, HeadSecs, InFat;
    forall s: nat | s < |v.img| && OutsideArea(v, v', h, s) ensures v'.img[s] == v.img[s] {
      assert s !in Secs(v.g, ch) && s !in Secs(v.g, ch');
      assert v'.img[s] == view'[s] == view[s] == v.img[s];
    }
  }

  lemma FileHead(f: Fil)
    requires f.Valid()
    ensures f.sclust != 0 <==> f.sclust in f.fs.chains
    ensures f.Chain() == ChainAt(f.fs.chains, f.sclust)
  {
    hide FatFs.Valid, FatFs.Img, FatLayout, DataLayout, Secs, SectorCount, Fits, VolumeOk, ClustOk, FileShape;
  }
}
